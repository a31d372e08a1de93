/**
 Inherited types and virtual tables, filled by a breadth-first search that marks
 a type visited when it leaves the queue, not when it enters. A type reached in
 several ways is queued, and processed, several times.
 */
module Hierarchy {
  import opened Collections
  import opened Wrappers

  /** The direct facts collected from the module. */
  datatype Direct<T(!new, ==), D(!new, ==), F> = Direct(
    debugToType: map<D, T>,
    supers: map<D, set<D>>,
    virtuals: map<T, seq<Option<F>>>
  ) {
    function Supers(d: D): set<D> {
      if d in supers then supers[d] else {}
    }

    /** The virtual methods that the type of `d` itself defines, by slot. */
    function Slots(d: D): seq<Option<F>> {
      if d in debugToType && debugToType[d] in virtuals then virtuals[debugToType[d]] else []
    }

    /** The type of `d` is known and has `f` in virtual slot `i`. */
    ghost predicate Defines(d: D, i: nat, f: F) {
      && d in debugToType && debugToType[d] in virtuals
      && i < |virtuals[debugToType[d]]| && virtuals[debugToType[d]][i] == Some(f)
    }

    ghost predicate HasSlot(d: D, i: nat) {
      && d in debugToType && debugToType[d] in virtuals
      && i < |virtuals[debugToType[d]]| && virtuals[debugToType[d]][i].Some?
    }

    /** `d` is `k` inheritance steps above `start`. */
    ghost predicate Above(start: D, d: D, k: nat) {
      if k == 0 then d == start else exists e :: Above(start, e, k - 1) && e in supers && d in supers[e]
    }

    lemma SlotsDefine(d: D, i: nat)
      ensures HasSlot(d, i) <==> i < |Slots(d)| && Slots(d)[i].Some?
      ensures forall f :: Defines(d, i, f) <==> i < |Slots(d)| && Slots(d)[i] == Some(f)
      ensures HasSlot(d, i) ==> Defines(d, i, virtuals[debugToType[d]][i].value)
    {
    }

    ghost predicate Reachable(start: D, d: D) {
      exists k: nat :: Above(start, d, k)
    }

    ghost function Universe(start: D): set<D> {
      {start} + supers.Keys + set d, e | d in supers && e in supers[d] :: e
    }
  }

  // ---- the results, stated without the search ----

  ghost predicate IsSupertypes<T(!new), D(!new), F>(
      h: Direct<T, D, F>, start: D, types: set<T>)
  {
    forall t :: t in types <==>
      exists d :: d != start && d in h.debugToType && h.debugToType[d] == t && h.Reachable(start, d)
  }

  /** Slot `i` comes from a nearest type above `start` that defines it. */
  ghost predicate IsNearest<T(!new), D(!new), F>(
      h: Direct<T, D, F>, start: D, i: nat, f: F)
  {
    exists d, k: nat ::
      && h.Above(start, d, k)
      && h.Defines(d, i, f)
      && (forall e, j: nat :: h.Above(start, e, j) && h.HasSlot(e, i) ==> k <= j)
  }

  ghost predicate IsVTable<T(!new), D(!new), F>(
      h: Direct<T, D, F>, start: D, table: seq<Option<F>>)
  {
    forall i: nat ::
      if i < |table| && table[i].Some? then IsNearest(h, start, i, table[i].value)
      else forall e :: h.Reachable(start, e) ==> !h.HasSlot(e, i)
  }

  // ---- the search ----

  /** Queue entries with the number of steps that led to them, and the level at
      which each visited type was first taken out. */
  datatype Search<D(==)> = Search(queue: seq<D>, levels: seq<nat>, first: map<D, nat>)

  ghost predicate Waiting<D(!new)>(s: Search<D>, d: D, k: nat) {
    exists i :: 0 <= i < |s.queue| && i < |s.levels| && s.queue[i] == d && s.levels[i] <= k
  }

  ghost predicate Covered<D(!new)>(s: Search<D>, d: D, k: nat) {
    (d in s.first && s.first[d] <= k) || Waiting(s, d, k)
  }

  ghost predicate Sorted(levels: seq<nat>) {
    forall i, j :: 0 <= i < j < |levels| ==> levels[i] <= levels[j] <= levels[i] + 1
  }

  ghost predicate SearchInv<T(!new), D(!new), F>(h: Direct<T, D, F>, start: D, s: Search<D>) {
    && |s.levels| == |s.queue| && Sorted(s.levels)
    && (forall i :: 0 <= i < |s.queue| ==> h.Above(start, s.queue[i], s.levels[i]))
    && (forall v :: v in s.first ==> h.Above(start, v, s.first[v]))
    && (forall v, i :: v in s.first && 0 <= i < |s.levels| ==> s.first[v] <= s.levels[i])
    && (forall v, w :: v in s.first && w in h.Supers(v) ==> Covered(s, w, s.first[v] + 1))
    && Covered(s, start, 0)
    && (s.queue != [] ==> start in s.first || s.queue[0] == start)
    && (forall i :: 0 < i < |s.queue| ==> s.queue[i] != start)
    && (start in s.first && s.queue != [] ==> s.queue[0] != start)
  }

  /** Whatever is `k` steps away was taken out by level `k`, or the queue still
      holds an entry of level at most `k`. */
  lemma {:induction false} NothingIsSkipped<T(!new), D(!new), F>(
      h: Direct<T, D, F>, start: D, s: Search<D>, d: D, k: nat)
    requires SearchInv(h, start, s) && h.Above(start, d, k)
    ensures (d in s.first && s.first[d] <= k) || (s.queue != [] && s.levels[0] <= k)
  {
    if k == 0 {
      assert Covered(s, start, 0);
    } else {
      var e :| h.Above(start, e, k - 1) && e in h.supers && d in h.supers[e];
      NothingIsSkipped(h, start, s, e, k - 1);
      if e in s.first && s.first[e] <= k - 1 {
        assert d in h.Supers(e) && Covered(s, d, s.first[e] + 1);
        if !(d in s.first && s.first[d] <= s.first[e] + 1) {
          var i :| 0 <= i < |s.queue| && s.queue[i] == d && s.levels[i] <= s.first[e] + 1;
          assert i == 0 || s.levels[0] <= s.levels[i];
        }
      }
    }
  }

  /** Taking the head out and queueing `news`, the supertypes not yet visited. */
  ghost function Advance<D(!new)>(s: Search<D>, news: seq<D>): Search<D>
    requires s.queue != [] && |s.levels| == |s.queue|
  {
    var l := s.levels[0];
    Search(s.queue[1..] + news,
           s.levels[1..] + seq(|news|, i => l + 1),
           if s.queue[0] in s.first then s.first else s.first[s.queue[0] := l])
  }

  /** `news` lists, once each, the supertypes of the head that are not visited. */
  ghost predicate IsNews<T(!new), D(!new), F>(
      h: Direct<T, D, F>, s: Search<D>, news: seq<D>)
    requires s.queue != []
  {
    forall w :: w in news <==> w in h.Supers(s.queue[0]) && w !in s.first && w != s.queue[0]
  }

  lemma AdvanceCovers<T(!new), D(!new), F>(
      h: Direct<T, D, F>, start: D, s: Search<D>, news: seq<D>, d: D, k: nat)
    requires SearchInv(h, start, s) && s.queue != [] && Covered(s, d, k)
    ensures Covered(Advance(s, news), d, k)
  {
    var r := Advance(s, news);
    if d in s.first && s.first[d] <= k {
      assert r.first[d] == s.first[d];
    } else {
      var i :| 0 <= i < |s.queue| && s.queue[i] == d && s.levels[i] <= k;
      if i == 0 {
        assert d in r.first && r.first[d] <= s.levels[0];
      } else {
        assert r.queue[i - 1] == d && r.levels[i - 1] == s.levels[i];
      }
    }
  }

  lemma AdvanceCoversNews<T(!new), D(!new), F>(
      h: Direct<T, D, F>, start: D, s: Search<D>, news: seq<D>, w: D)
    requires SearchInv(h, start, s) && s.queue != [] && IsNews(h, s, news)
    requires w in h.Supers(s.queue[0])
    ensures Covered(Advance(s, news), w, s.levels[0] + 1)
  {
    var r := Advance(s, news);
    if w in news {
      var i :| 0 <= i < |news| && news[i] == w;
      var n := |s.queue| - 1;
      assert r.queue[n + i] == w && r.levels[n + i] == s.levels[0] + 1;
    } else {
      assert w in r.first && r.first[w] <= s.levels[0];
    }
  }

  lemma AdvanceShape<T(!new), D(!new), F>(
      h: Direct<T, D, F>, start: D, s: Search<D>, news: seq<D>)
    requires SearchInv(h, start, s) && s.queue != [] && IsNews(h, s, news)
    ensures var r := Advance(s, news);
            && |r.levels| == |r.queue| && Sorted(r.levels)
            && (forall i :: 0 <= i < |r.queue| ==> h.Above(start, r.queue[i], r.levels[i]))
            && (forall v :: v in r.first ==> h.Above(start, v, r.first[v]))
            && (forall v, i :: v in r.first && 0 <= i < |r.levels| ==> r.first[v] <= r.levels[i])
  {
    var r := Advance(s, news);
    var n := |s.queue| - 1;
    forall i | 0 <= i < |r.queue|
      ensures h.Above(start, r.queue[i], r.levels[i]) && s.levels[0] <= r.levels[i] <= s.levels[0] + 1
      ensures i < n ==> r.levels[i] == s.levels[i + 1]
      ensures n <= i ==> r.levels[i] == s.levels[0] + 1
    {
      if i < n {
        assert r.queue[i] == s.queue[i + 1];
      } else {
        assert r.queue[i] in news;
        assert h.Above(start, s.queue[0], s.levels[0]);
      }
    }
  }

  /** Every turn of the loop keeps the search on its way. */
  lemma AdvanceKeeps<T(!new), D(!new), F>(
      h: Direct<T, D, F>, start: D, s: Search<D>, news: seq<D>)
    requires SearchInv(h, start, s) && s.queue != [] && IsNews(h, s, news)
    ensures SearchInv(h, start, Advance(s, news))
  {
    var r := Advance(s, news);
    AdvanceShape(h, start, s, news);
    AdvanceCovers(h, start, s, news, start, 0);
    forall v, w | v in r.first && w in h.Supers(v)
      ensures Covered(r, w, r.first[v] + 1)
    {
      if v in s.first {
        AdvanceCovers(h, start, s, news, w, s.first[v] + 1);
      } else {
        AdvanceCoversNews(h, start, s, news, w);
      }
    }
    forall i | 0 <= i < |r.queue|
      ensures r.queue[i] != start
    {
      if i < |s.queue| - 1 {
        assert r.queue[i] == s.queue[i + 1];
      } else {
        assert r.queue[i] in news;
      }
    }
  }

  // ---- what has been collected so far ----

  ghost predicate Seen<D(!new)>(s: Search<D>, d: D) {
    d in s.first || d in s.queue
  }

  /** The known types seen, other than the start. */
  ghost predicate TypesSeen<T(!new), D(!new), F>(
      h: Direct<T, D, F>, start: D, s: Search<D>, types: set<T>)
  {
    forall t :: t in types <==>
      exists d :: d != start && d in h.debugToType && h.debugToType[d] == t && Seen(s, d)
  }

  /** Slot `i` is taken from a visited type of least level that defines it. */
  ghost predicate SlotSoFar<T(!new), D(!new), F>(
      h: Direct<T, D, F>, s: Search<D>, table: seq<Option<F>>, i: nat)
  {
    if i < |table| && table[i].Some? then
      exists d ::
        && d in s.first && h.Defines(d, i, table[i].value)
        && (forall e :: e in s.first && h.HasSlot(e, i) ==> s.first[d] <= s.first[e])
    else forall e :: e in s.first ==> !h.HasSlot(e, i)
  }

  ghost predicate TableSoFar<T(!new), D(!new), F>(
      h: Direct<T, D, F>, s: Search<D>, table: seq<Option<F>>)
  {
    forall i: nat :: SlotSoFar(h, s, table, i)
  }

  /** First come, first served. */
  function Fill<F>(table: seq<Option<F>>, slots: seq<Option<F>>): (r: seq<Option<F>>)
    ensures |r| == if |table| < |slots| then |slots| else |table|
    ensures forall i :: 0 <= i < |r| ==>
      r[i] == if i < |table| && table[i].Some? then table[i]
              else if i < |slots| then slots[i] else None
  {
    seq(if |table| < |slots| then |slots| else |table|,
        i requires 0 <= i =>
          if i < |table| && table[i].Some? then table[i] else if i < |slots| then slots[i] else None)
  }

  lemma TableAdvances<T(!new), D(!new), F>(
      h: Direct<T, D, F>, start: D, s: Search<D>, news: seq<D>, table: seq<Option<F>>)
    requires SearchInv(h, start, s) && s.queue != [] && TableSoFar(h, s, table)
    ensures TableSoFar(h, Advance(s, news), Fill(table, h.Slots(s.queue[0])))
  {
    var c, l := s.queue[0], s.levels[0];
    var r := Advance(s, news);
    var table' := Fill(table, h.Slots(c));
    forall i: nat
      ensures SlotSoFar(h, r, table', i)
    {
      assert SlotSoFar(h, s, table, i);
      h.SlotsDefine(c, i);
      if i < |table| && table[i].Some? {
        var d :| d in s.first && h.Defines(d, i, table[i].value)
              && (forall e :: e in s.first && h.HasSlot(e, i) ==> s.first[d] <= s.first[e]);
        assert s.first[d] <= l;
        assert d in r.first && r.first[d] == s.first[d];
      } else if h.HasSlot(c, i) {
        assert c in r.first && c !in s.first;
      }
    }
  }

  lemma TypesAdvance<T(!new), D(!new), F>(
      h: Direct<T, D, F>, start: D, s: Search<D>, news: seq<D>, types: set<T>, types': set<T>)
    requires SearchInv(h, start, s) && s.queue != [] && IsNews(h, s, news)
    requires TypesSeen(h, start, s, types)
    requires forall t :: t in types' <==>
               t in types || exists w :: w in news && w in h.debugToType && h.debugToType[w] == t
    ensures TypesSeen(h, start, Advance(s, news), types')
  {
    var r := Advance(s, news);
    assert s.queue == [s.queue[0]] + s.queue[1..];
    forall d
      ensures Seen(r, d) <==> Seen(s, d) || d in news
    {
    }
    forall w | w in news
      ensures w != start
    {
      assert start in s.first || s.queue[0] == start;
    }
  }

  /** At an empty queue the collected types and slots are the ones specified. */
  lemma SearchIsComplete<T(!new), D(!new), F>(
      h: Direct<T, D, F>, start: D, s: Search<D>, types: set<T>, table: seq<Option<F>>)
    requires SearchInv(h, start, s) && s.queue == []
    requires TypesSeen(h, start, s, types) && TableSoFar(h, s, table)
    ensures IsSupertypes(h, start, types) && IsVTable(h, start, table)
  {
    forall d
      ensures h.Reachable(start, d) <==> d in s.first
    {
      if k: nat :| h.Above(start, d, k) {
        NothingIsSkipped(h, start, s, d, k);
      }
    }
    forall i: nat
      ensures if i < |table| && table[i].Some? then IsNearest(h, start, i, table[i].value)
              else forall e :: h.Reachable(start, e) ==> !h.HasSlot(e, i)
    {
      assert SlotSoFar(h, s, table, i);
      if i < |table| && table[i].Some? {
        var d :| d in s.first && h.Defines(d, i, table[i].value)
              && (forall e :: e in s.first && h.HasSlot(e, i) ==> s.first[d] <= s.first[e]);
        forall e, j: nat | h.Above(start, e, j) && h.HasSlot(e, i)
          ensures s.first[d] <= j
        {
          NothingIsSkipped(h, start, s, e, j);
        }
      }
    }
  }

  // ---- termination ----

  /** How many queue entries are visited already. */
  ghost function Stale<D(!new)>(queue: seq<D>, visited: set<D>): nat {
    if queue == [] then 0 else (if queue[0] in visited then 1 else 0) + Stale(queue[1..], visited)
  }

  lemma {:induction false} StaleAppend<D(!new)>(queue: seq<D>, news: seq<D>, visited: set<D>)
    requires forall w :: w in news ==> w !in visited
    ensures Stale(queue + news, visited) == Stale(queue, visited)
  {
    if queue != [] {
      assert (queue + news)[1..] == queue[1..] + news;
      StaleAppend(queue[1..], news, visited);
    } else {
      assert queue + news == news;
      StaleNews(news, visited);
    }
  }

  lemma {:induction false} StaleNews<D(!new)>(news: seq<D>, visited: set<D>)
    requires forall w :: w in news ==> w !in visited
    ensures Stale(news, visited) == 0
  {
    if news != [] {
      assert news[0] in news;
      StaleNews(news[1..], visited);
    }
  }

  /** A turn visits a new type, or leaves one stale entry fewer. */
  lemma TurnDescends<T(!new), D(!new), F>(
      h: Direct<T, D, F>, start: D, s: Search<D>, news: seq<D>)
    requires SearchInv(h, start, s) && s.queue != [] && IsNews(h, s, news)
    ensures var r := Advance(s, news);
            var todo, todo' := h.Universe(start) - s.first.Keys, h.Universe(start) - r.first.Keys;
            todo' < todo || (todo' == todo && Stale(r.queue, r.first.Keys) < Stale(s.queue, s.first.Keys))
  {
    var c := s.queue[0];
    var r := Advance(s, news);
    AboveStaysInside(h, start, c, s.levels[0]);
    StaleAppend(s.queue[1..], news, r.first.Keys);
    if c !in s.first {
      assert c in h.Universe(start) - s.first.Keys && c !in h.Universe(start) - r.first.Keys;
    }
  }

  /** All that one turn of the loop preserves. */
  ghost predicate OnTheWay<T(!new), D(!new), F>(
      h: Direct<T, D, F>, start: D, s: Search<D>, types: set<T>, table: seq<Option<F>>)
  {
    SearchInv(h, start, s) && TypesSeen(h, start, s, types) && TableSoFar(h, s, table)
  }

  lemma TurnKeeps<T(!new), D(!new), F>(
      h: Direct<T, D, F>, start: D, s: Search<D>, news: seq<D>,
      types: set<T>, types': set<T>, table: seq<Option<F>>)
    requires OnTheWay(h, start, s, types, table) && s.queue != [] && IsNews(h, s, news)
    requires forall t :: t in types' <==>
               t in types || exists w :: w in news && w in h.debugToType && h.debugToType[w] == t
    ensures OnTheWay(h, start, Advance(s, news), types', Fill(table, h.Slots(s.queue[0])))
  {
    TypesAdvance(h, start, s, news, types, types');
    TableAdvances(h, start, s, news, table);
    AdvanceKeeps(h, start, s, news);
  }

  lemma StartIsOnTheWay<T(!new), D(!new), F>(h: Direct<T, D, F>, start: D)
    ensures OnTheWay(h, start, Search([start], [0], map[]), {}, [])
  {
    var s := Search([start], [0], map[]);
    assert s.queue[0] == start && s.levels[0] == 0;
  }

  lemma {:induction false} AboveStaysInside<T(!new), D(!new), F>(
      h: Direct<T, D, F>, start: D, d: D, k: nat)
    requires h.Above(start, d, k)
    ensures d in h.Universe(start)
  {
    if k > 0 {
      var e :| h.Above(start, e, k - 1) && e in h.supers && d in h.supers[e];
      assert e in h.supers && d in h.supers[e];
    }
  }

  // ---- the class ----

  class ClassQuery<T(!new, ==), D(!new, ==), F> {
    const h: Direct<T, D, F>
    const typeToDebug: map<T, D>
    var supertypes: map<T, set<T>>
    var vtables: map<T, seq<Option<F>>>

    constructor (direct: Direct<T, D, F>, debug: map<T, D>)
      ensures h == direct && typeToDebug == debug && supertypes == map[] && vtables == map[]
    {
      h, typeToDebug, supertypes, vtables := direct, debug, map[], map[];
    }

    /** The inner loop over DirectSupertypes, in the set's own order. */
    method Expand(c: D, visited: set<D>, queue: seq<D>, types: set<T>)
        returns (queue': seq<D>, types': set<T>, ghost news: seq<D>)
      ensures queue' == queue + news && NoDup(news)
      ensures forall w :: w in news <==> c in h.supers && w in h.supers[c] && w !in visited
      ensures forall t :: t in types' <==>
        t in types || exists w :: w in news && w in h.debugToType && h.debugToType[w] == t
    {
      queue', types', news := queue, types, [];
      var left := h.Supers(c);
      while left != {}
        invariant left <= h.Supers(c) && queue' == queue + news && NoDup(news)
        invariant forall w :: w in news <==> w in h.Supers(c) && w !in left && w !in visited
        invariant forall t :: t in types' <==>
          t in types || exists w :: w in news && w in h.debugToType && h.debugToType[w] == t
      {
        var w :| w in left;
        left := left - {w};
        if w !in visited {
          if w in h.debugToType {
            types' := types' + {h.debugToType[w]};
          }
          queue' := queue' + [w];
          ghost var before := news;
          news := news + [w];
          assert forall x :: x in news <==> x in before || x == w;
        }
      }
    }

    /** The inner loop over DirectVirtualMethods, resizing as it goes. */
    method FillSlots(c: D, table: seq<Option<F>>) returns (r: seq<Option<F>>)
      ensures r == Fill(table, h.Slots(c))
    {
      r := table;
      var slots := h.Slots(c);
      for i := 0 to |slots|
        invariant |r| == if |table| < i then i else |table|
        invariant forall j :: 0 <= j < |r| ==>
          r[j] == if j < |table| && table[j].Some? then table[j]
                  else if j < i then slots[j] else None
      {
        if |r| < i + 1 {
          r := r + [None];
        }
        if slots[i].Some? && r[i].None? {
          r := r[i := slots[i]];
        }
      }
    }

    /** The search itself. */
    method CloseOver(start: D) returns (types: set<T>, table: seq<Option<F>>)
      ensures IsSupertypes(h, start, types) && IsVTable(h, start, table)
    {
      var visited: set<D> := {};
      var queue := [start];
      types, table := {}, [];
      ghost var s := Search([start], [0], map[]);
      StartIsOnTheWay(h, start);
      while queue != []
        invariant s.queue == queue && s.first.Keys == visited
        invariant OnTheWay(h, start, s, types, table)
        decreases h.Universe(start) - visited, Stale(queue, visited)
      {
        var c := queue[0];
        queue := queue[1..];
        visited := visited + {c};
        ghost var before, news := types, [];
        queue, types, news := Expand(c, visited, queue, types);
        TurnKeeps(h, start, s, news, before, types, table);
        TurnDescends(h, start, s, news);
        ghost var todo, stale := h.Universe(start) - s.first.Keys, Stale(s.queue, s.first.Keys);
        if c in h.debugToType {
          table := FillSlots(c, table);
        } else {
          assert Fill(table, h.Slots(c)) == table;
        }
        s := Advance(s, news);
        assert visited == s.first.Keys && queue == s.queue;
        assert h.Universe(start) - visited < todo
            || (h.Universe(start) - visited == todo && Stale(queue, visited) < stale);
      }
      SearchIsComplete(h, start, s, types, table);
    }

    method PopulateNonDirect(t: T)
      requires t in typeToDebug && t !in supertypes && t !in vtables
      modifies this`supertypes, this`vtables
      ensures t in supertypes && supertypes == old(supertypes)[t := supertypes[t]]
      ensures t in vtables && vtables == old(vtables)[t := vtables[t]]
      ensures IsSupertypes(h, typeToDebug[t], supertypes[t])
      ensures IsVTable(h, typeToDebug[t], vtables[t])
    {
      var types, table := CloseOver(typeToDebug[t]);
      supertypes := supertypes[t := types];
      vtables := vtables[t := table];
    }

    /** The loop of runOnModule that closes every type with a method. */
    method PopulateAll(types: set<T>)
      requires types <= typeToDebug.Keys && supertypes == map[] && vtables == map[]
      modifies this`supertypes, this`vtables
      ensures supertypes.Keys == types && vtables.Keys == types
      ensures forall t :: t in types ==>
        && IsSupertypes(h, typeToDebug[t], supertypes[t])
        && IsVTable(h, typeToDebug[t], vtables[t])
    {
      var left := types;
      while left != {}
        invariant left <= types
        invariant supertypes.Keys == types - left && vtables.Keys == types - left
        invariant forall t :: t in types - left ==>
          && IsSupertypes(h, typeToDebug[t], supertypes[t])
          && IsVTable(h, typeToDebug[t], vtables[t])
      {
        var t :| t in left;
        PopulateNonDirect(t);
        left := left - {t};
      }
    }
  }
}
