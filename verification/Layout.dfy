/**
 Where one struct sits inside another: isSupertype, getSupertypeIndices, and the
 choice of the receiver struct of a class.

 LLVM struct types contain each other by value without cycles and are compared
 by identity; here a struct is its name with its element types.
 */
module Layout {
  import opened Wrappers

  datatype Type = Struct(name: string, elems: seq<Type>) | Other(id: nat)

  // ---- base types ----

  predicate EndsWith(s: string, suffix: string) {
    |suffix| <= |s| && s[|s| - |suffix|..] == suffix
  }

  /** StringRef::rsplit('.'): around the last dot, or everything and nothing. */
  function RSplit(s: string): (r: (string, string))
    ensures '.' !in r.1
    ensures (r == (s, "") && '.' !in s) || s == r.0 + "." + r.1
    decreases |s|
  {
    if s == "" then ("", "")
    else
      var n := |s| - 1;
      if s[n] == '.' then (s[..n], "")
      else
        var (a, b) := RSplit(s[..n]);
        if |a| == n then (s, "") else (a, b + [s[n]])
  }

  /** StringRef::getAsInteger with radix 10 and an unbounded result. */
  predicate IsNumber(s: string) {
    s != "" && forall i :: 0 <= i < |s| ==> '0' <= s[i] <= '9'
  }

  predicate IsBaseName(name: string) {
    if name == "class.base" || name == "struct.base" then false
    else if EndsWith(name, ".base") then true
    else
      var first := RSplit(name);
      IsNumber(first.1) && RSplit(first.0).1 == "base"
  }

  ghost predicate AreDigits(s: string) {
    s != "" && forall i :: 0 <= i < |s| ==> s[i] in "0123456789"
  }

  /** The names of base types: a stem with `.base` behind it, and perhaps a number
      behind that, but for two names. */
  ghost predicate NamesBase(name: string) {
    && name != "class.base" && name != "struct.base"
    && ((exists stem: string :: name == stem + ".base")
        || exists stem: string, digits: string :: AreDigits(digits) && name == stem + ".base." + digits)
  }

  /** There is one way to split around the last dot. */
  lemma {:induction false} RSplitIs(s: string, a: string, b: string)
    requires s == a + "." + b && '.' !in b
    ensures RSplit(s) == (a, b)
    decreases |s|
  {
    var n := |s| - 1;
    if b == "" {
      assert s[..n] == a;
    } else {
      assert s[n] == b[|b| - 1] && s[..n] == a + "." + b[..|b| - 1];
      RSplitIs(s[..n], a, b[..|b| - 1]);
      assert b == b[..|b| - 1] + [s[n]];
    }
  }

  lemma SuffixIsStem(name: string)
    ensures EndsWith(name, ".base") <==> exists stem: string :: name == stem + ".base"
  {
    if EndsWith(name, ".base") {
      assert name == name[..|name| - |".base"|] + ".base";
    }
  }

  lemma NumbersAreDigits(s: string)
    ensures IsNumber(s) <==> AreDigits(s)
    ensures AreDigits(s) ==> '.' !in s
  {
    assert forall c: char :: c in "0123456789" <==> '0' <= c <= '9';
  }

  lemma NumberedSplits(name: string, stem: string, digits: string)
    requires AreDigits(digits) && name == stem + ".base." + digits
    ensures RSplit(name) == (stem + ".base", digits) && RSplit(stem + ".base") == (stem, "base")
  {
    NumbersAreDigits(digits);
    assert name == (stem + ".base") + "." + digits;
    RSplitIs(name, stem + ".base", digits);
    assert stem + ".base" == stem + "." + "base";
    RSplitIs(stem + ".base", stem, "base");
  }

  lemma SplitsAreNumbered(name: string)
    requires IsNumber(RSplit(name).1) && RSplit(RSplit(name).0).1 == "base"
    ensures AreDigits(RSplit(name).1) && name == RSplit(RSplit(name).0).0 + ".base." + RSplit(name).1
  {
    NumbersAreDigits(RSplit(name).1);
    var stem := RSplit(RSplit(name).0).0;
    assert RSplit(name).0 == stem + "." + "base" && stem + "." + "base" == stem + ".base";
    assert name == (stem + ".base") + "." + RSplit(name).1;
  }

  lemma NumberedIsStem(name: string)
    ensures IsNumber(RSplit(name).1) && RSplit(RSplit(name).0).1 == "base"
            <==> exists stem: string, digits: string :: AreDigits(digits) && name == stem + ".base." + digits
  {
    if IsNumber(RSplit(name).1) && RSplit(RSplit(name).0).1 == "base" {
      SplitsAreNumbered(name);
    }
    if stem: string, digits: string :| AreDigits(digits) && name == stem + ".base." + digits {
      NumberedSplits(name, stem, digits);
      NumbersAreDigits(digits);
    }
  }

  /** isBaseType goes by those names. */
  lemma BaseNames(name: string)
    ensures IsBaseName(name) <==> NamesBase(name)
  {
    SuffixIsStem(name);
    NumberedIsStem(name);
  }

  // ---- index paths ----

  function TypeAt(t: Type, path: seq<nat>): Option<Type> {
    if path == [] then Some(t)
    else if t.Struct? && path[0] < |t.elems| then TypeAt(t.elems[path[0]], path[1..])
    else None
  }

  lemma {:induction false} TypeAtAppend(t: Type, path: seq<nat>, i: nat)
    ensures TypeAt(t, path + [i]) ==
            match TypeAt(t, path)
            case Some(Struct(_, elems)) => if i < |elems| then Some(elems[i]) else None
            case _ => None
  {
    if path == [] {
      assert [i][1..] == [];
    } else {
      assert (path + [i])[1..] == path[1..] + [i];
      if t.Struct? && path[0] < |t.elems| {
        TypeAtAppend(t.elems[path[0]], path[1..], i);
      }
    }
  }

  /** A path that goes somewhere goes somewhere at each step. */
  lemma {:induction false} PrefixIsStruct(t: Type, p: seq<nat>, q: seq<nat>)
    requires p < q && TypeAt(t, q).Some?
    ensures TypeAt(t, p).Some? && TypeAt(t, p).value.Struct? && q[|p|] < |TypeAt(t, p).value.elems|
  {
    if p != [] {
      assert p[1..] < q[1..];
      PrefixIsStruct(t.elems[q[0]], p[1..], q[1..]);
    }
  }

  /** Of two paths of one length, the first smaller index decides. */
  ghost predicate Lex(p: seq<nat>, q: seq<nat>) {
    |p| == |q| && exists k :: 0 <= k < |p| && p[..k] == q[..k] && p[k] < q[k]
  }

  ghost predicate Before(p: seq<nat>, q: seq<nat>) {
    |p| < |q| || Lex(p, q)
  }

  lemma BeforeIsTransitive(p: seq<nat>, q: seq<nat>, r: seq<nat>)
    requires Before(p, q) && Before(q, r)
    ensures Before(p, r)
  {
    if |p| == |q| == |r| {
      var j :| 0 <= j < |p| && p[..j] == q[..j] && p[j] < q[j];
      var k :| 0 <= k < |q| && q[..k] == r[..k] && q[k] < r[k];
      var m := if j < k then j else k;
      assert p[..m] == p[..j][..m] && q[..m] == q[..j][..m];
      assert q[..m] == q[..k][..m] && r[..m] == r[..k][..m];
      assert j < k ==> q[..k][j] == r[..k][j];
      assert k < j ==> p[..j][k] == q[..j][k];
      assert p[..m] == r[..m] && p[m] < r[m];
    }
  }

  lemma ChildrenFollowParents(p: seq<nat>, i: nat, q: seq<nat>, j: nat)
    requires Before(p, q) || (p == q && i < j)
    ensures Before(p + [i], q + [j])
  {
    var x, y := p + [i], q + [j];
    if |p| == |q| {
      if p == q {
        assert x[..|p|] == y[..|p|];
      } else {
        var k :| 0 <= k < |p| && p[..k] == q[..k] && p[k] < q[k];
        assert x[..k] == p[..k] && y[..k] == q[..k];
        assert x[k] < y[k];
      }
    }
  }

  // ---- the breadth-first search over nested structs ----

  datatype Entry = Entry(ty: Type, idx: seq<nat>)

  /** Path `q` in `t` still has to come up: below a queued entry, or below the
      front entry at element `i` or later. */
  ghost predicate Ahead(queue: seq<Entry>, i: nat, q: seq<nat>) {
    || (exists k :: 0 < k < |queue| && queue[k].idx < q)
    || (queue != [] && queue[0].idx < q && i <= q[|queue[0].idx|])
  }

  /** Entries are the nested structs at their paths. */
  ghost predicate Located(t: Type, queue: seq<Entry>) {
    forall k :: 0 <= k < |queue| ==> queue[k].ty.Struct? && TypeAt(t, queue[k].idx) == Some(queue[k].ty)
  }

  ghost predicate Ordered(queue: seq<Entry>) {
    forall j, k :: 0 <= j < k < |queue| ==> Before(queue[j].idx, queue[k].idx)
  }

  ghost predicate ParentsAreDone(queue: seq<Entry>, i: nat) {
    forall k :: 0 < k < |queue| ==> queue[k].idx != [] && Done(queue[0].idx, i, queue[k].idx)
  }

  ghost predicate NoneMissed(t: Type, stop: Type -> bool, queue: seq<Entry>, i: nat) {
    forall q :: q != [] && TypeAt(t, q).Some? ==> Ahead(queue, i, q) || !stop(TypeAt(t, q).value)
  }

  /** The search has reached element `i` of the front entry. */
  ghost predicate SearchInv(t: Type, stop: Type -> bool, queue: seq<Entry>, i: nat) {
    && Located(t, queue)
    && Ordered(queue)
    && ParentsAreDone(queue, i)
    && NoneMissed(t, stop, queue, i)
  }

  /** The parent of `x` came before `front`, or is `front` and its element has
      been passed. */
  ghost predicate Done(front: seq<nat>, i: nat, x: seq<nat>)
    requires x != []
  {
    var n := |x| - 1;
    Before(x[..n], front) || (x[..n] == front && x[n] < i)
  }

  /** `path` is the first in breadth-first order that ends where `stop` holds. */
  ghost predicate IsFirst(t: Type, stop: Type -> bool, path: seq<nat>) {
    && path != [] && TypeAt(t, path).Some? && stop(TypeAt(t, path).value)
    && (forall q :: q != [] && TypeAt(t, q).Some? && stop(TypeAt(t, q).value) ==>
          q == path || Before(path, q))
  }

  lemma StartsSearching(t: Type, stop: Type -> bool)
    requires t.Struct?
    ensures SearchInv(t, stop, [Entry(t, [])], 0)
  {
    forall q: seq<nat> | q != [] && TypeAt(t, q).Some?
      ensures Ahead([Entry(t, [])], 0, q)
    {
      assert [] < q;
    }
  }

  /** A child of `p` is before whatever is below `x`, when `p` is before `x`. */
  lemma ChildIsBefore(p: seq<nat>, i: nat, x: seq<nat>, q: seq<nat>)
    requires Before(p, x) && x < q
    ensures Before(p + [i], q)
  {
    var n := |p|;
    if |q| == n + 1 {
      assert x == q[..n] && q == q[..n] + [q[n]];
      ChildrenFollowParents(p, i, q[..n], q[n]);
    }
  }

  /** Among the paths below `p`, its child `i` is first from element `i` on. */
  lemma ChildIsFirst(p: seq<nat>, i: nat, q: seq<nat>)
    requires p < q && i <= q[|p|]
    ensures q == p + [i] || Before(p + [i], q)
  {
    var n := |p|;
    if |q| == n + 1 {
      assert p == q[..n] && q == q[..n] + [q[n]];
      if i < q[n] {
        ChildrenFollowParents(p, i, p, q[n]);
      }
    }
  }

  /** Element `i` of the front entry is before every other path ahead. */
  lemma ElementIsBefore(t: Type, stop: Type -> bool, queue: seq<Entry>, i: nat, q: seq<nat>)
    requires SearchInv(t, stop, queue, i) && queue != [] && Ahead(queue, i, q)
    ensures q == queue[0].idx + [i] || Before(queue[0].idx + [i], q)
  {
    if k :| 0 < k < |queue| && queue[k].idx < q {
      ChildIsBefore(queue[0].idx, i, queue[k].idx, q);
    } else {
      ChildIsFirst(queue[0].idx, i, q);
    }
  }

  /** The element being looked at is the first hit if it is one. */
  lemma HitIsFirst(t: Type, stop: Type -> bool, queue: seq<Entry>, i: nat)
    requires SearchInv(t, stop, queue, i) && queue != []
    requires i < |queue[0].ty.elems| && stop(queue[0].ty.elems[i])
    ensures IsFirst(t, stop, queue[0].idx + [i])
  {
    var p := queue[0].idx;
    TypeAtAppend(t, p, i);
    forall q | q != [] && TypeAt(t, q).Some? && stop(TypeAt(t, q).value)
      ensures q == p + [i] || Before(p + [i], q)
    {
      ElementIsBefore(t, stop, queue, i, q);
    }
  }

  /** Everything queued comes before the next child of the front entry. */
  lemma ChildIsLast(t: Type, stop: Type -> bool, queue: seq<Entry>, i: nat)
    requires SearchInv(t, stop, queue, i) && queue != []
    ensures forall j :: 0 <= j < |queue| ==> Before(queue[j].idx, queue[0].idx + [i])
  {
    var p := queue[0].idx;
    forall j | 0 <= j < |queue|
      ensures Before(queue[j].idx, p + [i])
    {
      if j > 0 {
        var y := queue[j].idx;
        var n := |y| - 1;
        assert y == y[..n] + [y[n]];
        ChildrenFollowParents(y[..n], y[n], p, i);
      }
    }
  }

  /** A path that was ahead stays ahead, or is the element just passed. */
  lemma StaysAhead(t: Type, queue: seq<Entry>, i: nat, queue': seq<Entry>, q: seq<nat>)
    requires queue != [] && queue <= queue' && TypeAt(t, q).Some? && Ahead(queue, i, q)
    requires TypeAt(t, queue[0].idx + [i]).Some?
    requires TypeAt(t, queue[0].idx + [i]).value.Struct? ==>
               exists k :: 0 < k < |queue'| && queue'[k].idx == queue[0].idx + [i]
    ensures Ahead(queue', i + 1, q) || q == queue[0].idx + [i]
  {
    var p := queue[0].idx;
    var x := p + [i];
    if k :| 0 < k < |queue| && queue[k].idx < q {
      assert queue'[k].idx < q;
    } else if q[|p|] == i && q != x {
      assert q[..|p|] == p && q[..|p| + 1] == x;
      assert x < q;
      PrefixIsStruct(t, x, q);
      var k :| 0 < k < |queue'| && queue'[k].idx == x;
      assert queue'[k].idx < q;
    }
  }

  /** The queue after element `i` of the front entry was looked at. */
  ghost function Passed(queue: seq<Entry>, i: nat): seq<Entry>
    requires queue != [] && queue[0].ty.Struct? && i < |queue[0].ty.elems|
  {
    var e := queue[0].ty.elems[i];
    if e.Struct? then queue + [Entry(e, queue[0].idx + [i])] else queue
  }

  lemma PassedIsLocated(t: Type, queue: seq<Entry>, i: nat)
    requires queue != [] && Located(t, queue) && i < |queue[0].ty.elems|
    ensures Located(t, Passed(queue, i))
  {
    TypeAtAppend(t, queue[0].idx, i);
  }

  lemma PassedIsOrdered(t: Type, stop: Type -> bool, queue: seq<Entry>, i: nat)
    requires SearchInv(t, stop, queue, i) && queue != [] && i < |queue[0].ty.elems|
    ensures Ordered(Passed(queue, i))
  {
    ChildIsLast(t, stop, queue, i);
  }

  lemma PassedParentsAreDone(queue: seq<Entry>, i: nat)
    requires queue != [] && queue[0].ty.Struct? && ParentsAreDone(queue, i) && i < |queue[0].ty.elems|
    ensures ParentsAreDone(Passed(queue, i), i + 1)
  {
    var p := queue[0].idx;
    var x := p + [i];
    assert x[..|x| - 1] == p;
  }

  lemma PassedMissesNone(t: Type, stop: Type -> bool, queue: seq<Entry>, i: nat)
    requires queue != [] && Located(t, queue) && NoneMissed(t, stop, queue, i)
    requires i < |queue[0].ty.elems| && !stop(queue[0].ty.elems[i])
    ensures NoneMissed(t, stop, Passed(queue, i), i + 1)
  {
    var queue' := Passed(queue, i);
    TypeAtAppend(t, queue[0].idx, i);
    assert queue[0].ty.elems[i].Struct? ==> queue'[|queue|].idx == queue[0].idx + [i];
    forall q | q != [] && TypeAt(t, q).Some?
      ensures Ahead(queue', i + 1, q) || !stop(TypeAt(t, q).value)
    {
      if Ahead(queue, i, q) {
        StaysAhead(t, queue, i, queue', q);
      }
    }
  }

  /** Passing an element that is not a hit; a struct is queued. */
  lemma PassElement(t: Type, stop: Type -> bool, queue: seq<Entry>, i: nat)
    requires SearchInv(t, stop, queue, i) && queue != []
    requires i < |queue[0].ty.elems| && !stop(queue[0].ty.elems[i])
    ensures SearchInv(t, stop, Passed(queue, i), i + 1)
  {
    PassedIsLocated(t, queue, i);
    PassedIsOrdered(t, stop, queue, i);
    PassedParentsAreDone(queue, i);
    PassedMissesNone(t, stop, queue, i);
  }

  /** With the front entry gone, parents of the others still came before. */
  lemma RestParentsAreDone(queue: seq<Entry>, i: nat)
    requires queue != [] && Ordered(queue) && ParentsAreDone(queue, i)
    ensures ParentsAreDone(queue[1..], 0)
  {
    forall k | 1 < k < |queue|
      ensures Done(queue[1].idx, 0, queue[k].idx)
    {
      var p, y := queue[0].idx, queue[k].idx;
      var parent := y[..|y| - 1];
      assert Before(p, queue[1].idx) && Done(p, i, y);
      if Before(parent, p) {
        BeforeIsTransitive(parent, p, queue[1].idx);
      }
    }
  }

  lemma RestMissesNone(t: Type, stop: Type -> bool, queue: seq<Entry>, i: nat)
    requires queue != [] && Located(t, queue) && i == |queue[0].ty.elems|
    requires NoneMissed(t, stop, queue, i)
    ensures NoneMissed(t, stop, queue[1..], 0)
  {
    forall q | q != [] && TypeAt(t, q).Some? && Ahead(queue, i, q)
      ensures Ahead(queue[1..], 0, q)
    {
      if queue[0].idx < q {
        PrefixIsStruct(t, queue[0].idx, q);
      }
      var k :| 0 < k < |queue| && queue[k].idx < q;
      assert queue[1..][k - 1].idx < q;
    }
  }

  /** The front entry is used up. */
  lemma PopFront(t: Type, stop: Type -> bool, queue: seq<Entry>, i: nat)
    requires SearchInv(t, stop, queue, i) && queue != [] && i == |queue[0].ty.elems|
    ensures SearchInv(t, stop, queue[1..], 0)
  {
    RestParentsAreDone(queue, i);
    RestMissesNone(t, stop, queue, i);
  }

  // ---- termination ----

  function Size(t: Type): nat {
    match t
    case Other(_) => 1
    case Struct(_, elems) => 1 + Sizes(elems)
  }

  function Sizes(ts: seq<Type>): nat {
    if ts == [] then 0 else Size(ts[0]) + Sizes(ts[1..])
  }

  ghost function QueueSize(queue: seq<Entry>): nat {
    if queue == [] then 0 else Size(queue[0].ty) + QueueSize(queue[1..])
  }

  lemma {:induction false} QueueSizeAppend(queue: seq<Entry>, e: Entry)
    ensures QueueSize(queue + [e]) == QueueSize(queue) + Size(e.ty)
  {
    if queue == [] {
      assert queue + [e] == [e];
    } else {
      assert (queue + [e])[1..] == queue[1..] + [e];
      QueueSizeAppend(queue[1..], e);
    }
  }

  // ---- the two searches ----

  /** `e` counts as the supertype: it is that struct, or a base type whose layout
      starts it. */
  ghost predicate Matches(super: Type, e: Type) {
    e.Struct? && (e == super || (super.Struct? && NamesBase(e.name) && e.elems <= super.elems))
  }

  const ABI_INFO := "class.clang::CodeGen::ABIInfo"

  ghost predicate IsAbiInfo(e: Type) {
    e.Struct? && e.name == ABI_INFO
  }

  ghost predicate Contains(t: Type, stop: Type -> bool) {
    exists path: seq<nat> :: path != [] && TypeAt(t, path).Some? && stop(TypeAt(t, path).value)
  }

  method AllSame(base: Type, super: Type) returns (same: bool)
    requires base.Struct? && super.Struct?
    ensures same <==> base.elems <= super.elems
  {
    if |super.elems| < |base.elems| {
      return false;
    }
    for i := 0 to |base.elems|
      invariant forall j :: 0 <= j < i ==> base.elems[j] == super.elems[j]
    {
      if base.elems[i] != super.elems[i] {
        return false;
      }
    }
    return true;
  }

  method IsMatch(super: Type, e: Type) returns (b: bool)
    requires e.Struct? && super.Struct?
    ensures b <==> e == super || (NamesBase(e.name) && e.elems <= super.elems)
  {
    BaseNames(e.name);
    if IsBaseName(e.name) {
      var same := AllSame(e, super);
      if same {
        return true;
      }
    }
    return e == super;
  }

  method IsSupertype(t: Type, super: Type) returns (b: bool)
    requires t.Struct? && super.Struct?
    ensures b <==> Contains(t, e => Matches(super, e))
  {
    ghost var stop := e => Matches(super, e);
    var queue := [Entry(t, [])];
    StartsSearching(t, stop);
    while queue != []
      invariant SearchInv(t, stop, queue, 0)
      decreases QueueSize(queue)
    {
      ghost var size := QueueSize(queue);
      var front := queue[0];
      for i := 0 to |front.ty.elems|
        invariant queue != [] && queue[0] == front && SearchInv(t, stop, queue, i)
        invariant QueueSize(queue) + Sizes(front.ty.elems[i..]) < size + Size(front.ty)
      {
        var e := front.ty.elems[i];
        if e.Struct? {
          var hit := IsMatch(super, e);
          if hit {
            HitIsFirst(t, stop, queue, i);
            return true;
          }
          QueueSizeAppend(queue, Entry(e, front.idx + [i]));
        }
        PassElement(t, stop, queue, i);
        assert front.ty.elems[i..][1..] == front.ty.elems[i + 1..];
        if e.Struct? {
          queue := queue + [Entry(e, front.idx + [i])];
        }
      }
      PopFront(t, stop, queue, |front.ty.elems|);
      queue := queue[1..];
    }
    return false;
  }

  datatype IndexError = SupertypeNotFound

  /** What getSupertypeIndices stops at; one class name is hard-coded. */
  ghost predicate StopsIndices(super: Type, e: Type) {
    Matches(super, e) || IsAbiInfo(e)
  }

  method GetSupertypeIndices(t: Type, super: Type) returns (r: Result<seq<nat>, IndexError>)
    requires t.Struct? && super.Struct?
    ensures r.Success? ==> IsFirst(t, e => StopsIndices(super, e), r.value)
    ensures r.Failure? <==> !Contains(t, e => StopsIndices(super, e))
  {
    ghost var stop := e => StopsIndices(super, e);
    var queue := [Entry(t, [])];
    StartsSearching(t, stop);
    while queue != []
      invariant SearchInv(t, stop, queue, 0)
      decreases QueueSize(queue)
    {
      ghost var size := QueueSize(queue);
      var front := queue[0];
      for i := 0 to |front.ty.elems|
        invariant queue != [] && queue[0] == front && SearchInv(t, stop, queue, i)
        invariant QueueSize(queue) + Sizes(front.ty.elems[i..]) < size + Size(front.ty)
      {
        var e := front.ty.elems[i];
        if e.Struct? {
          var hit := IsMatch(super, e);
          if hit || e.name == ABI_INFO {
            HitIsFirst(t, stop, queue, i);
            return Success(front.idx + [i]);
          }
          QueueSizeAppend(queue, Entry(e, front.idx + [i]));
        }
        PassElement(t, stop, queue, i);
        assert front.ty.elems[i..][1..] == front.ty.elems[i + 1..];
        if e.Struct? {
          queue := queue + [Entry(e, front.idx + [i])];
        }
      }
      PopFront(t, stop, queue, |front.ty.elems|);
      queue := queue[1..];
    }
    return Failure(SupertypeNotFound);
  }

  /** Without that class inside, the indices lead to the first match, and they
      exist exactly when isSupertype says so. */
  lemma SearchesAgree(t: Type, super: Type, path: seq<nat>)
    requires !Contains(t, e => IsAbiInfo(e))
    ensures Contains(t, e => StopsIndices(super, e)) <==> Contains(t, e => Matches(super, e))
    ensures IsFirst(t, e => StopsIndices(super, e), path) <==> IsFirst(t, e => Matches(super, e), path)
  {
    forall q: seq<nat> | q != [] && TypeAt(t, q).Some?
      ensures StopsIndices(super, TypeAt(t, q).value) <==> Matches(super, TypeAt(t, q).value)
    {
    }
  }

  lemma BeforeIsStrict(p: seq<nat>)
    ensures !Before(p, p)
  {
  }

  /** The first match is unique. */
  lemma FirstIsUnique(t: Type, stop: Type -> bool, p: seq<nat>, q: seq<nat>)
    requires IsFirst(t, stop, p) && IsFirst(t, stop, q)
    ensures p == q
  {
    if p != q {
      BeforeIsTransitive(p, q, p);
      BeforeIsStrict(p);
    }
  }
}
