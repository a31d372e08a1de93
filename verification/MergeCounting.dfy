/**
 The condition of `LoopTermination` is exact: on every function with a live loop
 there is an analysis that never stops.

 `COUNTS` counts merges. At a fixpoint a block that merges several incoming states
 has counted further than each of their sources, so the counts, refined by the
 distance from entry where only one state comes in, rank the live edges.
 */
module MergeCounting {
  import opened Wrappers
  import opened AbstractDomain
  import opened ControlFlow
  import opened SolverSpec
  import opened Fixpoint
  import opened Solver
  import opened PathSoundness
  import opened Acyclic
  import opened LoopTermination

  datatype Count = Never | Merges(n: nat)

  const COUNTS: Domain<Count> := Domain(
    (x: Count, y: Count) => x == Never || (y != Never && x.n <= y.n),
    (x: Count, y: Count) => x == y,
    (x: Count) => x == Never,
    Never,
    (x: Count, y: Count) =>
      if x == Never then y else if y == Never then x
      else Merges(1 + if x.n <= y.n then y.n else x.n),
    (x: Count) => Never)

  function Counting(g: Cfg): Problem<Count> {
    Problem(g, COUNTS, Merges(0), None,
            (b, i, s) => s,
            (b, i, l, s) => s,
            (b, v, s) => s,
            true,
            (b, s) => s)
  }

  lemma CountingIsValid(g: Cfg)
    requires g.WellFormed()
    ensures Counting(g).Valid() && Counting(g).dom.EquivalentIsReflexive()
  {
  }

  // ---- at a fixpoint ----

  lemma {:induction false} ExecKeepsCount(g: Cfg, b: Block, n: nat, live: set<Block>, s: Count)
    requires g.Has(b) && n <= |g.Insts(b)| && !Padded(g, b)
    ensures Counting(g).Exec(b, n, live, s) == s
  {
    if n > 0 {
      assert g.Insts(b)[n - 1] in g.Insts(b);
      ExecKeepsCount(g, b, n - 1, live, s);
    }
  }

  /** What `b` starts with, and hands to its successors unless it has a pad. */
  ghost function Out(g: Cfg, f: Flow<Count>, b: Block): Count
    requires g.WellFormed() && g.Has(b)
  {
    Counting(g).Input(f.states, b)
  }

  /** Live edges hold their source's count, and other states are bottom. */
  ghost predicate Counted(g: Cfg, f: Flow<Count>)
    requires g.WellFormed()
  {
    && (forall b: Block, t: Block :: GoesOn(g, b, t) ==>
          Edge(b, t) in f.states && f.states[Edge(b, t)] == Out(g, f, b) && Out(g, f, b) != Never)
    && (forall e :: e in f.states && !GoesOn(g, e.start, e.end) ==> f.states[e] == Never)
  }

  lemma {:induction false} LivePathIsOn(g: Cfg, path: Path)
    requires LivePath(g, path)
    ensures On(Counting(g), path)
  {
    if path.Step? {
      LivePathIsOn(g, path.prefix);
    }
  }

  lemma {:induction false} PathCounts(g: Cfg, f: Flow<Count>, done: set<Block>, path: Path)
    requires g.WellFormed() && Inv(Counting(g), f, done) && f.worklist == []
    requires LivePath(g, path)
    ensures g.Has(End(g, path)) && Settled(Counting(g), f, End(g, path))
    ensures Out(g, f, End(g, path)) != Never
  {
    var p := Counting(g);
    CountingIsValid(g);
    LivePathIsOn(g, path);
    PathIsDone(p, f, done, path);
    if path.Step? {
      var q, b := End(g, path.prefix), End(g, path);
      PathCounts(g, f, done, path.prefix);
      ExecKeepsCount(g, q, |g.Insts(q)|, p.Live(f.states, q), Out(g, f, q));
      assert f.states[Edge(q, b)] == Out(g, f, q);
      g.PredIffSucc(q, b);
      InputIsAbove(p, f.states, b, q);
    }
  }

  lemma LiveEdgeCounts(g: Cfg, f: Flow<Count>, done: set<Block>, b: Block, t: Block)
    requires g.WellFormed() && Inv(Counting(g), f, done) && f.worklist == [] && GoesOn(g, b, t)
    ensures Edge(b, t) in f.states && f.states[Edge(b, t)] == Out(g, f, b) && Out(g, f, b) != Never
  {
    var path :| LivePath(g, path) && End(g, path) == b;
    PathCounts(g, f, done, path);
    ExecKeepsCount(g, b, |g.Insts(b)|, Counting(g).Live(f.states, b), Out(g, f, b));
  }

  lemma StoppedIsCounted(g: Cfg, rs: seq<Progress<Count>>)
    requires IsRun(Counting(g), rs) && Last(rs).flow.worklist == []
    ensures g.WellFormed() && Counted(g, Last(rs).flow)
  {
    var r := Last(rs);
    CountingIsValid(g);
    RunHasInv(Counting(g), rs);
    RunIsDeadBottom(Counting(g), rs);
    forall b: Block, t: Block | GoesOn(g, b, t)
      ensures Edge(b, t) in r.flow.states && r.flow.states[Edge(b, t)] == Out(g, r.flow, b)
      ensures Out(g, r.flow, b) != Never
    {
      LiveEdgeCounts(g, r.flow, r.Done(), b, t);
    }
    forall e | e in r.flow.states && !GoesOn(g, e.start, e.end)
      ensures r.flow.states[e] == Never
    {
      assert e == Edge(e.start, e.end);
    }
  }

  // ---- counts grow where states meet ----

  /** The predecessor at position `j` takes part in the merge at `t`. */
  ghost predicate CountsAt(g: Cfg, f: Flow<Count>, t: Block, j: nat)
    requires g.WellFormed() && g.Has(t)
  {
    j < |g.preds[t]| && Counts(Counting(g), f.states, t, g.preds[t][j])
  }

  /** So does another one than `j`, from position `i` on. */
  ghost predicate AnotherCounts(g: Cfg, f: Flow<Count>, t: Block, i: nat, j: int)
    requires g.WellFormed() && g.Has(t)
  {
    exists k: nat :: i <= k && k != j && CountsAt(g, f, t, k)
  }

  ghost function CountAt(g: Cfg, f: Flow<Count>, t: Block, j: nat): nat
    requires g.WellFormed() && g.Has(t) && CountsAt(g, f, t, j)
  {
    Counting(g).PredOrInitial(f.states, Edge(g.preds[t][j], t)).n
  }

  lemma {:induction false} MergeCounts(g: Cfg, f: Flow<Count>, t: Block, i: nat, acc: Option<Count>, j: nat)
    requires g.WellFormed() && g.Has(t) && i <= |g.preds[t]|
    requires acc.Some? ==> acc.value != Never
    ensures var r := Counting(g).MergeFrom(f.states, t, i, acc);
            && (r.Some? ==> r.value != Never)
            && (acc.Some? ==>
                  r.Some? && acc.value.n + (if AnotherCounts(g, f, t, i, -1) then 1 else 0) <= r.value.n)
            && (i <= j && CountsAt(g, f, t, j) ==>
                  r.Some? && CountAt(g, f, t, j) + (if acc.Some? || AnotherCounts(g, f, t, i, j) then 1 else 0)
                             <= r.value.n)
    decreases |g.preds[t]| - i
  {
    if i < |g.preds[t]| {
      var e := Edge(g.preds[t][i], t);
      var s := Counting(g).PredOrInitial(f.states, e);
      assert CountsAt(g, f, t, i) <==> s != Never;
      if s == Never {
        MergeCounts(g, f, t, i + 1, acc, j);
      } else if acc.None? {
        MergeCounts(g, f, t, i + 1, Some(s), j);
      } else {
        MergeCounts(g, f, t, i + 1, Some(COUNTS.merge(acc.value, s)), j);
      }
    }
  }

  /** A live edge leads to no lower count, and to a higher one if another state
      comes in. */
  lemma EdgeCounts(g: Cfg, f: Flow<Count>, b: Block, t: Block) returns (j: nat)
    requires g.WellFormed() && Counted(g, f) && GoesOn(g, b, t)
    ensures CountsAt(g, f, t, j) && g.preds[t][j] == b
    ensures Out(g, f, b) != Never && Out(g, f, t) != Never
    ensures Out(g, f, b).n + (if AnotherCounts(g, f, t, 0, j) then 1 else 0) <= Out(g, f, t).n
  {
    g.PredIffSucc(b, t);
    j :| 0 <= j < |g.preds[t]| && g.preds[t][j] == b;
    assert CountsAt(g, f, t, j);
    MergeCounts(g, f, t, 0, None, j);
    assert !Counting(g).AllBottomOrNull(f.states, t);
  }

  // ---- distance from entry ----

  ghost function Length(path: Path): nat {
    if path.AtEntry? then 0 else 1 + Length(path.prefix)
  }

  ghost predicate ArrivesIn(g: Cfg, b: Block, k: nat) {
    exists path :: LivePath(g, path) && End(g, path) == b && Length(path) == k
  }

  ghost predicate IsDistance(g: Cfg, b: Block, k: nat) {
    ArrivesIn(g, b, k) && forall j: nat :: j < k ==> !ArrivesIn(g, b, j)
  }

  lemma {:induction false} DistanceExists(g: Cfg, b: Block, k: nat)
    requires ArrivesIn(g, b, k)
    ensures exists d: nat :: IsDistance(g, b, d)
  {
    if !IsDistance(g, b, k) {
      var j: nat :| j < k && ArrivesIn(g, b, j);
      DistanceExists(g, b, j);
    }
  }

  ghost function Distance(g: Cfg, b: Block): (d: nat)
    ensures Arrives(g, b) ==> IsDistance(g, b, d)
  {
    if Arrives(g, b) then
      var path :| LivePath(g, path) && End(g, path) == b;
      assert ArrivesIn(g, b, Length(path));
      DistanceExists(g, b, Length(path));
      var d: nat :| IsDistance(g, b, d);
      d
    else 0
  }

  lemma DistanceIsWalked(g: Cfg, b: Block) returns (path: Path)
    requires Arrives(g, b)
    ensures LivePath(g, path) && End(g, path) == b && Length(path) == Distance(g, b)
  {
    assert IsDistance(g, b, Distance(g, b));
    path :| LivePath(g, path) && End(g, path) == b && Length(path) == Distance(g, b);
  }

  lemma DistanceIsLeast(g: Cfg, b: Block, path: Path)
    requires LivePath(g, path) && End(g, path) == b
    ensures Distance(g, b) <= Length(path)
  {
    assert Arrives(g, b) && ArrivesIn(g, b, Length(path));
    assert IsDistance(g, b, Distance(g, b));
  }

  /** Where only the state from `b` comes in, `b` is closer to entry. */
  lemma OnlySourceIsCloser(g: Cfg, f: Flow<Count>, b: Block, t: Block, j: nat)
    requires g.WellFormed() && Counted(g, f) && GoesOn(g, b, t)
    requires CountsAt(g, f, t, j) && g.preds[t][j] == b && !AnotherCounts(g, f, t, 0, j)
    ensures Distance(g, b) < Distance(g, t)
  {
    GoingOnArrives(g, b, t);
    var path := DistanceIsWalked(g, t);
    assert path.Step? by {
      assert g.preds[t] != [];
    }
    var q := End(g, path.prefix);
    assert GoesOn(g, q, t);
    var k := EdgeCounts(g, f, q, t);
    assert k == j;
    DistanceIsLeast(g, b, path.prefix);
  }

  // ---- the rank ----

  ghost function Far(g: Cfg): (m: nat)
    ensures forall b: Block :: g.Has(b) ==> Distance(g, b) < m
  {
    var h := (b: Block) => Distance(g, b);
    assert forall b: Block :: h(b) == Distance(g, b);
    Above(h, |g.blocks|)
  }

  ghost function CountOf(g: Cfg, f: Flow<Count>, b: Block): nat
    requires g.WellFormed()
  {
    if g.Has(b) && Out(g, f, b) != Never then Out(g, f, b).n else 0
  }

  /** By count first, then by distance, which is below `m`. */
  function Score(n: nat, m: nat, d: nat): nat {
    n * m + d
  }

  ghost function Rank(g: Cfg, f: Flow<Count>, b: Block): nat
    requires g.WellFormed()
  {
    Score(CountOf(g, f, b), Far(g), Distance(g, b))
  }

  lemma ScoreGrows(x: nat, y: nat, m: nat, d: nat, e: nat)
    requires d < m && x <= y && (x < y || d < e)
    ensures Score(x, m, d) < Score(y, m, e)
  {
    if x < y {
      assert (x + 1) * m <= y * m;
    }
  }

  lemma RankGrows(g: Cfg, f: Flow<Count>, b: Block, t: Block)
    requires g.WellFormed() && Counted(g, f) && GoesOn(g, b, t)
    ensures Rank(g, f, b) < Rank(g, f, t)
  {
    var j := EdgeCounts(g, f, b, t);
    if !AnotherCounts(g, f, t, 0, j) {
      OnlySourceIsCloser(g, f, b, t, j);
    }
    ScoreGrows(CountOf(g, f, b), CountOf(g, f, t), Far(g), Distance(g, b), Distance(g, t));
  }

  /** Where the counting analysis stops, its counts rank the live edges. */
  lemma StoppedHasNoLiveLoop(g: Cfg, rs: seq<Progress<Count>>)
    requires IsRun(Counting(g), rs) && Last(rs).flow.worklist == []
    ensures NoLiveLoop(g)
  {
    var f := Last(rs).flow;
    StoppedIsCounted(g, rs);
    var rank := (b: Block) => Rank(g, f, b);
    forall b: Block, t: Block | GoesOn(g, b, t)
      ensures rank(b) < rank(t)
    {
      RankGrows(g, f, b, t);
    }
    assert LiveRank(g, rank);
  }

  /** On every function this analysis stops if and only if there is no live loop;
      and without one every analysis does (`LoopTermination.StopsWithoutLiveLoop`). */
  lemma StopsIffNoLiveLoop(g: Cfg)
    requires g.WellFormed()
    ensures Counting(g).Valid()
    ensures Stops(Counting(g)) <==> NoLiveLoop(g)
  {
    CountingIsValid(g);
    if rs :| IsRun(Counting(g), rs) && Last(rs).flow.worklist == [] {
      StoppedHasNoLiveLoop(g, rs);
    }
    if NoLiveLoop(g) {
      var rs := StopsWithoutLiveLoop(Counting(g));
    }
  }

  // ---- without landing pads ----

  lemma {:induction false} WalkIsLive(g: Cfg, path: Path)
    requires g.WellFormed() && Walk(g, path) && g.Has(End(g, path))
    requires forall b: Block :: !Padded(g, b)
    requires path.Step? ==> !g.Term(End(g, path)).Unreachable?
    ensures LivePath(g, path)
  {
    if path.Step? {
      assert g.Succs(End(g, path.prefix)) != [];
      WalkIsLive(g, path.prefix);
    }
  }

  /** Blocks ended by unreachable lead nowhere, and may be ranked last. */
  ghost function RankOrLast(g: Cfg, rank: Block -> nat, b: Block): nat {
    if g.Has(b) && g.Term(b).Unreachable? then Above(rank, |g.blocks|) else rank(b)
  }

  /** If all blocks are reachable and none has a landing pad, live loops are all
      loops. */
  lemma LooplessIffNoLiveLoop(g: Cfg)
    requires g.WellFormed() && AllWalked(g) && forall b: Block :: !Padded(g, b)
    ensures Loopless(g) <==> NoLiveLoop(g)
  {
    if rank: Block -> nat :| Ranks(g, rank) {
      assert LiveRank(g, rank);
    }
    if rank: Block -> nat :| LiveRank(g, rank) {
      var whole := (b: Block) => RankOrLast(g, rank, b);
      forall b: Block, t: Block | g.Has(b) && t in g.Succs(b)
        ensures whole(b) < whole(t)
      {
        assert Walked(g, b);
        var path :| Walk(g, path) && End(g, path) == b;
        WalkIsLive(g, path);
        assert g.Term(t).Unreachable? || GoesOn(g, b, t);
      }
      assert Ranks(g, whole);
    }
  }

  /** So on such a function this analysis stops if and only if there is no loop. */
  lemma StopsIffLoopless(g: Cfg)
    requires g.WellFormed() && AllWalked(g) && forall b: Block :: !Padded(g, b)
    ensures Stops(Counting(g)) <==> Loopless(g)
  {
    StopsIffNoLiveLoop(g);
    LooplessIffNoLiveLoop(g);
  }
}
