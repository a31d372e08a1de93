/**
 Analysing a method twice, each time ignoring one of the two edges into its
 single exit block. Every complete path is left to one of the runs when the two
 edges have different sources; when they share one, both runs ignore the same
 edge and see no complete path.
 */
module EdgeSplitting {
  import opened Wrappers
  import opened ControlFlow
  import opened SolverSpec
  import opened Fixpoint
  import opened Solver
  import opened PathSoundness
  import opened HiddenBranch

  datatype SplitError = NoExitBlock

  ghost predicate IsExit(g: Cfg, b: Block) {
    g.Has(b) && g.Succs(b) == []
  }

  ghost predicate OnlyExit(g: Cfg, b: Block) {
    IsExit(g, b) && forall c :: IsExit(g, c) ==> c == b
  }

  /** getIgnoredEdges. A function without any exit block makes it dereference a
      null block, which is the error outcome here. */
  method GetIgnoredEdges(g: Cfg) returns (r: Result<seq<Edge>, SplitError>)
    requires g.WellFormed()
    ensures r.Failure? <==> forall b :: !IsExit(g, b)
    ensures r.Success? && r.value != [] <==>
      exists b: Block :: OnlyExit(g, b) && |g.preds[b]| == 2
    ensures r.Success? ==> forall b: Block :: OnlyExit(g, b) && |g.preds[b]| == 2 ==>
      r.value == [Edge(g.preds[b][0], b), Edge(g.preds[b][1], b)]
    ensures forall b: Block :: OnlyExit(g, b) <==>
      && g.Has(b) && g.Succs(b) == []
      && (forall c: Block :: g.Has(c) && g.Succs(c) == [] ==> c == b)
  {
    assert forall c: Block :: g.Has(c) && g.Succs(c) == [] ==> IsExit(g, c);
    var single: Option<Block> := None;
    var valid := true;
    for i := 0 to |g.blocks|
      invariant single.Some? ==> IsExit(g, single.value) && single.value < i
      invariant single.None? ==> forall b: Block :: b < i ==> !IsExit(g, b)
      invariant valid && single.Some? ==> forall b: Block :: b < i && IsExit(g, b) ==> b == single.value
      invariant !valid ==> exists b: Block, c: Block :: b != c && IsExit(g, b) && IsExit(g, c)
    {
      if |g.Succs(i)| == 0 {
        assert IsExit(g, i);
        if single.None? {
          single := Some(i);
        } else {
          valid := false;
        }
      }
    }
    if single.None? {
      return Failure(NoExitBlock);
    }
    var e := single.value;
    assert valid <==> OnlyExit(g, e);
    var edges := [];
    if valid {
      if |g.preds[e]| == 2 {
        for j := 0 to 2
          invariant |edges| == j
          invariant forall k :: 0 <= k < j ==> edges[k] == Edge(g.preds[e][k], e)
        {
          edges := edges + [Edge(g.preds[e][j], e)];
        }
      }
    }
    r := Success(edges);
  }

  /** How often the path takes the edge. */
  ghost function Uses(g: Cfg, path: Path, e: Edge): nat {
    match path
    case AtEntry => 0
    case Step(q, _) => Uses(g, q, e) + if Edge(End(g, q), End(g, path)) == e then 1 else 0
  }

  /** Ignoring an edge removes exactly the paths that take it. */
  lemma {:induction false} IgnoringRemovesUses<S(!new)>(p: Problem<S>, path: Path, e: Edge)
    requires On(p.(ignored := None), path)
    ensures On(p.(ignored := Some(e)), path) <==> Uses(p.g, path, e) == 0
  {
    if path.Step? {
      IgnoringRemovesUses(p, path.prefix, e);
    }
  }

  /** An exit block can only be the end of a path. */
  lemma {:induction false} ExitIsLast<S(!new)>(p: Problem<S>, path: Path, a: Block, e: Block)
    requires p.g.WellFormed() && On(p.(ignored := None), path) && IsExit(p.g, e)
    ensures Uses(p.g, path, Edge(a, e)) ==
      if path.Step? && End(p.g, path) == e && End(p.g, path.prefix) == a then 1 else 0
  {
    if path.Step? {
      ExitIsLast(p, path.prefix, a, e);
      EndExists(p.(ignored := None), path.prefix);
      assert End(p.g, path.prefix) != e;
    }
  }

  /** The single exit with its two incoming edges, as getIgnoredEdges lists them. */
  ghost predicate Splits(g: Cfg, e: Block) {
    g.WellFormed() && OnlyExit(g, e) && |g.preds[e]| == 2
  }

  function Final(g: Cfg, e: Block, k: nat): Edge
    requires g.Has(e) && e < |g.preds| && k < |g.preds[e]|
  {
    Edge(g.preds[e][k], e)
  }

  /** A path to the exit takes one of the two final edges, and takes it once. */
  lemma PathTakesOneFinalEdge<S(!new)>(p: Problem<S>, path: Path, e: Block)
    requires Splits(p.g, e) && On(p.(ignored := None), path) && End(p.g, path) == e
    requires Final(p.g, e, 0) != Final(p.g, e, 1)
    ensures Uses(p.g, path, Final(p.g, e, 0)) + Uses(p.g, path, Final(p.g, e, 1)) == 1
  {
    ExitIsLast(p, path, p.g.preds[e][0], e);
    ExitIsLast(p, path, p.g.preds[e][1], e);
    LastEdgeIsFinal(p, path, e);
  }

  lemma LastEdgeIsFinal<S(!new)>(p: Problem<S>, path: Path, e: Block)
    requires Splits(p.g, e) && On(p.(ignored := None), path) && End(p.g, path) == e
    ensures path.Step?
    ensures End(p.g, path.prefix) == p.g.preds[e][0] || End(p.g, path.prefix) == p.g.preds[e][1]
  {
    if path.Step? {
      EndExists(p.(ignored := None), path.prefix);
      p.g.PredIffSucc(End(p.g, path.prefix), e);
    }
  }

  /** A path to the exit survives in one of the two runs exactly when the two
      final edges differ. */
  lemma PathSurvivesIffEdgesDiffer<S(!new)>(p: Problem<S>, path: Path, e: Block)
    requires Splits(p.g, e) && On(p.(ignored := None), path) && End(p.g, path) == e
    ensures (exists k: nat :: k < 2 && On(p.(ignored := Some(Final(p.g, e, k))), path))
       <==> Final(p.g, e, 0) != Final(p.g, e, 1)
  {
    var e0, e1 := Final(p.g, e, 0), Final(p.g, e, 1);
    IgnoringRemovesUses(p, path, e0);
    IgnoringRemovesUses(p, path, e1);
    if e0 != e1 {
      PathTakesOneFinalEdge(p, path, e);
      assert On(p.(ignored := Some(Final(p.g, e, 0))), path) || On(p.(ignored := Some(Final(p.g, e, 1))), path);
    } else {
      ExitIsLast(p, path, p.g.preds[e][0], e);
      LastEdgeIsFinal(p, path, e);
    }
  }

  lemma {:induction false} SameAfter<S(!new)>(
      p: Problem<S>, q: Problem<S>, fx: Effects<S>, path: Path, from: set<Block>, s: S, n: nat)
    requires SameBody(p, q) && p.g.Has(End(p.g, path)) && n <= |p.g.Insts(End(p.g, path))|
    ensures After(q, fx, path, from, s, n) == After(p, fx, path, from, s, n)
  {
    if n > 0 {
      SameAfter(p, q, fx, path, from, s, n - 1);
    }
  }

  /** What a path computes does not depend on the ignored edge. */
  lemma {:induction false} StateIgnoresSplit<S(!new)>(
      p: Problem<S>, fx: Effects<S>, path: Path, x: Option<Edge>, y: Option<Edge>)
    requires p.g.WellFormed() && On(p.(ignored := x), path) && On(p.(ignored := y), path)
    ensures StateAtEnd(p.(ignored := x), fx, path) == StateAtEnd(p.(ignored := y), fx, path)
  {
    var px, py := p.(ignored := x), p.(ignored := y);
    EndExists(px, path);
    var n := |p.g.Insts(End(p.g, path))|;
    match path
    case AtEntry => SameAfter(px, py, fx, path, {}, p.initial, n);
    case Step(q, i) =>
      StateIgnoresSplit(p, fx, q, x, y);
      SameAfter(px, py, fx, path, {End(p.g, q)}, StateOnEdge(px, fx, path), n);
  }

  /** A run's containers after it stopped, and the order in which getResult
      visited its exit states. */
  datatype Outcome<S> = Outcome(flow: Flow<S>, order: seq<Block>)

  ghost predicate IsOutcome<S(!new)>(p: Problem<S>, o: Outcome<S>) {
    && Stopped(p, o.flow)
    && Collected(p, o.flow.exits, {}, o.order)
    && (forall b :: b in o.order ==> b in o.flow.exits)
  }

  ghost function ResultOf<S(!new)>(p: Problem<S>, o: Outcome<S>): S
    requires IsOutcome(p, o)
  {
    MergeExits(p, o.flow.exits, o.order)
  }

  ghost function Split<S(!new)>(p: Problem<S>, e: Block, k: nat): Problem<S>
    requires Splits(p.g, e) && k < 2
  {
    p.(ignored := Some(Final(p.g, e, k)))
  }

  /** The outcomes of the two runs. */
  ghost predicate AreOutcomes<S(!new)>(p: Problem<S>, e: Block, o: seq<Outcome<S>>) {
    Splits(p.g, e) && |o| == 2 && forall k: nat :: k < 2 ==> IsOutcome(Split(p, e, k), o[k])
  }

  /** One of the two results covers what the path returns. */
  ghost predicate CoveredByOne<S(!new)>(
      p: Problem<S>, e: Block, o: seq<Outcome<S>>, fx: Effects<S>, path: Path)
    requires AreOutcomes(p, e, o) && On(p.(ignored := None), path)
  {
    exists k: nat :: k < 2 && CoveredBy(p.(ignored := None), fx, path, ResultOf(Split(p, e, k), o[k]))
  }

  /** With different final edges, every complete path that is not lost is covered
      by the result of one of the two runs. */
  lemma SplitRunsCoverPath<S(!new)>(
      p: Problem<S>, e: Block, o: seq<Outcome<S>>, fx: Effects<S>, path: Path)
    requires p.Valid() && AreOutcomes(p, e, o) && Final(p.g, e, 0) != Final(p.g, e, 1)
    requires Monotone(p.dom, fx)
    requires forall k: nat :: k < 2 ==> Below(Split(p, e, k), o[k].flow.states, fx)
    requires Complete(p.(ignored := None), path) && !Lost(p.g, path)
    ensures CoveredByOne(p, e, o, fx, path)
  {
    assert End(p.g, path) == e by {
      assert IsExit(p.g, End(p.g, path));
    }
    PathSurvivesIffEdgesDiffer(p, path, e);
    var k: nat :| k < 2 && On(p.(ignored := Some(Final(p.g, e, k))), path);
    var pk := Split(p, e, k);
    assert pk.Valid();
    ResultCoversPath(pk, o[k].flow, o[k].order, fx, path);
    StateIgnoresSplit(p, fx, path, pk.ignored, None);
    assert CoveredBy(p.(ignored := None), fx, path, ResultOf(pk, o[k]));
  }

  // ---- one final edge, twice ----

  /** With one shared final edge, neither run gets anything to the exit. */
  lemma SharedEdgeReturnsNothing<S(!new)>(p: Problem<S>, e: Block, k: nat, f: Flow<S>)
    requires p.Valid() && Splits(p.g, e) && Final(p.g, e, 0) == Final(p.g, e, 1) && k < 2
    requires Stopped(Split(p, e, k), f)
    ensures forall b :: !ReturnsFrom(Split(p, e, k), f.exits, b)
  {
    var pk := Split(p, e, k);
    var done :| Inv(pk, f, done);
    forall q | q in p.g.preds[e]
      ensures pk.ignored == Some(Edge(q, e))
    {
      var j :| 0 <= j < 2 && p.g.preds[e][j] == q;
    }
    assert pk.AllBottomOrNull(f.states, e);
    ExecBottom(pk, e, |p.g.Insts(e)|, pk.Live(f.states, e), pk.Input(f.states, e));
    assert e in done ==> Settled(pk, f, e);
    assert forall b :: ReturnsFrom(pk, f.exits, b) ==> IsExit(p.g, b);
  }

  /** So both runs return bottom, and nothing is published for the method. */
  lemma SharedEdgeResultIsBottom<S(!new)>(p: Problem<S>, e: Block, k: nat, o: Outcome<S>)
    requires p.Valid() && Splits(p.g, e) && Final(p.g, e, 0) == Final(p.g, e, 1) && k < 2
    requires IsOutcome(Split(p, e, k), o)
    ensures p.dom.isBottom(ResultOf(Split(p, e, k), o))
  {
    assert o.order != [] ==> o.order[0] in o.order;
    SharedEdgeReturnsNothing(p, e, k, o.flow);
  }

  /** The path hands something back to the caller. */
  ghost predicate HandsBack<S(!new)>(p: Problem<S>, fx: Effects<S>, path: Path)
    requires p.g.WellFormed() && On(p, path)
  {
    var s := StateAtEnd(p, fx, path);
    !p.dom.isBottom(s) && (p.isVoid || !p.dom.isBottom(p.addReturn(End(p.g, path), s)))
  }

  lemma BottomCoversNothing<S(!new)>(p: Problem<S>, fx: Effects<S>, path: Path, r: S)
    requires p.Valid() && On(p, path) && HandsBack(p, fx, path) && p.dom.isBottom(r)
    ensures !CoveredBy(p, fx, path, r)
  {
  }

  lemma SharedEdgeMissesPath<S(!new)>(
      p: Problem<S>, e: Block, o: seq<Outcome<S>>, fx: Effects<S>, path: Path)
    requires p.Valid() && AreOutcomes(p, e, o) && Final(p.g, e, 0) == Final(p.g, e, 1)
    requires On(p.(ignored := None), path) && HandsBack(p.(ignored := None), fx, path)
    ensures !CoveredByOne(p, e, o, fx, path)
  {
    forall k: nat | k < 2
      ensures !CoveredBy(p.(ignored := None), fx, path, ResultOf(Split(p, e, k), o[k]))
    {
      SharedEdgeResultIsBottom(p, e, k, o[k]);
      BottomCoversNothing(p.(ignored := None), fx, path, ResultOf(Split(p, e, k), o[k]));
    }
  }

  /** Splitting works exactly when the two final edges differ. */
  lemma CoveredIffEdgesDiffer<S(!new)>(
      p: Problem<S>, e: Block, o: seq<Outcome<S>>, fx: Effects<S>, path: Path)
    requires p.Valid() && AreOutcomes(p, e, o)
    requires Monotone(p.dom, fx)
    requires forall k: nat :: k < 2 ==> Below(Split(p, e, k), o[k].flow.states, fx)
    requires Complete(p.(ignored := None), path) && !Lost(p.g, path)
    requires HandsBack(p.(ignored := None), fx, path)
    ensures CoveredByOne(p, e, o, fx, path) <==> Final(p.g, e, 0) != Final(p.g, e, 1)
  {
    if Final(p.g, e, 0) != Final(p.g, e, 1) {
      SplitRunsCoverPath(p, e, o, fx, path);
    } else {
      SharedEdgeMissesPath(p, e, o, fx, path);
    }
  }

  // ---- a concrete function ----

  lemma MeetingSplits()
    ensures Splits(MEETING, 1) && Final(MEETING, 1, 0) == Final(MEETING, 1, 1)
  {
    MeetingIsWellFormed();
    assert MEETING.Succs(0) == [1, 1] && MEETING.Succs(1) == [];
    assert IsExit(MEETING, 1);
  }

  /** The outcome of the run that ignores final edge `k`. */
  ghost function MeetingOutcome(k: nat): Outcome<Mark>
    requires k < 2
  {
    MeetingSplits();
    Outcome(Last(MeetingRun(Split(Marking(MEETING, None), 1, k))).flow, [])
  }

  lemma MeetingOutcomeIsOne(k: nat)
    requires k < 2
    ensures Splits(MEETING, 1) && IsOutcome(Split(Marking(MEETING, None), 1, k), MeetingOutcome(k))
  {
    MeetingSplits();
    MarkingIsValid(MEETING, None);
    var p := Marking(MEETING, None);
    var pk := Split(p, 1, k);
    RunHasInv(pk, MeetingRun(pk));
    SharedEdgeReturnsNothing(p, 1, k, Last(MeetingRun(pk)).flow);
  }

  lemma PairOfOutcomes<S(!new)>(p: Problem<S>, e: Block, x: Outcome<S>, y: Outcome<S>)
    requires Splits(p.g, e) && IsOutcome(Split(p, e, 0), x) && IsOutcome(Split(p, e, 1), y)
    ensures AreOutcomes(p, e, [x, y])
  {
  }

  ghost function MeetingOutcomes(): (o: seq<Outcome<Mark>>)
    ensures AreOutcomes(Marking(MEETING, None), 1, o)
  {
    MeetingOutcomeIsOne(0);
    MeetingOutcomeIsOne(1);
    PairOfOutcomes(Marking(MEETING, None), 1, MeetingOutcome(0), MeetingOutcome(1));
    [MeetingOutcome(0), MeetingOutcome(1)]
  }

  lemma MeetingTrueSide(p: Problem<Mark>)
    requires p == Marking(MEETING, None)
    ensures p.Valid() && Complete(p, Step(AtEntry, 0)) && !Hidden(MEETING, Step(AtEntry, 0))
    ensures HandsBack(p, Own(p), Step(AtEntry, 0))
  {
    MeetingIsWellFormed();
    MarkingIsValid(MEETING, None);
    var path := Step(AtEntry, 0);
    assert On(p, AtEntry) && End(p.g, path) == 1;
    assert NoPads(MEETING, AtEntry) && NoPads(MEETING, path);
    PathIsMarked(p, path);
  }

  /** Both runs of the two-block function stop, and both results miss its true
      side, a complete path that hides nothing. */
  lemma SharedEdgeExample(p: Problem<Mark>)
    requires p == Marking(MEETING, None)
    ensures p.Valid() && AreOutcomes(p, 1, MeetingOutcomes())
    ensures Complete(p, Step(AtEntry, 0)) && !Hidden(MEETING, Step(AtEntry, 0))
    ensures !CoveredByOne(p, 1, MeetingOutcomes(), Own(p), Step(AtEntry, 0))
  {
    MeetingSplits();
    MeetingTrueSide(p);
    SharedEdgeMissesPath(p, 1, MeetingOutcomes(), Own(p), Step(AtEntry, 0));
  }
}
