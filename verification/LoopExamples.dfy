/**
 One function whose exit is never reached: an entry block and a block that jumps
 to itself. In one domain, finite and with monotone transfers, the solver never
 stops on it; in another it stops and has no exit state to return.
 */
module LoopExamples {
  import opened Wrappers
  import opened AbstractDomain
  import opened ControlFlow
  import opened SolverSpec
  import opened Fixpoint
  import opened Solver
  import opened HiddenBranch
  import opened EdgeSplitting

  const LOOPING: Cfg := Cfg(
    [BasicBlock([Visit], Jump(1)), BasicBlock([Visit], Jump(1))],
    [[], [0, 1]])

  lemma LoopingBlock(b: Block, q: Block)
    requires LOOPING.Has(b) && LOOPING.Has(q)
    ensures LOOPING.Succs(b) == [1] && LOOPING.Insts(b) == [Visit] && LOOPING.Term(b) == Jump(1)
    ensures LOOPING.preds[b] == if b == 1 then [0, 1] else []
    ensures multiset(LOOPING.preds[b])[q] == multiset(LOOPING.Succs(q))[b]
  {
    assert LOOPING.preds[b] == if b == 1 then [0, 1] else [];
    assert LOOPING.Succs(q) == [1];
  }

  lemma LoopingIsWellFormed()
    ensures LOOPING.WellFormed()
  {
    forall b: Block | LOOPING.Has(b)
      ensures forall t :: t in LOOPING.Succs(b) || t in LOOPING.preds[b] ==> LOOPING.Has(t)
      ensures !LOOPING.Term(b).Multi? && LOOPING.Insts(b) == [Visit]
    {
      LoopingBlock(b, b);
    }
    forall b: Block, q: Block | LOOPING.Has(b) && LOOPING.Has(q)
      ensures multiset(LOOPING.preds[b])[q] == multiset(LOOPING.Succs(q))[b]
    {
      LoopingBlock(b, q);
    }
  }

  // ---- one round ----

  /** What block 1 starts from: its own state is read as initial at first. */
  ghost function Joined<S(!new)>(p: Problem<S>, states: map<Edge, S>): S
    requires Edge(0, 1) in states
  {
    p.dom.merge(states[Edge(0, 1)], p.PredOrInitial(states, Edge(1, 1)))
  }

  lemma JoinedIsInput<S(!new)>(p: Problem<S>, states: map<Edge, S>)
    requires p.g == LOOPING && p.ignored == None
    requires Edge(0, 1) in states && !p.dom.isBottom(states[Edge(0, 1)])
    requires !p.dom.isBottom(p.PredOrInitial(states, Edge(1, 1)))
    ensures LOOPING.WellFormed() && p.Input(states, 1) == Joined(p, states)
  {
    LoopingIsWellFormed();
    LoopingBlock(1, 1);
    assert p.g.preds[1] == [0, 1] && 0 in p.g.preds[1];
    assert !p.AllBottomOrNull(states, 1);
    var first := Some(states[Edge(0, 1)]);
    assert p.MergeFrom(states, 1, 0, None) == p.MergeFrom(states, 1, 1, first);
    assert p.MergeFrom(states, 1, 1, first) == p.MergeFrom(states, 1, 2, Some(Joined(p, states)));
  }

  lemma OutputIsVisit<S(!new)>(p: Problem<S>, states: map<Edge, S>, b: Block)
    requires p.g == LOOPING && LOOPING.WellFormed() && LOOPING.Has(b)
    requires !p.dom.isBottom(p.Input(states, b))
    ensures p.Output(states, b) == p.visit(b, 0, p.Input(states, b))
  {
    LoopingBlock(b, b);
    assert p.Exec(b, 0, p.Live(states, b), p.Input(states, b)) == p.Input(states, b);
  }

  /** The block taken sends its output to block 1. */
  lemma LoopingRound<S(!new)>(p: Problem<S>, r: Progress<S>, b: Block)
    requires p.g == LOOPING && LOOPING.Has(b) && r.flow.worklist == [b]
    ensures LOOPING.WellFormed() && Queue(p, r.flow)
    ensures Next(p, r).flow == p.SendOne(b, 1, p.Output(r.flow.states, b), r.flow.(worklist := []))
  {
    LoopingIsWellFormed();
    LoopingBlock(b, 1);
    LoopingBlock(1, 1);
    var f := r.flow.(worklist := []);
    var s := p.Output(r.flow.states, b);
    assert p.Chosen(r.flow) == 0 && Rotated(r.flow.worklist, 0) == [];
    assert p.Sent(b, 1, s) == s;
    assert p.SendTo(b, s, 0, f) == p.SendOne(b, 1, s, f);
    SendNext(p, b, s, 0, f);
  }

  // ---- a run that never ends ----

  /** Unknown, two sides, and no knowledge at all. */
  datatype Side = Nothing | Neither | Left | Right | Either

  predicate Below(x: Side, y: Side) {
    x == Nothing || y == Either || x == y || (x == Neither && y != Nothing)
  }

  function Join(x: Side, y: Side): Side {
    if Below(x, y) then y else if Below(y, x) then x else Either
  }

  const SIDES: Domain<Side> := Domain(
    (x: Side, y: Side) => Below(x, y),
    (x: Side, y: Side) => x == y,
    (x: Side) => x == Nothing,
    Nothing,
    Join,
    (x: Side) => Nothing)

  function Other(s: Side): Side {
    match s
    case Left => Right
    case Right => Left
    case _ => s
  }

  /** Block 0 forgets the side, block 1 changes it. */
  function Flip(b: Block, s: Side): Side {
    if s == Nothing then Nothing else if b == 0 then Neither else Other(s)
  }

  function Flipping(): Problem<Side> {
    Problem(LOOPING, SIDES, Left, None,
            (b: Block, i: nat, s: Side) => Flip(b, s),
            (b, i, l, s) => s,
            (b, v, s) => s,
            true,
            (b, s) => s)
  }

  /** The lattice is finite, with `Join` its least upper bound. */
  lemma SidesAreLattice()
    ensures SIDES.Valid()
    ensures forall x, y, z :: Below(x, z) && Below(y, z) ==> Below(Join(x, y), z)
  {
    assert SIDES.Preorder();
    assert SIDES.MergeIsUpperBound();
    forall x, y | SIDES.Same(x, y)
      ensures x == y
    {
    }
    assert SIDES.MergeIsCongruent();
  }

  lemma FlippingIsMonotone()
    ensures Flipping().Valid()
    ensures forall b: Block, i: nat, x, y ::
              SIDES.leq(x, y) ==> SIDES.leq(Flipping().visit(b, i, x), Flipping().visit(b, i, y))
  {
    LoopingIsWellFormed();
    SidesAreLattice();
    forall b: Block, x, y | Below(x, y)
      ensures Below(Flip(b, x), Flip(b, y))
    {
    }
  }

  /** Block 1 is queued; its own edge has no state yet, or one of the two sides. */
  ghost predicate Turning(r: Progress<Side>) {
    && r.flow.worklist == [1]
    && Edge(0, 1) in r.flow.states && r.flow.states[Edge(0, 1)] == Neither
    && (Edge(1, 1) in r.flow.states ==> r.flow.states[Edge(1, 1)] in {Left, Right})
  }

  lemma TurnsAgain(r: Progress<Side>)
    requires Turning(r)
    ensures LOOPING.WellFormed() && Queue(Flipping(), r.flow) && Turning(Next(Flipping(), r))
  {
    var p := Flipping();
    LoopingRound(p, r, 1);
    JoinedIsInput(p, r.flow.states);
    OutputIsVisit(p, r.flow.states, 1);
    assert p.Output(r.flow.states, 1) == Other(p.PredOrInitial(r.flow.states, Edge(1, 1)));
  }

  lemma StartsTurning()
    ensures LOOPING.WellFormed() && Queue(Flipping(), Begin(Flipping()).flow)
    ensures Turning(Next(Flipping(), Begin(Flipping())))
  {
    var p := Flipping();
    LoopingRound(p, Begin(p), 0);
    LoopingBlock(0, 0);
    OutputIsVisit(p, map[], 0);
  }

  /** For every number of rounds there is a run that long, and it has not stopped. */
  lemma {:induction false} FlippingNeverStops(n: nat) returns (rs: seq<Progress<Side>>)
    ensures IsRun(Flipping(), rs) && |rs| == n + 2 && Last(rs).flow.worklist == [1] && Turning(Last(rs))
  {
    var p := Flipping();
    if n == 0 {
      StartsTurning();
      LongerRun(p, [Begin(p)]);
      rs := [Begin(p)] + [Next(p, Begin(p))];
    } else {
      var shorter := FlippingNeverStops(n - 1);
      TurnsAgain(Last(shorter));
      LongerRun(p, shorter);
      rs := shorter + [Next(p, Last(shorter))];
    }
  }

  /** So no run stops: one that did would be the longest. */
  lemma NoFlippingRunStops(rs: seq<Progress<Side>>)
    requires IsRun(Flipping(), rs)
    ensures Last(rs).flow.worklist != []
  {
    if Last(rs).flow.worklist == [] {
      var longer := FlippingNeverStops(|rs|);
      StoppedRunIsLongest(Flipping(), rs, longer);
    }
  }

  // ---- a function that does not exit ----

  /** getIgnoredEdges has no exit block to look at. */
  lemma LoopingHasNoExit()
    ensures forall b: Block :: !IsExit(LOOPING, b)
  {
    forall b: Block | LOOPING.Has(b)
      ensures LOOPING.Succs(b) == [1]
    {
      LoopingBlock(b, b);
    }
  }

  /** The solver stops on it, with nothing for getResult to return. */
  lemma StopsWithoutExit() returns (rs: seq<Progress<Mark>>)
    ensures Marking(LOOPING, None).Valid() && IsRun(Marking(LOOPING, None), rs)
    ensures Last(rs).flow.worklist == [] && Last(rs).flow.exits == map[]
  {
    var p := Marking(LOOPING, None);
    LoopingIsWellFormed();
    MarkingIsValid(LOOPING, None);
    rs := [Begin(p)];
    FirstCleanRound(p);
    rs := OneMore(p, rs);
    CleanRound(p, Last(rs));
    rs := OneMore(p, rs);
    CleanRound(p, Last(rs));
    rs := OneMore(p, rs);
  }

  lemma OneMore(p: Problem<Mark>, rs: seq<Progress<Mark>>) returns (ts: seq<Progress<Mark>>)
    requires IsRun(p, rs) && Queue(p, Last(rs).flow) && Last(rs).flow.worklist != []
    ensures IsRun(p, ts) && Last(ts) == Next(p, Last(rs))
  {
    LongerRun(p, rs);
    ts := rs + [Next(p, Last(rs))];
  }

  lemma FirstCleanRound(p: Problem<Mark>)
    requires p == Marking(LOOPING, None)
    ensures LOOPING.WellFormed() && Queue(p, Begin(p).flow)
    ensures Next(p, Begin(p)).flow == Flow([1], map[Edge(0, 1) := Clean], map[])
  {
    LoopingRound(p, Begin(p), 0);
    LoopingBlock(0, 0);
    OutputIsVisit(p, map[], 0);
  }

  lemma CleanRound(p: Problem<Mark>, r: Progress<Mark>)
    requires p == Marking(LOOPING, None) && r.flow.worklist == [1]
    requires Edge(0, 1) in r.flow.states && r.flow.states[Edge(0, 1)] == Clean
    requires Edge(1, 1) in r.flow.states ==> r.flow.states[Edge(1, 1)] == Clean
    ensures LOOPING.WellFormed() && Queue(p, r.flow)
    ensures Next(p, r).flow ==
            Flow(if Edge(1, 1) in r.flow.states then [] else [1], r.flow.states[Edge(1, 1) := Clean], r.flow.exits)
  {
    LoopingRound(p, r, 1);
    JoinedIsInput(p, r.flow.states);
    OutputIsVisit(p, r.flow.states, 1);
  }
}
