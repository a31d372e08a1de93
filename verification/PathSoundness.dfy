/**
 What a stopped solver promises about the program: the state obtained by
 following any path from entry is covered by what the solver stored.

 A path chooses successors by position, so a conditional branch refines by the
 side really taken. The solver refines by the target block instead, and the
 two differ exactly when both sides of the branch go to the same block.

 What instructions and calls do along a path is any monotone effect below what
 the solver's own `visit` computed; `visit` itself need not be monotone.
 */
module PathSoundness {
  import opened Wrappers
  import opened AbstractDomain
  import opened ControlFlow
  import opened SolverSpec
  import opened Fixpoint
  import opened Solver

  /** A path from the entry block; each step takes successor number `choice`. */
  datatype Path = AtEntry | Step(prefix: Path, choice: nat)

  ghost function End(g: Cfg, path: Path): Block {
    match path
    case AtEntry => ENTRY
    case Step(q, i) =>
      var b := End(g, q);
      if g.Has(b) && i < |g.Succs(b)| then g.Succs(b)[i] else b
  }

  /** The path exists and uses neither the ignored edge nor an edge into an
      unreachable-terminated block. */
  ghost predicate On<S(!new)>(p: Problem<S>, path: Path) {
    match path
    case AtEntry => true
    case Step(q, i) =>
      && On(p, q)
      && p.g.Has(End(p.g, q))
      && i < |p.g.Succs(End(p.g, q))|
      && p.g.Has(End(p.g, path))
      && !p.g.Term(End(p.g, path)).Unreachable?
      && p.ignored != Some(Edge(End(p.g, q), End(p.g, path)))
  }

  lemma EndExists<S(!new)>(p: Problem<S>, path: Path)
    requires p.g.WellFormed() && On(p, path)
    ensures p.g.Has(End(p.g, path))
  {
  }

  /** Whether a path exists depends on the graph and the ignored edge alone. */
  lemma {:induction false} SameOn<S(!new)>(p: Problem<S>, q: Problem<S>, path: Path)
    requires p.g == q.g && p.ignored == q.ignored
    ensures On(p, path) <==> On(q, path)
  {
    if path.Step? {
      SameOn(p, q, path.prefix);
    }
  }

  // ---- what really happens along a path ----

  /** What instruction `i` of the last block does when the path gets there. */
  type Effects<!S(!new)> = (Path, nat, S) -> S

  /** What instruction `i` of the last block makes of a state that is not bottom: a
      PHI node reads the edge the path came over, a landing pad gives bottom, and
      any other has its effect. */
  ghost function Effect<S(!new)>(
      p: Problem<S>, fx: Effects<S>, path: Path, from: set<Block>, x: S, i: nat): S
    requires p.g.Has(End(p.g, path)) && i < |p.g.Insts(End(p.g, path))|
  {
    match p.g.Insts(End(p.g, path))[i]
    case Phi => p.phi(End(p.g, path), i, from, x)
    case LandingPad => p.dom.markBottom(x)
    case Visit => fx(path, i, x)
  }

  /** The state after the first `n` instructions of the last block. */
  ghost function After<S(!new)>(
      p: Problem<S>, fx: Effects<S>, path: Path, from: set<Block>, s: S, n: nat): S
    requires p.g.Has(End(p.g, path)) && n <= |p.g.Insts(End(p.g, path))|
  {
    if n == 0 then s
    else
      var x := After(p, fx, path, from, s, n - 1);
      if p.dom.isBottom(x) then x else Effect(p, fx, path, from, x, n - 1)
  }

  ghost function AfterAll<S(!new)>(p: Problem<S>, fx: Effects<S>, path: Path, from: set<Block>, s: S): S
    requires p.g.Has(End(p.g, path))
  {
    After(p, fx, path, from, s, |p.g.Insts(End(p.g, path))|)
  }

  /** The state sent when successor number `i` of `b` is really taken. */
  ghost function Taken<S(!new)>(p: Problem<S>, b: Block, i: nat, s: S): S
    requires p.g.Has(b)
  {
    if p.g.Term(b).Branch? then p.refineBool(b, i == 0, s) else s
  }

  /** Compose the effects in each block and the branch refinements. */
  ghost function StateAtEnd<S(!new)>(p: Problem<S>, fx: Effects<S>, path: Path): S
    requires p.g.WellFormed() && On(p, path)
    decreases path, 1
  {
    EndExists(p, path);
    match path
    case AtEntry => AfterAll(p, fx, path, {}, p.initial)
    case Step(q, i) => AfterAll(p, fx, path, {End(p.g, q)}, StateOnEdge(p, fx, path))
  }

  ghost function StateOnEdge<S(!new)>(p: Problem<S>, fx: Effects<S>, path: Path): S
    requires p.g.WellFormed() && On(p, path) && path.Step?
    decreases path, 0
  {
    Taken(p, End(p.g, path.prefix), path.choice, StateAtEnd(p, fx, path.prefix))
  }

  ghost predicate Monotone<S(!new)>(d: Domain<S>, fx: Effects<S>) {
    forall path, i: nat, x, y ::
      !d.isBottom(x) && d.leq(x, y) ==> d.leq(fx(path, i, x), fx(path, i, y))
  }

  /** On the states the solver ended with, each `visit` is above the effect. */
  ghost predicate Below<S(!new)>(p: Problem<S>, states: map<Edge, S>, fx: Effects<S>)
    requires p.g.WellFormed()
  {
    forall path, i: nat {:trigger fx(path, i, p.Before(states, End(p.g, path), i))} ::
      var b := End(p.g, path);
      On(p, path) && p.g.Has(b) && i < |p.g.Insts(b)| && p.g.Insts(b)[i] == Visit ==>
        var x := p.Before(states, b, i);
        p.dom.isBottom(x) || p.dom.leq(fx(path, i, x), p.visit(b, i, x))
  }

  /** The solver's own transfers as the effects. */
  ghost function Own<S(!new)>(p: Problem<S>): Effects<S> {
    (path: Path, i: nat, s: S) => p.visit(End(p.g, path), i, s)
  }

  /** If they are monotone, path soundness speaks of their composition. */
  lemma OwnIsBelow<S(!new)>(p: Problem<S>, states: map<Edge, S>)
    requires p.g.WellFormed() && p.dom.Preorder()
    requires forall b: Block, i: nat, x, y ::
      !p.dom.isBottom(x) && p.dom.leq(x, y) ==> p.dom.leq(p.visit(b, i, x), p.visit(b, i, y))
    ensures Monotone(p.dom, Own(p)) && Below(p, states, Own(p))
  {
    var fx := Own(p);
    forall path, i: nat, x, y | !p.dom.isBottom(x) && p.dom.leq(x, y)
      ensures p.dom.leq(fx(path, i, x), fx(path, i, y))
    {
      var b := End(p.g, path);
      assert p.dom.leq(p.visit(b, i, x), p.visit(b, i, y));
    }
  }

  // ---- the paths the solver does not follow ----

  predicate BothSidesMeet(g: Cfg, b: Block) {
    g.Has(b) && g.Term(b).Branch? && g.Term(b).onTrue == g.Term(b).onFalse
  }

  /** No block of the path holds a landing pad, which would make it bottom. */
  ghost predicate NoPads(g: Cfg, path: Path) {
    && g.Has(End(g, path)) && LandingPad !in g.Insts(End(g, path))
    && (path.Step? ==> NoPads(g, path.prefix))
  }

  /** The path takes the false side of a branch whose two sides meet. */
  ghost predicate Hidden(g: Cfg, path: Path) {
    path.Step? &&
    ((path.choice == 1 && BothSidesMeet(g, End(g, path.prefix))) || Hidden(g, path.prefix))
  }

  /** The path hides a side and no landing pad ends it, so that it may be missed. */
  ghost predicate Lost(g: Cfg, path: Path) {
    Hidden(g, path) && NoPads(g, path)
  }

  lemma {:induction false} PadIsBottom<S(!new)>(
      p: Problem<S>, b: Block, n: nat, live: set<Block>, s: S)
    requires p.dom.Valid() && p.g.Has(b) && n <= |p.g.Insts(b)|
    requires p.dom.isBottom(s) || exists j :: 0 <= j < n && p.g.Insts(b)[j] == LandingPad
    ensures p.dom.isBottom(p.Exec(b, n, live, s))
  {
    if p.dom.isBottom(s) {
      ExecBottom(p, b, n, live, s);
    } else if p.g.Insts(b)[n - 1] != LandingPad {
      PadIsBottom(p, b, n - 1, live, s);
    }
  }

  /** A path that comes with bottom, or meets a landing pad, goes on with bottom. */
  lemma {:induction false} AfterPad<S(!new)>(
      p: Problem<S>, fx: Effects<S>, path: Path, from: set<Block>, s: S, n: nat)
    requires p.dom.Valid() && p.g.Has(End(p.g, path)) && n <= |p.g.Insts(End(p.g, path))|
    requires p.dom.isBottom(s) || exists j :: 0 <= j < n && p.g.Insts(End(p.g, path))[j] == LandingPad
    ensures p.dom.isBottom(After(p, fx, path, from, s, n))
  {
    if n > 0 && (p.dom.isBottom(s) || p.g.Insts(End(p.g, path))[n - 1] != LandingPad) {
      AfterPad(p, fx, path, from, s, n - 1);
    }
  }

  lemma {:induction false} PathWithPadIsBottom<S(!new)>(p: Problem<S>, fx: Effects<S>, path: Path)
    requires p.Valid() && On(p, path) && !NoPads(p.g, path)
    ensures p.dom.isBottom(StateAtEnd(p, fx, path))
  {
    EndExists(p, path);
    var n := |p.g.Insts(End(p.g, path))|;
    match path
    case AtEntry =>
      AfterPad(p, fx, path, {}, p.initial, n);
    case Step(q, i) =>
      if !NoPads(p.g, q) {
        PathWithPadIsBottom(p, fx, q);
      }
      AfterPad(p, fx, path, {End(p.g, q)}, StateOnEdge(p, fx, path), n);
  }

  // ---- soundness ----

  /** The refinement by the side taken is below the one the solver applied. */
  lemma TakenIsBelowSent<S(!new)>(p: Problem<S>, b: Block, i: nat, x: S, y: S)
    requires p.Valid() && p.g.Has(b) && i < |p.g.Succs(b)| && p.dom.leq(x, y)
    requires !(BothSidesMeet(p.g, b) && i == 1)
    ensures p.dom.leq(Taken(p, b, i, x), p.Sent(b, p.g.Succs(b)[i], y))
  {
    if p.g.Term(b).Branch? {
      var v := p.g.Term(b).onTrue == p.g.Succs(b)[i];
      assert p.dom.leq(p.refineBool(b, v, x), p.refineBool(b, v, y));
    }
  }

  /** One instruction with its effect on `x`, and the solver's with `z` above. */
  lemma StepIsBelow<S(!new)>(
      p: Problem<S>, fx: Effects<S>, path: Path, i: nat, l: set<Block>, m: set<Block>, x: S, z: S)
    requires p.Valid() && Monotone(p.dom, fx) && p.g.Has(End(p.g, path)) && i < |p.g.Insts(End(p.g, path))|
    requires !p.dom.isBottom(x) && p.dom.leq(x, z)
    requires l <= m && (l != {} || Phi !in p.g.Insts(End(p.g, path)))
    requires p.g.Insts(End(p.g, path))[i] == Visit ==>
               p.dom.isBottom(z) || p.dom.leq(fx(path, i, z), p.visit(End(p.g, path), i, z))
    ensures p.dom.leq(Effect(p, fx, path, l, x, i), p.StepInst(End(p.g, path), i, m, z))
  {
    var b := End(p.g, path);
    assert !p.dom.isBottom(z);
    match p.g.Insts(b)[i]
    case Phi => assert p.dom.leq(p.phi(b, i, l, x), p.phi(b, i, m, z));
    case LandingPad =>
    case Visit => assert p.dom.leq(fx(path, i, x), fx(path, i, z));
  }

  lemma VisitIsAbove<S(!new)>(p: Problem<S>, states: map<Edge, S>, fx: Effects<S>, path: Path, i: nat)
    requires p.g.WellFormed() && On(p, path) && Below(p, states, fx)
    requires p.g.Has(End(p.g, path)) && i < |p.g.Insts(End(p.g, path))| && p.g.Insts(End(p.g, path))[i] == Visit
    ensures var z := p.Before(states, End(p.g, path), i);
            p.dom.isBottom(z) || p.dom.leq(fx(path, i, z), p.visit(End(p.g, path), i, z))
  {
  }

  lemma AfterNextIsBelow<S(!new)>(
      p: Problem<S>, states: map<Edge, S>, fx: Effects<S>, path: Path, l: set<Block>, x: S, i: nat)
    requires p.Valid() && On(p, path) && Monotone(p.dom, fx) && Below(p, states, fx)
    requires p.g.Has(End(p.g, path)) && i < |p.g.Insts(End(p.g, path))|
    requires l <= p.Live(states, End(p.g, path)) && (l != {} || Phi !in p.g.Insts(End(p.g, path)))
    requires p.dom.leq(x, p.Before(states, End(p.g, path), i))
    ensures p.dom.leq(if p.dom.isBottom(x) then x else Effect(p, fx, path, l, x, i),
                      p.Before(states, End(p.g, path), i + 1))
  {
    var b := End(p.g, path);
    if !p.dom.isBottom(x) {
      if p.g.Insts(b)[i] == Visit {
        VisitIsAbove(p, states, fx, path, i);
      }
      StepIsBelow(p, fx, path, i, l, p.Live(states, b), x, p.Before(states, b, i));
    }
  }

  /** The effects in the last block stay below what the solver computed there. */
  lemma {:induction false} AfterIsBelow<S(!new)>(
      p: Problem<S>, states: map<Edge, S>, fx: Effects<S>, path: Path, l: set<Block>, s: S, n: nat)
    requires p.Valid() && On(p, path) && Monotone(p.dom, fx) && Below(p, states, fx)
    requires p.g.Has(End(p.g, path)) && p.dom.leq(s, p.Input(states, End(p.g, path)))
    requires l <= p.Live(states, End(p.g, path)) && (l != {} || Phi !in p.g.Insts(End(p.g, path)))
    requires n <= |p.g.Insts(End(p.g, path))|
    ensures p.dom.leq(After(p, fx, path, l, s, n), p.Before(states, End(p.g, path), n))
  {
    if n > 0 {
      AfterIsBelow(p, states, fx, path, l, s, n - 1);
      AfterNextIsBelow(p, states, fx, path, l, After(p, fx, path, l, s, n - 1), n - 1);
    }
  }

  /** Entering the last block from `q` with a state below the edge state. */
  lemma EnterIsBelow<S(!new)>(
      p: Problem<S>, states: map<Edge, S>, fx: Effects<S>, path: Path, q: Block, s: S)
    requires p.Valid() && On(p, path) && Monotone(p.dom, fx) && Below(p, states, fx)
    requires p.g.Has(End(p.g, path)) && q in p.g.preds[End(p.g, path)]
    requires var e := Edge(q, End(p.g, path));
             p.ignored != Some(e) && e in states && p.dom.leq(s, states[e])
    ensures p.dom.leq(AfterAll(p, fx, path, {q}, s), p.Output(states, End(p.g, path)))
  {
    var b := End(p.g, path);
    if p.dom.isBottom(s) {
      AfterPad(p, fx, path, {q}, s, |p.g.Insts(b)|);
    } else {
      InputIsAbove(p, states, b, q);
      AfterIsBelow(p, states, fx, path, {q}, s, |p.g.Insts(b)|);
    }
  }

  /** At an empty worklist the blocks of any path are processed. */
  lemma {:induction false} PathIsDone<S(!new)>(p: Problem<S>, f: Flow<S>, done: set<Block>, path: Path)
    requires Inv(p, f, done) && f.worklist == [] && On(p, path)
    ensures End(p.g, path) in done && Settled(p, f, End(p.g, path))
    ensures path.Step? ==> Edge(End(p.g, path.prefix), End(p.g, path)) in f.states
  {
    if path.Step? {
      PathIsDone(p, f, done, path.prefix);
    }
  }

  /** Path soundness: at an empty worklist, a path that hides no side is below
      the state on its last edge, and below the output of its last block. */
  lemma {:induction false} PathIsCovered<S(!new)>(
      p: Problem<S>, f: Flow<S>, done: set<Block>, fx: Effects<S>, path: Path)
    requires p.Valid() && Inv(p, f, done) && f.worklist == []
    requires Monotone(p.dom, fx) && Below(p, f.states, fx)
    requires On(p, path) && !Hidden(p.g, path)
    ensures End(p.g, path) in done
    ensures p.dom.leq(StateAtEnd(p, fx, path), p.Output(f.states, End(p.g, path)))
    ensures path.Step? ==>
      var e := Edge(End(p.g, path.prefix), End(p.g, path));
      e in f.states && p.dom.leq(StateOnEdge(p, fx, path), f.states[e])
  {
    PathIsDone(p, f, done, path);
    var b := End(p.g, path);
    match path {
      case AtEntry =>
        AfterIsBelow(p, f.states, fx, path, {}, p.initial, |p.g.Insts(b)|);
      case Step(q, i) =>
        PathIsCovered(p, f, done, fx, q);
        PathIsDone(p, f, done, q);
        var c := End(p.g, q);
        TakenIsBelowSent(p, c, i, StateAtEnd(p, fx, q), p.Output(f.states, c));
        p.g.PredIffSucc(c, b);
        EnterIsBelow(p, f.states, fx, path, c, StateOnEdge(p, fx, path));
    }
  }

  /** Every path that is not lost before its last edge is below the state there. */
  lemma EdgeCoversPath<S(!new)>(
      p: Problem<S>, f: Flow<S>, done: set<Block>, fx: Effects<S>, path: Path)
    requires p.Valid() && Inv(p, f, done) && f.worklist == []
    requires Monotone(p.dom, fx) && Below(p, f.states, fx)
    requires On(p, path) && path.Step? && !(Hidden(p.g, path) && NoPads(p.g, path.prefix))
    ensures var e := Edge(End(p.g, path.prefix), End(p.g, path));
            e in f.states && p.dom.leq(StateOnEdge(p, fx, path), f.states[e])
  {
    PathIsDone(p, f, done, path);
    if Hidden(p.g, path) {
      PathWithPadIsBottom(p, fx, path.prefix);
    } else {
      PathIsCovered(p, f, done, fx, path);
    }
  }

  /** Every path to an exit that is not lost is below the exit state. */
  lemma ExitCoversPath<S(!new)>(
      p: Problem<S>, f: Flow<S>, done: set<Block>, fx: Effects<S>, path: Path)
    requires p.Valid() && Inv(p, f, done) && f.worklist == []
    requires Monotone(p.dom, fx) && Below(p, f.states, fx)
    requires On(p, path) && !Lost(p.g, path)
    requires p.g.Has(End(p.g, path)) && p.g.Succs(End(p.g, path)) == []
    ensures var b := End(p.g, path);
            b in f.exits && p.dom.leq(StateAtEnd(p, fx, path), f.exits[b])
  {
    PathIsDone(p, f, done, path);
    if Hidden(p.g, path) {
      PathWithPadIsBottom(p, fx, path);
    } else {
      PathIsCovered(p, f, done, fx, path);
    }
  }

  // ---- the function's result ----

  lemma {:induction false} ExitIsBelowResult<S(!new)>(
      p: Problem<S>, exits: map<Block, S>, order: seq<Block>, b: Block)
    requires p.Valid() && b in order && forall c :: c in order ==> c in exits
    ensures p.dom.leq(p.Returned(b, exits[b]), MergeExits(p, exits, order))
  {
    var n := |order| - 1;
    if n > 0 {
      var last := p.Returned(order[n], exits[order[n]]);
      var rest := MergeExits(p, exits, order[..n]);
      assert p.dom.leq(rest, p.dom.merge(rest, last)) && p.dom.leq(last, p.dom.merge(rest, last));
      if b != order[n] {
        ExitIsBelowResult(p, exits, order[..n], b);
      }
    }
  }

  /** `r` covers what the path hands back to the caller. */
  ghost predicate CoveredBy<S(!new)>(p: Problem<S>, fx: Effects<S>, path: Path, r: S)
    requires p.g.WellFormed() && On(p, path)
  {
    var s := StateAtEnd(p, fx, path);
    p.dom.isBottom(s) || p.dom.leq(if p.isVoid then s else p.addReturn(End(p.g, path), s), r)
  }

  /** The path ends at a return or a resume. */
  ghost predicate Complete<S(!new)>(p: Problem<S>, path: Path)
    requires p.g.WellFormed()
  {
    && On(p, path)
    && p.g.Has(End(p.g, path))
    && (p.g.Term(End(p.g, path)).Return? || p.g.Term(End(p.g, path)).Resume?)
  }

  /** getResult is above every complete path that is not lost. */
  lemma ResultCoversPath<S(!new)>(
      p: Problem<S>, f: Flow<S>, order: seq<Block>, fx: Effects<S>, path: Path)
    requires p.Valid() && Stopped(p, f)
    requires Collected(p, f.exits, {}, order) && forall b :: b in order ==> b in f.exits
    requires Monotone(p.dom, fx) && Below(p, f.states, fx)
    requires Complete(p, path) && !Lost(p.g, path)
    ensures CoveredBy(p, fx, path, MergeExits(p, f.exits, order))
  {
    var done :| Inv(p, f, done);
    ExitCoversPath(p, f, done, fx, path);
    var b := End(p.g, path);
    var s := StateAtEnd(p, fx, path);
    if !p.dom.isBottom(s) {
      assert ReturnsFrom(p, f.exits, b);
      ExitIsBelowResult(p, f.exits, order, b);
      assert p.isVoid || p.dom.leq(p.addReturn(b, s), p.addReturn(b, f.exits[b]));
    }
  }
}
