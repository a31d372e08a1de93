/**
 The two engines together: when the driver exits, every sequence of calls along
 paths of the methods' control-flow graphs starts each call in a state that is
 below some analysed one.
 */
module EndToEnd {
  import opened Wrappers
  import opened ControlFlow
  import opened SolverSpec
  import opened Fixpoint
  import opened PathSoundness
  import opened EdgeSplitting
  import opened SharedStates
  import opened Closure
  import opened CallSequences

  /** The methods' own problems, and the outcome of each of their runs. */
  datatype Analyses<!M(!new), !S(!new)> = Analyses(
    problem: M -> Problem<S>,
    outcome: (M, nat, S) -> Outcome<S>
  )

  /** The single exit of `g` when getIgnoredEdges splits it. */
  ghost predicate IsSplit(g: Cfg) {
    exists e: Block :: Splits(g, e)
  }

  ghost function SplitAt(g: Cfg): (e: Block)
    requires IsSplit(g)
    ensures Splits(g, e)
  {
    var e: Block :| Splits(g, e);
    e
  }

  /** The problem of run `r` of a method whose initial state is `s`. */
  ghost function RunProblem<S(!new)>(p: Problem<S>, r: nat, s: S): Problem<S>
    requires r < 2
  {
    var q := p.(initial := s);
    if IsSplit(p.g) then Split(q, SplitAt(p.g), r) else q.(ignored := None)
  }

  /** From the states taken, the results the driver works with are those of
      stopped solvers, one run for each ignored edge. */
  ghost predicate Implements<M(!new), S(!new)>(
      prog: Program<M, S>, a: Analyses<M, S>, complete: map<M, seq<S>>)
  {
    && (forall m :: m in prog.methods ==>
          && a.problem(m).Valid()
          && a.problem(m).dom == prog.dom
          && prog.runs(m) == if IsSplit(a.problem(m).g) then 2 else 1)
    && (forall m, r: nat, s {:trigger prog.result(m, r, s)} ::
          m in prog.methods && r < prog.runs(m) && s in At(complete, m) ==>
            && r < 2
            && IsOutcome(RunProblem(a.problem(m), r, s), a.outcome(m, r, s))
            && prog.result(m, r, s) == ResultOf(RunProblem(a.problem(m), r, s), a.outcome(m, r, s)))
  }

  /** The one exit of `g` is not entered twice from the same block. */
  ghost predicate FinalEdgesDiffer(g: Cfg) {
    forall e: Block :: Splits(g, e) ==> Final(g, e, 0) != Final(g, e, 1)
  }

  // ---- paths as behaviours ----

  /** A path with what the instructions on it do. */
  datatype Execution<!S(!new)> = Execution(path: Path, fx: Effects<S>)

  ghost function Whole<S(!new)>(p: Problem<S>, s: S): Problem<S> {
    p.(initial := s, ignored := None)
  }

  ghost predicate Executes<S(!new)>(p: Problem<S>, x: Execution<S>) {
    p.g.WellFormed() && Complete(p.(ignored := None), x.path) && !Lost(p.g, x.path) && Monotone(p.dom, x.fx)
  }

  /** In each run from a state taken, the transfers are above the effects. */
  ghost predicate RunsAreAbove<M(!new), S(!new)>(
      prog: Program<M, S>, a: Analyses<M, S>, complete: map<M, seq<S>>, m: M, x: Execution<S>)
  {
    forall r: nat, s {:trigger prog.result(m, r, s)} ::
      r < prog.runs(m) && r < 2 && s in At(complete, m) ==>
        var p := RunProblem(a.problem(m), r, s);
        p.g.WellFormed() && Below(p, a.outcome(m, r, s).flow.states, x.fx)
  }

  /** What the caller gets back along a path; bottom when it cannot be taken. */
  ghost function PathEffect<S(!new)>(p: Problem<S>, x: Execution<S>, s: S): S {
    if !Executes(p, x) then p.dom.bottom
    else
      SameOn(p.(ignored := None), Whole(p, s), x.path);
      var out := StateAtEnd(Whole(p, s), x.fx, x.path);
      if p.dom.isBottom(out) || p.isVoid then out else p.addReturn(End(p.g, x.path), out)
  }

  ghost function PathBehaviour<M(!new), S(!new)>(
      prog: Program<M, S>, a: Analyses<M, S>, complete: map<M, seq<S>>): Behaviour<M, Execution<S>, S>
  {
    Behaviour(
      (m: M, x: Execution<S>) =>
        FinalEdgesDiffer(a.problem(m).g) && Executes(a.problem(m), x) && RunsAreAbove(prog, a, complete, m, x),
      (m: M, x: Execution<S>, s: S) => PathEffect(a.problem(m), x, s))
  }

  lemma {:induction false} StateIsMonotone<S(!new)>(p: Problem<S>, fx: Effects<S>, path: Path, s: S, t: S)
    requires p.Valid() && Monotone(p.dom, fx) && p.dom.leq(s, t)
    requires On(Whole(p, s), path) && On(Whole(p, t), path)
    ensures p.dom.leq(StateAtEnd(Whole(p, s), fx, path), StateAtEnd(Whole(p, t), fx, path))
  {
    var ps, pt := Whole(p, s), Whole(p, t);
    EndExists(ps, path);
    var n := |p.g.Insts(End(p.g, path))|;
    match path
    case AtEntry => AfterIsMonotone(ps, pt, fx, path, {}, s, t, n);
    case Step(q, i) =>
      StateIsMonotone(p, fx, q, s, t);
      TakenIsMonotone(pt, End(p.g, q), i, StateAtEnd(ps, fx, q), StateAtEnd(pt, fx, q));
      AfterIsMonotone(ps, pt, fx, path, {End(p.g, q)}, StateOnEdge(ps, fx, path), StateOnEdge(pt, fx, path), n);
  }

  lemma TakenIsMonotone<S(!new)>(p: Problem<S>, b: Block, i: nat, x: S, y: S)
    requires p.Valid() && p.g.Has(b) && p.dom.leq(x, y)
    ensures p.dom.leq(Taken(p, b, i, x), Taken(p, b, i, y))
  {
    assert p.dom.leq(p.refineBool(b, i == 0, x), p.refineBool(b, i == 0, y));
  }

  /** Going through the last block keeps the order of two states. */
  lemma {:induction false} AfterIsMonotone<S(!new)>(
      p: Problem<S>, q: Problem<S>, fx: Effects<S>, path: Path, l: set<Block>, x: S, y: S, n: nat)
    requires p.Valid() && SameBody(p, q) && Monotone(p.dom, fx) && p.dom.leq(x, y)
    requires p.g.Has(End(p.g, path)) && n <= |p.g.Insts(End(p.g, path))|
    requires l != {} || Phi !in p.g.Insts(End(p.g, path))
    ensures p.dom.leq(After(p, fx, path, l, x, n), After(q, fx, path, l, y, n))
  {
    if n > 0 {
      AfterIsMonotone(p, q, fx, path, l, x, y, n - 1);
      var b := End(p.g, path);
      var u, v := After(p, fx, path, l, x, n - 1), After(q, fx, path, l, y, n - 1);
      if !p.dom.isBottom(u) {
        assert !p.dom.isBottom(v);
        match p.g.Insts(b)[n - 1]
        case Phi => assert p.dom.leq(p.phi(b, n - 1, l, u), p.phi(b, n - 1, l, v));
        case LandingPad =>
        case Visit => assert p.dom.leq(fx(path, n - 1, u), fx(path, n - 1, v));
      }
    }
  }

  lemma PathEffectIsMonotone<S(!new)>(p: Problem<S>, x: Execution<S>, s: S, t: S)
    requires p.Valid() && Executes(p, x) && p.dom.leq(s, t)
    ensures p.dom.leq(PathEffect(p, x, s), PathEffect(p, x, t))
  {
    SameOn(p.(ignored := None), Whole(p, s), x.path);
    SameOn(p.(ignored := None), Whole(p, t), x.path);
    StateIsMonotone(p, x.fx, x.path, s, t);
    var a, b := StateAtEnd(Whole(p, s), x.fx, x.path), StateAtEnd(Whole(p, t), x.fx, x.path);
    assert p.dom.isBottom(a) || p.isVoid
        || p.dom.leq(p.addReturn(End(p.g, x.path), a), p.addReturn(End(p.g, x.path), b));
  }

  /** A method that is analysed twice: one of the two runs is above the path. */
  lemma SplitRunCoversPath<M(!new), S(!new)>(
      prog: Program<M, S>, a: Analyses<M, S>, complete: map<M, seq<S>>, m: M, x: Execution<S>, s: S)
      returns (r: nat)
    requires Implements(prog, a, complete) && FinalEdgesDiffer(a.problem(m).g) && m in prog.methods
    requires s in At(complete, m) && RunsAreAbove(prog, a, complete, m, x)
    requires Executes(a.problem(m), x) && IsSplit(a.problem(m).g)
    ensures r < 2 && On(Whole(a.problem(m), s), x.path)
    ensures CoveredBy(Whole(a.problem(m), s), x.fx, x.path, prog.result(m, r, s))
  {
    var p := a.problem(m).(initial := s);
    SameOn(a.problem(m).(ignored := None), Whole(a.problem(m), s), x.path);
    var e := SplitAt(p.g);
    var o := [a.outcome(m, 0, s), a.outcome(m, 1, s)];
    forall k: nat | k < 2
      ensures RunProblem(a.problem(m), k, s) == Split(p, e, k)
      ensures IsOutcome(Split(p, e, k), o[k]) && prog.result(m, k, s) == ResultOf(Split(p, e, k), o[k])
      ensures Below(Split(p, e, k), o[k].flow.states, x.fx)
    {
      var result := prog.result(m, k, s);
    }
    SplitRunsCoverPath(p, e, o, x.fx, x.path);
    r :| r < 2 && CoveredBy(p.(ignored := None), x.fx, x.path, ResultOf(Split(p, e, r), o[r]));
  }

  /** A method that is analysed once. */
  lemma WholeRunCoversPath<M(!new), S(!new)>(
      prog: Program<M, S>, a: Analyses<M, S>, complete: map<M, seq<S>>, m: M, x: Execution<S>, s: S)
    requires Implements(prog, a, complete) && m in prog.methods
    requires s in At(complete, m) && RunsAreAbove(prog, a, complete, m, x)
    requires Executes(a.problem(m), x) && !IsSplit(a.problem(m).g)
    ensures On(Whole(a.problem(m), s), x.path)
    ensures CoveredBy(Whole(a.problem(m), s), x.fx, x.path, prog.result(m, 0, s))
  {
    var q := Whole(a.problem(m), s);
    SameOn(a.problem(m).(ignored := None), Whole(a.problem(m), s), x.path);
    var o := a.outcome(m, 0, s);
    var result := prog.result(m, 0, s);
    assert RunProblem(a.problem(m), 0, s) == q;
    ResultCoversPath(q, o.flow, o.order, x.fx, x.path);
  }

  /** One of the runs is above the path, split or not. */
  lemma RunCoversPath<M(!new), S(!new)>(
      prog: Program<M, S>, a: Analyses<M, S>, complete: map<M, seq<S>>, m: M, x: Execution<S>, s: S)
      returns (r: nat)
    requires Implements(prog, a, complete) && FinalEdgesDiffer(a.problem(m).g) && m in prog.methods
    requires s in At(complete, m) && RunsAreAbove(prog, a, complete, m, x)
    requires Executes(a.problem(m), x) && !prog.dom.isBottom(PathEffect(a.problem(m), x, s))
    ensures r < prog.runs(m) && prog.dom.leq(PathEffect(a.problem(m), x, s), prog.result(m, r, s))
  {
    if IsSplit(a.problem(m).g) {
      r := SplitRunCoversPath(prog, a, complete, m, x, s);
    } else {
      r := 0;
      WholeRunCoversPath(prog, a, complete, m, x, s);
    }
  }

  /** When the driver exits, in any interleaving, every sequence of calls along
      complete paths starts its next call below an analysed state. */
  lemma ExitCoversPathSequences<M(!new), S(!new)>(
      prog: Program<M, S>, a: Analyses<M, S>, xs: seq<System<M, S>>, complete: map<M, seq<S>>,
      calls: seq<Call<M, Execution<S>>>, next: M)
    requires prog.Valid() && HandoverIsMonotone(prog)
    requires IsTrace(prog, xs) && xs[|xs| - 1].driver.Exited?
    requires complete == xs[|xs| - 1].shared.complete && Implements(prog, a, complete)
    requires Returns(prog, PathBehaviour(prog, a, complete), calls) && next in prog.methods
    ensures Subsumed(prog.dom, Reached(prog, PathBehaviour(prog, a, complete), calls, next), At(complete, next))
  {
    var b := PathBehaviour(prog, a, complete);
    forall m, x, s | m in prog.methods && s in At(complete, m) && b.happens(m, x) && !prog.dom.isBottom(b.effect(m, x, s))
      ensures exists r: nat :: r < prog.runs(m) && prog.dom.leq(b.effect(m, x, s), prog.result(m, r, s))
    {
      var r := RunCoversPath(prog, a, complete, m, x, s);
    }
    forall m, x, s, t | m in prog.methods && b.happens(m, x) && prog.dom.leq(s, t)
      ensures prog.dom.leq(b.effect(m, x, s), b.effect(m, x, t))
    {
      PathEffectIsMonotone(a.problem(m), x, s, t);
    }
    ExitCoversSequences(prog, b, xs, calls, next);
  }
}
