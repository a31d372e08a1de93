/**
 Executions across calls: a path through a function together with an execution
 of the callee for each call on it. The solver's proofs ask what a call really
 does to be below what its nested analysis computed; here that is proved, by
 induction over the calls, so a result covers whole trees of calls.
 */
module CallTraces {
  import opened Wrappers
  import opened ControlFlow
  import opened SolverSpec
  import opened Solver
  import opened PathSoundness
  import opened ParentChain
  import opened Interprocedural
  import opened SharedStates
  import opened Closure
  import opened CallSequences
  import opened EndToEnd

  /** A path through `f`, and how each instruction on it went: a call entered a
      function and followed a trace there, an ordinary instruction has none. An
      instruction without an entry is not passed. */
  datatype Trace = Trace(f: Func, path: Path, calls: map<(Path, nat), Option<Trace>>)

  /** The instruction entered a function with a body that is not on the chain. */
  predicate Enters<S(!new)>(c: Functions<S>, frame: Frame, x: Trace, k: (Path, nat)) {
    k in x.calls && x.calls[k].Some? && x.calls[k].value.f in c.funcs && !frame.IsRecursive(x.calls[k].value.f)
  }

  function Entered<S(!new)>(c: Functions<S>, frame: Frame, x: Trace, k: (Path, nat)): Option<Func> {
    if Enters(c, frame, x, k) then Some(x.calls[k].value.f) else None
  }

  /** Every path, here and in the callees, is complete and not lost. */
  ghost predicate Follows<S(!new)>(c: Functions<S>, frame: Frame, x: Trace)
    requires frame.Guarded(c.funcs)
    decreases x
  {
    var p := c.body(frame.f).(ignored := None);
    && x.f == frame.f
    && p.g.WellFormed() && Complete(p, x.path) && !Lost(p.g, x.path)
    && forall k :: Enters(c, frame, x, k) ==>
         Follows(c, Nested(x.calls[k].value.f, frame), x.calls[k].value)
  }

  /** What instruction `i` does at the end of path `q`: a call enters the callee,
      follows its trace, and comes back with what that returns. */
  ghost function Happens<S(!new)>(c: Functions<S>, frame: Frame, x: Trace, q: Path, i: nat, s: S): S
    requires frame.Guarded(c.funcs)
    decreases x, 0
  {
    var b := End(c.body(frame.f).g, q);
    if (q, i) !in x.calls then c.dom.bottom
    else if Enters(c, frame, x, (q, i)) then
      var sub := x.calls[(q, i)].value;
      ComeBack(c, frame, b, i, sub.f, Returned(c, Nested(sub.f, frame), sub, c.enter(frame.f, b, i, sub.f, s)))
    else c.body(frame.f).visit(b, i, s)
  }

  /** The caller sees what the callee returned, if it did. */
  ghost function ComeBack<S(!new)>(
      c: Functions<S>, frame: Frame, b: Block, i: nat, g: Func, out: S): S {
    if c.dom.isBottom(out) then out else c.leave(frame.f, b, i, g, out)
  }

  ghost function Real<S(!new)>(c: Functions<S>, frame: Frame, x: Trace): (fx: Effects<S>)
    requires frame.Guarded(c.funcs)
    ensures forall q, i, s :: fx(q, i, s) == Happens(c, frame, x, q, i, s)
    decreases x, 1
  {
    (q: Path, i: nat, s: S) => Happens(c, frame, x, q, i, s)
  }

  /** What following the trace from state `s` hands back to the caller. */
  ghost function Returned<S(!new)>(c: Functions<S>, frame: Frame, x: Trace, s: S): S
    requires frame.Guarded(c.funcs)
    decreases x, 2
  {
    PathEffect(c.Base(frame), Execution(x.path, Real(c, frame, x)), s)
  }

  // ---- monotonicity of what happens ----

  lemma BaseIsValid<S(!new)>(c: Functions<S>, frame: Frame)
    requires c.Valid() && frame.Guarded(c.funcs)
    ensures c.Base(frame).Valid() && c.Base(frame).dom == c.dom
    ensures c.Base(frame).g == c.body(frame.f).g
  {
    c.AnalysisIsValid(frame, c.Base(frame).ignored, c.Base(frame).initial);
  }

  lemma ReturnedIsMonotone<S(!new)>(c: Functions<S>, frame: Frame, x: Trace, s: S, t: S)
    requires c.Valid() && frame.Guarded(c.funcs) && c.dom.leq(s, t)
    ensures c.dom.leq(Returned(c, frame, x, s), Returned(c, frame, x, t))
  {
    BaseIsValid(c, frame);
    var way := Execution(x.path, Real(c, frame, x));
    if Executes(c.Base(frame), way) {
      PathEffectIsMonotone(c.Base(frame), way, s, t);
    }
  }

  lemma ComeBackIsMonotone<S(!new)>(c: Functions<S>, frame: Frame, b: Block, i: nat, g: Func, s: S, t: S)
    requires c.Valid() && c.dom.leq(s, t)
    ensures c.dom.leq(ComeBack(c, frame, b, i, g, s), ComeBack(c, frame, b, i, g, t))
  {
  }

  lemma HappensIsMonotone<S(!new)>(c: Functions<S>, frame: Frame, x: Trace, q: Path, i: nat, s: S, t: S)
    requires c.Valid() && frame.Guarded(c.funcs) && !c.dom.isBottom(s) && c.dom.leq(s, t)
    ensures c.dom.leq(Happens(c, frame, x, q, i, s), Happens(c, frame, x, q, i, t))
  {
    var b := End(c.body(frame.f).g, q);
    if Enters(c, frame, x, (q, i)) {
      var sub := x.calls[(q, i)].value;
      var inside := Nested(sub.f, frame);
      var es, et := c.enter(frame.f, b, i, sub.f, s), c.enter(frame.f, b, i, sub.f, t);
      ReturnedIsMonotone(c, inside, sub, es, et);
      ComeBackIsMonotone(c, frame, b, i, sub.f, Returned(c, inside, sub, es), Returned(c, inside, sub, et));
    } else {
      assert c.BodyIsValid(frame.f);
    }
  }

  lemma RealIsMonotone<S(!new)>(c: Functions<S>, frame: Frame, x: Trace)
    requires c.Valid() && frame.Guarded(c.funcs)
    ensures Monotone(c.dom, Real(c, frame, x))
  {
    var fx := Real(c, frame, x);
    forall q, i: nat, s, t | !c.dom.isBottom(s) && c.dom.leq(s, t)
      ensures c.dom.leq(fx(q, i, s), fx(q, i, t))
    {
      HappensIsMonotone(c, frame, x, q, i, s, t);
    }
  }

  // ---- the functions the analysis enters ----

  /** From the states it ended with, the analysis resolves each call of the trace
      to the function that was entered, and so do the analyses nested in it. */
  ghost predicate Resolves<S(!new)>(
      c: Functions<S>, frame: Frame, ignored: Option<Edge>, s: S, rs: seq<Progress<S>>, x: Trace)
    requires frame.Guarded(c.funcs) && rs != []
    decreases x, 1
  {
    var p := c.Analysis(frame, ignored, s);
    p.g.WellFormed() &&
    forall k :: k in x.calls && On(p, k.0) ==>
      var b := End(p.g, k.0);
      p.g.Has(b) && k.1 < |p.g.Insts(b)| && p.g.Insts(b)[k.1] == Visit ==>
        var z := p.Before(Last(rs).flow.states, b, k.1);
        p.dom.isBottom(z) || CallResolves(c, frame, k, z, x)
  }

  ghost predicate CallResolves<S(!new)>(c: Functions<S>, frame: Frame, k: (Path, nat), z: S, x: Trace)
    requires frame.Guarded(c.funcs) && k in x.calls
    decreases x, 0
  {
    var b := End(c.body(frame.f).g, k.0);
    && c.Target(frame, b, k.1, z) == Entered(c, frame, x, k)
    && (Enters(c, frame, x, k) ==>
          var sub := x.calls[k].value;
          var inside := Nested(sub.f, frame);
          var es := c.enter(frame.f, b, k.1, sub.f, z);
          forall ts :: c.Halts(inside, None, es, ts) ==> Resolves(c, inside, None, es, ts, sub))
  }

  /** Whatever the state, each call of the trace is one of the function entered: so
      for direct calls, whose function is fixed. */
  ghost predicate EntersFixed<S(!new)>(c: Functions<S>, frame: Frame, x: Trace)
    requires frame.Guarded(c.funcs)
    decreases x
  {
    forall k :: k in x.calls ==>
      && (forall z :: c.Target(frame, End(c.body(frame.f).g, k.0), k.1, z) == Entered(c, frame, x, k))
      && (Enters(c, frame, x, k) ==>
            EntersFixed(c, Nested(x.calls[k].value.f, frame), x.calls[k].value))
  }

  /** Then every analysis resolves it. */
  lemma {:induction false} FixedResolves<S(!new)>(
      c: Functions<S>, frame: Frame, ignored: Option<Edge>, s: S, rs: seq<Progress<S>>, x: Trace)
    requires c.Valid() && frame.Guarded(c.funcs) && rs != [] && EntersFixed(c, frame, x)
    ensures Resolves(c, frame, ignored, s, rs, x)
    decreases x
  {
    c.AnalysisIsValid(frame, ignored, s);
    forall k, z | k in x.calls
      ensures CallResolves(c, frame, k, z, x)
    {
      if Enters(c, frame, x, k) {
        var sub := x.calls[k].value;
        var inside := Nested(sub.f, frame);
        var es := c.enter(frame.f, End(c.body(frame.f).g, k.0), k.1, sub.f, z);
        forall ts | c.Halts(inside, None, es, ts)
          ensures Resolves(c, inside, None, es, ts, sub)
        {
          FixedResolves(c, inside, None, es, ts, sub);
        }
      }
    }
  }

  // ---- soundness, by induction over the tree of calls ----

  /** handleCall adopts the nested result as the caller really would. */
  lemma ComeBackIsBelow<S(!new)>(c: Functions<S>, frame: Frame, b: Block, i: nat, s: S, g: Func, out: S)
    requires c.Valid() && frame.Guarded(c.funcs) && c.Target(frame, b, i, s) == Some(g) && !c.NeverReturns(g)
    requires c.dom.leq(out, c.Result(Nested(g, frame), c.enter(frame.f, b, i, g, s)))
    ensures c.dom.leq(ComeBack(c, frame, b, i, g, out), c.HandleCall(frame, b, i, s))
  {
    ComeBackIsMonotone(c, frame, b, i, g, out, c.Result(Nested(g, frame), c.enter(frame.f, b, i, g, s)));
  }

  /** A call that really happens is below its nested analysis, if that is of the
      same function. */
  lemma {:induction false} HappensIsBelow<S(!new)>(
      c: Functions<S>, frame: Frame, x: Trace, q: Path, i: nat, s: S)
    requires c.Valid() && frame.Guarded(c.funcs) && Follows(c, frame, x) && !c.dom.isBottom(s)
    requires c.CallHalts(frame, End(c.body(frame.f).g, q), i, s)
    requires (q, i) in x.calls ==> CallResolves(c, frame, (q, i), s, x)
    ensures c.dom.leq(Happens(c, frame, x, q, i, s), c.HandleCall(frame, End(c.body(frame.f).g, q), i, s))
    decreases x, 0
  {
    var b := End(c.body(frame.f).g, q);
    if Enters(c, frame, x, (q, i)) {
      var sub := x.calls[(q, i)].value;
      var inside := Nested(sub.f, frame);
      if c.NeverReturns(sub.f) {
        SkippedCallHasNoTrace(c, inside, sub);
      } else {
        var es := c.enter(frame.f, b, i, sub.f, s);
        var rs :| c.Halts(inside, None, es, rs);
        ReturnedIsBelow(c, inside, sub, es, rs);
        ComeBackIsBelow(c, frame, b, i, s, sub.f, Returned(c, inside, sub, es));
      }
    }
  }

  /** Nothing follows a function whose entry block ends in unreachable. */
  lemma SkippedCallHasNoTrace<S(!new)>(c: Functions<S>, frame: Frame, x: Trace)
    requires frame.Guarded(c.funcs) && c.NeverReturns(frame.f)
    ensures !Follows(c, frame, x)
  {
    if Follows(c, frame, x) {
      NothingLeavesEntry(c.body(frame.f).(ignored := None), x.path);
    }
  }

  lemma {:induction false} NothingLeavesEntry<S(!new)>(p: Problem<S>, path: Path)
    requires p.g.WellFormed() && p.g.Term(ENTRY).Unreachable? && On(p, path)
    ensures path == AtEntry
  {
    if path.Step? {
      NothingLeavesEntry(p, path.prefix);
    }
  }

  lemma {:induction false} TraceIsBelow<S(!new)>(
      c: Functions<S>, frame: Frame, ignored: Option<Edge>, s: S, rs: seq<Progress<S>>, x: Trace)
    requires c.Valid() && frame.Guarded(c.funcs) && Follows(c, frame, x)
    requires c.Halts(frame, ignored, s, rs) && Resolves(c, frame, ignored, s, rs, x)
    ensures c.Analysis(frame, ignored, s).g.WellFormed()
    ensures Below(c.Analysis(frame, ignored, s), Last(rs).flow.states, Real(c, frame, x))
    decreases x, 1
  {
    var p := c.Analysis(frame, ignored, s);
    var r := Last(rs);
    c.AnalysisIsValid(frame, ignored, s);
    RunHasInv(p, rs);
    var fx := Real(c, frame, x);
    forall q, i: nat | On(p, q) && p.g.Has(End(p.g, q)) && i < |p.g.Insts(End(p.g, q))|
      && p.g.Insts(End(p.g, q))[i] == Visit && !p.dom.isBottom(p.Before(r.flow.states, End(p.g, q), i))
      ensures var b := End(p.g, q);
              var z := p.Before(r.flow.states, b, i);
              p.dom.leq(fx(q, i, z), p.visit(b, i, z))
    {
      PathIsDone(p, r.flow, r.Done(), q);
      var z := p.Before(r.flow.states, End(p.g, q), i);
      c.FinalCallHalts(frame, ignored, s, rs, End(p.g, q), i);
      assert (q, i) in x.calls ==> On(p, (q, i).0) && CallResolves(c, frame, (q, i), z, x);
      HappensIsBelow(c, frame, x, q, i, z);
    }
  }

  /** ResultCoversPath for the run of a nested analysis. */
  lemma RunResultCovers<S(!new)>(
      f: Func, p: Problem<S>, rs: seq<Progress<S>>, fx: Effects<S>, path: Path)
    requires p.Valid() && IsRun(p, rs) && Last(rs).flow.worklist == [] && p.ignored == None
    requires Monotone(p.dom, fx) && Below(p, Last(rs).flow.states, fx)
    requires Complete(p.(ignored := None), path) && !Lost(p.g, path)
    ensures On(p, path) && CoveredBy(p, fx, path, RunResult(f, p, rs))
  {
    var end := Last(rs).flow;
    RunHasInv(p, rs);
    assert p == p.(ignored := None);
    ResultCoversPath(p, end, Listing(f, Last(rs).log, Returning(p, end.exits)), fx, path);
  }

  lemma CoveredIsBelow<S(!new)>(c: Functions<S>, frame: Frame, x: Trace, s: S, r: S)
    requires c.Valid() && frame.Guarded(c.funcs)
    requires var p := c.Analysis(frame, None, s);
             p.g.WellFormed() && On(p, x.path) && CoveredBy(p, Real(c, frame, x), x.path, r)
    ensures c.dom.leq(Returned(c, frame, x, s), r)
  {
    BaseIsValid(c, frame);
    assert c.Analysis(frame, None, s) == Whole(c.Base(frame), s);
  }

  /** Interprocedural soundness: when an analysis and the analyses of its calls
      stop, its result is above what any tree of calls returns that it resolves. */
  lemma {:induction false} ReturnedIsBelow<S(!new)>(
      c: Functions<S>, frame: Frame, x: Trace, s: S, rs: seq<Progress<S>>)
    requires c.Valid() && frame.Guarded(c.funcs) && Follows(c, frame, x)
    requires c.Halts(frame, None, s, rs) && Resolves(c, frame, None, s, rs, x)
    ensures c.dom.leq(Returned(c, frame, x, s), c.Result(frame, s))
    decreases x, 2
  {
    TraceIsBelow(c, frame, None, s, rs, x);
    RealIsMonotone(c, frame, x);
    c.AnalysisIsValid(frame, None, s);
    SameOn(c.body(frame.f).(ignored := None), c.Analysis(frame, None, s), x.path);
    RunResultCovers(frame.f, c.Analysis(frame, None, s), rs, Real(c, frame, x), x.path);
    c.ResultIs(frame, s, rs);
    CoveredIsBelow(c, frame, x, s, c.Result(frame, s));
  }

  // ---- with the driver ----

  /** The driver's runs are those analyses, from the states it has taken, and
      they stop together with the analyses of their calls. */
  ghost predicate Drives<M(!new), S(!new)>(
      prog: Program<M, S>, a: Analyses<M, S>, c: Functions<S>, root: M -> Func, complete: map<M, seq<S>>)
  {
    && prog.dom == c.dom
    && Implements(prog, a, complete)
    && (forall m :: m in prog.methods ==> root(m) in c.funcs && a.problem(m) == c.Base(Root(root(m))))
    && (forall m, r: nat, s {:trigger prog.result(m, r, s)} ::
          m in prog.methods && r < prog.runs(m) && s in At(complete, m) ==>
            && r < 2
            && exists rs ::
                 && c.Halts(Root(root(m)), RunProblem(a.problem(m), r, s).ignored, s, rs)
                 && a.outcome(m, r, s).flow == Last(rs).flow)
  }

  /** Each run of `m`, from each state taken, enters the functions of the trace. */
  ghost predicate RunsResolve<M(!new), S(!new)>(
      prog: Program<M, S>, a: Analyses<M, S>, c: Functions<S>, root: M -> Func,
      complete: map<M, seq<S>>, m: M, x: Trace)
    requires root(m) in c.funcs
  {
    forall r: nat, s, rs: seq<Progress<S>> {:trigger prog.result(m, r, s), c.Halts(Root(root(m)), RunProblem(a.problem(m), r, s).ignored, s, rs)} ::
      r < prog.runs(m) && r < 2 && s in At(complete, m) ==>
        var ignored := RunProblem(a.problem(m), r, s).ignored;
        c.Halts(Root(root(m)), ignored, s, rs) ==> Resolves(c, Root(root(m)), ignored, s, rs, x)
  }

  /** Clients of the class: one call is a method with a trace that is resolved. */
  ghost function Clients<M(!new), S(!new)>(
      prog: Program<M, S>, a: Analyses<M, S>, c: Functions<S>, root: M -> Func, complete: map<M, seq<S>>)
      : Behaviour<M, Trace, S>
  {
    Behaviour(
      (m: M, x: Trace) =>
        && root(m) in c.funcs && FinalEdgesDiffer(c.body(root(m)).g)
        && Follows(c, Root(root(m)), x) && RunsResolve(prog, a, c, root, complete, m, x),
      (m: M, x: Trace, s: S) =>
        if root(m) in c.funcs then Returned(c, Root(root(m)), x, s) else c.dom.bottom)
  }

  lemma DrivenRunsAreAbove<M(!new), S(!new)>(
      prog: Program<M, S>, a: Analyses<M, S>, c: Functions<S>, root: M -> Func,
      complete: map<M, seq<S>>, m: M, x: Trace)
    requires c.Valid() && Drives(prog, a, c, root, complete) && m in prog.methods
    requires Follows(c, Root(root(m)), x) && RunsResolve(prog, a, c, root, complete, m, x)
    ensures RunsAreAbove(prog, a, complete, m, Execution(x.path, Real(c, Root(root(m)), x)))
  {
    var frame := Root(root(m));
    forall r: nat, s | r < prog.runs(m) && r < 2 && s in At(complete, m)
      ensures var p := RunProblem(a.problem(m), r, s);
              p.g.WellFormed() && Below(p, a.outcome(m, r, s).flow.states, Real(c, frame, x))
    {
      var p := RunProblem(a.problem(m), r, s);
      var result := prog.result(m, r, s);
      var rs :| c.Halts(frame, p.ignored, s, rs) && a.outcome(m, r, s).flow == Last(rs).flow;
      assert p == c.Analysis(frame, p.ignored, s);
      TraceIsBelow(c, frame, p.ignored, s, rs, x);
    }
  }

  /** One run of a method is above what a client's call returns. */
  lemma ClientIsCovered<M(!new), S(!new)>(
      prog: Program<M, S>, a: Analyses<M, S>, c: Functions<S>, root: M -> Func,
      complete: map<M, seq<S>>, m: M, x: Trace, s: S) returns (r: nat)
    requires c.Valid() && Drives(prog, a, c, root, complete)
    requires m in prog.methods && FinalEdgesDiffer(c.body(root(m)).g)
    requires s in At(complete, m) && Follows(c, Root(root(m)), x) && RunsResolve(prog, a, c, root, complete, m, x)
    requires !c.dom.isBottom(Returned(c, Root(root(m)), x, s))
    ensures r < prog.runs(m) && c.dom.leq(Returned(c, Root(root(m)), x, s), prog.result(m, r, s))
  {
    var frame := Root(root(m));
    var way := Execution(x.path, Real(c, frame, x));
    RealIsMonotone(c, frame, x);
    BaseIsValid(c, frame);
    DrivenRunsAreAbove(prog, a, c, root, complete, m, x);
    r := RunCoversPath(prog, a, complete, m, way, s);
  }

  /** When the driver exits, in any interleaving, every sequence of calls on a
      fresh object, each with its whole tree of calls, starts its next call
      below an analysed state. */
  lemma ExitCoversClients<M(!new), S(!new)>(
      prog: Program<M, S>, a: Analyses<M, S>, c: Functions<S>, root: M -> Func,
      xs: seq<System<M, S>>, complete: map<M, seq<S>>, calls: seq<Call<M, Trace>>, next: M)
    requires prog.Valid() && c.Valid() && HandoverIsMonotone(prog)
    requires IsTrace(prog, xs) && xs[|xs| - 1].driver.Exited?
    requires complete == xs[|xs| - 1].shared.complete && Drives(prog, a, c, root, complete)
    requires Returns(prog, Clients(prog, a, c, root, complete), calls) && next in prog.methods
    ensures Subsumed(prog.dom, Reached(prog, Clients(prog, a, c, root, complete), calls, next), At(complete, next))
  {
    var b := Clients(prog, a, c, root, complete);
    forall m, x, s | m in prog.methods && s in At(complete, m) && b.happens(m, x) && !prog.dom.isBottom(b.effect(m, x, s))
      ensures exists r: nat :: r < prog.runs(m) && prog.dom.leq(b.effect(m, x, s), prog.result(m, r, s))
    {
      var r := ClientIsCovered(prog, a, c, root, complete, m, x, s);
    }
    forall m, x, s, t | m in prog.methods && b.happens(m, x) && prog.dom.leq(s, t)
      ensures prog.dom.leq(b.effect(m, x, s), b.effect(m, x, t))
    {
      ReturnedIsMonotone(c, Root(root(m)), x, s, t);
    }
    ExitCoversSequences(prog, b, xs, calls, next);
  }
}
