/**
 The recursion of the analysis ends: the parent chain bounds its depth, so an
 analysis returns, with the analyses of all its calls, exactly when the loop of
 each function stops.
 */
module CallTermination {
  import opened Wrappers
  import opened ControlFlow
  import opened SolverSpec
  import opened Fixpoint
  import opened Solver
  import opened PathSoundness
  import opened Reachability
  import opened LoopTermination
  import opened ParentChain
  import opened Interprocedural

  /** The loop for this frame stops, and getResult finds an exit state. */
  ghost predicate LoopStops<S(!new)>(c: Functions<S>, frame: Frame, ignored: Option<Edge>, s: S)
    requires frame.Guarded(c.funcs)
  {
    exists rs ::
      IsRun(c.Analysis(frame, ignored, s), rs) && Last(rs).flow.worklist == [] && Last(rs).flow.exits != map[]
  }

  ghost predicate EveryLoopStops<S(!new)>(c: Functions<S>) {
    forall frame: Frame, s :: frame.Guarded(c.funcs) ==> LoopStops(c, frame, None, s)
  }

  ghost predicate Returns<S(!new)>(c: Functions<S>, frame: Frame, ignored: Option<Edge>, s: S)
    requires frame.Guarded(c.funcs)
  {
    exists rs :: c.Halts(frame, ignored, s, rs)
  }

  lemma AnalysisReturns<S(!new)>(c: Functions<S>, frame: Frame, ignored: Option<Edge>, s: S)
    requires frame.Guarded(c.funcs) && EveryLoopStops(c) && LoopStops(c, frame, ignored, s)
    ensures Returns(c, frame, ignored, s)
  {
    MetLoopsReturn(c, frame, ignored, s);
  }

  /** All analyses return exactly when all loops stop. */
  lemma AllReturnIffLoopsStop<S(!new)>(c: Functions<S>)
    ensures (forall frame: Frame, s :: frame.Guarded(c.funcs) ==> Returns(c, frame, None, s))
       <==> EveryLoopStops(c)
  {
    forall frame: Frame, s | frame.Guarded(c.funcs)
      ensures Returns(c, frame, None, s) ==> LoopStops(c, frame, None, s)
      ensures EveryLoopStops(c) ==> Returns(c, frame, None, s)
    {
      if rs :| c.Halts(frame, None, s, rs) {
      }
      if EveryLoopStops(c) {
        assert LoopStops(c, frame, None, s);
        AnalysisReturns(c, frame, None, s);
      }
    }
  }

  // ---- the loops that one analysis meets ----

  /** Some run of the analysis calls `g`, and enters it with `t`. */
  ghost predicate CallsInto<S(!new)>(
      c: Functions<S>, frame: Frame, ignored: Option<Edge>, s: S, g: Func, t: S)
    requires frame.Guarded(c.funcs)
  {
    var p := c.Analysis(frame, ignored, s);
    exists rs: seq<Progress<S>>, k: nat, i: nat ::
      && IsRun(p, rs) && k < |rs| - 1
      && CallsAt(c, frame, p, rs[k], i, g, t)
  }

  /** So does the round after `q`, at instruction `i`. */
  ghost predicate CallsAt<S(!new)>(
      c: Functions<S>, frame: Frame, p: Problem<S>, q: Progress<S>, i: nat, g: Func, t: S)
  {
    && p.g.WellFormed() && Queue(p, q.flow) && q.flow.worklist != []
    && var b := Picked(p, q);
       && i < |p.g.Insts(b)| && p.g.Insts(b)[i] == Visit
       && var x := p.Before(q.flow.states, b, i);
          && !p.dom.isBottom(x)
          && c.Target(frame, b, i, x) == Some(g) && !c.NeverReturns(g)
          && t == c.enter(frame.f, b, i, g, x)
  }

  /** The analysis of `frame` from `s` leads, over nested ones, to that of `inner`
      from `t`. */
  ghost predicate Meets<S(!new)>(
      c: Functions<S>, frame: Frame, ignored: Option<Edge>, s: S, inner: Frame, t: S)
    requires frame.Guarded(c.funcs) && inner.Guarded(c.funcs)
    decreases inner
  {
    && inner.Nested?
    && ((inner.parent == frame && CallsInto(c, frame, ignored, s, inner.f, t))
        || exists u ::
             Meets(c, frame, ignored, s, inner.parent, u) && CallsInto(c, inner.parent, None, u, inner.f, t))
  }

  /** What a call in a run enters returns if the analysis does. */
  lemma CalledReturns<S(!new)>(c: Functions<S>, frame: Frame, ignored: Option<Edge>, s: S, g: Func, t: S)
    requires frame.Guarded(c.funcs) && Returns(c, frame, ignored, s) && CallsInto(c, frame, ignored, s, g, t)
    ensures Nested(g, frame).Guarded(c.funcs) && Returns(c, Nested(g, frame), None, t)
  {
    var p := c.Analysis(frame, ignored, s);
    var all :| c.Halts(frame, ignored, s, all);
    var rs: seq<Progress<S>>, k: nat, i: nat :|
      IsRun(p, rs) && k < |rs| - 1 && CallsAt(c, frame, p, rs[k], i, g, t);
    StoppedRunIsLongest(p, all, rs);
    RunIsPrefix(p, rs, all);
    assert rs[k] == all[k];
    assert c.RoundHalts(frame, p, all[k]);
    var b := Picked(p, rs[k]);
    assert c.CallHalts(frame, b, i, p.Before(rs[k].flow.states, b, i));
  }

  lemma {:induction false} MetReturns<S(!new)>(
      c: Functions<S>, frame: Frame, ignored: Option<Edge>, s: S, inner: Frame, t: S)
    requires frame.Guarded(c.funcs) && inner.Guarded(c.funcs)
    requires Returns(c, frame, ignored, s) && Meets(c, frame, ignored, s, inner, t)
    ensures Returns(c, inner, None, t)
    decreases inner
  {
    if inner.parent == frame && CallsInto(c, frame, ignored, s, inner.f, t) {
      CalledReturns(c, frame, ignored, s, inner.f, t);
    } else {
      var u :| Meets(c, frame, ignored, s, inner.parent, u) && CallsInto(c, inner.parent, None, u, inner.f, t);
      MetReturns(c, frame, ignored, s, inner.parent, u);
      CalledReturns(c, inner.parent, None, u, inner.f, t);
    }
  }

  /** What a nested analysis meets, the outer one meets. */
  lemma {:induction false} MeetsThrough<S(!new)>(
      c: Functions<S>, frame: Frame, ignored: Option<Edge>, s: S, g: Func, t: S, inner: Frame, v: S)
    requires frame.Guarded(c.funcs) && Nested(g, frame).Guarded(c.funcs) && inner.Guarded(c.funcs)
    requires CallsInto(c, frame, ignored, s, g, t) && Meets(c, Nested(g, frame), None, t, inner, v)
    ensures Meets(c, frame, ignored, s, inner, v)
    decreases inner
  {
    var nested := Nested(g, frame);
    if inner.parent == nested && CallsInto(c, nested, None, t, inner.f, v) {
      assert Meets(c, frame, ignored, s, nested, t);
    } else {
      var u :| Meets(c, nested, None, t, inner.parent, u) && CallsInto(c, inner.parent, None, u, inner.f, v);
      MeetsThrough(c, frame, ignored, s, g, t, inner.parent, u);
    }
  }

  ghost predicate MetLoopsStop<S(!new)>(c: Functions<S>, frame: Frame, ignored: Option<Edge>, s: S)
    requires frame.Guarded(c.funcs)
  {
    && LoopStops(c, frame, ignored, s)
    && forall inner: Frame, t :: inner.Guarded(c.funcs) && Meets(c, frame, ignored, s, inner, t) ==>
         LoopStops(c, inner, None, t)
  }

  /** By induction on how far the parent chain can still grow. */
  lemma {:induction false} MetLoopsReturn<S(!new)>(c: Functions<S>, frame: Frame, ignored: Option<Edge>, s: S)
    requires frame.Guarded(c.funcs) && MetLoopsStop(c, frame, ignored, s)
    ensures Returns(c, frame, ignored, s)
    decreases c.Left(frame)
  {
    var p := c.Analysis(frame, ignored, s);
    var rs: seq<Progress<S>> :|
      IsRun(p, rs) && Last(rs).flow.worklist == [] && Last(rs).flow.exits != map[];
    forall k: nat | k < |rs| - 1
      ensures c.RoundHalts(frame, p, rs[k])
    {
      assert Steps(p, rs[k], rs[k + 1]);
      var b := Picked(p, rs[k]);
      forall i: nat | i < |p.g.Insts(b)| && p.g.Insts(b)[i] == Visit
        && !p.dom.isBottom(p.Before(rs[k].flow.states, b, i))
        ensures c.CallHalts(frame, b, i, p.Before(rs[k].flow.states, b, i))
      {
        var x := p.Before(rs[k].flow.states, b, i);
        var g := c.Target(frame, b, i, x);
        if g.Some? && !c.NeverReturns(g.value) {
          var t := c.enter(frame.f, b, i, g.value, x);
          assert CallsAt(c, frame, p, rs[k], i, g.value, t);
          NestedMetLoopsStop(c, frame, ignored, s, g.value, t);
          MetLoopsReturn(c, Nested(g.value, frame), None, t);
        }
      }
    }
    assert c.Halts(frame, ignored, s, rs);
  }

  lemma NestedMetLoopsStop<S(!new)>(c: Functions<S>, frame: Frame, ignored: Option<Edge>, s: S, g: Func, t: S)
    requires frame.Guarded(c.funcs) && Nested(g, frame).Guarded(c.funcs)
    requires MetLoopsStop(c, frame, ignored, s) && CallsInto(c, frame, ignored, s, g, t)
    ensures MetLoopsStop(c, Nested(g, frame), None, t)
  {
    assert Meets(c, frame, ignored, s, Nested(g, frame), t);
    forall inner: Frame, v | inner.Guarded(c.funcs) && Meets(c, Nested(g, frame), None, t, inner, v)
      ensures LoopStops(c, inner, None, v)
    {
      MeetsThrough(c, frame, ignored, s, g, t, inner, v);
    }
  }

  /** One analysis returns exactly when its loop and the loops it meets stop. */
  lemma ReturnsIffMetLoopsStop<S(!new)>(c: Functions<S>, frame: Frame, ignored: Option<Edge>, s: S)
    requires frame.Guarded(c.funcs)
    ensures Returns(c, frame, ignored, s) <==> MetLoopsStop(c, frame, ignored, s)
  {
    if rs :| c.Halts(frame, ignored, s, rs) {
      forall inner: Frame, t | inner.Guarded(c.funcs) && Meets(c, frame, ignored, s, inner, t)
        ensures LoopStops(c, inner, None, t)
      {
        MetReturns(c, frame, ignored, s, inner, t);
        var ts :| c.Halts(inner, None, t, ts);
      }
    }
    if MetLoopsStop(c, frame, ignored, s) {
      MetLoopsReturn(c, frame, ignored, s);
    }
  }

  // ---- functions without live loops ----

  ghost predicate ReachesExit<S(!new)>(p: Problem<S>) {
    exists b :: p.g.Has(b) && p.g.Succs(b) == [] && Reached(p, b)
  }

  /** No function has a live loop, and each reaches an exit without entering a block
      ended by unreachable. */
  ghost predicate NoLiveLoops<S(!new)>(c: Functions<S>) {
    forall f :: f in c.funcs ==> NoLiveLoop(c.body(f).g) && ReachesExit(c.body(f))
  }

  lemma LoopStopsWithoutLiveLoop<S(!new)>(c: Functions<S>, frame: Frame, ignored: Option<Edge>, s: S)
    requires c.Valid() && frame.Guarded(c.funcs) && NoLiveLoops(c)
    ensures LoopStops(c, frame, ignored, s)
  {
    var p := c.Analysis(frame, ignored, s);
    c.AnalysisIsValid(frame, ignored, s);
    assert p.dom.EquivalentIsReflexive();
    var rs := StopsWithoutLiveLoop(p);
    ResultMissingIffNoExitReached(p, rs);
    var b :| p.g.Has(b) && p.g.Succs(b) == [] && Reached(c.body(frame.f), b);
    var path :| On(c.body(frame.f).(ignored := None), path) && End(p.g, path) == b;
    SameOn(c.body(frame.f).(ignored := None), p.(ignored := None), path);
    assert Reached(p, b);
  }

  /** In a program of such functions every analysis returns, from every state and
      whichever edge is ignored. */
  lemma ReturnsWithoutLiveLoops<S(!new)>(c: Functions<S>, frame: Frame, ignored: Option<Edge>, s: S)
    requires c.Valid() && frame.Guarded(c.funcs) && NoLiveLoops(c)
    ensures Returns(c, frame, ignored, s)
  {
    forall inner: Frame, t | inner.Guarded(c.funcs)
      ensures LoopStops(c, inner, None, t)
    {
      LoopStopsWithoutLiveLoop(c, inner, None, t);
    }
    LoopStopsWithoutLiveLoop(c, frame, ignored, s);
    AnalysisReturns(c, frame, ignored, s);
  }
}
