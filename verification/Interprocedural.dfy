/**
 handleCall: a call is analysed by a nested FunctionAnalysis that starts from
 the caller's state and whose result the caller adopts. A function that is on
 the parent chain, or has no body, is an unknown call instead.

 The nested analysis is a run of the same solver, so it need not be monotone and
 need not stop. It does respect mutual specificity, and that makes every frame
 of the chain a problem the solver's proofs apply to.
 */
module Interprocedural {
  import opened Collections
  import opened Wrappers
  import opened AbstractDomain
  import opened ControlFlow
  import opened SolverSpec
  import opened Fixpoint
  import opened StepMeaning
  import opened Solver
  import opened Lockstep
  import opened ParentChain

  ghost predicate ListsBlocks(order: seq<Block>, bs: set<Block>) {
    NoDup(order) && forall b :: b in order <==> b in bs
  }

  lemma {:induction false} ListingExists(bs: set<Block>)
    ensures exists order :: ListsBlocks(order, bs)
  {
    if bs == {} {
      assert ListsBlocks([], bs);
    } else {
      var b :| b in bs;
      ListingExists(bs - {b});
      var rest :| ListsBlocks(rest, bs - {b});
      assert ListsBlocks([b] + rest, bs);
    }
  }

  /** Some order in which getResult may find the exit states of `f`: a DenseMap's
      follows from its keys and the order in which they were inserted. */
  ghost function Listing(f: Func, log: seq<Block>, bs: set<Block>): (order: seq<Block>)
    ensures ListsBlocks(order, bs)
  {
    ListingExists(bs);
    var order :| ListsBlocks(order, bs);
    order
  }

  /** The blocks whose exit states getResult merges. */
  ghost function Returning<S(!new)>(p: Problem<S>, exits: map<Block, S>): set<Block> {
    set b | b in exits && ReturnsFrom(p, exits, b)
  }

  ghost function RunResult<S(!new)>(f: Func, p: Problem<S>, rs: seq<Progress<S>>): S
    requires rs != []
  {
    var exits := Last(rs).flow.exits;
    MergeExits(p, exits, Listing(f, Last(rs).log, Returning(p, exits)))
  }

  /** All functions with a body. `visit` in a body is what an ordinary instruction
      or an unknown call does. */
  datatype Functions<!S(!new)> = Functions(
    dom: Domain<S>,
    funcs: set<Func>,
    body: Func -> Problem<S>,
    callee: (Func, Block, nat, S) -> Option<Func>,   // a virtual call's is looked up by its receiver
    enter: (Func, Block, nat, Func, S) -> S,     // arguments mapped to the callee's parameters
    leave: (Func, Block, nat, Func, S) -> S      // the callee's result, seen by the caller
  ) {

    ghost predicate IsMonotone(op: (Func, Block, nat, Func, S) -> S) {
      forall f, b, i, g, x, y ::
        !dom.isBottom(x) && dom.leq(x, y) ==> dom.leq(op(f, b, i, g, x), op(f, b, i, g, y))
    }

    ghost predicate BodyIsValid(f: Func) {
      && body(f).Valid()
      && body(f).dom == dom
      && (forall b, i, x, y ::
            !dom.isBottom(x) && dom.leq(x, y) ==> dom.leq(body(f).visit(b, i, x), body(f).visit(b, i, y)))
    }

    /** States that are the same resolve a call to the same function. */
    ghost predicate CalleesAgree() {
      forall f, b, i, x, y :: !dom.isBottom(x) && dom.Same(x, y) ==> callee(f, b, i, x) == callee(f, b, i, y)
    }

    ghost predicate Valid() {
      && dom.Valid() && dom.EquivalentIsExact()
      && (forall f :: f in funcs ==> BodyIsValid(f))
      && CalleesAgree() && IsMonotone(enter) && IsMonotone(leave)
    }

    // ---- one frame of the chain ----

    ghost function Left(frame: Frame): nat
      requires frame.Guarded(funcs)
    {
      frame.DepthIsBounded(funcs);
      |funcs| - frame.Depth()
    }

    /** The function that the call at instruction `i` of `b` enters from `s`. */
    function Target(frame: Frame, b: Block, i: nat, s: S): (t: Option<Func>)
      ensures t.Some? && frame.Guarded(funcs) ==> Nested(t.value, frame).Guarded(funcs)
    {
      match callee(frame.f, b, i, s)
      case None => None
      case Some(g) => if frame.IsRecursive(g) || g !in funcs then None else Some(g)
    }

    /** The callee's entry block ends in unreachable; handleCall skips the call. */
    predicate NeverReturns(g: Func) {
      body(g).g.Has(ENTRY) && body(g).g.Term(ENTRY).Unreachable?
    }

    /** handleCall, or the instruction's own transfer. */
    ghost function HandleCall(frame: Frame, b: Block, i: nat, s: S): S
      requires frame.Guarded(funcs)
      decreases Left(frame), 1
    {
      match Target(frame, b, i, s)
      case None => body(frame.f).visit(b, i, s)
      case Some(g) =>
        if NeverReturns(g) then s
        else
          var r := Result(Nested(g, frame), enter(frame.f, b, i, g, s));
          if dom.isBottom(r) then dom.markBottom(s) else leave(frame.f, b, i, g, r)
    }

    ghost function Base(frame: Frame): (p: Problem<S>)
      requires frame.Guarded(funcs)
      ensures forall b, i, s :: p.visit(b, i, s) == HandleCall(frame, b, i, s)
      decreases Left(frame), 2
    {
      body(frame.f).(visit := (b: Block, i: nat, s: S) => HandleCall(frame, b, i, s))
    }

    /** The analysis of a frame's function from state `s`. */
    ghost function Analysis(frame: Frame, ignored: Option<Edge>, s: S): (p: Problem<S>)
      requires frame.Guarded(funcs)
      ensures p == Base(frame).(initial := s, ignored := ignored)
      ensures p == body(frame.f).(initial := s, ignored := ignored, visit := p.visit)
      ensures forall b, i, s :: p.visit(b, i, s) == HandleCall(frame, b, i, s)
      decreases Left(frame), 3
    {
      Base(frame).(initial := s, ignored := ignored)
    }

    /** `rs` is the run of a frame. It stops with some exit state, which getResult
        asserts, and so does every analysis of a call that it starts on the way. */
    ghost predicate Halts(frame: Frame, ignored: Option<Edge>, s: S, rs: seq<Progress<S>>)
      requires frame.Guarded(funcs)
      decreases Left(frame), 4
    {
      var p := Analysis(frame, ignored, s);
      && IsRun(p, rs)
      && Last(rs).flow.worklist == [] && Last(rs).flow.exits != map[]
      && (forall k :: 0 <= k < |rs| - 1 ==> RoundHalts(frame, p, rs[k]))
    }

    /** The calls of the block taken next, from the states they are reached with. */
    ghost predicate RoundHalts(frame: Frame, p: Problem<S>, q: Progress<S>)
      requires frame.Guarded(funcs)
      decreases Left(frame), 1
    {
      && p.g.WellFormed() && Queue(p, q.flow) && q.flow.worklist != []
      && var b := Picked(p, q);
         forall i: nat :: i < |p.g.Insts(b)| && p.g.Insts(b)[i] == Visit ==>
           var x := p.Before(q.flow.states, b, i);
           p.dom.isBottom(x) || CallHalts(frame, b, i, x)
    }

    ghost predicate CallHalts(frame: Frame, b: Block, i: nat, s: S)
      requires frame.Guarded(funcs)
      decreases Left(frame), 0
    {
      match Target(frame, b, i, s)
      case None => true
      case Some(g) =>
        NeverReturns(g) || exists rs :: Halts(Nested(g, frame), None, enter(frame.f, b, i, g, s), rs)
    }

    /** What the analysis of a frame returns; bottom stands for not returning. */
    ghost function Result(frame: Frame, s: S): S
      requires frame.Guarded(funcs)
      decreases Left(frame), 5
    {
      if exists rs :: Halts(frame, None, s, rs) then
        var rs :| Halts(frame, None, s, rs);
        RunResult(frame.f, Analysis(frame, None, s), rs)
      else dom.bottom
    }

    // ---- a nested analysis respects `Same` ----

    lemma EnterAlike(frame: Frame, b: Block, i: nat, g: Func, x: S, y: S)
      requires Valid() && !dom.isBottom(x) && dom.Same(x, y)
      ensures dom.Same(enter(frame.f, b, i, g, x), enter(frame.f, b, i, g, y))
    {
    }

    lemma LeaveAlike(frame: Frame, b: Block, i: nat, g: Func, x: S, y: S)
      requires Valid() && !dom.isBottom(x) && dom.Same(x, y)
      ensures dom.Same(leave(frame.f, b, i, g, x), leave(frame.f, b, i, g, y))
    {
    }

    lemma HandleCallAlike(frame: Frame, b: Block, i: nat, x: S, y: S)
      requires Valid() && frame.Guarded(funcs) && !dom.isBottom(x) && dom.Same(x, y)
      ensures dom.Same(HandleCall(frame, b, i, x), HandleCall(frame, b, i, y))
      decreases Left(frame), 1
    {
      assert Target(frame, b, i, x) == Target(frame, b, i, y);
      match Target(frame, b, i, x) {
        case None => assert BodyIsValid(frame.f);
        case Some(g) =>
          if !NeverReturns(g) {
            var inside := Nested(g, frame);
            var ex, ey := enter(frame.f, b, i, g, x), enter(frame.f, b, i, g, y);
            EnterAlike(frame, b, i, g, x, y);
            ResultAlike(inside, ex, ey);
            if !dom.isBottom(Result(inside, ex)) {
              LeaveAlike(frame, b, i, g, Result(inside, ex), Result(inside, ey));
            }
          }
      }
    }

    /** Every frame of the chain is a problem the solver is proved for. */
    lemma AnalysisIsValid(frame: Frame, ignored: Option<Edge>, s: S)
      requires Valid() && frame.Guarded(funcs)
      ensures Analysis(frame, ignored, s).Valid() && Analysis(frame, ignored, s).dom == dom
      decreases Left(frame), 2
    {
      var p := Analysis(frame, ignored, s);
      assert BodyIsValid(frame.f) && p.dom == dom;
      forall b, i, x, y | !p.dom.isBottom(x) && p.dom.Same(x, y)
        ensures p.dom.Same(p.visit(b, i, x), p.visit(b, i, y))
      {
        HandleCallAlike(frame, b, i, x, y);
      }
    }

    lemma CallHaltsAlike(frame: Frame, b: Block, i: nat, x: S, y: S)
      requires Valid() && frame.Guarded(funcs) && !dom.isBottom(x) && dom.Same(x, y)
      requires CallHalts(frame, b, i, x)
      ensures CallHalts(frame, b, i, y)
      decreases Left(frame), 0
    {
      assert Target(frame, b, i, x) == Target(frame, b, i, y);
      match Target(frame, b, i, x) {
        case None =>
        case Some(g) =>
          if !NeverReturns(g) {
            var ex, ey := enter(frame.f, b, i, g, x), enter(frame.f, b, i, g, y);
            EnterAlike(frame, b, i, g, x, y);
            var rs :| Halts(Nested(g, frame), None, ex, rs);
            var ts := HaltsAlike(Nested(g, frame), None, ex, ey, rs);
          }
      }
    }

    lemma RoundHaltsAlike(
        frame: Frame, p: Problem<S>, q: Problem<S>, x: Progress<S>, y: Progress<S>)
      requires Valid() && frame.Guarded(funcs) && p.Valid() && p.dom == dom && Twins(p, q)
      requires Alike(dom, x.flow, y.flow) && RoundHalts(frame, p, x)
      ensures RoundHalts(frame, q, y)
      decreases Left(frame), 1
    {
      PickAlike(p, q, x, y);
      var b := Picked(p, x);
      OutputAlike(p, q, x.flow, y.flow, b);
      forall i: nat | i < |p.g.Insts(b)| && p.g.Insts(b)[i] == Visit
        && !dom.isBottom(q.Before(y.flow.states, b, i))
        ensures CallHalts(frame, b, i, q.Before(y.flow.states, b, i))
      {
        BeforeCongruent(p, q, x.flow.states, y.flow.states, b, i);
        CallHaltsAlike(frame, b, i, p.Before(x.flow.states, b, i), q.Before(y.flow.states, b, i));
      }
    }

    /** An analysis that stops also stops from a state that is the same, after the
        same rounds. */
    lemma HaltsAlike(frame: Frame, ignored: Option<Edge>, s: S, t: S, rs: seq<Progress<S>>)
        returns (ts: seq<Progress<S>>)
      requires Valid() && frame.Guarded(funcs) && dom.Same(s, t) && Halts(frame, ignored, s, rs)
      ensures Halts(frame, ignored, t, ts) && RunsAlike(dom, rs, ts)
      decreases Left(frame), 3
    {
      var p, q := Analysis(frame, ignored, s), Analysis(frame, ignored, t);
      AnalysisIsValid(frame, ignored, s);
      ts := RunHasTwin(p, q, rs);
      assert Alike(dom, Last(rs).flow, Last(ts).flow);
      forall k | 0 <= k < |ts| - 1
        ensures RoundHalts(frame, q, ts[k])
      {
        assert RoundHalts(frame, p, rs[k]) && Alike(dom, rs[k].flow, ts[k].flow);
        RoundHaltsAlike(frame, p, q, rs[k], ts[k]);
      }
    }

    lemma RunResultAlike(
        f: Func, p: Problem<S>, q: Problem<S>, rs: seq<Progress<S>>, ts: seq<Progress<S>>)
      requires p.Valid() && p.dom == dom && Twins(p, q) && rs != [] && RunsAlike(dom, rs, ts)
      ensures dom.Same(RunResult(f, p, rs), RunResult(f, q, ts))
    {
      assert Alike(dom, Last(rs).flow, Last(ts).flow) && Last(rs).log == Last(ts).log;
      var x, y := Last(rs).flow.exits, Last(ts).flow.exits;
      forall b
        ensures ReturnsFrom(p, x, b) <==> ReturnsFrom(q, y, b)
      {
        ReturnsAlike(p, q, x, y, b);
      }
      assert Returning(p, x) == Returning(q, y);
      MergeExitsAlike(p, q, x, y, Listing(f, Last(rs).log, Returning(p, x)));
    }

    /** The one run that stops gives the result. */
    lemma ResultIs(frame: Frame, s: S, rs: seq<Progress<S>>)
      requires frame.Guarded(funcs) && Halts(frame, None, s, rs)
      ensures Result(frame, s) == RunResult(frame.f, Analysis(frame, None, s), rs)
    {
      var ts :| Halts(frame, None, s, ts) && Result(frame, s) == RunResult(frame.f, Analysis(frame, None, s), ts);
      StoppedRunIsUnique(Analysis(frame, None, s), rs, ts);
    }

    lemma ResultAlike(frame: Frame, s: S, t: S)
      requires Valid() && frame.Guarded(funcs) && dom.Same(s, t)
      ensures dom.Same(Result(frame, s), Result(frame, t))
      decreases Left(frame), 4
    {
      if rs :| Halts(frame, None, s, rs) {
        var ts := HaltsAlike(frame, None, s, t, rs);
        ResultIs(frame, s, rs);
        ResultIs(frame, t, ts);
        AnalysisIsValid(frame, None, s);
        RunResultAlike(frame.f, Analysis(frame, None, s), Analysis(frame, None, t), rs, ts);
      } else if ts :| Halts(frame, None, t, ts) {
        var rs := HaltsAlike(frame, None, t, s, ts);
      }
    }

    /** At the end, each call also stops from the state the final edge states give. */
    lemma FinalCallHalts(
        frame: Frame, ignored: Option<Edge>, s: S, rs: seq<Progress<S>>, b: Block, i: nat)
      requires Valid() && frame.Guarded(funcs) && Halts(frame, ignored, s, rs) && b in Last(rs).log
      requires var p := Analysis(frame, ignored, s);
               p.g.Has(b) && i < |p.g.Insts(b)| && p.g.Insts(b)[i] == Visit
               && !dom.isBottom(p.Before(Last(rs).flow.states, b, i))
      ensures CallHalts(frame, b, i, Analysis(frame, ignored, s).Before(Last(rs).flow.states, b, i))
    {
      var p := Analysis(frame, ignored, s);
      AnalysisIsValid(frame, ignored, s);
      var k := LastPick(p, rs, b);
      BeforeCongruent(p, p, rs[k].flow.states, Last(rs).flow.states, b, i);
      assert RoundHalts(frame, p, rs[k]);
      CallHaltsAlike(frame, b, i, p.Before(rs[k].flow.states, b, i), p.Before(Last(rs).flow.states, b, i));
    }

    // ---- what handling a call does ----

    /** A call of an unknown function, or of one on the chain or without a body, is an
        unknown call; one that never returns is passed over; any other call goes on
        with what the nested analysis returns, and ends the block if that is bottom. */
    lemma CallRuns(
        frame: Frame, ignored: Option<Edge>, s: S, states: map<Edge, S>, b: Block, i: nat)
      requires Valid() && frame.Guarded(funcs)
      requires var p := Analysis(frame, ignored, s);
               p.g.WellFormed() && p.g.Has(b) && i < |p.g.Insts(b)| && p.g.Insts(b)[i] == Visit
               && !dom.isBottom(p.Before(states, b, i))
      ensures var p := Analysis(frame, ignored, s);
              var x, y := p.Before(states, b, i), p.Before(states, b, i + 1);
              match callee(frame.f, b, i, x)
              case None => y == body(frame.f).visit(b, i, x)
              case Some(g) =>
                if g !in funcs || g in frame.Functions() then y == body(frame.f).visit(b, i, x)
                else if body(g).g.blocks[ENTRY].term == Unreachable then y == x
                else
                  && Nested(g, frame).Guarded(funcs)
                  && var r := Result(Nested(g, frame), enter(frame.f, b, i, g, x));
                     if dom.isBottom(r) then dom.isBottom(y) else y == leave(frame.f, b, i, g, r)
    {
      var p := Analysis(frame, ignored, s);
      AnalysisIsValid(frame, ignored, s);
      var x := p.Before(states, b, i);
      assert p.Before(states, b, i + 1) == p.visit(b, i, x);
      if callee(frame.f, b, i, x).Some? {
        frame.RecursiveIffOnChain(callee(frame.f, b, i, x).value);
        assert callee(frame.f, b, i, x).value in funcs ==> BodyIsValid(callee(frame.f, b, i, x).value);
      }
    }

    /** In a function that was analysed, nothing gets past a call whose nested analysis
        returned bottom: not to the end of the block, over its edges, or to its exit. */
    lemma BottomCallEndsBlock(
        frame: Frame, ignored: Option<Edge>, s: S, rs: seq<Progress<S>>, b: Block, i: nat, g: Func)
      requires Valid() && frame.Guarded(funcs) && Halts(frame, ignored, s, rs) && b in Last(rs).log
      requires var p := Analysis(frame, ignored, s);
               p.g.Has(b) && i < |p.g.Insts(b)| && p.g.Insts(b)[i] == Visit
               && var x := p.Before(Last(rs).flow.states, b, i);
                  && !dom.isBottom(x)
                  && callee(frame.f, b, i, x) == Some(g) && g in funcs && g !in frame.Functions()
                  && body(g).g.Has(ENTRY) && body(g).g.blocks[ENTRY].term != Unreachable
                  && Nested(g, frame).Guarded(funcs)
                  && dom.isBottom(Result(Nested(g, frame), enter(frame.f, b, i, g, x)))
      ensures var p := Analysis(frame, ignored, s);
              var f := Last(rs).flow;
              && dom.isBottom(p.Before(f.states, b, i + 1))
              && dom.isBottom(p.Output(f.states, b))
              && (forall t :: Edge(b, t) in f.states ==> dom.isBottom(f.states[Edge(b, t)]))
              && (b in f.exits ==> dom.isBottom(f.exits[b]))
    {
      var p := Analysis(frame, ignored, s);
      var f := Last(rs).flow;
      AnalysisIsValid(frame, ignored, s);
      CallRuns(frame, ignored, s, f.states, b, i);
      BottomStays(p, f.states, b, i + 1, |p.g.Insts(b)|);
      RunHasInv(p, rs);
      assert b in Last(rs).Done() && Settled(p, f, b);
      forall t | Edge(b, t) in f.states
        ensures dom.isBottom(f.states[Edge(b, t)])
      {
        SentMonotone(p, b, t, p.Output(f.states, b), p.Output(f.states, b));
      }
    }

    lemma {:induction false} BottomStays(p: Problem<S>, states: map<Edge, S>, b: Block, i: nat, n: nat)
      requires p.g.WellFormed() && p.g.Has(b) && i <= n <= |p.g.Insts(b)|
      requires p.dom.isBottom(p.Before(states, b, i))
      ensures p.Before(states, b, n) == p.Before(states, b, i)
      decreases n
    {
      if i < n {
        BottomStays(p, states, b, i, n - 1);
      }
    }

    /** What the nested analysis returns: the merge of its exit states that are not
        bottom, each with its return value. */
    lemma ResultMerges(frame: Frame, s: S, rs: seq<Progress<S>>) returns (order: seq<Block>)
      requires frame.Guarded(funcs) && Halts(frame, None, s, rs)
      ensures var p, exits := Analysis(frame, None, s), Last(rs).flow.exits;
              && NoDup(order)
              && (forall b :: b in order <==>
                    b in exits && p.g.Has(b) && !p.g.Term(b).Unreachable? && !p.dom.isBottom(exits[b]))
              && Result(frame, s)
                 == if order == [] then p.dom.bottom else MergeAll(p.dom, HandedBack(p, exits, order))
    {
      var p, exits := Analysis(frame, None, s), Last(rs).flow.exits;
      order := Listing(frame.f, Last(rs).log, Returning(p, exits));
      ResultIs(frame, s, rs);
      assert forall b :: b in order <==> b in Returning(p, exits);
      ExitsAreMerged(p, exits, order);
    }
  }
}
