/**
 The constructor of FunctionAnalysis followed by getResult, as runMethod and
 handleCall use them.
 */
module FunctionResult {
  import opened Wrappers
  import opened ControlFlow
  import opened SolverSpec
  import opened Solver
  import opened PathSoundness
  import opened Reachability
  import opened EdgeSplitting

  /** `r` covers every complete path that is not lost, whatever the instructions
      do below the transfers of the final states. */
  ghost predicate CoversAllPaths<S(!new)>(p: Problem<S>, states: map<Edge, S>, r: S)
    requires p.g.WellFormed()
  {
    forall path, fx :: Complete(p, path) && !Lost(p.g, path) && Monotone(p.dom, fx) && Below(p, states, fx) ==>
      CoveredBy(p, fx, path, r)
  }

  /** Analyse one function within a budget of rounds. If the loop ends, there is
      no result exactly when no exit block is reached, and otherwise the result
      covers every path that is not lost. */
  method Analyse<S(!new)>(p: Problem<S>, budget: nat)
      returns (stopped: bool, r: Result<S, SolverError>, ghost o: Outcome<S>)
    requires p.Valid()
    ensures stopped ==> IsOutcome(p, o)
    ensures stopped ==>
      (r.Failure? <==> forall b :: Reached(p, b) && p.g.Has(b) ==> p.g.Succs(b) != [])
    ensures stopped && r.Success? ==> r.value == ResultOf(p, o) && CoversAllPaths(p, o.flow.states, r.value)
  {
    var analysis := new FunctionAnalysis(p);
    stopped := analysis.Run(budget);
    ghost var order: seq<Block>;
    r, order := analysis.GetResult();
    o := Outcome(analysis.Containers(), order);
    if stopped {
      ResultMissingIffNoExitReached(p, analysis.run);
      ResultCoversAll(p, o);
    }
  }

  /** The same without a budget, where the loop ends. */
  method AnalyseToEnd<S(!new)>(p: Problem<S>) returns (r: Result<S, SolverError>, ghost o: Outcome<S>)
    requires p.Valid() && Stops(p)
    ensures IsOutcome(p, o)
    ensures r.Failure? <==> forall b :: Reached(p, b) && p.g.Has(b) ==> p.g.Succs(b) != []
    ensures r.Success? ==> r.value == ResultOf(p, o) && CoversAllPaths(p, o.flow.states, r.value)
  {
    var analysis := new FunctionAnalysis.Analysed(p);
    ghost var order: seq<Block>;
    r, order := analysis.GetResult();
    o := Outcome(analysis.Containers(), order);
    ResultMissingIffNoExitReached(p, analysis.run);
    ResultCoversAll(p, o);
  }

  lemma ResultCoversAll<S(!new)>(p: Problem<S>, o: Outcome<S>)
    requires p.Valid() && IsOutcome(p, o)
    ensures CoversAllPaths(p, o.flow.states, ResultOf(p, o))
  {
    forall path, fx | Complete(p, path) && !Lost(p.g, path) && Monotone(p.dom, fx) && Below(p, o.flow.states, fx)
      ensures CoveredBy(p, fx, path, ResultOf(p, o))
    {
      ResultCoversPath(p, o.flow, o.order, fx, path);
    }
  }
}
