/**
 The blocks a run processes are the blocks that a walk from entry reaches
 without entering an unreachable-terminated block. The ignored edge does not
 count: its target is queued like any other.
 */
module Reachability {
  import opened Wrappers
  import opened ControlFlow
  import opened SolverSpec
  import opened Fixpoint
  import opened Solver
  import opened PathSoundness

  ghost predicate Reached<S(!new)>(p: Problem<S>, b: Block) {
    exists path :: On(p.(ignored := None), path) && End(p.g, path) == b
  }

  lemma ReachedStep<S(!new)>(p: Problem<S>, b: Block, t: Block)
    requires p.g.WellFormed() && Reached(p, b) && p.g.Has(b)
    requires t in p.g.Succs(b) && !p.g.Term(t).Unreachable?
    ensures Reached(p, t)
  {
    var path :| On(p.(ignored := None), path) && End(p.g, path) == b;
    var i :| 0 <= i < |p.g.Succs(b)| && p.g.Succs(b)[i] == t;
    assert End(p.g, Step(path, i)) == t;
    assert On(p.(ignored := None), Step(path, i));
  }

  ghost predicate AllReached<S(!new)>(p: Problem<S>, r: Progress<S>) {
    forall b :: b in r.log || b in r.flow.worklist ==> Reached(p, b)
  }

  lemma NextStaysReached<S(!new)>(p: Problem<S>, q: Progress<S>)
    requires p.g.WellFormed() && Queue(p, q.flow) && q.flow.worklist != [] && AllReached(p, q)
    ensures AllReached(p, Next(p, q))
  {
    var k := p.Chosen(q.flow);
    var b := q.flow.worklist[k];
    assert b in q.flow.worklist && Reached(p, b);
    TakeOut(q.flow.worklist, k);
    var rest := q.flow.(worklist := Rotated(q.flow.worklist, k));
    FinishWakes(p, b, p.Output(q.flow.states, b), rest);
    forall c | c in Next(p, q).flow.worklist && c !in q.flow.worklist
      ensures Reached(p, c)
    {
      ReachedStep(p, b, c);
    }
  }

  lemma {:induction false} OnlyReachedIsProcessed<S(!new)>(p: Problem<S>, rs: seq<Progress<S>>)
    requires IsRun(p, rs)
    ensures AllReached(p, Last(rs))
  {
    if |rs| == 1 {
      assert On(p.(ignored := None), AtEntry);
    } else {
      ShorterRun(p, rs);
      OnlyReachedIsProcessed(p, rs[..|rs| - 1]);
      NextStaysReached(p, Last(rs[..|rs| - 1]));
    }
  }

  lemma {:induction false} ReachedIsDone<S(!new)>(
      p: Problem<S>, f: Flow<S>, done: set<Block>, path: Path)
    requires p.g.WellFormed() && Inv(p, f, done) && f.worklist == []
    requires On(p.(ignored := None), path)
    ensures End(p.g, path) in done
  {
    if path.Step? {
      ReachedIsDone(p, f, done, path.prefix);
    }
  }

  /** A stopped run has processed exactly the blocks reached from entry. */
  lemma StoppedRunProcessesReached<S(!new)>(p: Problem<S>, rs: seq<Progress<S>>)
    requires p.Valid() && IsRun(p, rs) && Last(rs).flow.worklist == []
    ensures forall b :: b in Last(rs).log <==> Reached(p, b)
  {
    var r := Last(rs);
    OnlyReachedIsProcessed(p, rs);
    RunHasInv(p, rs);
    forall b | Reached(p, b)
      ensures b in r.log
    {
      var path :| On(p.(ignored := None), path) && End(p.g, path) == b;
      ReachedIsDone(p, r.flow, r.Done(), path);
    }
  }

  /** getResult's assertion that the function exits fails, after a stopped run,
      exactly when no block without successors is reached. */
  lemma ResultMissingIffNoExitReached<S(!new)>(p: Problem<S>, rs: seq<Progress<S>>)
    requires p.Valid() && IsRun(p, rs) && Last(rs).flow.worklist == []
    ensures Last(rs).flow.exits == map[]
       <==> forall b :: Reached(p, b) && p.g.Has(b) ==> p.g.Succs(b) != []
  {
    var r := Last(rs);
    StoppedRunProcessesReached(p, rs);
    RunHasInv(p, rs);
    if r.flow.exits == map[] {
      forall b | Reached(p, b) && p.g.Has(b)
        ensures p.g.Succs(b) != []
      {
        assert b in r.Done();
      }
    } else {
      var b :| b in r.flow.exits;
      assert b in r.Done();
    }
  }
}
