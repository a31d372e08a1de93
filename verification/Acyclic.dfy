/**
 On a function without loops whose blocks are all reachable, the solver stops; it
 processes every block once, after all of its predecessors, and never reads the
 initial state for a missing one. An ignored edge changes this for its target
 alone, which is an exit block in the runs that ignore one: the target may be
 processed again for each predecessor.
 */
module Acyclic {
  import opened Collections
  import opened Wrappers
  import opened ControlFlow
  import opened SolverSpec
  import opened Fixpoint
  import opened Solver
  import opened PathSoundness
  import opened Reachability
  import opened EdgeSplitting

  /** `rank` grows along every edge. */
  ghost predicate Ranks(g: Cfg, rank: Block -> nat) {
    forall b: Block, t: Block {:trigger t in g.Succs(b)} ::
      g.Has(b) && t in g.Succs(b) ==> rank(b) < rank(t)
  }

  ghost predicate Loopless(g: Cfg) {
    exists rank: Block -> nat :: Ranks(g, rank)
  }

  /** `path` takes only successors that exist. */
  ghost predicate Walk(g: Cfg, path: Path) {
    path.Step? ==>
      && Walk(g, path.prefix)
      && g.Has(End(g, path.prefix))
      && path.choice < |g.Succs(End(g, path.prefix))|
  }

  ghost predicate Walked(g: Cfg, b: Block) {
    exists path :: Walk(g, path) && End(g, path) == b
  }

  ghost predicate AllWalked(g: Cfg) {
    forall b {:trigger Walked(g, b)} :: g.Has(b) ==> Walked(g, b)
  }

  /** Without loops, all blocks reachable, and no edge ignored but into an exit. */
  ghost predicate Straight<S(!new)>(p: Problem<S>) {
    && p.g.WellFormed() && Loopless(p.g) && AllWalked(p.g)
    && (p.ignored.Some? ==> EntersExit(p.g, p.ignored.value))
  }

  ghost predicate EntersExit(g: Cfg, e: Edge)
    requires g.WellFormed()
  {
    g.Has(e.end) && g.Succs(e.end) == [] && e.start in g.preds[e.end]
  }

  /** The ignored edge does not lead to `b`. */
  predicate Steady<S(!new)>(p: Problem<S>, b: Block) {
    p.ignored.None? || p.ignored.value.end != b
  }

  // ---- some queued block is always ready ----

  /** The first block of a walk that is not processed is queued. */
  lemma {:induction false} WalkLeavesThroughQueue<S(!new)>(
      p: Problem<S>, f: Flow<S>, done: set<Block>, path: Path, rank: Block -> nat)
      returns (x: Block)
    requires p.g.WellFormed() && Inv(p, f, done) && Ranks(p.g, rank)
    requires Walk(p.g, path) && p.g.Has(End(p.g, path)) && End(p.g, path) !in done
    requires p.g.Succs(End(p.g, path)) != []
    ensures x in f.worklist && rank(x) <= rank(End(p.g, path))
  {
    var b := End(p.g, path);
    match path
    case AtEntry => x := ENTRY;
    case Step(q, i) =>
      if End(p.g, q) in done {
        assert b in p.g.Succs(End(p.g, q));
        x := b;
      } else {
        assert b in p.g.Succs(End(p.g, q));
        x := WalkLeavesThroughQueue(p, f, done, q, rank);
      }
  }

  lemma {:induction false} SomeBlockIsReady<S(!new)>(
      p: Problem<S>, f: Flow<S>, done: set<Block>, b: Block, rank: Block -> nat)
      returns (x: Block)
    requires Straight(p) && Inv(p, f, done) && Ranks(p.g, rank)
    requires b in f.worklist && (p.g.Term(b).Unreachable? ==> b == ENTRY)
    requires forall c :: c in f.worklist && c != ENTRY ==> !p.g.Term(c).Unreachable?
    ensures x in f.worklist && !p.Waits(f.states, x)
    decreases rank(b)
  {
    if !p.Waits(f.states, b) {
      x := b;
    } else {
      var q :| q in p.g.preds[b] && p.ignored != Some(Edge(q, b)) && Edge(q, b) !in f.states;
      p.g.PredIffSucc(q, b);
      assert Walked(p.g, q);
      var path :| Walk(p.g, path) && End(p.g, path) == q;
      var y := WalkLeavesThroughQueue(p, f, done, path, rank);
      x := SomeBlockIsReady(p, f, done, y, rank);
    }
  }

  lemma {:induction false} ReadyBlockIsFound<S(!new)>(
      p: Problem<S>, states: map<Edge, S>, w: seq<Block>, x: Block)
    requires p.g.WellFormed() && forall b :: b in w ==> p.g.Has(b)
    requires x in w && !p.Waits(states, x)
    ensures p.FirstReady(states, w) < |w|
    ensures !p.Waits(states, w[p.FirstReady(states, w)])
  {
    if p.Waits(states, w[0]) {
      assert x in w[1..];
      ReadyBlockIsFound(p, states, w[1..], x);
    }
  }

  // ---- the order of a run ----

  /** No steady block is processed twice. */
  ghost predicate Once<S(!new)>(p: Problem<S>, log: seq<Block>) {
    forall i, j :: 0 <= i < j < |log| && log[i] == log[j] ==> !Steady(p, log[i])
  }

  /** No steady block comes before one of its predecessors. */
  ghost predicate Topological<S(!new)>(p: Problem<S>, log: seq<Block>) {
    forall i, j :: 0 <= i <= j < |log| && p.g.Has(log[j]) && Steady(p, log[i]) ==> log[i] !in p.g.Succs(log[j])
  }

  /** Processed and queued blocks are apart, and processed blocks had every
      predecessor processed before, but for the target of the ignored edge. */
  ghost predicate InOrder<S(!new)>(p: Problem<S>, r: Progress<S>)
    requires p.g.WellFormed()
  {
    && Once(p, r.log)
    && Topological(p, r.log)
    && (forall b :: b in r.log && Steady(p, b) ==> b !in r.flow.worklist)
    && (forall b, q :: b in r.log && Steady(p, b) && p.g.Has(b) && q in p.g.preds[b] ==> q in r.log)
    && (forall b :: b in r.flow.worklist && p.g.Has(b) && b != ENTRY ==> !p.g.Term(b).Unreachable?)
  }

  /** The round after `r` takes a block that does not wait. */
  ghost predicate TakesReady<S(!new)>(p: Problem<S>, f: Flow<S>)
    requires p.g.WellFormed() && f.worklist != [] && forall b :: b in f.worklist ==> p.g.Has(b)
  {
    p.FirstReady(f.states, f.worklist) < |f.worklist|
    && !p.Waits(f.states, f.worklist[p.Chosen(f)])
  }

  lemma InOrderTakesReady<S(!new)>(p: Problem<S>, r: Progress<S>)
    requires Straight(p) && Inv(p, r.flow, r.Done()) && InOrder(p, r) && r.flow.worklist != []
    ensures TakesReady(p, r.flow)
  {
    var rank :| Ranks(p.g, rank);
    assert r.flow.worklist[0] in r.flow.worklist;
    var x := SomeBlockIsReady(p, r.flow, r.Done(), r.flow.worklist[0], rank);
    ReadyBlockIsFound(p, r.flow.states, r.flow.worklist, x);
  }

  lemma ReadyPredsAreDone<S(!new)>(p: Problem<S>, f: Flow<S>, done: set<Block>, b: Block)
    requires p.g.WellFormed() && Inv(p, f, done) && p.g.Has(b)
    requires Steady(p, b) && !p.Waits(f.states, b)
    ensures forall q :: q in p.g.preds[b] ==> q in done
  {
    forall q | q in p.g.preds[b]
      ensures q in done
    {
      assert p.ignored != Some(Edge(q, b));
      assert Edge(q, b) in f.states;
    }
  }

  /** Adding `b`, which was not processed before if it is steady. */
  ghost predicate MayFollow<S(!new)>(p: Problem<S>, log: seq<Block>, b: Block)
    requires p.g.WellFormed() && p.g.Has(b)
  {
    && (forall c :: c in log ==> p.g.Has(c))
    && (Steady(p, b) ==> b !in log && forall q :: q in p.g.preds[b] ==> q in log)
  }

  /** Successors of a block that may follow are not processed. */
  lemma SuccessorsAreNew<S(!new)>(p: Problem<S>, r: Progress<S>, b: Block, t: Block)
    requires Straight(p) && InOrder(p, r) && p.g.Has(b) && MayFollow(p, r.log, b)
    requires t in p.g.Succs(b) && Steady(p, t)
    ensures t !in r.log + [b]
  {
    var rank :| Ranks(p.g, rank);
    assert rank(b) < rank(t);
    p.g.PredIffSucc(b, t);
  }

  lemma LogStaysOrdered<S(!new)>(p: Problem<S>, r: Progress<S>, b: Block)
    requires Straight(p) && InOrder(p, r) && p.g.Has(b) && MayFollow(p, r.log, b)
    ensures Once(p, r.log + [b]) && Topological(p, r.log + [b])
  {
    forall i | 0 <= i <= |r.log| && Steady(p, (r.log + [b])[i])
      ensures (r.log + [b])[i] !in p.g.Succs(b)
    {
      var c := (r.log + [b])[i];
      assert c in r.log + [b];
      if c in p.g.Succs(b) {
        SuccessorsAreNew(p, r, b, c);
      }
    }
  }

  lemma FinishStaysInOrder<S(!new)>(p: Problem<S>, r: Progress<S>, b: Block, s: S, rest: seq<Block>)
    requires Straight(p) && InOrder(p, r) && p.g.Has(b) && MayFollow(p, r.log, b)
    requires NoDup(rest) && forall x :: x in rest <==> x in r.flow.worklist && x != b
    ensures InOrder(p, Progress(p.Finish(b, s, r.flow.(worklist := rest)), r.log + [b]))
  {
    LogStaysOrdered(p, r, b);
    FinishWakes(p, b, s, r.flow.(worklist := rest));
    var f := p.Finish(b, s, r.flow.(worklist := rest));
    forall c | c in f.worklist && Steady(p, c)
      ensures c !in r.log + [b]
    {
      if c !in rest {
        SuccessorsAreNew(p, r, b, c);
      }
    }
  }

  /** What one round does to the queue. */
  lemma NextQueues<S(!new)>(p: Problem<S>, r: Progress<S>)
    requires p.g.WellFormed() && Queue(p, r.flow) && r.flow.worklist != []
    ensures forall c :: c in Next(p, r).flow.worklist ==>
              (c in r.flow.worklist && c != Picked(p, r)) || (c in p.g.Succs(Picked(p, r)) && !p.g.Term(c).Unreachable?)
  {
    var k := p.Chosen(r.flow);
    var b := Picked(p, r);
    TakeOut(r.flow.worklist, k);
    FinishWakes(p, b, p.Output(r.flow.states, b),
                r.flow.(worklist := Rotated(r.flow.worklist, k)));
  }

  lemma RoundMayFollow<S(!new)>(p: Problem<S>, r: Progress<S>)
    requires Straight(p) && Inv(p, r.flow, r.Done()) && InOrder(p, r) && r.flow.worklist != []
    ensures MayFollow(p, r.log, Picked(p, r))
  {
    var b := Picked(p, r);
    InOrderTakesReady(p, r);
    forall c | c in r.log
      ensures p.g.Has(c)
    {
      assert c in r.Done();
    }
    if Steady(p, b) {
      ReadyPredsAreDone(p, r.flow, r.Done(), b);
    }
  }

  lemma RoundStaysInOrder<S(!new)>(p: Problem<S>, r: Progress<S>)
    requires Straight(p) && Inv(p, r.flow, r.Done()) && InOrder(p, r) && r.flow.worklist != []
    ensures InOrder(p, Next(p, r))
  {
    var k := p.Chosen(r.flow);
    var b := Picked(p, r);
    RoundMayFollow(p, r);
    TakeOut(r.flow.worklist, k);
    FinishStaysInOrder(p, r, b, p.Output(r.flow.states, b),
                       Rotated(r.flow.worklist, k));
  }

  lemma {:induction false} RunIsInOrder<S(!new)>(p: Problem<S>, rs: seq<Progress<S>>)
    requires p.Valid() && Straight(p) && IsRun(p, rs)
    ensures InOrder(p, Last(rs)) && |Last(rs).log| == |rs| - 1
  {
    if |rs| > 1 {
      ShorterRun(p, rs);
      RunIsInOrder(p, rs[..|rs| - 1]);
      RunHasInv(p, rs[..|rs| - 1]);
      RoundStaysInOrder(p, Last(rs[..|rs| - 1]));
    }
  }

  // ---- the whole run ----

  lemma {:induction false} WalkIsReached<S(!new)>(p: Problem<S>, path: Path)
    requires p.g.WellFormed() && Walk(p.g, path)
    requires p.g.Has(End(p.g, path))
    requires path.Step? ==> !p.g.Term(End(p.g, path)).Unreachable?
    ensures On(p.(ignored := None), path)
  {
    if path.Step? {
      var b := End(p.g, path.prefix);
      assert p.g.Succs(b) != [];
      WalkIsReached(p, path.prefix);
    }
  }

  // ---- how often the target of the ignored edge is processed ----

  ghost function DonePreds<S(!new)>(p: Problem<S>, r: Progress<S>, e: Block): set<Block>
    requires p.g.WellFormed() && p.g.Has(e)
  {
    set q | q in p.g.preds[e] && q in r.log
  }

  /** `e` was processed, or is queued, at most once for each processed predecessor. */
  ghost predicate Earned<S(!new)>(p: Problem<S>, r: Progress<S>, e: Block)
    requires p.g.WellFormed() && p.g.Has(e)
  {
    multiset(r.log)[e] + (if e in r.flow.worklist then 1 else 0) <= |DonePreds(p, r, e)|
  }

  lemma DonePredsGrow<S(!new)>(p: Problem<S>, r: Progress<S>, next: Progress<S>, b: Block, e: Block)
    requires p.g.WellFormed() && p.g.Has(b) && p.g.Has(e)
    requires next.log == r.log + [b] && (e in p.g.Succs(b) ==> b !in r.log)
    ensures |DonePreds(p, next, e)| >= |DonePreds(p, r, e)| + if e in p.g.Succs(b) then 1 else 0
  {
    p.g.PredIffSucc(b, e);
    if e in p.g.Succs(b) {
      assert DonePreds(p, next, e) == DonePreds(p, r, e) + {b};
    } else {
      SubsetIsSmaller(DonePreds(p, r, e), DonePreds(p, next, e));
    }
  }

  lemma RoundEarns<S(!new)>(p: Problem<S>, r: Progress<S>, e: Block)
    requires Straight(p) && p.ignored.Some? && e == p.ignored.value.end
    requires Inv(p, r.flow, r.Done()) && InOrder(p, r) && r.flow.worklist != [] && Earned(p, r, e)
    ensures Earned(p, Next(p, r), e)
  {
    var b := Picked(p, r);
    NextQueues(p, r);
    RoundMayFollow(p, r);
    DonePredsGrow(p, r, Next(p, r), b, e);
    assert multiset(r.log + [b])[e] == multiset(r.log)[e] + if b == e then 1 else 0;
  }

  lemma {:induction false} RunEarns<S(!new)>(p: Problem<S>, rs: seq<Progress<S>>, e: Block)
    requires p.Valid() && Straight(p) && IsRun(p, rs)
    requires p.ignored.Some? && e == p.ignored.value.end
    ensures Earned(p, Last(rs), e)
  {
    if |rs| > 1 {
      ShorterRun(p, rs);
      RunEarns(p, rs[..|rs| - 1], e);
      RunIsInOrder(p, rs[..|rs| - 1]);
      RunHasInv(p, rs[..|rs| - 1]);
      RoundEarns(p, Last(rs[..|rs| - 1]), e);
    }
  }

  /** Block numbers below `n` of which `e` alone is repeated. */
  lemma {:induction false} RepeatsAreBounded(s: seq<Block>, e: Block, n: nat)
    requires e < n && forall b :: b in s ==> b < n
    requires forall i, j :: 0 <= i < j < |s| && s[i] == s[j] ==> s[i] == e
    ensures |s| <= n - 1 + multiset(s)[e]
    decreases |s|
  {
    if e in s {
      var i :| 0 <= i < |s| && s[i] == e;
      var rest := s[..i] + s[i + 1..];
      assert s == s[..i] + [e] + s[i + 1..];
      assert forall b :: b in rest ==> b in s;
      RepeatsAreBounded(rest, e, n);
    } else {
      NoDupIsShort(s + [e], n);
    }
  }

  // ---- the bound ----

  /** One round for each block, and one for each edge use into the target of the
      ignored edge. */
  function MostRounds<S(!new)>(p: Problem<S>): nat
    requires p.ignored.Some? ==> |p.g.blocks| > 0 && p.ignored.value.end < |p.g.preds|
  {
    if p.ignored.None? then |p.g.blocks|
    else |p.g.blocks| - 1 + |p.g.preds[p.ignored.value.end]|
  }

  lemma LogIsShort<S(!new)>(p: Problem<S>, rs: seq<Progress<S>>)
    requires p.Valid() && Straight(p) && IsRun(p, rs)
    ensures |rs| - 1 <= MostRounds(p)
  {
    var r := Last(rs);
    RunIsInOrder(p, rs);
    RunHasInv(p, rs);
    forall b | b in r.log
      ensures p.g.Has(b)
    {
      assert b in r.Done();
    }
    if p.ignored.Some? {
      var e := p.ignored.value.end;
      RunEarns(p, rs, e);
      RepeatsAreBounded(r.log, e, |p.g.blocks|);
      SetOfSeq(p.g.preds[e], DonePreds(p, r, e));
    } else {
      NoDupIsShort(r.log, |p.g.blocks|);
    }
  }

  /** No run has more rounds than that, so the solver stops. */
  lemma StraightRunIsShort<S(!new)>(p: Problem<S>, rs: seq<Progress<S>>)
    requires p.Valid() && Straight(p) && IsRun(p, rs)
    ensures |rs| - 1 <= MostRounds(p)
    ensures |rs| - 1 == MostRounds(p) ==> Last(rs).flow.worklist == []
  {
    LogIsShort(p, rs);
    if Last(rs).flow.worklist != [] {
      RunHasQueue(p, rs);
      LongerRun(p, rs);
      LogIsShort(p, rs + [Next(p, Last(rs))]);
    }
  }

  /** So some run stops. */
  lemma StraightStops<S(!new)>(p: Problem<S>) returns (rs: seq<Progress<S>>)
    requires p.Valid() && Straight(p)
    ensures IsRun(p, rs) && Last(rs).flow.worklist == []
  {
    rs := StraightGoesOn(p, [Begin(p)]);
  }

  lemma {:induction false} StraightGoesOn<S(!new)>(p: Problem<S>, rs: seq<Progress<S>>)
      returns (ts: seq<Progress<S>>)
    requires p.Valid() && Straight(p) && IsRun(p, rs) && |rs| - 1 <= MostRounds(p)
    ensures IsRun(p, ts) && Last(ts).flow.worklist == []
    decreases MostRounds(p) - |rs|
  {
    ts := rs;
    if Last(rs).flow.worklist != [] {
      RunHasQueue(p, rs);
      LongerRun(p, rs);
      StraightRunIsShort(p, rs);
      ts := StraightGoesOn(p, rs + [Next(p, Last(rs))]);
    }
  }

  /** A run that ignores one of the two edges into the only exit processes no
      block again but the exit, and that at most once. */
  lemma SplitRunIsShort<S(!new)>(p: Problem<S>, rs: seq<Progress<S>>, e: Block, k: nat)
    requires p.Valid() && Loopless(p.g) && AllWalked(p.g) && Splits(p.g, e) && k < 2
    requires IsRun(Split(p, e, k), rs)
    ensures |rs| - 1 <= |p.g.blocks| + 1
    ensures |rs| - 1 == |p.g.blocks| + 1 ==> Last(rs).flow.worklist == []
    ensures forall i, j :: 0 <= i < j < |Last(rs).log| && Last(rs).log[i] == Last(rs).log[j] ==> Last(rs).log[i] == e
  {
    var pk := Split(p, e, k);
    assert EntersExit(p.g, Final(p.g, e, k));
    StraightRunIsShort(pk, rs);
    RunIsInOrder(pk, rs);
  }

  /** When it stops it has processed the blocks not ended by unreachable, and the
      entry: each once and predecessors first, but for the target of the ignored
      edge. */
  lemma StraightRunIsComplete<S(!new)>(p: Problem<S>, rs: seq<Progress<S>>)
    requires p.Valid() && Straight(p) && IsRun(p, rs) && Last(rs).flow.worklist == []
    ensures Once(p, Last(rs).log) && Topological(p, Last(rs).log)
    ensures p.ignored.None? ==> NoDup(Last(rs).log)
    ensures forall b :: b in Last(rs).log <==> p.g.Has(b) && (b == ENTRY || !p.g.Term(b).Unreachable?)
  {
    var r := Last(rs);
    RunIsInOrder(p, rs);
    StoppedRunProcessesReached(p, rs);
    assert On(p.(ignored := None), AtEntry) && End(p.g, AtEntry) == ENTRY;
    forall b
      ensures b in r.log <==> p.g.Has(b) && (b == ENTRY || !p.g.Term(b).Unreachable?)
    {
      if b in r.log {
        var path :| On(p.(ignored := None), path) && End(p.g, path) == b;
      } else if p.g.Has(b) && b != ENTRY && !p.g.Term(b).Unreachable? {
        assert Walked(p.g, b);
        var path :| Walk(p.g, path) && End(p.g, path) == b;
        WalkIsReached(p, path);
      }
    }
  }

  /** No round falls back to a waiting block, and every predecessor that counts of
      the block it takes has stored a state. */
  lemma StraightRunNeverGivesUp<S(!new)>(p: Problem<S>, rs: seq<Progress<S>>)
    requires p.Valid() && Straight(p) && IsRun(p, rs) && Last(rs).flow.worklist != []
    ensures Queue(p, Last(rs).flow)
    ensures var f := Last(rs).flow;
            var b := f.worklist[p.Chosen(f)];
            && p.FirstReady(f.states, f.worklist) < |f.worklist|
            && (forall q :: p.g.Has(b) && q in p.g.preds[b] && p.ignored != Some(Edge(q, b)) ==> Edge(q, b) in f.states)
  {
    RunIsInOrder(p, rs);
    RunHasInv(p, rs);
    InOrderTakesReady(p, Last(rs));
  }

  /** The solver's loop ends without a budget of its own on such a function. */
  method RunStraight<S(!new)>(analysis: FunctionAnalysis<S>)
    requires analysis.Valid() && Straight(analysis.p)
    modifies analysis
    ensures analysis.Valid() && analysis.worklist == []
    ensures Inv(analysis.p, analysis.Containers(), Last(analysis.run).Done())
  {
    var stopped := analysis.Run(MostRounds(analysis.p));
    StraightRunIsShort(analysis.p, analysis.run);
  }
}
