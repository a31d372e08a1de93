/**
 The solver stops, in every domain, on a function without a live loop: one that
 control can reach and go round without passing a landing pad. Nothing is asked of
 blocks that cannot be reached, nor of the ignored edge.

 A state may be sent several times here, because a missing one is read as the
 initial state first. But the states on the edges out of a block are quiet, for
 good, once those into it are.
 */
module LoopTermination {
  import opened Wrappers
  import opened Collections
  import opened ControlFlow
  import opened SolverSpec
  import opened Fixpoint
  import opened Solver
  import opened PathSoundness
  import opened Reachability

  // ---- live blocks and loops ----

  predicate Padded(g: Cfg, b: Block) {
    g.Has(b) && LandingPad in g.Insts(b)
  }

  /** The path enters no block ended by unreachable and leaves no landing pad. */
  ghost predicate LivePath(g: Cfg, path: Path) {
    path.Step? ==>
      && LivePath(g, path.prefix)
      && g.Has(End(g, path.prefix)) && !Padded(g, End(g, path.prefix))
      && path.choice < |g.Succs(End(g, path.prefix))|
      && g.Has(End(g, path)) && !g.Term(End(g, path)).Unreachable?
  }

  ghost predicate Arrives(g: Cfg, b: Block) {
    exists path :: LivePath(g, path) && End(g, path) == b
  }

  /** Control goes on from `b` to `t`. */
  ghost predicate GoesOn(g: Cfg, b: Block, t: Block) {
    g.Has(b) && Arrives(g, b) && !Padded(g, b) && t in g.Succs(b) && g.Has(t) && !g.Term(t).Unreachable?
  }

  ghost predicate LiveRank(g: Cfg, rank: Block -> nat) {
    forall b: Block, t: Block :: GoesOn(g, b, t) ==> rank(b) < rank(t)
  }

  ghost predicate NoLiveLoop(g: Cfg) {
    exists rank: Block -> nat :: LiveRank(g, rank)
  }

  lemma EntryArrives(g: Cfg)
    ensures Arrives(g, ENTRY)
  {
    assert LivePath(g, AtEntry) && End(g, AtEntry) == ENTRY;
  }

  lemma GoingOnArrives(g: Cfg, b: Block, t: Block)
    requires GoesOn(g, b, t)
    ensures Arrives(g, t)
  {
    var path :| LivePath(g, path) && End(g, path) == b;
    var i :| 0 <= i < |g.Succs(b)| && g.Succs(b)[i] == t;
    assert LivePath(g, Step(path, i)) && End(g, Step(path, i)) == t;
  }

  // ---- elsewhere all states are bottom ----

  ghost predicate DeadIsBottom<S(!new)>(p: Problem<S>, states: map<Edge, S>) {
    forall b, t :: Edge(b, t) in states && !GoesOn(p.g, b, t) ==> p.dom.isBottom(states[Edge(b, t)])
  }

  /** A block with a landing pad, or where control does not arrive, ends in bottom. */
  lemma DeadOutput<S(!new)>(p: Problem<S>, states: map<Edge, S>, b: Block)
    requires p.Valid() && p.g.Has(b) && DeadIsBottom(p, states)
    requires Padded(p.g, b) || (!Arrives(p.g, b) && p.g.preds[b] != [])
    ensures p.dom.isBottom(p.Output(states, b))
  {
    var n := |p.g.Insts(b)|;
    if Padded(p.g, b) {
      PadIsBottom(p, b, n, p.Live(states, b), p.Input(states, b));
    } else {
      forall q | q in p.g.preds[b] && Edge(q, b) in states
        ensures p.dom.isBottom(states[Edge(q, b)])
      {
        if GoesOn(p.g, q, b) {
          GoingOnArrives(p.g, q, b);
        }
      }
      assert p.AllBottomOrNull(states, b);
      ExecBottom(p, b, n, p.Live(states, b), p.Input(states, b));
    }
  }

  lemma NextIsDeadBottom<S(!new)>(p: Problem<S>, r: Progress<S>)
    requires p.Valid() && Queue(p, r.flow) && r.flow.worklist != [] && AllReached(p, r)
    requires DeadIsBottom(p, r.flow.states)
    ensures DeadIsBottom(p, Next(p, r).flow.states)
  {
    var b := Picked(p, r);
    var s := p.Output(r.flow.states, b);
    FinishStores(p, b, s, r.flow.(worklist := Rotated(r.flow.worklist, p.Chosen(r.flow))));
    forall t | t in p.g.Succs(b) && !p.g.Term(t).Unreachable? && !GoesOn(p.g, b, t)
      ensures p.dom.isBottom(p.Sent(b, t, s))
    {
      ReachedHasPreds(p, b);
      DeadOutput(p, r.flow.states, b);
      SentMonotone(p, b, t, s, s);
    }
  }

  lemma ReachedHasPreds<S(!new)>(p: Problem<S>, b: Block)
    requires p.g.WellFormed() && p.g.Has(b) && Reached(p, b)
    ensures Arrives(p.g, b) || p.g.preds[b] != []
  {
    var path :| On(p.(ignored := None), path) && End(p.g, path) == b;
    if path.Step? {
      var q := End(p.g, path.prefix);
      assert b in p.g.Succs(q);
      p.g.PredIffSucc(q, b);
    } else {
      EntryArrives(p.g);
    }
  }

  lemma {:induction false} RunIsDeadBottom<S(!new)>(p: Problem<S>, rs: seq<Progress<S>>)
    requires p.Valid() && IsRun(p, rs)
    ensures DeadIsBottom(p, Last(rs).flow.states)
  {
    if |rs| > 1 {
      ShorterRun(p, rs);
      RunIsDeadBottom(p, rs[..|rs| - 1]);
      OnlyReachedIsProcessed(p, rs[..|rs| - 1]);
      NextIsDeadBottom(p, Last(rs[..|rs| - 1]));
    }
  }

  // ---- what a block's output depends on ----

  /** Into `b`, the same edges have states, and these are equal or both bottom. */
  ghost predicate SameInto<S(!new)>(p: Problem<S>, x: map<Edge, S>, y: map<Edge, S>, b: Block)
    requires p.g.WellFormed() && p.g.Has(b)
  {
    forall q :: q in p.g.preds[b] ==>
      var e := Edge(q, b);
      && (e in x <==> e in y)
      && (e in x ==> x[e] == y[e] || (p.dom.isBottom(x[e]) && p.dom.isBottom(y[e])))
  }

  lemma {:induction false} SameMerge<S(!new)>(
      p: Problem<S>, x: map<Edge, S>, y: map<Edge, S>, b: Block, i: nat, acc: Option<S>)
    requires p.g.WellFormed() && p.g.Has(b) && i <= |p.g.preds[b]| && SameInto(p, x, y, b)
    ensures p.MergeFrom(x, b, i, acc) == p.MergeFrom(y, b, i, acc)
    decreases |p.g.preds[b]| - i
  {
    if i < |p.g.preds[b]| {
      var e := Edge(p.g.preds[b][i], b);
      assert p.g.preds[b][i] in p.g.preds[b];
      var s := p.PredOrInitial(x, e);
      if p.ignored == Some(e) || p.dom.isBottom(s) {
        SameMerge(p, x, y, b, i + 1, acc);
      } else {
        SameMerge(p, x, y, b, i + 1, if acc.None? then Some(s) else Some(p.dom.merge(acc.value, s)));
      }
    }
  }

  lemma SameOutput<S(!new)>(p: Problem<S>, x: map<Edge, S>, y: map<Edge, S>, b: Block)
    requires p.g.WellFormed() && p.g.Has(b) && SameInto(p, x, y, b)
    ensures p.Output(x, b) == p.Output(y, b)
  {
    assert p.AllBottomOrNull(x, b) <==> p.AllBottomOrNull(y, b);
    SameMerge(p, x, y, b, 0, None);
    assert p.Live(x, b) == p.Live(y, b) by {
      forall q | q in p.g.preds[b]
        ensures p.dom.isBottom(p.PredOrInitial(x, Edge(q, b))) <==> p.dom.isBottom(p.PredOrInitial(y, Edge(q, b)))
      {
      }
    }
  }

  // ---- runs that go on ----

  /** `ts` is the run `rs` with more rounds, or none more. */
  ghost predicate Extends<S(!new)>(p: Problem<S>, rs: seq<Progress<S>>, ts: seq<Progress<S>>) {
    IsRun(p, rs) && IsRun(p, ts) && rs <= ts
  }

  lemma ExtendsOn<S(!new)>(
      p: Problem<S>, rs: seq<Progress<S>>, ts: seq<Progress<S>>, us: seq<Progress<S>>)
    requires Extends(p, rs, ts) && Extends(p, ts, us)
    ensures Extends(p, rs, us)
  {
  }

  /** One round fewer, unless nothing was added. */
  lemma ExtendsBefore<S(!new)>(p: Problem<S>, rs: seq<Progress<S>>, ts: seq<Progress<S>>)
    requires Extends(p, rs, ts) && rs != ts
    ensures Extends(p, rs, ts[..|ts| - 1]) && Steps(p, Last(ts[..|ts| - 1]), Last(ts))
  {
    ShorterRun(p, ts);
  }

  ghost function StatesOf<S(!new)>(rs: seq<Progress<S>>): map<Edge, S>
    requires rs != []
  {
    Last(rs).flow.states
  }

  lemma NextStores<S(!new)>(p: Problem<S>, r: Progress<S>, e: Edge)
    requires p.g.WellFormed() && Queue(p, r.flow) && r.flow.worklist != []
    ensures e in r.flow.states ==> e in Next(p, r).flow.states
    ensures e in Next(p, r).flow.states ==>
      if e.start == Picked(p, r)
      then e.end in p.g.Succs(e.start) && !p.g.Term(e.end).Unreachable?
           ==> Next(p, r).flow.states[e] == p.Sent(e.start, e.end, p.Output(r.flow.states, e.start))
      else e in r.flow.states && Next(p, r).flow.states[e] == r.flow.states[e]
  {
    var b := Picked(p, r);
    FinishStores(p, b, p.Output(r.flow.states, b),
                 r.flow.(worklist := Rotated(r.flow.worklist, p.Chosen(r.flow))));
  }

  lemma {:induction false} EdgesStay<S(!new)>(p: Problem<S>, rs: seq<Progress<S>>, ts: seq<Progress<S>>, e: Edge)
    requires Extends(p, rs, ts) && e in StatesOf(rs)
    ensures e in StatesOf(ts)
    decreases |ts|
  {
    if rs != ts {
      ExtendsBefore(p, rs, ts);
      EdgesStay(p, rs, ts[..|ts| - 1], e);
      NextStores(p, Last(ts[..|ts| - 1]), e);
    }
  }

  // ---- quiet edges ----

  /** No further edge ever receives a first state. */
  ghost predicate EdgesAreQuiet<S(!new)>(p: Problem<S>, rs: seq<Progress<S>>) {
    IsRun(p, rs) && forall ts, e :: Extends(p, rs, ts) && e in StatesOf(ts) ==> e in StatesOf(rs)
  }

  /** No state on an edge out of `b` ever changes. */
  ghost predicate IsQuiet<S(!new)>(p: Problem<S>, rs: seq<Progress<S>>, b: Block) {
    && IsRun(p, rs)
    && forall ts, t :: Extends(p, rs, ts) && Edge(b, t) in StatesOf(ts) ==>
         Edge(b, t) in StatesOf(rs) && StatesOf(ts)[Edge(b, t)] == StatesOf(rs)[Edge(b, t)]
  }

  lemma StaysQuiet<S(!new)>(p: Problem<S>, rs: seq<Progress<S>>, ts: seq<Progress<S>>, b: Block)
    requires Extends(p, rs, ts) && IsQuiet(p, rs, b)
    ensures IsQuiet(p, ts, b)
  {
    forall us, t | Extends(p, ts, us) && Edge(b, t) in StatesOf(us)
      ensures Edge(b, t) in StatesOf(ts) && StatesOf(us)[Edge(b, t)] == StatesOf(ts)[Edge(b, t)]
    {
      ExtendsOn(p, rs, ts, us);
      EdgesStay(p, rs, ts, Edge(b, t));
    }
  }

  lemma EdgesStayQuiet<S(!new)>(p: Problem<S>, rs: seq<Progress<S>>, ts: seq<Progress<S>>)
    requires Extends(p, rs, ts) && EdgesAreQuiet(p, rs)
    ensures EdgesAreQuiet(p, ts)
  {
    forall us, e | Extends(p, ts, us) && e in StatesOf(us)
      ensures e in StatesOf(ts)
    {
      ExtendsOn(p, rs, ts, us);
      EdgesStay(p, rs, ts, e);
    }
  }

  function AllEdges(n: nat): set<Edge> {
    set b: Block, t: Block | b < n && t < n :: Edge(b, t)
  }

  lemma StatesAreOnEdges<S(!new)>(p: Problem<S>, rs: seq<Progress<S>>)
    requires p.Valid() && IsRun(p, rs)
    ensures StatesOf(rs).Keys <= AllEdges(|p.g.blocks|)
  {
    RunHasInv(p, rs);
    forall e | e in StatesOf(rs)
      ensures e in AllEdges(|p.g.blocks|)
    {
      var Edge(b, t) := e;
    }
  }

  /** There are only so many edges. */
  lemma {:induction false} EdgesComeToRest<S(!new)>(p: Problem<S>, rs: seq<Progress<S>>)
      returns (ts: seq<Progress<S>>)
    requires p.Valid() && IsRun(p, rs)
    ensures Extends(p, rs, ts) && EdgesAreQuiet(p, ts)
    decreases |AllEdges(|p.g.blocks|)| - |StatesOf(rs).Keys|
  {
    ts := rs;
    if !EdgesAreQuiet(p, rs) {
      var us, e :| Extends(p, rs, us) && e in StatesOf(us) && e !in StatesOf(rs);
      forall d | d in StatesOf(rs)
        ensures d in StatesOf(us)
      {
        EdgesStay(p, rs, us, d);
      }
      SubsetIsSmaller(StatesOf(rs).Keys + {e}, StatesOf(us).Keys);
      StatesAreOnEdges(p, us);
      SubsetIsSmaller(StatesOf(us).Keys, AllEdges(|p.g.blocks|));
      ts := EdgesComeToRest(p, us);
      ExtendsOn(p, rs, us, ts);
    }
  }

  // ---- one block comes to rest ----

  /** Every block from which control goes on to `b` is quiet. */
  ghost predicate SourcesAreQuiet<S(!new)>(p: Problem<S>, rs: seq<Progress<S>>, b: Block) {
    EdgesAreQuiet(p, rs) && forall q :: GoesOn(p.g, q, b) ==> IsQuiet(p, rs, q)
  }

  lemma OutputStays<S(!new)>(p: Problem<S>, rs: seq<Progress<S>>, ts: seq<Progress<S>>, b: Block)
    requires p.Valid() && p.g.Has(b) && Extends(p, rs, ts) && SourcesAreQuiet(p, rs, b)
    ensures p.Output(StatesOf(ts), b) == p.Output(StatesOf(rs), b)
  {
    RunIsDeadBottom(p, rs);
    RunIsDeadBottom(p, ts);
    forall q | q in p.g.preds[b]
      ensures Edge(q, b) in StatesOf(ts) <==> Edge(q, b) in StatesOf(rs)
      ensures Edge(q, b) in StatesOf(ts) && GoesOn(p.g, q, b) ==>
                StatesOf(ts)[Edge(q, b)] == StatesOf(rs)[Edge(q, b)]
    {
      if Edge(q, b) in StatesOf(rs) {
        EdgesStay(p, rs, ts, Edge(q, b));
      }
    }
    SameOutput(p, StatesOf(ts), StatesOf(rs), b);
  }

  /** The edges out of `b` hold what follows from `out`. */
  ghost predicate Sends<S(!new)>(p: Problem<S>, states: map<Edge, S>, b: Block, out: S)
    requires p.g.WellFormed() && p.g.Has(b)
  {
    forall t :: t in p.g.Succs(b) && !p.g.Term(t).Unreachable? && Edge(b, t) in states ==>
      states[Edge(b, t)] == p.Sent(b, t, out)
  }

  ghost predicate Unchanged<S(!new)>(x: map<Edge, S>, y: map<Edge, S>, b: Block) {
    forall t :: Edge(b, t) in y ==> Edge(b, t) in x && x[Edge(b, t)] == y[Edge(b, t)]
  }

  /** Later the edges out of `b` are as they were, or hold the one output that its
      quiet sources give. */
  lemma {:induction false} UnchangedOrSent<S(!new)>(
      p: Problem<S>, rs: seq<Progress<S>>, ts: seq<Progress<S>>, b: Block)
    requires p.Valid() && p.g.Has(b) && Extends(p, rs, ts) && SourcesAreQuiet(p, rs, b)
    ensures Unchanged(StatesOf(rs), StatesOf(ts), b)
         || Sends(p, StatesOf(ts), b, p.Output(StatesOf(rs), b))
    decreases |ts|
  {
    if rs != ts {
      ExtendsBefore(p, rs, ts);
      var us := ts[..|ts| - 1];
      UnchangedOrSent(p, rs, us, b);
      OutputStays(p, rs, us, b);
      forall t
        ensures Edge(b, t) in StatesOf(ts) ==>
          if b == Picked(p, Last(us))
          then t in p.g.Succs(b) && !p.g.Term(t).Unreachable?
               ==> StatesOf(ts)[Edge(b, t)] == p.Sent(b, t, p.Output(StatesOf(rs), b))
          else Edge(b, t) in StatesOf(us) && StatesOf(ts)[Edge(b, t)] == StatesOf(us)[Edge(b, t)]
      {
        NextStores(p, Last(us), Edge(b, t));
      }
    }
  }

  lemma BlockComesToRest<S(!new)>(p: Problem<S>, rs: seq<Progress<S>>, b: Block)
      returns (ts: seq<Progress<S>>)
    requires p.Valid() && p.g.Has(b) && SourcesAreQuiet(p, rs, b)
    ensures Extends(p, rs, ts) && IsQuiet(p, ts, b)
  {
    ts := rs;
    if !IsQuiet(p, rs, b) {
      var us, t :| Extends(p, rs, us) && Edge(b, t) in StatesOf(us)
                   && !(Edge(b, t) in StatesOf(rs) && StatesOf(us)[Edge(b, t)] == StatesOf(rs)[Edge(b, t)]);
      UnchangedOrSent(p, rs, us, b);
      SentStaysQuiet(p, rs, us, b);
      ts := us;
    }
  }

  lemma SentStaysQuiet<S(!new)>(p: Problem<S>, rs: seq<Progress<S>>, us: seq<Progress<S>>, b: Block)
    requires p.Valid() && p.g.Has(b) && SourcesAreQuiet(p, rs, b) && Extends(p, rs, us)
    requires Sends(p, StatesOf(us), b, p.Output(StatesOf(rs), b))
    ensures IsQuiet(p, us, b)
  {
    EdgesStayQuiet(p, rs, us);
    forall q | GoesOn(p.g, q, b)
      ensures IsQuiet(p, us, q)
    {
      StaysQuiet(p, rs, us, q);
    }
    OutputStays(p, rs, us, b);
    forall vs, t | Extends(p, us, vs) && Edge(b, t) in StatesOf(vs)
      ensures Edge(b, t) in StatesOf(us) && StatesOf(vs)[Edge(b, t)] == StatesOf(us)[Edge(b, t)]
    {
      UnchangedOrSent(p, us, vs, b);
      RunHasInv(p, vs);
    }
  }

  // ---- all blocks come to rest ----

  /** Blocks of rank below `r`, and the first `n` of rank `r`, are quiet. */
  ghost predicate QuietBelow<S(!new)>(
      p: Problem<S>, rs: seq<Progress<S>>, rank: Block -> nat, r: nat, n: nat)
  {
    EdgesAreQuiet(p, rs) &&
    forall b: Block :: p.g.Has(b) && (rank(b) < r || (rank(b) == r && b < n)) ==> IsQuiet(p, rs, b)
  }

  lemma StaysQuietBelow<S(!new)>(
      p: Problem<S>, rs: seq<Progress<S>>, ts: seq<Progress<S>>, rank: Block -> nat, r: nat, n: nat)
    requires Extends(p, rs, ts) && QuietBelow(p, rs, rank, r, n)
    ensures QuietBelow(p, ts, rank, r, n)
  {
    EdgesStayQuiet(p, rs, ts);
    forall b: Block | p.g.Has(b) && (rank(b) < r || (rank(b) == r && b < n))
      ensures IsQuiet(p, ts, b)
    {
      StaysQuiet(p, rs, ts, b);
    }
  }

  lemma {:induction false} BlocksComeToRest<S(!new)>(
      p: Problem<S>, rs: seq<Progress<S>>, rank: Block -> nat, r: nat, n: nat)
      returns (ts: seq<Progress<S>>)
    requires p.Valid() && LiveRank(p.g, rank) && EdgesAreQuiet(p, rs) && n <= |p.g.blocks|
    ensures Extends(p, rs, ts) && QuietBelow(p, ts, rank, r, n)
    decreases r, n
  {
    if n > 0 {
      var us := BlocksComeToRest(p, rs, rank, r, n - 1);
      ts := us;
      if rank(n - 1) == r {
        ts := BlockComesToRest(p, us, n - 1);
        StaysQuietBelow(p, us, ts, rank, r, n - 1);
        ExtendsOn(p, rs, us, ts);
      }
    } else if r > 0 {
      ts := BlocksComeToRest(p, rs, rank, r - 1, |p.g.blocks|);
    } else {
      ts := rs;
    }
  }

  // ---- and then the worklist runs empty ----

  lemma {:induction false} SendAgain<S(!new)>(p: Problem<S>, b: Block, s: S, i: nat, f: Flow<S>)
    requires p.g.WellFormed() && p.g.Has(b) && i <= |p.g.Succs(b)| && p.dom.EquivalentIsReflexive()
    requires forall t :: t in p.g.Succs(b) && !p.g.Term(t).Unreachable? ==>
               Edge(b, t) in f.states && f.states[Edge(b, t)] == p.Sent(b, t, s)
    ensures p.Send(b, s, i, f) == f
    decreases |p.g.Succs(b)| - i
  {
    if i < |p.g.Succs(b)| {
      var t := p.g.Succs(b)[i];
      assert t in p.g.Succs(b);
      assert !p.g.Term(t).Unreachable? ==> f.states[Edge(b, t) := p.Sent(b, t, s)] == f.states;
      assert p.SendTo(b, s, i, f) == f;
      SendAgain(p, b, s, i + 1, f);
    }
  }

  lemma QuietRound<S(!new)>(p: Problem<S>, rs: seq<Progress<S>>)
    requires p.Valid() && p.dom.EquivalentIsReflexive() && IsRun(p, rs)
    requires Queue(p, Last(rs).flow) && Last(rs).flow.worklist != []
    requires forall b: Block :: p.g.Has(b) ==> IsQuiet(p, rs, b)
    ensures |Next(p, Last(rs)).flow.worklist| < |Last(rs).flow.worklist|
  {
    var r := Last(rs);
    var b := Picked(p, r);
    var s := p.Output(r.flow.states, b);
    var f := r.flow.(worklist := Rotated(r.flow.worklist, p.Chosen(r.flow)));
    LongerRun(p, rs);
    var ts := rs + [Next(p, r)];
    assert Extends(p, rs, ts);
    FinishStores(p, b, s, f);
    forall t | t in p.g.Succs(b) && !p.g.Term(t).Unreachable?
      ensures Edge(b, t) in f.states && f.states[Edge(b, t)] == p.Sent(b, t, s)
    {
      assert Edge(b, t) in StatesOf(ts);
    }
    if p.g.Succs(b) != [] {
      SendAgain(p, b, s, 0, f);
    }
  }

  lemma {:induction false} QuietStops<S(!new)>(p: Problem<S>, rs: seq<Progress<S>>)
      returns (ts: seq<Progress<S>>)
    requires p.Valid() && p.dom.EquivalentIsReflexive() && IsRun(p, rs)
    requires forall b: Block :: p.g.Has(b) ==> IsQuiet(p, rs, b)
    ensures IsRun(p, ts) && Last(ts).flow.worklist == []
    decreases |Last(rs).flow.worklist|
  {
    ts := rs;
    if Last(rs).flow.worklist != [] {
      RunHasQueue(p, rs);
      QuietRound(p, rs);
      LongerRun(p, rs);
      var us := rs + [Next(p, Last(rs))];
      forall b: Block | p.g.Has(b)
        ensures IsQuiet(p, us, b)
      {
        StaysQuiet(p, rs, us, b);
      }
      ts := QuietStops(p, us);
    }
  }

  /** More than `h` of each block number below `n`. */
  ghost function Above(h: Block -> nat, n: nat): (m: nat)
    ensures forall b: Block :: b < n ==> h(b) < m
  {
    if n == 0 then 0
    else
      var m := Above(h, n - 1);
      if h(n - 1) < m then m else h(n - 1) + 1
  }

  /** Without a live loop some run, the only one that does, stops. */
  lemma StopsWithoutLiveLoop<S(!new)>(p: Problem<S>) returns (rs: seq<Progress<S>>)
    requires p.Valid() && p.dom.EquivalentIsReflexive() && NoLiveLoop(p.g)
    ensures IsRun(p, rs) && Last(rs).flow.worklist == []
  {
    var rank: Block -> nat :| LiveRank(p.g, rank);
    var begun := EdgesComeToRest(p, [Begin(p)]);
    var rested := BlocksComeToRest(p, begun, rank, Above(rank, |p.g.blocks|), 0);
    rs := QuietStops(p, rested);
  }
}
