/**
 Every round keeps: a block that was processed and is not queued has sent, up
 to mutual specificity, exactly what its current input demands. An empty
 worklist is therefore a fixpoint over every block reachable from entry.
 */
module Fixpoint {
  import opened Collections
  import opened Wrappers
  import opened AbstractDomain
  import opened ControlFlow
  import opened SolverSpec

  // ---- the transfer of a block ----

  lemma {:induction false} ExecBottom<S(!new)>(p: Problem<S>, b: Block, n: nat, live: set<Block>, s: S)
    requires p.g.Has(b) && n <= |p.g.Insts(b)| && p.dom.isBottom(s)
    ensures p.Exec(b, n, live, s) == s
  {
    if n > 0 {
      ExecBottom(p, b, n - 1, live, s);
    }
  }

  /** The problems differ at most in the run's fixed inputs. */
  ghost predicate SameBody<S(!new)>(p: Problem<S>, q: Problem<S>) {
    q == p.(initial := q.initial, ignored := q.ignored)
  }

  lemma {:induction false} SameExec<S(!new)>(
      p: Problem<S>, q: Problem<S>, b: Block, n: nat, live: set<Block>, s: S)
    requires SameBody(p, q) && p.g.Has(b) && n <= |p.g.Insts(b)|
    ensures q.Exec(b, n, live, s) == p.Exec(b, n, live, s)
  {
    if n > 0 {
      SameExec(p, q, b, n - 1, live, s);
    }
  }

  lemma StepCongruent<S(!new)>(p: Problem<S>, b: Block, i: nat, live: set<Block>, x: S, y: S)
    requires p.Valid() && p.g.Has(b) && i < |p.g.Insts(b)| && p.dom.Same(x, y)
    requires live != {} || Phi !in p.g.Insts(b) || p.dom.isBottom(x)
    ensures p.dom.Same(p.StepInst(b, i, live, x), p.StepInst(b, i, live, y))
  {
    if !p.dom.isBottom(x) {
      match p.g.Insts(b)[i]
      case Phi =>
        assert p.dom.leq(p.phi(b, i, live, x), p.phi(b, i, live, y));
        assert p.dom.leq(p.phi(b, i, live, y), p.phi(b, i, live, x));
      case LandingPad =>
      case Visit => assert p.dom.Same(p.visit(b, i, x), p.visit(b, i, y));
    }
  }

  lemma {:induction false} ExecCongruent<S(!new)>(
      p: Problem<S>, b: Block, n: nat, live: set<Block>, x: S, y: S)
    requires p.Valid() && p.g.Has(b) && n <= |p.g.Insts(b)| && p.dom.Same(x, y)
    requires live != {} || Phi !in p.g.Insts(b) || p.dom.isBottom(x)
    ensures p.dom.Same(p.Exec(b, n, live, x), p.Exec(b, n, live, y))
  {
    if p.dom.isBottom(x) {
      ExecBottom(p, b, n, live, x);
      ExecBottom(p, b, n, live, y);
    } else if n > 0 {
      ExecCongruent(p, b, n - 1, live, x, y);
      StepCongruent(p, b, n - 1, live, p.Exec(b, n - 1, live, x), p.Exec(b, n - 1, live, y));
    }
  }

  lemma SentMonotone<S(!new)>(p: Problem<S>, b: Block, t: Block, x: S, y: S)
    requires p.Valid() && p.g.Has(b) && p.dom.leq(x, y)
    ensures p.dom.leq(p.Sent(b, t, x), p.Sent(b, t, y))
    ensures p.dom.isBottom(x) ==> p.dom.isBottom(p.Sent(b, t, x))
  {
    if p.g.Term(b).Branch? {
      assert p.dom.leq(p.refineBool(b, p.g.Term(b).onTrue == t, x),
                       p.refineBool(b, p.g.Term(b).onTrue == t, y));
    }
  }

  // ---- the input of a block ----

  /** Predecessor `q` of `b` takes part in the merge with state `s`. */
  ghost predicate Counts<S(!new)>(p: Problem<S>, states: map<Edge, S>, b: Block, q: Block)
    requires p.g.WellFormed() && p.g.Has(b)
  {
    && q in p.g.preds[b]
    && p.ignored != Some(Edge(q, b))
    && !p.dom.isBottom(p.PredOrInitial(states, Edge(q, b)))
  }

  lemma {:induction false} MergeIsAbove<S(!new)>(
      p: Problem<S>, states: map<Edge, S>, b: Block, i: nat, acc: Option<S>)
    requires p.Valid() && p.g.Has(b) && i <= |p.g.preds[b]|
    ensures var r := p.MergeFrom(states, b, i, acc);
            && (acc.Some? ==> r.Some? && p.dom.leq(acc.value, r.value))
            && (forall j :: i <= j < |p.g.preds[b]| && Counts(p, states, b, p.g.preds[b][j]) ==>
                  r.Some? && p.dom.leq(p.PredOrInitial(states, Edge(p.g.preds[b][j], b)), r.value))
            && (r.Some? && acc.None? ==>
                  exists j :: i <= j < |p.g.preds[b]| && Counts(p, states, b, p.g.preds[b][j]))
    decreases |p.g.preds[b]| - i
  {
    if i < |p.g.preds[b]| {
      var q := p.g.preds[b][i];
      var s := p.PredOrInitial(states, Edge(q, b));
      if p.ignored == Some(Edge(q, b)) || p.dom.isBottom(s) {
        MergeIsAbove(p, states, b, i + 1, acc);
      } else if acc.None? {
        MergeIsAbove(p, states, b, i + 1, Some(s));
        assert Counts(p, states, b, p.g.preds[b][i]);
      } else {
        var m := p.dom.merge(acc.value, s);
        assert p.dom.leq(acc.value, m) && p.dom.leq(s, m);
        MergeIsAbove(p, states, b, i + 1, Some(m));
        assert Counts(p, states, b, p.g.preds[b][i]);
      }
    }
  }

  /** A stored non-bottom state on an edge that counts is below the input. */
  lemma InputIsAbove<S(!new)>(p: Problem<S>, states: map<Edge, S>, b: Block, q: Block)
    requires p.Valid() && p.g.Has(b) && q in p.g.preds[b]
    requires p.ignored != Some(Edge(q, b)) && Edge(q, b) in states
    requires !p.dom.isBottom(states[Edge(q, b)])
    ensures p.dom.leq(states[Edge(q, b)], p.Input(states, b))
    ensures q in p.Live(states, b)
  {
    var j :| 0 <= j < |p.g.preds[b]| && p.g.preds[b][j] == q;
    assert Counts(p, states, b, p.g.preds[b][j]);
    MergeIsAbove(p, states, b, 0, None);
    assert !p.AllBottomOrNull(states, b);
  }

  /** The assertion in handlePHINode: a block entered with a non-bottom state
      that has predecessors has a live one. */
  lemma PhiHasLiveEdge<S(!new)>(p: Problem<S>, states: map<Edge, S>, b: Block)
    requires p.Valid() && p.g.Has(b)
    requires !p.dom.isBottom(p.Input(states, b))
    ensures p.Live(states, b) != {} || Phi !in p.g.Insts(b)
  {
    if p.g.preds[b] != [] {
      var q :| q in p.g.preds[b] && p.ignored != Some(Edge(q, b)) && Edge(q, b) in states
               && !p.dom.isBottom(states[Edge(q, b)]);
      assert q in p.Live(states, b);
    }
  }

  // ---- replacing edge states and the initial state by equivalent ones ----

  /** The two maps agree, up to `Same`, on the edges into `b`. */
  ghost predicate Agree<S(!new)>(p: Problem<S>, x: map<Edge, S>, y: map<Edge, S>, b: Block)
    requires p.g.WellFormed() && p.g.Has(b)
  {
    forall q :: q in p.g.preds[b] ==>
      && (Edge(q, b) in x <==> Edge(q, b) in y)
      && (Edge(q, b) in x ==> p.dom.Same(x[Edge(q, b)], y[Edge(q, b)]))
  }

  /** One function analysed from two initial states that are the same. */
  ghost predicate Twins<S(!new)>(p: Problem<S>, q: Problem<S>) {
    q == p.(initial := q.initial) && p.dom.Same(p.initial, q.initial)
  }

  ghost predicate SameOption<S(!new)>(d: Domain<S>, x: Option<S>, y: Option<S>) {
    x.Some? == y.Some? && (x.Some? ==> d.Same(x.value, y.value))
  }

  lemma {:induction false} MergeCongruent<S(!new)>(
      p: Problem<S>, q: Problem<S>, x: map<Edge, S>, y: map<Edge, S>,
      b: Block, i: nat, ax: Option<S>, ay: Option<S>)
    requires p.Valid() && Twins(p, q) && p.g.Has(b) && i <= |p.g.preds[b]| && Agree(p, x, y, b)
    requires SameOption(p.dom, ax, ay)
    ensures SameOption(p.dom, p.MergeFrom(x, b, i, ax), q.MergeFrom(y, b, i, ay))
    decreases |p.g.preds[b]| - i
  {
    if i < |p.g.preds[b]| {
      var a := p.g.preds[b][i];
      assert a in p.g.preds[b];
      var sx, sy := p.PredOrInitial(x, Edge(a, b)), q.PredOrInitial(y, Edge(a, b));
      assert p.dom.Same(sx, sy);
      if p.ignored == Some(Edge(a, b)) || p.dom.isBottom(sx) {
        MergeCongruent(p, q, x, y, b, i + 1, ax, ay);
      } else if ax.None? {
        MergeCongruent(p, q, x, y, b, i + 1, Some(sx), Some(sy));
      } else {
        assert p.dom.Same(ax.value, ay.value);
        MergeCongruent(p, q, x, y, b, i + 1,
                       Some(p.dom.merge(ax.value, sx)), Some(p.dom.merge(ay.value, sy)));
      }
    }
  }

  lemma InputCongruent<S(!new)>(p: Problem<S>, q: Problem<S>, x: map<Edge, S>, y: map<Edge, S>, b: Block)
    requires p.Valid() && Twins(p, q) && p.g.Has(b) && Agree(p, x, y, b)
    ensures p.dom.Same(p.Input(x, b), q.Input(y, b))
    ensures p.Live(x, b) == q.Live(y, b)
  {
    forall a | a in p.g.preds[b]
      ensures p.dom.isBottom(p.PredOrInitial(x, Edge(a, b)))
              <==> p.dom.isBottom(q.PredOrInitial(y, Edge(a, b)))
    {
    }
    assert p.AllBottomOrNull(x, b) <==> q.AllBottomOrNull(y, b);
    MergeCongruent(p, q, x, y, b, 0, None, None);
  }

  /** Every instruction starts from the same state, up to `Same`. */
  lemma BeforeCongruent<S(!new)>(
      p: Problem<S>, q: Problem<S>, x: map<Edge, S>, y: map<Edge, S>, b: Block, n: nat)
    requires p.Valid() && Twins(p, q) && p.g.Has(b) && Agree(p, x, y, b) && n <= |p.g.Insts(b)|
    ensures p.dom.Same(p.Before(x, b, n), q.Before(y, b, n))
  {
    InputCongruent(p, q, x, y, b);
    if !p.dom.isBottom(p.Input(x, b)) {
      PhiHasLiveEdge(p, x, b);
    }
    ExecCongruent(p, b, n, p.Live(x, b), p.Input(x, b), q.Input(y, b));
    SameExec(p, q, b, n, q.Live(y, b), q.Input(y, b));
  }

  lemma OutputCongruent<S(!new)>(p: Problem<S>, x: map<Edge, S>, y: map<Edge, S>, b: Block)
    requires p.Valid() && p.g.Has(b) && Agree(p, x, y, b)
    ensures p.dom.Same(p.Output(x, b), p.Output(y, b))
  {
    BeforeCongruent(p, p, x, y, b, |p.g.Insts(b)|);
  }

  // ---- the invariant ----

  /** The edges out of `c` and its exit state hold what follows from `out`. */
  ghost predicate HasSent<S(!new)>(p: Problem<S>, f: Flow<S>, c: Block, out: S)
    requires p.g.WellFormed() && p.g.Has(c)
  {
    && (forall t :: t in p.g.Succs(c) && !p.g.Term(t).Unreachable? ==>
          Edge(c, t) in f.states && p.dom.Same(f.states[Edge(c, t)], p.Sent(c, t, out)))
    && (p.g.Succs(c) == [] ==> c in f.exits && p.dom.Same(f.exits[c], out))
  }

  /** `b` has sent what its current input demands. */
  ghost predicate Settled<S(!new)>(p: Problem<S>, f: Flow<S>, b: Block)
    requires p.g.WellFormed() && p.g.Has(b)
  {
    HasSent(p, f, b, p.Output(f.states, b))
  }

  ghost predicate Queue<S(!new)>(p: Problem<S>, f: Flow<S>) {
    NoDup(f.worklist) && forall b :: b in f.worklist ==> p.g.Has(b)
  }

  /** Everything a processed block leads to has a state and is processed or queued. */
  ghost predicate Followed<S(!new)>(p: Problem<S>, f: Flow<S>, done: set<Block>)
    requires p.g.WellFormed() && forall b :: b in done ==> p.g.Has(b)
  {
    && (ENTRY in done || ENTRY in f.worklist)
    && (forall b, t :: b in done && t in p.g.Succs(b) && !p.g.Term(t).Unreachable? ==>
          Edge(b, t) in f.states && (t in done || t in f.worklist))
    && (forall b :: b in done && p.g.Succs(b) == [] ==> b in f.exits)
  }

  /** Nothing is stored that a processed block did not send. */
  ghost predicate OnlySent<S(!new)>(p: Problem<S>, f: Flow<S>, done: set<Block>)
    requires p.g.WellFormed() && forall b :: b in done ==> p.g.Has(b)
  {
    && (forall b, t :: Edge(b, t) in f.states ==>
          b in done && t in p.g.Succs(b) && !p.g.Term(t).Unreachable?)
    && (forall b :: b in f.exits ==> b in done && p.g.Succs(b) == [])
  }

  ghost predicate Inv<S(!new)>(p: Problem<S>, f: Flow<S>, done: set<Block>) {
    && p.g.WellFormed()
    && (forall b :: b in done ==> p.g.Has(b))
    && Queue(p, f)
    && Followed(p, f, done)
    && OnlySent(p, f, done)
    && (forall b :: b in done && b !in f.worklist ==> Settled(p, f, b))
  }

  // ---- one round keeps it ----

  /** From `f` to `r`, edge `e` receives its state if it leads from `b` to one of
      `ts`, and else stays as it was. */
  ghost predicate Stores<S(!new)>(p: Problem<S>, b: Block, s: S, ts: seq<Block>, f: Flow<S>, r: Flow<S>, e: Edge)
    requires p.g.WellFormed() && p.g.Has(b) && forall t :: t in ts ==> p.g.Has(t)
  {
    if e.start == b && e.end in ts && !p.g.Term(e.end).Unreachable?
    then e in r.states && r.states[e] == p.Sent(b, e.end, s)
    else (e in r.states <==> e in f.states) && (e in f.states ==> r.states[e] == f.states[e])
  }

  lemma SendToStores<S(!new)>(p: Problem<S>, b: Block, s: S, i: nat, f: Flow<S>, e: Edge)
    requires p.g.WellFormed() && p.g.Has(b) && i < |p.g.Succs(b)|
    ensures p.SendTo(b, s, i, f).exits == f.exits
    ensures Stores(p, b, s, [p.g.Succs(b)[i]], f, p.SendTo(b, s, i, f), e)
  {
  }

  lemma StoresMore<S(!new)>(
      p: Problem<S>, b: Block, s: S, ts: seq<Block>, us: seq<Block>, f: Flow<S>, g: Flow<S>, h: Flow<S>, e: Edge)
    requires p.g.WellFormed() && p.g.Has(b) && forall t :: t in ts + us ==> p.g.Has(t)
    requires Stores(p, b, s, ts, f, g, e) && Stores(p, b, s, us, g, h, e)
    ensures Stores(p, b, s, ts + us, f, h, e)
  {
    assert e.end in ts + us <==> e.end in ts || e.end in us;
  }

  lemma {:induction false} SendStates<S(!new)>(p: Problem<S>, b: Block, s: S, i: nat, f: Flow<S>, e: Edge)
    requires p.g.WellFormed() && p.g.Has(b) && i <= |p.g.Succs(b)|
    ensures p.Send(b, s, i, f).exits == f.exits
    ensures Stores(p, b, s, p.g.Succs(b)[i..], f, p.Send(b, s, i, f), e)
    decreases |p.g.Succs(b)| - i
  {
    if i < |p.g.Succs(b)| {
      var next := p.SendTo(b, s, i, f);
      var rest := p.g.Succs(b)[i + 1..];
      assert p.g.Succs(b)[i..] == [p.g.Succs(b)[i]] + rest;
      SendToStores(p, b, s, i, f, e);
      SendStates(p, b, s, i + 1, next, e);
      StoresMore(p, b, s, [p.g.Succs(b)[i]], rest, f, next, p.Send(b, s, i, f), e);
    }
  }

  lemma EnqueueKeeps(w: seq<Block>, b: Block)
    requires NoDup(w)
    ensures NoDup(Enqueue(w, b)) && w <= Enqueue(w, b)
  {
  }

  lemma SendToQueues<S(!new)>(p: Problem<S>, b: Block, s: S, i: nat, f: Flow<S>)
    requires p.g.WellFormed() && p.g.Has(b) && i < |p.g.Succs(b)| && NoDup(f.worklist)
    ensures NoDup(p.SendTo(b, s, i, f).worklist) && f.worklist <= p.SendTo(b, s, i, f).worklist
  {
    EnqueueKeeps(f.worklist, p.g.Succs(b)[i]);
  }

  lemma PrefixIsTransitive(x: seq<Block>, y: seq<Block>, z: seq<Block>)
    requires x <= y <= z
    ensures x <= z
  {
  }

  lemma {:induction false} SendQueues<S(!new)>(p: Problem<S>, b: Block, s: S, i: nat, f: Flow<S>)
    requires p.g.WellFormed() && p.g.Has(b) && i <= |p.g.Succs(b)| && NoDup(f.worklist)
    ensures NoDup(p.Send(b, s, i, f).worklist) && f.worklist <= p.Send(b, s, i, f).worklist
    decreases |p.g.Succs(b)| - i
  {
    if i < |p.g.Succs(b)| {
      var next := p.SendTo(b, s, i, f);
      SendToQueues(p, b, s, i, f);
      SendQueues(p, b, s, i + 1, next);
      PrefixIsTransitive(f.worklist, next.worklist, p.Send(b, s, i + 1, next).worklist);
    }
  }

  lemma {:induction false} SendQueuesTargets<S(!new)>(
      p: Problem<S>, b: Block, s: S, i: nat, f: Flow<S>, x: Block)
    requires p.g.WellFormed() && p.g.Has(b) && i <= |p.g.Succs(b)|
    requires x in p.Send(b, s, i, f).worklist && x !in f.worklist
    ensures x in p.g.Succs(b)[i..] && !p.g.Term(x).Unreachable?
    decreases |p.g.Succs(b)| - i
  {
    assert p.g.Succs(b)[i..] == [p.g.Succs(b)[i]] + p.g.Succs(b)[i + 1..];
    var next := p.SendTo(b, s, i, f);
    if x !in next.worklist {
      SendQueuesTargets(p, b, s, i + 1, next, x);
    }
  }

  /** What handling the terminator of `b` stores. */
  lemma FinishStores<S(!new)>(p: Problem<S>, b: Block, s: S, f: Flow<S>)
    requires p.g.WellFormed() && p.g.Has(b)
    ensures var r := p.Finish(b, s, f);
            && r.exits == (if p.g.Succs(b) == [] then f.exits[b := s] else f.exits)
            && (forall e :: e in f.states ==> e in r.states)
            && (forall e :: e in r.states ==>
                  if e.start == b && e.end in p.g.Succs(b) && !p.g.Term(e.end).Unreachable?
                  then r.states[e] == p.Sent(b, e.end, s)
                  else e in f.states && r.states[e] == f.states[e])
            && (forall t :: t in p.g.Succs(b) && !p.g.Term(t).Unreachable? ==> Edge(b, t) in r.states)
  {
    if p.g.Succs(b) != [] {
      assert p.g.Succs(b)[0..] == p.g.Succs(b);
      var r := p.Send(b, s, 0, f);
      SendStates(p, b, s, 0, f, Edge(b, b));
      forall e: Edge | e in f.states || e in r.states
        ensures e in r.states && Stores(p, b, s, p.g.Succs(b), f, r, e)
      {
        SendStates(p, b, s, 0, f, e);
      }
      forall t | t in p.g.Succs(b) && !p.g.Term(t).Unreachable?
        ensures Edge(b, t) in r.states
      {
        SendStates(p, b, s, 0, f, Edge(b, t));
      }
    }
  }

  /** The edge to `t` held a state equivalent to the one sent now. */
  ghost predicate Repeats<S(!new)>(p: Problem<S>, b: Block, t: Block, s: S, f: Flow<S>)
    requires p.g.Has(b)
  {
    Edge(b, t) in f.states && p.dom.equivalent(f.states[Edge(b, t)], p.Sent(b, t, s))
  }

  lemma {:induction false} SendKeepsQueued<S(!new)>(
      p: Problem<S>, b: Block, s: S, i: nat, f: Flow<S>, x: Block)
    requires p.g.WellFormed() && p.g.Has(b) && i <= |p.g.Succs(b)|
    requires x in f.worklist
    ensures x in p.Send(b, s, i, f).worklist
    decreases |p.g.Succs(b)| - i
  {
    if i < |p.g.Succs(b)| {
      SendKeepsQueued(p, b, s, i + 1, p.SendTo(b, s, i, f), x);
    }
  }

  lemma {:induction false} SendWakes<S(!new)>(
      p: Problem<S>, b: Block, s: S, i: nat, f: Flow<S>, t: Block)
    requires p.g.WellFormed() && p.g.Has(b) && i <= |p.g.Succs(b)|
    requires t in p.g.Succs(b)[i..] && !p.g.Term(t).Unreachable?
    ensures t in p.Send(b, s, i, f).worklist || Repeats(p, b, t, s, f)
    decreases |p.g.Succs(b)| - i
  {
    var u := p.g.Succs(b)[i];
    var f1 := p.SendTo(b, s, i, f);
    if u != t {
      assert p.g.Succs(b)[i..] == [u] + p.g.Succs(b)[i + 1..];
      SendWakes(p, b, s, i + 1, f1, t);
    } else if !Repeats(p, b, t, s, f) {
      SendKeepsQueued(p, b, s, i + 1, f1, t);
    }
  }

  lemma FinishWakes<S(!new)>(p: Problem<S>, b: Block, s: S, f: Flow<S>)
    requires p.g.WellFormed() && p.g.Has(b) && NoDup(f.worklist)
    ensures var r := p.Finish(b, s, f);
            && NoDup(r.worklist)
            && f.worklist <= r.worklist
            && (forall x :: x in r.worklist ==> x in f.worklist || (x in p.g.Succs(b) && !p.g.Term(x).Unreachable?))
            && (forall t :: t in p.g.Succs(b) && !p.g.Term(t).Unreachable? ==>
                  t in r.worklist || Repeats(p, b, t, s, f))
  {
    if p.g.Succs(b) != [] {
      SendQueues(p, b, s, 0, f);
      assert p.g.Succs(b)[0..] == p.g.Succs(b);
      forall x | x in p.Finish(b, s, f).worklist && x !in f.worklist
        ensures x in p.g.Succs(b) && !p.g.Term(x).Unreachable?
      {
        SendQueuesTargets(p, b, s, 0, f, x);
      }
      forall t | t in p.g.Succs(b) && !p.g.Term(t).Unreachable?
        ensures t in p.Finish(b, s, f).worklist || Repeats(p, b, t, s, f)
      {
        SendWakes(p, b, s, 0, f, t);
      }
    }
  }

  /** A block not queued afterwards sees the same input before and after. */
  lemma FinishAgrees<S(!new)>(p: Problem<S>, b: Block, s: S, f: Flow<S>, c: Block)
    requires p.Valid() && p.g.Has(b) && p.g.Has(c) && Queue(p, f)
    requires OnlySentInto(p, f, c)
    requires c !in p.Finish(b, s, f).worklist
    ensures Agree(p, f.states, p.Finish(b, s, f).states, c)
  {
    FinishStores(p, b, s, f);
    if p.g.Succs(b) != [] {
      FinishWakes(p, b, s, f);
      forall q | q in p.g.preds[c]
        ensures Edge(q, c) in f.states <==> Edge(q, c) in p.Finish(b, s, f).states
        ensures Edge(q, c) in f.states ==>
          p.dom.Same(f.states[Edge(q, c)], p.Finish(b, s, f).states[Edge(q, c)])
      {
        p.g.PredIffSucc(q, c);
      }
    }
  }

  /** No state is stored on an edge into a skipped block. */
  ghost predicate OnlySentInto<S(!new)>(p: Problem<S>, f: Flow<S>, c: Block)
    requires p.g.Has(c)
  {
    p.g.Term(c).Unreachable? ==> forall q :: Edge(q, c) !in f.states
  }

  lemma HasSentCongruent<S(!new)>(p: Problem<S>, f: Flow<S>, c: Block, x: S, y: S)
    requires p.Valid() && p.g.Has(c) && HasSent(p, f, c, x) && p.dom.Same(x, y)
    ensures HasSent(p, f, c, y)
  {
    forall t | t in p.g.Succs(c) && !p.g.Term(t).Unreachable?
      ensures p.dom.Same(f.states[Edge(c, t)], p.Sent(c, t, y))
    {
      SentMonotone(p, c, t, x, y);
      SentMonotone(p, c, t, y, x);
    }
  }

  lemma FinishSettles<S(!new)>(p: Problem<S>, b: Block, f: Flow<S>, done: set<Block>, c: Block)
    requires p.Valid() && p.g.Has(b) && Queue(p, f)
    requires (forall x :: x in done ==> p.g.Has(x)) && OnlySent(p, f, done)
    requires b !in f.worklist
    requires c == b || (c in done && (c !in f.worklist ==> Settled(p, f, c)))
    requires c !in p.Finish(b, p.Output(f.states, b), f).worklist
    ensures p.g.Has(c) && Settled(p, p.Finish(b, p.Output(f.states, b), f), c)
  {
    var s := p.Output(f.states, b);
    var r := p.Finish(b, s, f);
    FinishStores(p, b, s, f);
    FinishWakes(p, b, s, f);
    assert HasSent(p, r, c, p.Output(f.states, c));
    FinishAgrees(p, b, s, f, c);
    OutputCongruent(p, f.states, r.states, c);
    HasSentCongruent(p, r, c, p.Output(f.states, c), p.Output(r.states, c));
  }

  lemma FinishOnlySends<S(!new)>(p: Problem<S>, b: Block, s: S, f: Flow<S>, done: set<Block>)
    requires p.g.WellFormed() && p.g.Has(b) && forall x :: x in done ==> p.g.Has(x)
    requires OnlySent(p, f, done)
    ensures OnlySent(p, p.Finish(b, s, f), done + {b})
  {
    FinishStores(p, b, s, f);
  }

  lemma FinishLeadsOn<S(!new)>(p: Problem<S>, b: Block, s: S, f: Flow<S>, done: set<Block>)
    requires p.g.WellFormed() && p.g.Has(b) && Queue(p, f) && forall x :: x in done ==> p.g.Has(x)
    requires OnlySent(p, f, done)
    requires ENTRY in done || ENTRY in f.worklist || ENTRY == b
    requires forall c, t :: c in done && t in p.g.Succs(c) && !p.g.Term(t).Unreachable? ==>
               Edge(c, t) in f.states && (t in done || t in f.worklist || t == b)
    requires forall c :: c in done && p.g.Succs(c) == [] ==> c in f.exits
    ensures var r := p.Finish(b, s, f);
            Queue(p, r) && Followed(p, r, done + {b})
  {
    FinishStores(p, b, s, f);
    FinishWakes(p, b, s, f);
    var r := p.Finish(b, s, f);
    forall c, t | c in done + {b} && t in p.g.Succs(c) && !p.g.Term(t).Unreachable?
      ensures Edge(c, t) in r.states && (t in done + {b} || t in r.worklist)
    {
      if c in done {
        assert Edge(c, t) in f.states;
      } else {
        assert t in r.worklist || Edge(b, t) in f.states;
      }
    }
  }

  lemma FinishFollows<S(!new)>(p: Problem<S>, b: Block, s: S, f: Flow<S>, done: set<Block>)
    requires p.g.WellFormed() && p.g.Has(b) && Queue(p, f)
    requires forall x :: x in done ==> p.g.Has(x)
    requires OnlySent(p, f, done)
    requires Followed(p, f.(worklist := f.worklist + [b]), done)
    ensures var r := p.Finish(b, s, f);
            Queue(p, r) && Followed(p, r, done + {b}) && OnlySent(p, r, done + {b})
  {
    FinishOnlySends(p, b, s, f, done);
    assert forall t :: t in f.worklist + [b] <==> t in f.worklist || t == b;
    FinishLeadsOn(p, b, s, f, done);
  }

  /** Running a block that was just taken out of the queue. */
  lemma FinishKeeps<S(!new)>(p: Problem<S>, b: Block, f: Flow<S>, done: set<Block>)
    requires p.Valid() && p.g.Has(b) && b !in f.worklist
    requires Queue(p, f) && forall x :: x in done ==> p.g.Has(x)
    requires OnlySent(p, f, done) && Followed(p, f.(worklist := f.worklist + [b]), done)
    requires forall c :: c in done && c != b && c !in f.worklist ==> Settled(p, f, c)
    ensures Inv(p, p.Finish(b, p.Output(f.states, b), f), done + {b})
  {
    var r := p.Finish(b, p.Output(f.states, b), f);
    FinishFollows(p, b, p.Output(f.states, b), f, done);
    forall c | c in done + {b} && c !in r.worklist
      ensures Settled(p, r, c)
    {
      FinishSettles(p, b, f, done, c);
    }
  }

  /** The fixpoint invariant is kept by every round. */
  lemma RoundKeeps<S(!new)>(p: Problem<S>, f: Flow<S>, done: set<Block>)
    requires p.Valid() && Inv(p, f, done) && f.worklist != []
    ensures Inv(p, p.Round(f), done + {f.worklist[p.Chosen(f)]})
  {
    var k := p.Chosen(f);
    var b := f.worklist[k];
    assert b in f.worklist;
    TakeOut(f.worklist, k);
    var g := f.(worklist := Rotated(f.worklist, k));
    forall c | c in done && c != b && c !in g.worklist
      ensures Settled(p, g, c)
    {
      assert Settled(p, f, c);
    }
    FinishKeeps(p, b, g, done);
  }

  lemma RoundKeepsQueue<S(!new)>(p: Problem<S>, f: Flow<S>)
    requires p.g.WellFormed() && Queue(p, f) && f.worklist != []
    ensures Queue(p, p.Round(f))
  {
    var k := p.Chosen(f);
    var b := f.worklist[k];
    assert b in f.worklist;
    TakeOut(f.worklist, k);
    FinishWakes(p, b, p.Output(f.states, b), f.(worklist := Rotated(f.worklist, k)));
  }

  lemma StartHasInv<S(!new)>(p: Problem<S>)
    requires p.g.WellFormed()
    ensures Inv(p, p.Start(), {})
  {
  }
}
