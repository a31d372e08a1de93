/**
 Analysing one function from two initial states that are the same up to mutual
 specificity takes the same rounds and gives the same result. So the analysis of
 a call respects `Same`, which is all the caller's solver asks of it.
 */
module Lockstep {
  import opened AbstractDomain
  import opened ControlFlow
  import opened SolverSpec
  import opened Fixpoint
  import opened Solver

  ghost predicate SameMap<K(!new), S(!new)>(d: Domain<S>, x: map<K, S>, y: map<K, S>) {
    x.Keys == y.Keys && forall k :: k in x ==> d.Same(x[k], y[k])
  }

  ghost predicate Alike<S(!new)>(d: Domain<S>, x: Flow<S>, y: Flow<S>) {
    && x.worklist == y.worklist
    && SameMap(d, x.states, y.states)
    && SameMap(d, x.exits, y.exits)
  }

  lemma {:induction false} FirstReadyAlike<S(!new)>(
      p: Problem<S>, q: Problem<S>, x: map<Edge, S>, y: map<Edge, S>, w: seq<Block>)
    requires p.g.WellFormed() && Twins(p, q) && x.Keys == y.Keys && forall b :: b in w ==> p.g.Has(b)
    ensures p.FirstReady(x, w) == q.FirstReady(y, w)
  {
    if w != [] {
      assert p.Waits(x, w[0]) <==> q.Waits(y, w[0]);
      FirstReadyAlike(p, q, x, y, w[1..]);
    }
  }

  lemma SentAlike<S(!new)>(p: Problem<S>, b: Block, t: Block, s: S, s': S)
    requires p.Valid() && p.g.Has(b) && p.dom.Same(s, s')
    ensures p.dom.Same(p.Sent(b, t, s), p.Sent(b, t, s'))
  {
    SentMonotone(p, b, t, s, s');
    SentMonotone(p, b, t, s', s);
  }

  /** `equivalent` decides alike on states that are the same. */
  lemma SendOneAlike<S(!new)>(p: Problem<S>, q: Problem<S>, b: Block, t: Block, s: S, s': S, x: Flow<S>, y: Flow<S>)
    requires p.Valid() && Twins(p, q) && p.dom.EquivalentIsExact()
    requires Alike(p.dom, x, y) && p.dom.Same(s, s')
    ensures Alike(p.dom, p.SendOne(b, t, s, x), q.SendOne(b, t, s', y))
  {
    var e := Edge(b, t);
    if e in x.states {
      assert p.dom.Same(x.states[e], y.states[e]);
      assert p.dom.equivalent(x.states[e], s) <==> p.dom.equivalent(y.states[e], s');
    }
  }

  lemma SendToAlike<S(!new)>(
      p: Problem<S>, q: Problem<S>, b: Block, s: S, s': S, i: nat, x: Flow<S>, y: Flow<S>)
    requires p.Valid() && Twins(p, q) && p.dom.EquivalentIsExact()
    requires p.g.Has(b) && i < |p.g.Succs(b)| && Alike(p.dom, x, y) && p.dom.Same(s, s')
    ensures Alike(p.dom, p.SendTo(b, s, i, x), q.SendTo(b, s', i, y))
  {
    var t := p.g.Succs(b)[i];
    SentAlike(p, b, t, s, s');
    SendOneAlike(p, q, b, t, p.Sent(b, t, s), q.Sent(b, t, s'), x, y);
  }

  lemma {:induction false} SendAlike<S(!new)>(
      p: Problem<S>, q: Problem<S>, b: Block, s: S, s': S, i: nat, x: Flow<S>, y: Flow<S>)
    requires p.Valid() && Twins(p, q) && p.dom.EquivalentIsExact()
    requires p.g.Has(b) && i <= |p.g.Succs(b)| && Alike(p.dom, x, y) && p.dom.Same(s, s')
    ensures Alike(p.dom, p.Send(b, s, i, x), q.Send(b, s', i, y))
    decreases |p.g.Succs(b)| - i
  {
    if i < |p.g.Succs(b)| {
      SendToAlike(p, q, b, s, s', i, x, y);
      SendAlike(p, q, b, s, s', i + 1, p.SendTo(b, s, i, x), q.SendTo(b, s', i, y));
    }
  }

  lemma FinishAlike<S(!new)>(p: Problem<S>, q: Problem<S>, b: Block, s: S, s': S, x: Flow<S>, y: Flow<S>)
    requires p.Valid() && Twins(p, q) && p.dom.EquivalentIsExact()
    requires p.g.Has(b) && Alike(p.dom, x, y) && p.dom.Same(s, s')
    ensures Alike(p.dom, p.Finish(b, s, x), q.Finish(b, s', y))
  {
    if p.g.Succs(b) != [] {
      SendAlike(p, q, b, s, s', 0, x, y);
    }
  }

  lemma OutputAlike<S(!new)>(p: Problem<S>, q: Problem<S>, x: Flow<S>, y: Flow<S>, b: Block)
    requires p.Valid() && Twins(p, q) && p.g.Has(b) && Alike(p.dom, x, y)
    ensures Agree(p, x.states, y.states, b)
    ensures p.dom.Same(p.Output(x.states, b), q.Output(y.states, b))
  {
    BeforeCongruent(p, q, x.states, y.states, b, |p.g.Insts(b)|);
  }

  lemma PickAlike<S(!new)>(p: Problem<S>, q: Problem<S>, x: Progress<S>, y: Progress<S>)
    requires p.g.WellFormed() && Twins(p, q)
    requires Queue(p, x.flow) && x.flow.worklist != [] && Alike(p.dom, x.flow, y.flow)
    ensures Queue(q, y.flow) && Picked(q, y) == Picked(p, x) && p.Chosen(x.flow) == q.Chosen(y.flow)
    ensures p.g.Has(Picked(p, x))
  {
    FirstReadyAlike(p, q, x.flow.states, y.flow.states, x.flow.worklist);
    assert Picked(p, x) in x.flow.worklist;
  }

  /** Both solvers take the same block and stay alike. */
  lemma NextAlike<S(!new)>(p: Problem<S>, q: Problem<S>, x: Progress<S>, y: Progress<S>)
    requires p.Valid() && Twins(p, q) && p.dom.EquivalentIsExact()
    requires Queue(p, x.flow) && x.flow.worklist != [] && Alike(p.dom, x.flow, y.flow)
    ensures Queue(q, y.flow) && Picked(q, y) == Picked(p, x)
    ensures Alike(p.dom, Next(p, x).flow, Next(q, y).flow)
  {
    PickAlike(p, q, x, y);
    var k := p.Chosen(x.flow);
    var b := Picked(p, x);
    OutputAlike(p, q, x.flow, y.flow, b);
    var rest := Rotated(x.flow.worklist, k);
    FinishAlike(p, q, b, p.Output(x.flow.states, b), q.Output(y.flow.states, b),
                x.flow.(worklist := rest), y.flow.(worklist := rest));
  }

  ghost predicate RunsAlike<S(!new)>(d: Domain<S>, xs: seq<Progress<S>>, ys: seq<Progress<S>>) {
    && |xs| == |ys|
    && forall k :: 0 <= k < |xs| ==> Alike(d, xs[k].flow, ys[k].flow) && xs[k].log == ys[k].log
  }

  /** A run from one initial state has its like from the other. */
  lemma {:induction false} RunHasTwin<S(!new)>(p: Problem<S>, q: Problem<S>, xs: seq<Progress<S>>)
      returns (ys: seq<Progress<S>>)
    requires p.Valid() && Twins(p, q) && p.dom.EquivalentIsExact() && IsRun(p, xs)
    ensures IsRun(q, ys) && RunsAlike(p.dom, xs, ys)
  {
    if |xs| == 1 {
      ys := [Begin(q)];
    } else {
      ShorterRun(p, xs);
      var n := |xs| - 1;
      var zs := RunHasTwin(p, q, xs[..n]);
      assert Alike(p.dom, xs[..n][n - 1].flow, zs[n - 1].flow) && xs[..n][n - 1].log == zs[n - 1].log;
      NextAlike(p, q, xs[n - 1], zs[n - 1]);
      ys := zs + [Next(q, zs[n - 1])];
      LongerRun(q, zs);
      forall k | 0 <= k < |xs|
        ensures Alike(p.dom, xs[k].flow, ys[k].flow) && xs[k].log == ys[k].log
      {
        if k < n {
          assert Alike(p.dom, xs[..n][k].flow, zs[k].flow) && xs[..n][k].log == zs[k].log;
        }
      }
    }
  }

  // ---- results ----

  lemma ReturnedAlike<S(!new)>(p: Problem<S>, b: Block, s: S, s': S)
    requires p.Valid() && p.dom.Same(s, s') && !p.dom.isBottom(s)
    ensures p.dom.Same(p.Returned(b, s), p.Returned(b, s'))
  {
    assert p.dom.leq(p.addReturn(b, s), p.addReturn(b, s'));
    assert p.dom.leq(p.addReturn(b, s'), p.addReturn(b, s));
  }

  lemma ReturnsAlike<S(!new)>(p: Problem<S>, q: Problem<S>, x: map<Block, S>, y: map<Block, S>, b: Block)
    requires p.Valid() && Twins(p, q) && SameMap(p.dom, x, y)
    ensures ReturnsFrom(p, x, b) <==> ReturnsFrom(q, y, b)
  {
    if b in x {
      assert p.dom.Same(x[b], y[b]);
    }
  }

  lemma AddLastAlike<S(!new)>(
      p: Problem<S>, q: Problem<S>, x: map<Block, S>, y: map<Block, S>, order: seq<Block>)
    requires p.dom.MergeIsCongruent() && q.dom == p.dom && order != []
    requires forall b :: b in order ==> b in x && b in y
    requires var n := |order| - 1;
             && p.dom.Same(MergeExits(p, x, order[..n]), MergeExits(q, y, order[..n]))
             && p.dom.Same(p.Returned(order[n], x[order[n]]), q.Returned(order[n], y[order[n]]))
    ensures p.dom.Same(MergeExits(p, x, order), MergeExits(q, y, order))
  {
  }

  lemma {:induction false} MergeExitsAlike<S(!new)>(
      p: Problem<S>, q: Problem<S>, x: map<Block, S>, y: map<Block, S>, order: seq<Block>)
    requires p.Valid() && Twins(p, q) && SameMap(p.dom, x, y)
    requires forall b :: b in order ==> ReturnsFrom(p, x, b)
    ensures forall b :: b in order ==> b in y
    ensures p.dom.Same(MergeExits(p, x, order), MergeExits(q, y, order))
  {
    if order != [] {
      var b := order[|order| - 1];
      assert ReturnsFrom(p, x, b);
      ReturnedAlike(p, b, x[b], y[b]);
      MergeExitsAlike(p, q, x, y, order[..|order| - 1]);
      AddLastAlike(p, q, x, y, order);
    }
  }
}
