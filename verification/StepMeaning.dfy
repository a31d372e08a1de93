/**
 What the functions of `SolverSpec` compute, said without them: over the edge
 states, the initial state and the operations of the domain alone.
 */
module StepMeaning {
  import opened Wrappers
  import opened AbstractDomain
  import opened ControlFlow
  import opened SolverSpec

  // ---- merging several states ----

  /** From the left, one after the other. */
  ghost function MergeAll<S(!new)>(d: Domain<S>, ss: seq<S>): S
    requires ss != []
  {
    var n := |ss| - 1;
    if n == 0 then ss[0] else d.merge(MergeAll(d, ss[..n]), ss[n])
  }

  // ---- the input of a block ----

  /** What the first `n` predecessors contribute: the states that are not bottom, in
      order, the initial state for a missing one, and nothing over the ignored edge. */
  ghost function Incoming<S(!new)>(p: Problem<S>, states: map<Edge, S>, b: Block, n: nat): seq<S>
    requires p.g.WellFormed() && p.g.Has(b) && n <= |p.g.preds[b]|
  {
    if n == 0 then []
    else
      var e := Edge(p.g.preds[b][n - 1], b);
      var s := if e in states then states[e] else p.initial;
      var ss := Incoming(p, states, b, n - 1);
      if p.ignored == Some(e) || p.dom.isBottom(s) then ss else ss + [s]
  }

  ghost function Merged<S(!new)>(d: Domain<S>, ss: seq<S>): Option<S> {
    if ss == [] then None else Some(MergeAll(d, ss))
  }

  lemma MergedMore<S(!new)>(d: Domain<S>, ss: seq<S>, s: S)
    ensures Merged(d, ss + [s]) == Some(if ss == [] then s else d.merge(MergeAll(d, ss), s))
  {
    assert (ss + [s])[..|ss|] == ss;
  }

  lemma MergeFromNext<S(!new)>(p: Problem<S>, states: map<Edge, S>, b: Block, i: nat)
    requires p.g.WellFormed() && p.g.Has(b) && i < |p.g.preds[b]|
    ensures p.MergeFrom(states, b, i, Merged(p.dom, Incoming(p, states, b, i)))
         == p.MergeFrom(states, b, i + 1, Merged(p.dom, Incoming(p, states, b, i + 1)))
  {
    var s := p.PredOrInitial(states, Edge(p.g.preds[b][i], b));
    MergedMore(p.dom, Incoming(p, states, b, i), s);
  }

  lemma {:induction false} MergeFromIsMerged<S(!new)>(p: Problem<S>, states: map<Edge, S>, b: Block, i: nat)
    requires p.g.WellFormed() && p.g.Has(b) && i <= |p.g.preds[b]|
    ensures p.MergeFrom(states, b, i, Merged(p.dom, Incoming(p, states, b, i)))
         == Merged(p.dom, Incoming(p, states, b, |p.g.preds[b]|))
    decreases |p.g.preds[b]| - i
  {
    if i < |p.g.preds[b]| {
      MergeFromNext(p, states, b, i);
      MergeFromIsMerged(p, states, b, i + 1);
    }
  }

  /** Every predecessor that is neither ignored nor bottom contributes. */
  lemma {:induction false} IncomingIsLive<S(!new)>(
      p: Problem<S>, states: map<Edge, S>, b: Block, n: nat, j: nat)
    requires p.g.WellFormed() && p.g.Has(b) && j < n <= |p.g.preds[b]|
    requires var e := Edge(p.g.preds[b][j], b);
             p.ignored != Some(e) && e in states && !p.dom.isBottom(states[e])
    ensures states[Edge(p.g.preds[b][j], b)] in Incoming(p, states, b, n)
  {
    if j < n - 1 {
      IncomingIsLive(p, states, b, n - 1, j);
    }
  }

  /** A block starts from the initial state, from bottom when nothing but bottom has
      arrived, or from the merge of what comes in. */
  lemma InputIsMerge<S(!new)>(p: Problem<S>, states: map<Edge, S>, b: Block)
    requires p.g.WellFormed() && p.g.Has(b)
    ensures p.g.preds[b] == [] ==> p.Input(states, b) == p.initial
    ensures p.g.preds[b] != []
         && (forall q :: q in p.g.preds[b] && p.ignored != Some(Edge(q, b)) && Edge(q, b) in states ==>
               p.dom.isBottom(states[Edge(q, b)]))
         ==> p.Input(states, b) == p.dom.bottom
    ensures forall q ::
      q in p.g.preds[b] && p.ignored != Some(Edge(q, b)) && Edge(q, b) in states && !p.dom.isBottom(states[Edge(q, b)])
      ==> var ss := Incoming(p, states, b, |p.g.preds[b]|);
          states[Edge(q, b)] in ss && p.Input(states, b) == MergeAll(p.dom, ss)
  {
    MergeFromIsMerged(p, states, b, 0);
    forall q | q in p.g.preds[b] && p.ignored != Some(Edge(q, b)) && Edge(q, b) in states
               && !p.dom.isBottom(states[Edge(q, b)])
      ensures states[Edge(q, b)] in Incoming(p, states, b, |p.g.preds[b]|)
      ensures !p.AllBottomOrNull(states, b)
    {
      var j :| 0 <= j < |p.g.preds[b]| && p.g.preds[b][j] == q;
      IncomingIsLive(p, states, b, |p.g.preds[b]|, j);
    }
  }

  /** The ignored edge does not matter to the input. */
  lemma {:induction false} IgnoredDoesNotMerge<S(!new)>(
      p: Problem<S>, x: map<Edge, S>, y: map<Edge, S>, b: Block, i: nat, acc: Option<S>)
    requires p.g.WellFormed() && p.g.Has(b) && i <= |p.g.preds[b]|
    requires forall e :: p.ignored != Some(e) ==> (e in x <==> e in y) && (e in x ==> x[e] == y[e])
    ensures p.MergeFrom(x, b, i, acc) == p.MergeFrom(y, b, i, acc)
    decreases |p.g.preds[b]| - i
  {
    if i < |p.g.preds[b]| {
      var e := Edge(p.g.preds[b][i], b);
      var s := p.PredOrInitial(x, e);
      if p.ignored == Some(e) || p.dom.isBottom(s) {
        IgnoredDoesNotMerge(p, x, y, b, i + 1, acc);
      } else {
        IgnoredDoesNotMerge(p, x, y, b, i + 1, if acc.None? then Some(s) else Some(p.dom.merge(acc.value, s)));
      }
    }
  }

  lemma InputIgnoresEdge<S(!new)>(p: Problem<S>, x: map<Edge, S>, y: map<Edge, S>, b: Block)
    requires p.g.WellFormed() && p.g.Has(b)
    requires forall e :: p.ignored != Some(e) ==> (e in x <==> e in y) && (e in x ==> x[e] == y[e])
    ensures p.Input(x, b) == p.Input(y, b)
  {
    assert p.AllBottomOrNull(x, b) <==> p.AllBottomOrNull(y, b);
    IgnoredDoesNotMerge(p, x, y, b, 0, None);
  }

  // ---- PHI nodes ----

  /** `from` is what a PHI node of `b` reads: every incoming edge whose state, or
      else the initial state, is not bottom; the ignored edge is no exception. */
  ghost predicate ReadsFrom<S(!new)>(p: Problem<S>, states: map<Edge, S>, b: Block, from: set<Block>)
    requires p.g.WellFormed() && p.g.Has(b)
  {
    forall q :: q in from <==>
      && q in p.g.preds[b]
      && !p.dom.isBottom(if Edge(q, b) in states then states[Edge(q, b)] else p.initial)
  }

  lemma PhiReadsIgnoredEdge<S(!new)>(p: Problem<S>, states: map<Edge, S>, b: Block, q: Block, from: set<Block>)
    requires p.g.WellFormed() && p.g.Has(b) && ReadsFrom(p, states, b, from)
    requires q in p.g.preds[b] && p.ignored == Some(Edge(q, b)) && Edge(q, b) in states
    ensures q in from <==> !p.dom.isBottom(states[Edge(q, b)])
    ensures from == p.Live(states, b)
  {
    assert forall c :: c in from <==> c in p.Live(states, b);
  }

  // ---- the instructions ----

  /** One instruction after the other: nothing happens in a bottom state, a landing
      pad makes the state bottom, a PHI node reads the incoming edges, and any other
      instruction has its transfer. */
  lemma InstructionRuns<S(!new)>(p: Problem<S>, states: map<Edge, S>, b: Block, i: nat, from: set<Block>)
    requires p.g.WellFormed() && p.g.Has(b) && i < |p.g.Insts(b)| && ReadsFrom(p, states, b, from)
    ensures p.Before(states, b, 0) == p.Input(states, b)
    ensures p.Output(states, b) == p.Before(states, b, |p.g.Insts(b)|)
    ensures var x, y := p.Before(states, b, i), p.Before(states, b, i + 1);
            if p.dom.isBottom(x) then y == x
            else if p.g.Insts(b)[i] == Phi then y == p.phi(b, i, from, x)
            else if p.g.Insts(b)[i] == LandingPad then y == p.dom.markBottom(x)
            else y == p.visit(b, i, x)
  {
    assert from == p.Live(states, b);
  }

  /** `ss` are the states before, between and after the instructions of `b`. */
  ghost predicate Runs<S(!new)>(p: Problem<S>, states: map<Edge, S>, b: Block, ss: seq<S>)
    requires p.g.WellFormed() && p.g.Has(b)
  {
    && |ss| == |p.g.Insts(b)| + 1
    && forall i, from :: 0 <= i < |p.g.Insts(b)| && ReadsFrom(p, states, b, from) ==>
         if p.dom.isBottom(ss[i]) then ss[i + 1] == ss[i]
         else if p.g.Insts(b)[i] == Phi then ss[i + 1] == p.phi(b, i, from, ss[i])
         else if p.g.Insts(b)[i] == LandingPad then ss[i + 1] == p.dom.markBottom(ss[i])
         else ss[i + 1] == p.visit(b, i, ss[i])
  }

  lemma BlockRuns<S(!new)>(p: Problem<S>, states: map<Edge, S>, b: Block) returns (ss: seq<S>)
    requires p.g.WellFormed() && p.g.Has(b)
    ensures Runs(p, states, b, ss) && ReadsFrom(p, states, b, p.Live(states, b))
    ensures ss[0] == p.Input(states, b) && ss[|p.g.Insts(b)|] == p.Output(states, b)
  {
    ss := seq(|p.g.Insts(b)| + 1, i requires 0 <= i <= |p.g.Insts(b)| => p.Before(states, b, i));
    forall i, from | 0 <= i < |p.g.Insts(b)| && ReadsFrom(p, states, b, from)
      ensures if p.dom.isBottom(ss[i]) then ss[i + 1] == ss[i]
              else if p.g.Insts(b)[i] == Phi then ss[i + 1] == p.phi(b, i, from, ss[i])
              else if p.g.Insts(b)[i] == LandingPad then ss[i + 1] == p.dom.markBottom(ss[i])
              else ss[i + 1] == p.visit(b, i, ss[i])
    {
      InstructionRuns(p, states, b, i, from);
    }
  }

  // ---- the queue after a block ----

  /** `x` is `y` with elements left out. */
  ghost predicate Within(x: seq<Block>, y: seq<Block>) {
    || x == []
    || (y != [] && ((x[0] == y[0] && Within(x[1..], y[1..])) || Within(x, y[1..])))
  }

  /** The blocks a terminator adds to the queue come in the order of its successors. */
  lemma {:induction false} SendQueuesInOrder<S(!new)>(p: Problem<S>, b: Block, s: S, i: nat, f: Flow<S>)
      returns (news: seq<Block>)
    requires p.g.WellFormed() && p.g.Has(b) && i <= |p.g.Succs(b)|
    ensures p.Send(b, s, i, f).worklist == f.worklist + news && Within(news, p.g.Succs(b)[i..])
    decreases |p.g.Succs(b)| - i
  {
    news := [];
    if i < |p.g.Succs(b)| {
      var next := p.SendTo(b, s, i, f);
      var t := p.g.Succs(b)[i];
      assert p.g.Succs(b)[i..][1..] == p.g.Succs(b)[i + 1..];
      var rest := SendQueuesInOrder(p, b, s, i + 1, next);
      news := if next.worklist == f.worklist then rest else [t] + rest;
      assert ([t] + rest)[1..] == rest;
    }
  }

  /** A block joins the queue only for an edge state that was missing or not
      equivalent. */
  lemma {:induction false} SendQueuesChanged<S(!new)>(
      p: Problem<S>, b: Block, s: S, i: nat, f: Flow<S>, x: Block)
    requires p.g.WellFormed() && p.g.Has(b) && i <= |p.g.Succs(b)|
    requires x in p.Send(b, s, i, f).worklist && x !in f.worklist
    ensures Edge(b, x) !in f.states || !p.dom.equivalent(f.states[Edge(b, x)], p.Sent(b, x, s))
         || !p.dom.equivalent(p.Sent(b, x, s), p.Sent(b, x, s))
    decreases |p.g.Succs(b)| - i
  {
    var next := p.SendTo(b, s, i, f);
    if x !in next.worklist {
      SendQueuesChanged(p, b, s, i + 1, next, x);
    }
  }
}
