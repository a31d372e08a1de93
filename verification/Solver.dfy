/**
 The per-function solver, in the form the analysis runs it: a FIFO worklist of
 blocks, a map of edge states that are overwritten, and the exit states.
 */
module Solver {
  import opened Collections
  import opened Wrappers
  import opened ControlFlow
  import opened SolverSpec
  import opened Fixpoint
  import opened StepMeaning

  /** The containers after some rounds, and the blocks processed so far, in order. */
  datatype Progress<S> = Progress(flow: Flow<S>, log: seq<Block>) {
    ghost function Done(): set<Block> {
      set b | b in log
    }
  }

  ghost function Begin<S(!new)>(p: Problem<S>): Progress<S> {
    Progress(p.Start(), [])
  }

  /** The block the next round takes. */
  ghost function Picked<S(!new)>(p: Problem<S>, q: Progress<S>): (b: Block)
    requires p.g.WellFormed() && Queue(p, q.flow) && q.flow.worklist != []
    ensures b in q.flow.worklist && p.g.Has(b)
  {
    q.flow.worklist[p.Chosen(q.flow)]
  }

  /** One round, with the block it takes added to the log. */
  ghost function Next<S(!new)>(p: Problem<S>, q: Progress<S>): Progress<S>
    requires p.g.WellFormed() && Queue(p, q.flow) && q.flow.worklist != []
  {
    Progress(p.Round(q.flow), q.log + [Picked(p, q)])
  }

  ghost predicate Steps<S(!new)>(p: Problem<S>, q: Progress<S>, r: Progress<S>)
    requires p.g.WellFormed()
  {
    Queue(p, q.flow) && q.flow.worklist != [] && r == Next(p, q)
  }

  /** The progress after each round, from the entry block on. */
  ghost predicate IsRun<S(!new)>(p: Problem<S>, rs: seq<Progress<S>>) {
    && p.g.WellFormed()
    && rs != []
    && rs[0] == Begin(p)
    && (forall i :: 0 <= i < |rs| - 1 ==> Steps(p, rs[i], rs[i + 1]))
  }

  function Last<T>(s: seq<T>): T
    requires s != []
  {
    s[|s| - 1]
  }

  /** Induction over runs: one round fewer is a run too. */
  lemma ShorterRun<S(!new)>(p: Problem<S>, rs: seq<Progress<S>>)
    requires IsRun(p, rs) && |rs| > 1
    ensures IsRun(p, rs[..|rs| - 1])
    ensures Steps(p, Last(rs[..|rs| - 1]), Last(rs))
  {
    var n := |rs| - 2;
    assert Steps(p, rs[n], rs[n + 1]);
  }

  /** One round more is a run too. */
  lemma LongerRun<S(!new)>(p: Problem<S>, rs: seq<Progress<S>>)
    requires IsRun(p, rs) && Queue(p, Last(rs).flow) && Last(rs).flow.worklist != []
    ensures IsRun(p, rs + [Next(p, Last(rs))])
  {
    var longer := rs + [Next(p, Last(rs))];
    forall i | 0 <= i < |longer| - 1
      ensures Steps(p, longer[i], longer[i + 1])
    {
      assert i < |rs| - 1 ==> Steps(p, rs[i], rs[i + 1]);
    }
  }

  /** Runs differ in length alone, so one that stops is the longest. */
  lemma {:induction false} RunIsPrefix<S(!new)>(p: Problem<S>, xs: seq<Progress<S>>, ys: seq<Progress<S>>)
    requires IsRun(p, xs) && IsRun(p, ys) && |xs| <= |ys|
    ensures xs == ys[..|xs|]
  {
    if |xs| > 1 {
      var n := |xs| - 1;
      ShorterRun(p, xs);
      RunIsPrefix(p, xs[..n], ys);
      assert Steps(p, xs[n - 1], xs[n]) && Steps(p, ys[n - 1], ys[n]);
      assert xs[..n][n - 1] == ys[n - 1];
      assert xs == xs[..n] + [xs[n]] && ys[..n + 1] == ys[..n] + [ys[n]];
    }
  }

  lemma StoppedRunIsLongest<S(!new)>(p: Problem<S>, xs: seq<Progress<S>>, ys: seq<Progress<S>>)
    requires IsRun(p, xs) && IsRun(p, ys) && Last(xs).flow.worklist == []
    ensures |ys| <= |xs|
  {
    if |xs| <= |ys| {
      RunIsPrefix(p, xs, ys);
      assert |xs| < |ys| ==> Steps(p, ys[|xs| - 1], ys[|xs|]);
    }
  }

  lemma StoppedRunIsUnique<S(!new)>(p: Problem<S>, xs: seq<Progress<S>>, ys: seq<Progress<S>>)
    requires IsRun(p, xs) && IsRun(p, ys)
    requires Last(xs).flow.worklist == [] && Last(ys).flow.worklist == []
    ensures xs == ys
  {
    StoppedRunIsLongest(p, xs, ys);
    StoppedRunIsLongest(p, ys, xs);
    RunIsPrefix(p, xs, ys);
  }

  /** Some run comes to an empty worklist. */
  ghost predicate Stops<S(!new)>(p: Problem<S>) {
    exists rs :: IsRun(p, rs) && Last(rs).flow.worklist == []
  }

  lemma {:induction false} RunHasQueue<S(!new)>(p: Problem<S>, rs: seq<Progress<S>>)
    requires IsRun(p, rs)
    ensures Queue(p, Last(rs).flow)
  {
    if |rs| > 1 {
      ShorterRun(p, rs);
      RoundKeepsQueue(p, Last(rs[..|rs| - 1]).flow);
    }
  }

  /** The fixpoint invariant holds after any number of rounds. */
  lemma {:induction false} RunHasInv<S(!new)>(p: Problem<S>, rs: seq<Progress<S>>)
    requires p.Valid() && IsRun(p, rs)
    ensures Inv(p, Last(rs).flow, Last(rs).Done())
  {
    if |rs| == 1 {
      StartHasInv(p);
    } else {
      ShorterRun(p, rs);
      RunHasInv(p, rs[..|rs| - 1]);
      NextKeeps(p, Last(rs[..|rs| - 1]));
    }
  }

  lemma NextKeeps<S(!new)>(p: Problem<S>, q: Progress<S>)
    requires p.Valid() && Inv(p, q.flow, q.Done()) && q.flow.worklist != []
    ensures Inv(p, Next(p, q).flow, Next(p, q).Done())
  {
    RoundKeeps(p, q.flow, q.Done());
    assert Next(p, q).Done() == q.Done() + {Picked(p, q)};
  }

  lemma AgreeIsTransitive<S(!new)>(
      p: Problem<S>, x: map<Edge, S>, y: map<Edge, S>, z: map<Edge, S>, b: Block)
    requires p.Valid() && p.g.Has(b) && Agree(p, x, y, b) && Agree(p, y, z, b)
    ensures Agree(p, x, z, b)
  {
    forall q | q in p.g.preds[b] && Edge(q, b) in x
      ensures Edge(q, b) in z && p.dom.Same(x[Edge(q, b)], z[Edge(q, b)])
    {
      assert p.dom.Same(y[Edge(q, b)], z[Edge(q, b)]);
    }
  }

  /** One round leaves the input of a block alone that it does not queue. */
  lemma NextAgrees<S(!new)>(p: Problem<S>, q: Progress<S>, b: Block)
    requires p.Valid() && Inv(p, q.flow, q.Done()) && q.flow.worklist != []
    requires p.g.Has(b) && b !in Next(p, q).flow.worklist
    ensures Agree(p, q.flow.states, Next(p, q).flow.states, b)
    ensures b in q.flow.worklist ==> b == Picked(p, q)
  {
    var k := p.Chosen(q.flow);
    var c := Picked(p, q);
    assert c in q.flow.worklist;
    TakeOut(q.flow.worklist, k);
    var rest := q.flow.(worklist := Rotated(q.flow.worklist, k));
    FinishWakes(p, c, p.Output(q.flow.states, c), rest);
    FinishAgrees(p, c, p.Output(q.flow.states, c), rest, b);
  }

  /** Since a block was last taken its input has not changed, up to `Same`. */
  lemma {:induction false} LastPick<S(!new)>(p: Problem<S>, rs: seq<Progress<S>>, b: Block) returns (k: nat)
    requires p.Valid() && IsRun(p, rs) && b in Last(rs).log && b !in Last(rs).flow.worklist
    ensures k < |rs| - 1 && Steps(p, rs[k], rs[k + 1]) && Picked(p, rs[k]) == b
    ensures p.g.Has(b) && Agree(p, rs[k].flow.states, Last(rs).flow.states, b)
  {
    RunHasInv(p, rs);
    assert b in Last(rs).Done();
    if |rs| > 1 {
      k := |rs| - 2;
      assert Steps(p, rs[k], rs[k + 1]);
      ShorterRun(p, rs);
      RunHasInv(p, rs[..|rs| - 1]);
      NextAgrees(p, rs[k], b);
      if b != Picked(p, rs[k]) {
        k := LastPick(p, rs[..|rs| - 1], b);
        AgreeIsTransitive(p, rs[k].flow.states, rs[|rs| - 2].flow.states, Last(rs).flow.states, b);
      }
    }
  }

  lemma {:induction false} FirstReadyIs<S(!new)>(
      p: Problem<S>, states: map<Edge, S>, w: seq<Block>, k: nat)
    requires p.g.WellFormed() && forall b :: b in w ==> p.g.Has(b)
    requires k <= |w| && forall j :: 0 <= j < k ==> p.Waits(states, w[j])
    requires k < |w| ==> !p.Waits(states, w[k])
    ensures p.FirstReady(states, w) == k
  {
    if k > 0 {
      assert p.Waits(states, w[0]);
      forall j | 0 <= j < k - 1
        ensures p.Waits(states, w[1..][j])
      {
        assert w[1..][j] == w[j + 1];
      }
      FirstReadyIs(p, states, w[1..], k - 1);
    }
  }

  /** Putting the block that was taken at the back and taking the front one. */
  lemma RotateOnce(w: seq<Block>, k: nat)
    requires k < |w| && NoDup(w)
    ensures var r := Enqueue(Rotated(w, k), w[k]);
            var next := if k + 1 < |w| then k + 1 else 0;
            r != [] && r[0] == w[next] && r[1..] == Rotated(w, next)
  {
    var rest := Rotated(w, k);
    TakeOut(w, k);
    assert rest + [w[k]] == w[k + 1..] + w[..k + 1];
    if k + 1 == |w| {
      assert rest + [w[k]] == w;
    }
  }

  /** The rotation stops at the first ready block, or back at the front. */
  lemma TakenIs<S(!new)>(
      p: Problem<S>, states: map<Edge, S>, w: seq<Block>, tries: nat, b: Block, rest: seq<Block>)
    requires p.g.WellFormed() && w != [] && forall x :: x in w ==> p.g.Has(x)
    requires forall j :: 0 <= j < tries && j < |w| ==> p.Waits(states, w[j])
    requires if tries < |w| then b == w[tries] && rest == Rotated(w, tries) && !p.Waits(states, b)
             else tries == |w| && b == w[0] && rest == Rotated(w, 0)
    ensures tries == p.FirstReady(states, w)
    ensures tries == |w| <==> forall x :: x in w ==> p.Waits(states, x)
    ensures tries == |w| ==> rest == w[1..]
    ensures var k := if tries == |w| then 0 else tries; b == w[k] && rest == Rotated(w, k)
  {
    FirstReadyIs(p, states, w, tries);
    FullTurnIff(p, states, w);
  }

  lemma FullTurnIff<S(!new)>(p: Problem<S>, states: map<Edge, S>, w: seq<Block>)
    requires p.g.WellFormed() && forall b :: b in w ==> p.g.Has(b)
    ensures p.FirstReady(states, w) == |w| <==> forall x :: x in w ==> p.Waits(states, x)
    ensures w != [] ==> Rotated(w, 0) == w[1..]
  {
    ReadyDoesNotWait(p, states, w);
    var k := p.FirstReady(states, w);
    if k < |w| {
      assert w[k] in w;
    } else {
      assert forall x :: x in w ==> exists j :: 0 <= j < k && w[j] == x;
    }
  }

  /** Nothing is merged when every predecessor that counts is missing or bottom
      and none is missing. */
  lemma {:induction false} ReadyBottomMergesNothing<S(!new)>(
      p: Problem<S>, states: map<Edge, S>, b: Block, i: nat)
    requires p.g.WellFormed() && p.g.Has(b) && i <= |p.g.preds[b]|
    requires !p.Waits(states, b) && p.AllBottomOrNull(states, b)
    ensures p.MergeFrom(states, b, i, None) == None
    decreases |p.g.preds[b]| - i
  {
    if i < |p.g.preds[b]| {
      assert p.g.preds[b][i] in p.g.preds[b];
      ReadyBottomMergesNothing(p, states, b, i + 1);
    }
  }

  lemma SendNext<S(!new)>(p: Problem<S>, b: Block, s: S, i: nat, f: Flow<S>)
    requires p.g.WellFormed() && p.g.Has(b) && i < |p.g.Succs(b)|
    ensures p.Send(b, s, i, f) == p.Send(b, s, i + 1, p.SendTo(b, s, i, f))
  {
  }

  datatype SolverError = FunctionDoesNotExit

  class FunctionAnalysis<S(!new)> {
    const p: Problem<S>

    var worklist: seq<Block>
    var mutableState: S
    var states: map<Edge, S>
    var exitStates: map<Block, S>

    ghost var run: seq<Progress<S>>   // the progress after each round so far

    ghost function Containers(): Flow<S>
      reads this
    {
      Flow(worklist, states, exitStates)
    }

    ghost predicate Valid()
      reads this
    {
      p.Valid() && IsRun(p, run) && Containers() == Last(run).flow
    }

    constructor (problem: Problem<S>)
      requires problem.Valid()
      ensures Valid() && p == problem && |run| == 1
      ensures worklist == [ENTRY] && states == map[] && exitStates == map[]
    {
      p := problem;
      worklist := [ENTRY];
      mutableState := problem.initial;
      states := map[];
      exitStates := map[];
      run := [Begin(problem)];
    }

    /** The source's constructor: it comes back with the loop behind it. */
    constructor Analysed(problem: Problem<S>)
      requires problem.Valid() && Stops(problem)
      ensures Valid() && p == problem && worklist == []
      ensures Inv(p, Containers(), Last(run).Done())
    {
      p := problem;
      worklist := [ENTRY];
      mutableState := problem.initial;
      states := map[];
      exitStates := map[];
      run := [Begin(problem)];
      new;
      RunToEnd();
    }

    // ---- the worklist ----

    method AddToWorklist(b: Block)
      modifies this`worklist
      ensures worklist == if b in old(worklist) then old(worklist) else old(worklist) + [b]
    {
      for i := 0 to |worklist|
        invariant b !in worklist[..i]
        invariant worklist == old(worklist)
      {
        if worklist[i] == b {
          return;
        }
      }
      worklist := worklist + [b];
    }

    method GetFromWorklist() returns (b: Block)
      requires worklist != []
      modifies this`worklist
      ensures b == old(worklist)[0] && worklist == old(worklist)[1..]
    {
      b := worklist[0];
      worklist := worklist[1..];
    }

    method ShouldWait(b: Block) returns (wait: bool)
      requires p.g.WellFormed() && p.g.Has(b)
      ensures wait == p.Waits(states, b)
      ensures wait <==> exists q ::
                q in p.g.preds[b] && p.ignored != Some(Edge(q, b)) && Edge(q, b) !in states
    {
      for i := 0 to |p.g.preds[b]|
        invariant forall j :: 0 <= j < i ==>
          p.ignored == Some(Edge(p.g.preds[b][j], b)) || Edge(p.g.preds[b][j], b) in states
      {
        var e := Edge(p.g.preds[b][i], b);
        if p.ignored != Some(e) && e !in states {
          assert p.g.preds[b][i] in p.g.preds[b];
          return true;
        }
      }
      return false;
    }

    /** Postpone waiting blocks: the first block that does not wait is taken and
        those before it go to the back; if all wait, the front is taken. */
    method TakeBlock() returns (b: Block, tries: nat)
      requires p.g.WellFormed() && worklist != [] && Queue(p, Containers())
      modifies this`worklist
      ensures var k := p.Chosen(old(Containers()));
              && b == old(worklist)[k]
              && worklist == Rotated(old(worklist), k)
      ensures tries == p.FirstReady(states, old(worklist))
      ensures tries == |old(worklist)| <==> forall x :: x in old(worklist) ==> p.Waits(states, x)
      ensures tries == |old(worklist)| ==> b == old(worklist)[0] && worklist == old(worklist)[1..]
      ensures tries < |old(worklist)| ==>
                && b == old(worklist)[tries] && !p.Waits(states, b)
                && (forall j :: 0 <= j < tries ==> p.Waits(states, old(worklist)[j]))
                && worklist == old(worklist)[tries + 1..] + old(worklist)[..tries]
    {
      ghost var w := worklist;
      var maxTries := |worklist|;
      tries := 0;
      b := GetFromWorklist();
      var wait := ShouldWait(b);
      while wait
        invariant 0 <= tries < |w| && b == w[tries] && worklist == Rotated(w, tries)
        invariant wait == p.Waits(states, b)
        invariant forall j :: 0 <= j < tries ==> p.Waits(states, w[j])
        decreases |w| - tries
      {
        RotateOnce(w, tries);
        AddToWorklist(b);
        b := GetFromWorklist();
        tries := tries + 1;
        if tries == maxTries {
          break;
        }
        wait := ShouldWait(b);
      }
      TakenIs(p, states, w, tries, b, worklist);
    }

    // ---- the input of a block ----

    method AllBottomOrNull(b: Block) returns (all: bool)
      requires p.g.WellFormed() && p.g.Has(b)
      ensures all == p.AllBottomOrNull(states, b)
      ensures all <==> forall q ::
                q in p.g.preds[b] && p.ignored != Some(Edge(q, b)) && Edge(q, b) in states ==>
                  p.dom.isBottom(states[Edge(q, b)])
    {
      for i := 0 to |p.g.preds[b]|
        invariant forall j :: 0 <= j < i ==>
          var e := Edge(p.g.preds[b][j], b);
          p.ignored == Some(e) || (e in states ==> p.dom.isBottom(states[e]))
      {
        var e := Edge(p.g.preds[b][i], b);
        if p.ignored != Some(e) && e in states && !p.dom.isBottom(states[e]) {
          assert p.g.preds[b][i] in p.g.preds[b];
          return false;
        }
      }
      return true;
    }

    method Merge(b: Block) returns (r: S)
      requires p.g.WellFormed() && p.g.Has(b)
      ensures p.g.preds[b] == [] ==> r == p.initial
      ensures p.g.preds[b] != [] ==>
        var m := p.MergeFrom(states, b, 0, None);
        r == if m.Some? then m.value else p.dom.bottom
      ensures p.g.preds[b] != [] ==>
        var ss := Incoming(p, states, b, |p.g.preds[b]|);
        r == if ss != [] then MergeAll(p.dom, ss) else p.dom.bottom
    {
      if p.g.preds[b] == [] {
        return p.initial;
      }
      MergeFromIsMerged(p, states, b, 0);
      var ret := None;
      for i := 0 to |p.g.preds[b]|
        invariant p.MergeFrom(states, b, i, ret) == p.MergeFrom(states, b, 0, None)
      {
        var e := Edge(p.g.preds[b][i], b);
        var s := p.PredOrInitial(states, e);
        if p.ignored == Some(e) || p.dom.isBottom(s) {
          continue;
        }
        ret := if ret.None? then Some(s) else Some(p.dom.merge(ret.value, s));
      }
      r := if ret.Some? then ret.value else p.dom.bottom;
    }

    /** The short-cut for a block taken although it waits, and the merge of all
        others, both compute the block's one input. */
    method StartBlock(b: Block, gaveUp: bool)
      requires p.g.WellFormed() && p.g.Has(b)
      requires gaveUp == p.Waits(states, b)
      modifies this`mutableState
      ensures mutableState == p.Input(states, b)
    {
      var short := false;
      if gaveUp {
        short := AllBottomOrNull(b);
      }
      if short {
        mutableState := p.dom.bottom;
      } else {
        mutableState := Merge(b);
        if !gaveUp && p.AllBottomOrNull(states, b) {
          ReadyBottomMergesNothing(p, states, b, 0);
        }
      }
    }

    // ---- the instructions of a block ----

    /** handlePHINode: collect the incoming edges that are not bottom. */
    method HandlePhi(b: Block, i: nat)
      requires p.g.WellFormed() && p.g.Has(b) && i < |p.g.Insts(b)|
      requires p.Live(states, b) != {}
      modifies this`mutableState
      ensures mutableState == p.phi(b, i, p.Live(states, b), old(mutableState))
      ensures exists from :: ReadsFrom(p, states, b, from) && mutableState == p.phi(b, i, from, old(mutableState))
    {
      var live := {};
      for j := 0 to |p.g.preds[b]|
        invariant live == set k | 0 <= k < j &&
                    !p.dom.isBottom(p.PredOrInitial(states, Edge(p.g.preds[b][k], b))) :: p.g.preds[b][k]
      {
        var q := p.g.preds[b][j];
        if !p.dom.isBottom(p.PredOrInitial(states, Edge(q, b))) {
          live := live + {q};
        }
      }
      assert live == p.Live(states, b) by {
        forall q | q in p.Live(states, b)
          ensures q in live
        {
          var k :| 0 <= k < |p.g.preds[b]| && p.g.preds[b][k] == q;
        }
      }
      assert live != {} && ReadsFrom(p, states, b, live);
      mutableState := p.phi(b, i, live, mutableState);
    }

    /** Run the instructions; a bottom state skips straight to the terminator. */
    method RunInstructions(b: Block)
      requires p.Valid() && p.g.Has(b)
      requires mutableState == p.Input(states, b)
      modifies this`mutableState
      ensures mutableState == p.Output(states, b)
      ensures exists ss: seq<S> ::
                && Runs(p, states, b, ss)
                && ss[0] == old(mutableState) && ss[|p.g.Insts(b)|] == mutableState
    {
      ghost var ss := BlockRuns(p, states, b);
      ghost var live := p.Live(states, b);
      var i := 0;
      if p.dom.isBottom(mutableState) {
        i := |p.g.Insts(b)|;
        ExecBottom(p, b, i, live, mutableState);
      } else {
        PhiHasLiveEdge(p, states, b);
      }
      while i < |p.g.Insts(b)|
        invariant 0 <= i <= |p.g.Insts(b)|
        invariant mutableState == p.Before(states, b, i)
        invariant i < |p.g.Insts(b)| ==> live != {} || Phi !in p.g.Insts(b)
      {
        if !p.dom.isBottom(mutableState) {
          match p.g.Insts(b)[i] {
            case Phi =>
              assert Phi in p.g.Insts(b);
              HandlePhi(b, i);
            case LandingPad =>
              mutableState := p.dom.markBottom(mutableState);
            case Visit =>
              mutableState := p.visit(b, i, mutableState);
          }
        }
        i := i + 1;
      }
    }

    // ---- the terminator ----

    method HandleTerminator(b: Block)
      requires p.g.WellFormed() && p.g.Has(b)
      modifies this`worklist, this`states, this`exitStates
      ensures Containers() == p.Finish(b, mutableState, old(Containers()))
      ensures exitStates == if p.g.Succs(b) == [] then old(exitStates)[b := mutableState] else old(exitStates)
      ensures forall e: Edge ::
                if e.start == b && e.end in p.g.Succs(b) && !p.g.Term(e.end).Unreachable?
                then e in states && states[e] == match p.g.Term(b)
                                                 case Branch(yes, _) => p.refineBool(b, yes == e.end, mutableState)
                                                 case _ => mutableState
                else (e in states <==> e in old(states)) && (e in states ==> states[e] == old(states)[e])
      ensures exists news: seq<Block> :: worklist == old(worklist) + news && Within(news, p.g.Succs(b))
      ensures forall t :: t in p.g.Succs(b) && !p.g.Term(t).Unreachable? ==>
                || t in worklist
                || (Edge(b, t) in old(states) && p.dom.equivalent(old(states)[Edge(b, t)], states[Edge(b, t)]))
      ensures forall t :: t in worklist && t !in old(worklist) && Edge(b, t) in old(states) ==>
                || !p.dom.equivalent(old(states)[Edge(b, t)], states[Edge(b, t)])
                || !p.dom.equivalent(states[Edge(b, t)], states[Edge(b, t)])
    {
      FinishMeans(p, b, mutableState, Containers());
      FinishRequeues(p, b, mutableState, Containers());
      if |p.g.Succs(b)| == 0 {
        exitStates := exitStates[b := mutableState];
        return;
      }
      for i := 0 to |p.g.Succs(b)|
        invariant p.Send(b, mutableState, i, Containers())
               == p.Send(b, mutableState, 0, old(Containers()))
      {
        var t := p.g.Succs(b)[i];
        SendNext(p, b, mutableState, i, Containers());
        if p.g.Term(t).Unreachable? {
          continue;
        }
        SendState(b, t);
      }
    }

    /** One successor: requeue it unless its edge state is equivalent, and
        overwrite that state either way. */
    method SendState(b: Block, t: Block)
      requires p.g.Has(b)
      modifies this`worklist, this`states
      ensures Containers() == p.SendOne(b, t, p.Sent(b, t, mutableState), old(Containers()))
      ensures var current := match p.g.Term(b)
                             case Branch(yes, _) => p.refineBool(b, yes == t, mutableState)
                             case _ => mutableState;
              && states == old(states)[Edge(b, t) := current]
              && worklist == if t in old(worklist)
                             || (Edge(b, t) in old(states) && p.dom.equivalent(old(states)[Edge(b, t)], current))
                             then old(worklist) else old(worklist) + [t]
    {
      var e := Edge(b, t);
      var current := p.Sent(b, t, mutableState);
      if !(e in states && p.dom.equivalent(states[e], current)) {
        AddToWorklist(t);
      }
      states := states[e := current];
    }

    // ---- the main loop ----

    method ProcessNext()
      requires p.Valid() && worklist != [] && Queue(p, Containers())
      modifies this`worklist, this`mutableState, this`states, this`exitStates
      ensures Containers() == p.Round(old(Containers()))
    {
      ghost var w := worklist;
      var maxTries := |worklist|;
      var b, tries := TakeBlock();
      assert b in w;
      assert tries < maxTries ==> !p.Waits(states, b) by {
        ReadyDoesNotWait(p, states, w);
      }
      StartBlock(b, tries == maxTries);
      RunInstructions(b);
      HandleTerminator(b);
    }

    /** The loop as it is, on a problem on which it ends. The edge and exit states
        are then a fixpoint over the processed blocks. */
    method RunToEnd()
      requires Valid() && Stops(p)
      modifies this
      ensures Valid() && old(run) <= run && worklist == []
      ensures Inv(p, Containers(), Last(run).Done())
    {
      ghost var whole :| IsRun(p, whole) && Last(whole).flow.worklist == [];
      while worklist != []
        invariant Valid() && old(run) <= run
        decreases |whole| - |run|
      {
        StoppedRunIsLongest(p, whole, run);
        RunHasQueue(p, run);
        LongerRun(p, run);
        ProcessNext();
        run := run + [Next(p, Last(run))];
      }
      RunHasInv(p, run);
    }

    /** At most `budget` rounds. When the worklist is empty at the end, the edge
        and exit states are a fixpoint over the processed blocks. */
    method Run(budget: nat) returns (stopped: bool)
      requires Valid()
      modifies this
      ensures Valid() && old(run) <= run
      ensures stopped <==> worklist == []
      ensures !stopped ==> |run| == old(|run|) + budget
      ensures Inv(p, Containers(), Last(run).Done())
    {
      var i := 0;
      while i < budget && worklist != []
        invariant Valid() && i <= budget
        invariant old(run) <= run && |run| == old(|run|) + i
      {
        RunHasQueue(p, run);
        LongerRun(p, run);
        ProcessNext();
        run := run + [Next(p, Last(run))];
        i := i + 1;
      }
      stopped := worklist == [];
      RunHasInv(p, run);
    }

    /** Merge the exit states, in the order the map happens to list them. */
    method GetResult() returns (r: Result<S, SolverError>, ghost order: seq<Block>)
      requires forall b :: b in exitStates ==> p.g.Has(b)
      ensures r.Failure? <==> exitStates == map[]
      ensures Collected(p, exitStates, {}, order)
      ensures NoDup(order)
      ensures forall b :: b in order <==>
                b in exitStates && !p.g.Term(b).Unreachable? && !p.dom.isBottom(exitStates[b])
      ensures r.Success? ==> r.value == MergeExits(p, exitStates, order)
      ensures r.Success? ==>
        r.value == if order == [] then p.dom.bottom else MergeAll(p.dom, HandedBack(p, exitStates, order))
    {
      if |exitStates| == 0 {
        order := [];
        return Failure(FunctionDoesNotExit), order;
      }
      order := [];
      var acc := None;
      var left := exitStates.Keys;
      while left != {}
        invariant left <= exitStates.Keys && Collected(p, exitStates, left, order)
        invariant acc.None? <==> order == []
        invariant acc.Some? ==> acc.value == MergeExits(p, exitStates, order)
      {
        var b :| b in left;
        if !(p.g.Term(b).Unreachable? || p.dom.isBottom(exitStates[b])) {
          var next := p.Returned(b, exitStates[b]);
          acc := if acc.None? then Some(next) else Some(p.dom.merge(acc.value, next));
          CollectOne(p, exitStates, left, order, b);
          order := order + [b];
        }
        left := left - {b};
      }
      r := Success(if acc.Some? then acc.value else p.dom.bottom);
      ExitsAreMerged(p, exitStates, order);
    }
  }

  /** What the exits listed hand back, with the return value unless there is none. */
  ghost function HandedBack<S(!new)>(p: Problem<S>, exits: map<Block, S>, order: seq<Block>): seq<S>
    requires forall b :: b in order ==> b in exits
  {
    if order == [] then []
    else
      var b := order[|order| - 1];
      HandedBack(p, exits, order[..|order| - 1]) + [if p.isVoid then exits[b] else p.addReturn(b, exits[b])]
  }

  /** getResult merges these, from the left. */
  lemma {:induction false} ExitsAreMerged<S(!new)>(p: Problem<S>, exits: map<Block, S>, order: seq<Block>)
    requires forall b :: b in order ==> b in exits
    ensures |HandedBack(p, exits, order)| == |order|
    ensures MergeExits(p, exits, order)
         == if order == [] then p.dom.bottom else MergeAll(p.dom, HandedBack(p, exits, order))
  {
    if order != [] {
      var n := |order| - 1;
      var rest := HandedBack(p, exits, order[..n]);
      ExitsAreMerged(p, exits, order[..n]);
      MergedMore(p.dom, rest, p.Returned(order[n], exits[order[n]]));
    }
  }

  /** Which successors handling a terminator queues. */
  lemma FinishRequeues<S(!new)>(p: Problem<S>, b: Block, s: S, f: Flow<S>)
    requires p.g.WellFormed() && p.g.Has(b)
    ensures var r := p.Finish(b, s, f);
            && (forall t :: t in p.g.Succs(b) && !p.g.Term(t).Unreachable? ==>
                  t in r.worklist
                  || (Edge(b, t) in f.states && p.dom.equivalent(f.states[Edge(b, t)], p.Sent(b, t, s))))
            && (forall t :: t in r.worklist && t !in f.worklist ==>
                  && t in p.g.Succs(b) && !p.g.Term(t).Unreachable?
                  && (Edge(b, t) in f.states ==>
                        || !p.dom.equivalent(f.states[Edge(b, t)], p.Sent(b, t, s))
                        || !p.dom.equivalent(p.Sent(b, t, s), p.Sent(b, t, s))))
  {
    if p.g.Succs(b) != [] {
      assert p.g.Succs(b)[0..] == p.g.Succs(b);
      forall t | t in p.g.Succs(b) && !p.g.Term(t).Unreachable?
        ensures t in p.Finish(b, s, f).worklist || Repeats(p, b, t, s, f)
      {
        SendWakes(p, b, s, 0, f, t);
      }
      forall t | t in p.Finish(b, s, f).worklist && t !in f.worklist
        ensures t in p.g.Succs(b) && !p.g.Term(t).Unreachable?
        ensures Edge(b, t) in f.states ==>
                  || !p.dom.equivalent(f.states[Edge(b, t)], p.Sent(b, t, s))
                  || !p.dom.equivalent(p.Sent(b, t, s), p.Sent(b, t, s))
      {
        SendQueuesTargets(p, b, s, 0, f, t);
        SendQueuesChanged(p, b, s, 0, f, t);
      }
    }
  }

  /** What handling a terminator stores and queues. */
  lemma FinishMeans<S(!new)>(p: Problem<S>, b: Block, s: S, f: Flow<S>)
    requires p.g.WellFormed() && p.g.Has(b)
    ensures var r := p.Finish(b, s, f);
            && r.exits == (if p.g.Succs(b) == [] then f.exits[b := s] else f.exits)
            && (forall e: Edge ::
                  if e.start == b && e.end in p.g.Succs(b) && !p.g.Term(e.end).Unreachable?
                  then e in r.states && r.states[e] == match p.g.Term(b)
                                                       case Branch(yes, _) => p.refineBool(b, yes == e.end, s)
                                                       case _ => s
                  else (e in r.states <==> e in f.states) && (e in r.states ==> r.states[e] == f.states[e]))
            && (exists news: seq<Block> :: r.worklist == f.worklist + news && Within(news, p.g.Succs(b)))
  {
    FinishStores(p, b, s, f);
    if p.g.Succs(b) != [] {
      var news := SendQueuesInOrder(p, b, s, 0, f);
      assert p.g.Succs(b)[0..] == p.g.Succs(b);
      assert p.Finish(b, s, f).worklist == f.worklist + news && Within(news, p.g.Succs(b));
    } else {
      assert p.Finish(b, s, f).worklist == f.worklist + [] && Within([], p.g.Succs(b));
    }
    var r := p.Finish(b, s, f);
    forall e: Edge
      ensures if e.start == b && e.end in p.g.Succs(b) && !p.g.Term(e.end).Unreachable?
              then e in r.states && r.states[e] == p.Sent(b, e.end, s)
              else (e in r.states <==> e in f.states) && (e in r.states ==> r.states[e] == f.states[e])
    {
      assert e == Edge(e.start, e.end);
    }
  }

  lemma {:induction false} ReadyDoesNotWait<S(!new)>(p: Problem<S>, states: map<Edge, S>, w: seq<Block>)
    requires p.g.WellFormed() && forall b :: b in w ==> p.g.Has(b)
    ensures var k := p.FirstReady(states, w);
            && (k < |w| ==> !p.Waits(states, w[k]))
            && (forall j :: 0 <= j < k ==> p.Waits(states, w[j]))
  {
    if w != [] && p.Waits(states, w[0]) {
      ReadyDoesNotWait(p, states, w[1..]);
      var k := p.FirstReady(states, w);
      forall j | 0 <= j < k
        ensures p.Waits(states, w[j])
      {
        if j > 0 {
          assert w[j] == w[1..][j - 1];
        }
      }
    }
  }

  ghost predicate Stopped<S(!new)>(p: Problem<S>, f: Flow<S>) {
    f.worklist == [] && exists done: set<Block> :: Inv(p, f, done)
  }

  /** `b` has a return or resume state that is not bottom. */
  ghost predicate ReturnsFrom<S(!new)>(p: Problem<S>, exits: map<Block, S>, b: Block) {
    b in exits && p.g.Has(b) && !p.g.Term(b).Unreachable? && !p.dom.isBottom(exits[b])
  }

  /** `order` lists, once each, the returning blocks outside `left`. */
  ghost predicate Collected<S(!new)>(
      p: Problem<S>, exits: map<Block, S>, left: set<Block>, order: seq<Block>)
  {
    NoDup(order) && forall b :: b in order <==> b !in left && ReturnsFrom(p, exits, b)
  }

  lemma CollectOne<S(!new)>(
      p: Problem<S>, exits: map<Block, S>, left: set<Block>, order: seq<Block>, b: Block)
    requires Collected(p, exits, left, order) && b in left && ReturnsFrom(p, exits, b)
    ensures Collected(p, exits, left - {b}, order + [b])
    ensures (order + [b])[..|order|] == order
  {
    forall c
      ensures c in order + [b] <==> c !in left - {b} && ReturnsFrom(p, exits, c)
    {
      assert c in order + [b] <==> c in order || c == b;
    }
  }

  ghost function MergeExits<S(!new)>(p: Problem<S>, exits: map<Block, S>, order: seq<Block>): S
    requires forall b :: b in order ==> b in exits
  {
    if order == [] then p.dom.bottom
    else
      var n := |order| - 1;
      var last := p.Returned(order[n], exits[order[n]]);
      if n == 0 then last else p.dom.merge(MergeExits(p, exits, order[..n]), last)
  }
}
