/**
 The per-function solver as functions on values: what a block receives from
 the edge states, what it sends to them, and what one round of the worklist
 does. `Solver.FunctionAnalysis` runs these step by step.
 */
module SolverSpec {
  import opened Wrappers
  import opened AbstractDomain
  import opened ControlFlow

  /** The mutable containers of a FunctionAnalysis. */
  datatype Flow<S> = Flow(worklist: seq<Block>, states: map<Edge, S>, exits: map<Block, S>)

  /** One function to analyse, its transfer functions, and the run's fixed inputs. */
  datatype Problem<!S(!new)> = Problem(
    g: Cfg,
    dom: Domain<S>,
    initial: S,
    ignored: Option<Edge>,
    visit: (Block, nat, S) -> S,             // one ordinary instruction or call
    phi: (Block, nat, set<Block>, S) -> S,   // one PHI node, given the live predecessors
    refineBool: (Block, bool, S) -> S,       // the branch condition assumed true or false
    isVoid: bool,
    addReturn: (Block, S) -> S
  ) {

    /** All that is asked of `visit`, which may analyse a whole function. */
    ghost predicate VisitIsCongruent() {
      forall b, i, x, y ::
        !dom.isBottom(x) && dom.Same(x, y) ==> dom.Same(visit(b, i, x), visit(b, i, y))
    }

    ghost predicate RestIsMonotone() {
      && (forall b, i, l, m, x, y ::
            l != {} && l <= m && !dom.isBottom(x) && dom.leq(x, y) ==>
              dom.leq(phi(b, i, l, x), phi(b, i, m, y)))
      && (forall b, v, x, y ::
            dom.leq(x, y) ==> dom.leq(refineBool(b, v, x), refineBool(b, v, y)))
      && (forall b, x, y ::
            !dom.isBottom(x) && dom.leq(x, y) ==> dom.leq(addReturn(b, x), addReturn(b, y)))
    }

    ghost predicate RefineIsStrict() {
      forall b, v, x :: dom.isBottom(x) ==> dom.isBottom(refineBool(b, v, x))
    }

    ghost predicate Valid() {
      && g.WellFormed()
      && dom.Valid()
      && VisitIsCongruent()
      && RestIsMonotone()
      && RefineIsStrict()
    }

    // ---- what a block receives ----

    function PredOrInitial(states: map<Edge, S>, e: Edge): S {
      if e in states then states[e] else initial
    }

    /** Some predecessor that counts has no state yet. */
    ghost predicate Waits(states: map<Edge, S>, b: Block)
      requires g.WellFormed() && g.Has(b)
    {
      exists q :: q in g.preds[b] && ignored != Some(Edge(q, b)) && Edge(q, b) !in states
    }

    ghost predicate AllBottomOrNull(states: map<Edge, S>, b: Block)
      requires g.WellFormed() && g.Has(b)
    {
      forall q :: q in g.preds[b] && ignored != Some(Edge(q, b)) && Edge(q, b) in states ==>
        dom.isBottom(states[Edge(q, b)])
    }

    /** Merge of the predecessor states from position `i` on, added to `acc`. */
    ghost function MergeFrom(states: map<Edge, S>, b: Block, i: nat, acc: Option<S>): Option<S>
      requires g.WellFormed() && g.Has(b) && i <= |g.preds[b]|
      decreases |g.preds[b]| - i
    {
      if i == |g.preds[b]| then acc
      else
        var e := Edge(g.preds[b][i], b);
        var s := PredOrInitial(states, e);
        if ignored == Some(e) || dom.isBottom(s) then MergeFrom(states, b, i + 1, acc)
        else if acc.None? then MergeFrom(states, b, i + 1, Some(s))
        else MergeFrom(states, b, i + 1, Some(dom.merge(acc.value, s)))
    }

    /** The state a block starts from, as one function of the edge states. */
    ghost function Input(states: map<Edge, S>, b: Block): S
      requires g.WellFormed() && g.Has(b)
    {
      if g.preds[b] == [] then initial
      else if AllBottomOrNull(states, b) then dom.bottom
      else
        var r := MergeFrom(states, b, 0, None);
        if r.None? then dom.bottom else r.value
    }

    /** The incoming edges a PHI node reads; the ignored edge is among them. */
    ghost function Live(states: map<Edge, S>, b: Block): set<Block>
      requires g.WellFormed() && g.Has(b)
    {
      set q | q in g.preds[b] && !dom.isBottom(PredOrInitial(states, Edge(q, b)))
    }

    // ---- what a block does ----

    function StepInst(b: Block, i: nat, live: set<Block>, s: S): S
      requires g.Has(b) && i < |g.Insts(b)|
    {
      if dom.isBottom(s) then s
      else match g.Insts(b)[i]
        case Phi => phi(b, i, live, s)
        case LandingPad => dom.markBottom(s)
        case Visit => visit(b, i, s)
    }

    /** The state after the first `n` instructions of `b`. */
    ghost function Exec(b: Block, n: nat, live: set<Block>, s: S): S
      requires g.Has(b) && n <= |g.Insts(b)|
    {
      if n == 0 then s else StepInst(b, n - 1, live, Exec(b, n - 1, live, s))
    }

    /** What instruction `n` of `b` starts from when the edges hold `states`. */
    ghost function Before(states: map<Edge, S>, b: Block, n: nat): S
      requires g.WellFormed() && g.Has(b) && n <= |g.Insts(b)|
    {
      Exec(b, n, Live(states, b), Input(states, b))
    }

    ghost function Output(states: map<Edge, S>, b: Block): S
      requires g.WellFormed() && g.Has(b)
    {
      Before(states, b, |g.Insts(b)|)
    }

    /** getCurrentState: the state sent along the edge from `b` to `t`. */
    function Sent(b: Block, t: Block, s: S): S
      requires g.Has(b)
    {
      match g.Term(b)
      case Branch(onTrue, _) => refineBool(b, onTrue == t, s)
      case _ => s
    }

    // ---- what one round does to the containers ----

    /** The successors of `b` from position `i` on receive `s`. */
    ghost function Send(b: Block, s: S, i: nat, f: Flow<S>): Flow<S>
      requires g.WellFormed() && g.Has(b) && i <= |g.Succs(b)|
      decreases |g.Succs(b)| - i
    {
      if i == |g.Succs(b)| then f else Send(b, s, i + 1, SendTo(b, s, i, f))
    }

    /** Successor `i`, which is passed over if it ends in unreachable. */
    ghost function SendTo(b: Block, s: S, i: nat, f: Flow<S>): Flow<S>
      requires g.WellFormed() && g.Has(b) && i < |g.Succs(b)|
    {
      var t := g.Succs(b)[i];
      if g.Term(t).Unreachable? then f else SendOne(b, t, Sent(b, t, s), f)
    }

    ghost function SendOne(b: Block, t: Block, s: S, f: Flow<S>): Flow<S> {
      var e := Edge(b, t);
      var same := e in f.states && dom.equivalent(f.states[e], s);
      Flow(if same then f.worklist else Enqueue(f.worklist, t), f.states[e := s], f.exits)
    }

    ghost function Finish(b: Block, s: S, f: Flow<S>): Flow<S>
      requires g.WellFormed() && g.Has(b)
    {
      if g.Succs(b) == [] then f.(exits := f.exits[b := s]) else Send(b, s, 0, f)
    }

    /** How many queued blocks wait before the first one that does not. */
    ghost function FirstReady(states: map<Edge, S>, w: seq<Block>): nat
      requires g.WellFormed() && forall b :: b in w ==> g.Has(b)
      ensures FirstReady(states, w) <= |w|
    {
      if w == [] || !Waits(states, w[0]) then 0 else 1 + FirstReady(states, w[1..])
    }

    /** The block taken next: the first that does not wait, else the front. */
    ghost function Chosen(f: Flow<S>): nat
      requires g.WellFormed() && f.worklist != [] && forall b :: b in f.worklist ==> g.Has(b)
      ensures Chosen(f) < |f.worklist|
    {
      var k := FirstReady(f.states, f.worklist);
      if k == |f.worklist| then 0 else k
    }

    ghost function Round(f: Flow<S>): Flow<S>
      requires g.WellFormed() && f.worklist != [] && forall b :: b in f.worklist ==> g.Has(b)
    {
      var k := Chosen(f);
      var b := f.worklist[k];
      Finish(b, Output(f.states, b),
             f.(worklist := Rotated(f.worklist, k)))
    }

    ghost function Start(): Flow<S> {
      Flow([ENTRY], map[], map[])
    }

    /** The state a function hands back from exit block `b`. */
    function Returned(b: Block, s: S): S {
      if isVoid then s else addReturn(b, s)
    }
  }

  /** addToWorklist: at the back, unless already queued. */
  function Enqueue(w: seq<Block>, b: Block): seq<Block> {
    if b in w then w else w + [b]
  }
}
