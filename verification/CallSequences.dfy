/**
 What the closed Complete map says about a client of the class: whatever public
 methods it calls on a fresh object, in whatever order and along whatever paths,
 each call starts in a state that was analysed.

 The runs of the analysis are not assumed monotone; only the behaviour that
 they cover is.
 */
module CallSequences {
  import opened SharedStates
  import opened Closure

  /** One call: the method and how its execution goes. */
  datatype Call<M, C> = Call(m: M, how: C)

  /** What an execution of a method computes, and which executions are meant. */
  datatype Behaviour<!M(!new), !C(!new), !S(!new)> = Behaviour(
    happens: (M, C) -> bool,
    effect: (M, C, S) -> S
  )

  /** From each state taken, some run of the analysis is above every execution. */
  ghost predicate RunsCover<M(!new), C(!new), S(!new)>(
      prog: Program<M, S>, b: Behaviour<M, C, S>, complete: map<M, seq<S>>)
  {
    forall m, c, s {:trigger b.effect(m, c, s)} ::
      m in prog.methods && s in At(complete, m) && b.happens(m, c) && !prog.dom.isBottom(b.effect(m, c, s)) ==>
        exists r: nat :: r < prog.runs(m) && prog.dom.leq(b.effect(m, c, s), prog.result(m, r, s))
  }

  ghost predicate EffectIsMonotone<M(!new), C(!new), S(!new)>(prog: Program<M, S>, b: Behaviour<M, C, S>) {
    forall m, c, s, t {:trigger b.effect(m, c, s), b.effect(m, c, t)} ::
      m in prog.methods && b.happens(m, c) && prog.dom.leq(s, t) ==>
        prog.dom.leq(b.effect(m, c, s), b.effect(m, c, t))
  }

  /** Restricting a result to `this` and renaming `this` are monotone. */
  ghost predicate HandoverIsMonotone<M(!new), S(!new)>(prog: Program<M, S>) {
    && (forall m, s, t {:trigger prog.final(m, s), prog.final(m, t)} ::
          prog.dom.leq(s, t) ==> prog.dom.leq(prog.final(m, s), prog.final(m, t)))
    && (forall m, s, t {:trigger prog.changeThis(m, s), prog.changeThis(m, t)} ::
          prog.dom.leq(s, t) ==> prog.dom.leq(prog.changeThis(m, s), prog.changeThis(m, t)))
  }

  /** The state in which `next` starts after `calls` on a fresh object. */
  ghost function Reached<M(!new), C(!new), S(!new)>(
      prog: Program<M, S>, b: Behaviour<M, C, S>, calls: seq<Call<M, C>>, next: M): S
    decreases |calls|, 1
  {
    if calls == [] then prog.seed(next)
    else prog.changeThis(next, prog.final(calls[|calls| - 1].m, Effect(prog, b, calls)))
  }

  /** The effect of the last call. */
  ghost function Effect<M(!new), C(!new), S(!new)>(
      prog: Program<M, S>, b: Behaviour<M, C, S>, calls: seq<Call<M, C>>): S
    requires calls != []
    decreases |calls|, 0
  {
    var n := |calls| - 1;
    b.effect(calls[n].m, calls[n].how, Reached(prog, b, calls[..n], calls[n].m))
  }

  /** Every call is one of the executions meant and comes back. */
  ghost predicate Returns<M(!new), C(!new), S(!new)>(
      prog: Program<M, S>, b: Behaviour<M, C, S>, calls: seq<Call<M, C>>)
  {
    calls != [] ==>
      var n := |calls| - 1;
      && calls[n].m in prog.methods
      && b.happens(calls[n].m, calls[n].how)
      && Returns(prog, b, calls[..n])
      && !prog.dom.isBottom(Effect(prog, b, calls))
  }

  /** One call from a covered state leads to covered states only. */
  lemma CallIsCovered<M(!new), C(!new), S(!new)>(
      prog: Program<M, S>, b: Behaviour<M, C, S>, complete: map<M, seq<S>>,
      m: M, c: C, s: S, next: M)
    requires prog.Valid() && Closed(prog, complete)
    requires RunsCover(prog, b, complete) && EffectIsMonotone(prog, b) && HandoverIsMonotone(prog)
    requires m in prog.methods && next in prog.methods && b.happens(m, c)
    requires Subsumed(prog.dom, s, At(complete, m)) && !prog.dom.isBottom(b.effect(m, c, s))
    ensures Subsumed(prog.dom, prog.changeThis(next, prog.final(m, b.effect(m, c, s))), At(complete, next))
  {
    var i :| 0 <= i < |At(complete, m)| && prog.dom.leq(s, At(complete, m)[i]);
    var t := At(complete, m)[i];
    assert t in At(complete, m);
    var x, y := b.effect(m, c, s), b.effect(m, c, t);
    assert prog.dom.leq(x, y) && !prog.dom.isBottom(y);
    var r: nat :| r < prog.runs(m) && prog.dom.leq(y, prog.result(m, r, t));
    var z := prog.result(m, r, t);
    assert prog.dom.leq(x, z);
    assert prog.dom.leq(prog.final(m, x), prog.final(m, z));
    assert prog.dom.leq(prog.changeThis(next, prog.final(m, x)), prog.Offer(m, r, t, next));
    var j :| 0 <= j < |At(complete, next)| && prog.dom.leq(prog.Offer(m, r, t, next), At(complete, next)[j]);
    assert prog.dom.leq(prog.changeThis(next, prog.final(m, x)), At(complete, next)[j]);
  }

  /** Call-sequence soundness, over a closed Complete map. */
  lemma {:induction false} SequenceIsCovered<M(!new), C(!new), S(!new)>(
      prog: Program<M, S>, b: Behaviour<M, C, S>, complete: map<M, seq<S>>,
      calls: seq<Call<M, C>>, next: M)
    requires prog.Valid() && Closed(prog, complete)
    requires RunsCover(prog, b, complete) && EffectIsMonotone(prog, b) && HandoverIsMonotone(prog)
    requires Returns(prog, b, calls) && next in prog.methods
    ensures Subsumed(prog.dom, Reached(prog, b, calls, next), At(complete, next))
  {
    if calls == [] {
      var i :| 0 <= i < |At(complete, next)| && At(complete, next)[i] == prog.seed(next);
      assert prog.dom.leq(prog.seed(next), At(complete, next)[i]);
    } else {
      var n := |calls| - 1;
      var m, c := calls[n].m, calls[n].how;
      SequenceIsCovered(prog, b, complete, calls[..n], m);
      CallIsCovered(prog, b, complete, m, c, Reached(prog, b, calls[..n], m), next);
    }
  }

  /** Call-sequence soundness of the driver: at exit, in every interleaving. */
  lemma ExitCoversSequences<M(!new), C(!new), S(!new)>(
      prog: Program<M, S>, b: Behaviour<M, C, S>, xs: seq<System<M, S>>,
      calls: seq<Call<M, C>>, next: M)
    requires prog.Valid() && IsTrace(prog, xs) && xs[|xs| - 1].driver.Exited?
    requires RunsCover(prog, b, xs[|xs| - 1].shared.complete) && EffectIsMonotone(prog, b) && HandoverIsMonotone(prog)
    requires Returns(prog, b, calls) && next in prog.methods
    ensures Subsumed(prog.dom, Reached(prog, b, calls, next), At(xs[|xs| - 1].shared.complete, next))
  {
    ExitIsQuiescent(prog, xs);
    SequenceIsCovered(prog, b, xs[|xs| - 1].shared.complete, calls, next);
  }
}
