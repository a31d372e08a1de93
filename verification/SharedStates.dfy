/**
 The two mutex-guarded maps of initial states, and the sections of code that
 run while the mutex is held.
 */
module SharedStates {
  import opened Collections
  import opened AbstractDomain

  /** A class under analysis: its public const methods and what the analysis of
      one method computes. */
  datatype Program<!M(!new, ==), !S(!new)> = Program(
    methods: set<M>,
    dom: Domain<S>,
    seed: M -> S,                // createEmptyExceptThis
    runs: M -> nat,              // one run, or one for each ignored edge
    result: (M, nat, S) -> S,    // FunctionAnalysis::getResult of one run
    final: (M, S) -> S,          // what runMethod does to a result: marking, removeAllExcept, fixupThis
    changeThis: (M, S) -> S
  ) {
    ghost predicate Valid() {
      dom.Valid() && forall m :: m in methods ==> 1 <= runs(m) <= 2
    }

    /** The state offered to `n` after run `r` of `m` from `s`. */
    function Offer(m: M, r: nat, s: S, n: M): S {
      changeThis(n, final(m, result(m, r, s)))
    }
  }

  /** The two maps, with the order in which states entered each (history only). */
  datatype Shared<M(==), S> = Shared(
    incomplete: map<M, seq<S>>,
    complete: map<M, seq<S>>,
    pushed: seq<(M, S)>,
    taken: seq<(M, S)>
  )

  /** DenseMap::operator[] on a key that may be absent. */
  function At<M, S>(states: map<M, seq<S>>, m: M): seq<S> {
    if m in states then states[m] else []
  }

  function Touch<M, S>(states: map<M, seq<S>>, m: M): map<M, seq<S>> {
    states[m := At(states, m)]
  }

  /** hasEquivalentInitialState: despite its name it asks for `moreSpecific`. */
  ghost predicate Subsumed<S(!new)>(d: Domain<S>, s: S, states: seq<S>) {
    exists i :: 0 <= i < |states| && d.leq(s, states[i])
  }

  ghost predicate Known<M(!new), S(!new)>(d: Domain<S>, sh: Shared<M, S>, m: M, s: S) {
    Subsumed(d, s, At(sh.complete, m)) || Subsumed(d, s, At(sh.incomplete, m))
  }

  // ---- the locked sections as relations ----

  /** Offering `s` to one method. */
  ghost function OfferTo<M(!new), S(!new)>(
      d: Domain<S>, m: M, s: S, sh: Shared<M, S>): Shared<M, S>
  {
    var x := sh.(complete := Touch(sh.complete, m));
    if Subsumed(d, s, At(x.complete, m)) then x
    else
      var y := x.(incomplete := Touch(x.incomplete, m));
      if Subsumed(d, s, At(y.incomplete, m)) then y
      else y.(incomplete := y.incomplete[m := At(y.incomplete, m) + [s]], pushed := y.pushed + [(m, s)])
  }

  /** Offering `fs` to the methods of `order`, one after the other. */
  ghost function OfferAll<M(!new), S(!new)>(
      prog: Program<M, S>, order: seq<M>, fs: S, sh: Shared<M, S>): Shared<M, S>
  {
    if order == [] then sh
    else
      var n := |order| - 1;
      OfferTo(prog.dom, order[n], prog.changeThis(order[n], fs), OfferAll(prog, order[..n], fs, sh))
  }

  ghost predicate Lists<M(!new)>(order: seq<M>, s: set<M>) {
    NoDup(order) && forall m :: m in order <==> m in s
  }

  /** The critical section of handleFinalState; the set is iterated in any order. */
  ghost predicate Publishes<M(!new), S(!new)>(
      prog: Program<M, S>, fs: S, sh: Shared<M, S>, sh': Shared<M, S>)
  {
    exists order: seq<M> :: Lists(order, prog.methods) && sh' == OfferAll(prog, order, fs, sh)
  }

  /** Moving the last waiting state of `m` from Incomplete to Complete. */
  ghost function TakeFrom<M(!new), S(!new)>(m: M, sh: Shared<M, S>): Shared<M, S>
    requires m in sh.incomplete && sh.incomplete[m] != []
  {
    var w := sh.incomplete[m];
    var s := w[|w| - 1];
    Shared(sh.incomplete[m := w[..|w| - 1]], sh.complete[m := At(sh.complete, m) + [s]],
           sh.pushed, sh.taken + [(m, s)])
  }

  ghost function EraseFrom<M(!new), S(!new)>(m: M, sh: Shared<M, S>): Shared<M, S> {
    sh.(incomplete := sh.incomplete - {m})
  }

  ghost function SeedOne<M(!new), S(!new)>(m: M, s: S, sh: Shared<M, S>): Shared<M, S> {
    sh.(incomplete := sh.incomplete[m := At(sh.incomplete, m) + [s]], pushed := sh.pushed + [(m, s)])
  }

  ghost function SeedAll<M(!new), S(!new)>(prog: Program<M, S>, order: seq<M>): Shared<M, S> {
    if order == [] then Shared(map[], map[], [], [])
    else
      var n := |order| - 1;
      SeedOne(order[n], prog.seed(order[n]), SeedAll(prog, order[..n]))
  }

  ghost predicate Seeded<M(!new), S(!new)>(prog: Program<M, S>, sh: Shared<M, S>) {
    exists order: seq<M> :: Lists(order, prog.methods) && sh == SeedAll(prog, order)
  }

  // ---- the same sections, updating the maps in place ----

  /** What one task found when it looked into the Incomplete map. */
  datatype Found<M, S> = Nothing | EmptyEntry(m: M) | State(m: M, s: S)

  class InitialStates<M(!new, ==), S(!new)> {
    const prog: Program<M, S>
    var incomplete: map<M, seq<S>>
    var complete: map<M, seq<S>>
    ghost var pushed: seq<(M, S)>
    ghost var taken: seq<(M, S)>

    ghost function Maps(): Shared<M, S>
      reads this
    {
      Shared(incomplete, complete, pushed, taken)
    }

    /** The seeding loop of analyzeMethods, after both maps were cleared. */
    constructor (program: Program<M, S>)
      ensures prog == program && Seeded(prog, Maps())
    {
      prog := program;
      incomplete, complete, pushed, taken := map[], map[], [], [];
      new;
      var left := prog.methods;
      ghost var order: seq<M> := [];
      while left != {}
        invariant left <= prog.methods && Lists(order, prog.methods - left)
        invariant Maps() == SeedAll(prog, order)
      {
        var m :| m in left;
        var s := prog.seed(m);
        incomplete := incomplete[m := At(incomplete, m) + [s]];
        pushed := pushed + [(m, s)];
        ListsOneMore(order, prog.methods, left, m);
        SeedAllMore(prog, order, m);
        order := order + [m];
        left := left - {m};
      }
      assert prog.methods - left == prog.methods;
    }

    method HasEquivalentInitialState(s: S, states: seq<S>) returns (has: bool)
      ensures has == Subsumed(prog.dom, s, states)
      ensures has <==> exists i :: 0 <= i < |states| && prog.dom.leq(s, states[i])
    {
      for i := 0 to |states|
        invariant forall j :: 0 <= j < i ==> !prog.dom.leq(s, states[j])
      {
        if prog.dom.leq(s, states[i]) {
          return true;
        }
      }
      return false;
    }

    method OfferOne(m: M, s: S)
      modifies this`incomplete, this`complete, this`pushed
      ensures Maps() == OfferTo(prog.dom, m, s, old(Maps()))
      ensures forall n :: n != m ==>
                && (n in incomplete <==> n in old(incomplete)) && (n in incomplete ==> incomplete[n] == old(incomplete)[n])
                && (n in complete <==> n in old(complete)) && (n in complete ==> complete[n] == old(complete)[n])
      ensures m in complete && complete[m] == if m in old(complete) then old(complete)[m] else []
      ensures (exists i :: 0 <= i < |complete[m]| && prog.dom.leq(s, complete[m][i])) ==>
                incomplete == old(incomplete) && pushed == old(pushed)
      ensures !(exists i :: 0 <= i < |complete[m]| && prog.dom.leq(s, complete[m][i])) ==>
                var w := if m in old(incomplete) then old(incomplete)[m] else [];
                && m in incomplete
                && (if exists i :: 0 <= i < |w| && prog.dom.leq(s, w[i])
                    then incomplete[m] == w && pushed == old(pushed)
                    else incomplete[m] == w + [s] && pushed == old(pushed) + [(m, s)])
    {
      complete := Touch(complete, m);
      var known := HasEquivalentInitialState(s, complete[m]);
      if known {
        return;
      }
      incomplete := Touch(incomplete, m);
      known := HasEquivalentInitialState(s, incomplete[m]);
      if known {
        return;
      }
      incomplete := incomplete[m := incomplete[m] + [s]];
      pushed := pushed + [(m, s)];
    }

    method HandleFinalState(fs: S)
      modifies this`incomplete, this`complete, this`pushed
      ensures Publishes(prog, fs, old(Maps()), Maps())
    {
      var left := prog.methods;
      ghost var order: seq<M> := [];
      while left != {}
        invariant left <= prog.methods && Lists(order, prog.methods - left)
        invariant Maps() == OfferAll(prog, order, fs, old(Maps()))
      {
        var m :| m in left;
        OfferOne(m, prog.changeThis(m, fs));
        ListsOneMore(order, prog.methods, left, m);
        OfferAllMore(prog, order, m, fs, old(Maps()));
        order := order + [m];
        left := left - {m};
      }
      assert prog.methods - left == prog.methods;
    }

    /** The first half of iteration, under the mutex. */
    method TakeInitialState() returns (r: Found<M, S>)
      modifies this`incomplete, this`complete, this`taken
      ensures match r
        case Nothing => old(incomplete) == map[] && Maps() == old(Maps())
        case EmptyEntry(m) =>
          && m in old(incomplete) && old(incomplete)[m] == [] && Maps() == EraseFrom(m, old(Maps()))
          && incomplete == old(incomplete) - {m} && complete == old(complete)
        case State(m, s) =>
          && m in old(incomplete) && old(incomplete)[m] != []
          && s == old(incomplete)[m][|old(incomplete)[m]| - 1]
          && Maps() == TakeFrom(m, old(Maps()))
          && incomplete == old(incomplete)[m := old(incomplete)[m][..|old(incomplete)[m]| - 1]]
          && complete == old(complete)[m := (if m in old(complete) then old(complete)[m] else []) + [s]]
    {
      if |incomplete| == 0 {
        return Nothing;
      }
      var m :| m in incomplete.Keys;
      if |incomplete[m]| == 0 {
        incomplete := incomplete - {m};
        return EmptyEntry(m);
      }
      var last := |incomplete[m]| - 1;
      var s := incomplete[m][last];
      incomplete := incomplete[m := incomplete[m][..last]];
      complete := complete[m := At(complete, m) + [s]];
      taken := taken + [(m, s)];
      r := State(m, s);
    }
  }

  /** One more of the methods that are left. */
  lemma ListsOneMore<M(!new)>(order: seq<M>, all: set<M>, left: set<M>, m: M)
    requires Lists(order, all - left) && m in left && left <= all
    ensures Lists(order + [m], all - (left - {m}))
  {
    forall n
      ensures n in order + [m] <==> n in all - (left - {m})
    {
      assert n in order + [m] <==> n in order || n == m;
    }
  }

  lemma SeedAllMore<M(!new), S(!new)>(prog: Program<M, S>, order: seq<M>, m: M)
    ensures SeedAll(prog, order + [m]) == SeedOne(m, prog.seed(m), SeedAll(prog, order))
  {
    assert (order + [m])[..|order|] == order;
  }

  lemma OfferAllMore<M(!new), S(!new)>(
      prog: Program<M, S>, order: seq<M>, m: M, fs: S, sh: Shared<M, S>)
    ensures OfferAll(prog, order + [m], fs, sh)
         == OfferTo(prog.dom, m, prog.changeThis(m, fs), OfferAll(prog, order, fs, sh))
  {
    assert (order + [m])[..|order|] == order;
  }
}
