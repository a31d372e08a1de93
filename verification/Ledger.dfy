/**
 What the two state maps keep, whatever the order of the locked sections: a
 state once known stays known, and a state pushed for a method is never more
 specific than one pushed for it before.
 */
module Ledger {
  import opened Collections
  import opened AbstractDomain
  import opened SharedStates

  /** A later push for the same method is never below an earlier one. */
  ghost predicate NeverBelow<M(!new), S(!new)>(d: Domain<S>, pushed: seq<(M, S)>) {
    forall i, j :: 0 <= i < j < |pushed| && pushed[i].0 == pushed[j].0 ==>
      !d.leq(pushed[j].1, pushed[i].1)
  }

  /** The histories account for the maps: a pushed state is in exactly one of
      them, and Complete holds exactly the taken ones. */
  ghost predicate Balanced<M(!new), S(!new)>(sh: Shared<M, S>) {
    && (forall m, s :: s in At(sh.complete, m) <==> (m, s) in sh.taken)
    && (forall m, s :: (m, s) in sh.pushed <==> (m, s) in sh.taken || s in At(sh.incomplete, m))
    && NoDup(sh.taken)
    && (forall m :: NoDup(At(sh.incomplete, m)))
    && (forall m, s :: s in At(sh.incomplete, m) ==> (m, s) !in sh.taken)
  }

  ghost predicate Kept<M(!new), S(!new)>(prog: Program<M, S>, sh: Shared<M, S>) {
    && (forall m :: m in sh.incomplete || m in sh.complete ==> m in prog.methods)
    && NeverBelow(prog.dom, sh.pushed)
    && Balanced(sh)
  }

  /** Everything known before is known after. */
  ghost predicate Grows<M(!new), S(!new)>(d: Domain<S>, x: Shared<M, S>, y: Shared<M, S>) {
    && (forall m, s :: Known(d, x, m, s) ==> Known(d, y, m, s))
    && x.pushed <= y.pushed
    && x.taken <= y.taken
  }

  lemma SubsumedByOne<S(!new)>(d: Domain<S>, s: S, states: seq<S>)
    requires d.Valid() && s in states
    ensures Subsumed(d, s, states)
  {
    var i :| 0 <= i < |states| && states[i] == s;
    assert d.leq(s, states[i]);
  }

  /** The states of `m` in either map. */
  ghost predicate Holds<M(!new), S(!new)>(sh: Shared<M, S>, m: M, s: S) {
    s in At(sh.complete, m) || s in At(sh.incomplete, m)
  }

  lemma KnownIsBelowSome<M(!new), S(!new)>(d: Domain<S>, sh: Shared<M, S>, m: M, s: S)
    ensures Known(d, sh, m, s) <==> exists t :: Holds(sh, m, t) && d.leq(s, t)
  {
    if t :| Holds(sh, m, t) && d.leq(s, t) {
      if t in At(sh.complete, m) {
        var i :| 0 <= i < |At(sh.complete, m)| && At(sh.complete, m)[i] == t;
      } else {
        var i :| 0 <= i < |At(sh.incomplete, m)| && At(sh.incomplete, m)[i] == t;
      }
    }
    if Subsumed(d, s, At(sh.complete, m)) {
      var i :| 0 <= i < |At(sh.complete, m)| && d.leq(s, At(sh.complete, m)[i]);
      assert Holds(sh, m, At(sh.complete, m)[i]);
    }
    if Subsumed(d, s, At(sh.incomplete, m)) {
      var i :| 0 <= i < |At(sh.incomplete, m)| && d.leq(s, At(sh.incomplete, m)[i]);
      assert Holds(sh, m, At(sh.incomplete, m)[i]);
    }
  }

  lemma HoldingMoreGrows<M(!new), S(!new)>(d: Domain<S>, x: Shared<M, S>, y: Shared<M, S>)
    requires d.Valid() && x.pushed <= y.pushed && x.taken <= y.taken
    requires forall m, s :: Holds(x, m, s) ==> Holds(y, m, s)
    ensures Grows(d, x, y)
  {
    forall m, s | Known(d, x, m, s)
      ensures Known(d, y, m, s)
    {
      KnownIsBelowSome(d, x, m, s);
      KnownIsBelowSome(d, y, m, s);
    }
  }

  // ---- publishing ----

  lemma OfferToHolds<M(!new), S(!new)>(prog: Program<M, S>, m: M, s: S, x: Shared<M, S>)
    requires prog.Valid()
    ensures var y := OfferTo(prog.dom, m, s, x);
            && Known(prog.dom, y, m, s)
            && Grows(prog.dom, x, y)
            && y.taken == x.taken
            && (forall n :: At(y.complete, n) == At(x.complete, n))
  {
    var y := OfferTo(prog.dom, m, s, x);
    if !Known(prog.dom, x, m, s) {
      assert At(y.incomplete, m) == At(x.incomplete, m) + [s];
      SubsumedByOne(prog.dom, s, At(y.incomplete, m));
    }
    forall n, t | Holds(x, n, t)
      ensures Holds(y, n, t)
    {
    }
    HoldingMoreGrows(prog.dom, x, y);
  }

  lemma PushKeepsOrder<M(!new), S(!new)>(prog: Program<M, S>, m: M, s: S, x: Shared<M, S>)
    requires prog.Valid() && Kept(prog, x) && !Known(prog.dom, x, m, s)
    ensures NeverBelow(prog.dom, x.pushed + [(m, s)])
    ensures (m, s) !in x.pushed
  {
    forall i | 0 <= i < |x.pushed| && x.pushed[i].0 == m
      ensures !prog.dom.leq(s, x.pushed[i].1)
    {
      var t := x.pushed[i].1;
      assert (m, t) in x.pushed;
      assert Holds(x, m, t);
      KnownIsBelowSome(prog.dom, x, m, s);
    }
    assert prog.dom.leq(s, s);
  }

  lemma OfferToKeeps<M(!new), S(!new)>(prog: Program<M, S>, m: M, s: S, x: Shared<M, S>)
    requires prog.Valid() && Kept(prog, x) && m in prog.methods
    ensures Kept(prog, OfferTo(prog.dom, m, s, x))
  {
    var y := OfferTo(prog.dom, m, s, x);
    if Known(prog.dom, x, m, s) {
      assert y.pushed == x.pushed && y.taken == x.taken;
      assert forall n :: At(y.incomplete, n) == At(x.incomplete, n) && At(y.complete, n) == At(x.complete, n);
    } else {
      PushKeepsOrder(prog, m, s, x);
      PushKeepsBalance(m, s, x, y);
    }
  }

  lemma PushKeepsBalance<M(!new), S(!new)>(m: M, s: S, x: Shared<M, S>, y: Shared<M, S>)
    requires Balanced(x) && (m, s) !in x.pushed
    requires y.pushed == x.pushed + [(m, s)] && y.taken == x.taken
    requires forall n :: At(y.complete, n) == At(x.complete, n)
    requires forall n :: At(y.incomplete, n) == At(x.incomplete, n) + if n == m then [s] else []
    ensures Balanced(y)
  {
    forall n, t
      ensures (n, t) in y.pushed <==> (n, t) in y.taken || t in At(y.incomplete, n)
      ensures t in At(y.incomplete, n) ==> (n, t) !in y.taken
    {
      assert (n, t) in y.pushed <==> (n, t) in x.pushed || (n, t) == (m, s);
      assert t in At(y.incomplete, n) <==> t in At(x.incomplete, n) || (n, t) == (m, s);
    }
    forall n
      ensures NoDup(At(y.incomplete, n))
    {
      if n == m {
        assert s !in At(x.incomplete, n);
      }
    }
  }

  /** From `x` to `y`, the methods of `order` were offered the final state. */
  ghost predicate Offered<M(!new), S(!new)>(
      prog: Program<M, S>, order: seq<M>, fs: S, x: Shared<M, S>, y: Shared<M, S>)
  {
    && Grows(prog.dom, x, y)
    && y.taken == x.taken
    && (forall m :: At(y.complete, m) == At(x.complete, m))
    && (forall m :: m in order ==> Known(prog.dom, y, m, prog.changeThis(m, fs)))
  }

  lemma OfferOneMore<M(!new), S(!new)>(
      prog: Program<M, S>, order: seq<M>, fs: S, x: Shared<M, S>, y: Shared<M, S>, z: Shared<M, S>)
    requires order != []
    requires var n := |order| - 1;
             && Offered(prog, order[..n], fs, x, y)
             && Offered(prog, [order[n]], fs, y, z)
    ensures Offered(prog, order, fs, x, z)
  {
    var n := |order| - 1;
    assert order == order[..n] + [order[n]];
    assert forall m :: m in order ==> m in order[..n] || m in [order[n]];
  }

  lemma {:induction false} OfferAllKeeps<M(!new), S(!new)>(
      prog: Program<M, S>, order: seq<M>, fs: S, x: Shared<M, S>)
    requires prog.Valid() && Kept(prog, x) && forall m :: m in order ==> m in prog.methods
    ensures Kept(prog, OfferAll(prog, order, fs, x)) && Offered(prog, order, fs, x, OfferAll(prog, order, fs, x))
  {
    if order != [] {
      var n := |order| - 1;
      var m := order[n];
      assert m in order;
      OfferAllKeeps(prog, order[..n], fs, x);
      var y := OfferAll(prog, order[..n], fs, x);
      OfferToHolds(prog, m, prog.changeThis(m, fs), y);
      OfferToKeeps(prog, m, prog.changeThis(m, fs), y);
      OfferOneMore(prog, order, fs, x, y, OfferAll(prog, order, fs, x));
    }
  }

  /** The critical section of handleFinalState: afterwards every method knows
      its version of the final state, and nothing known is lost. */
  lemma PublishKeeps<M(!new), S(!new)>(prog: Program<M, S>, fs: S, x: Shared<M, S>, y: Shared<M, S>)
    requires prog.Valid() && Kept(prog, x) && Publishes(prog, fs, x, y)
    ensures Kept(prog, y) && Grows(prog.dom, x, y)
    ensures y.taken == x.taken && forall m :: At(y.complete, m) == At(x.complete, m)
    ensures forall m :: m in prog.methods ==> Known(prog.dom, y, m, prog.changeThis(m, fs))
  {
    var order: seq<M> :| Lists(order, prog.methods) && y == OfferAll(prog, order, fs, x);
    OfferAllKeeps(prog, order, fs, x);
  }

  /** What `n` has waiting after `m` was offered `s`. */
  lemma OfferToAdds<M(!new), S(!new)>(d: Domain<S>, m: M, s: S, x: Shared<M, S>, n: M)
    ensures var y := OfferTo(d, m, s, x);
            && At(y.complete, n) == At(x.complete, n)
            && At(y.incomplete, n)
               == if n == m && !Known(d, x, m, s) then At(x.incomplete, n) + [s] else At(x.incomplete, n)
  {
  }

  lemma {:induction false} OfferAllAdds<M(!new), S(!new)>(
      prog: Program<M, S>, order: seq<M>, fs: S, x: Shared<M, S>, n: M)
    requires NoDup(order)
    ensures var y := OfferAll(prog, order, fs, x);
            && At(y.complete, n) == At(x.complete, n)
            && At(y.incomplete, n)
               == if n in order && !Known(prog.dom, x, n, prog.changeThis(n, fs))
                  then At(x.incomplete, n) + [prog.changeThis(n, fs)] else At(x.incomplete, n)
  {
    if order != [] {
      var k := |order| - 1;
      LastIsOnce(order);
      assert n in order <==> n in order[..k] || n == order[k];
      OfferAllAdds(prog, order[..k], fs, x, n);
      OfferToAdds(prog.dom, order[k], prog.changeThis(order[k], fs), OfferAll(prog, order[..k], fs, x), n);
    }
  }

  /** Publishing adds, for each method, its version of the final state at the back of
      what is waiting, unless it was known; and nothing else. */
  lemma PublishAdds<M(!new), S(!new)>(prog: Program<M, S>, fs: S, x: Shared<M, S>, y: Shared<M, S>, n: M)
    requires Publishes(prog, fs, x, y)
    ensures At(y.complete, n) == At(x.complete, n)
    ensures var s := prog.changeThis(n, fs);
            At(y.incomplete, n)
            == if n in prog.methods
                  && !(exists t :: (t in At(x.complete, n) || t in At(x.incomplete, n)) && prog.dom.leq(s, t))
               then At(x.incomplete, n) + [s] else At(x.incomplete, n)
  {
    var order: seq<M> :| Lists(order, prog.methods) && y == OfferAll(prog, order, fs, x);
    OfferAllAdds(prog, order, fs, x, n);
    KnownIsBelowSome(prog.dom, x, n, prog.changeThis(n, fs));
    assert forall t :: Holds(x, n, t) <==> t in At(x.complete, n) || t in At(x.incomplete, n);
  }

  // ---- taking and erasing ----

  /** Exactly the last waiting state of `m` moves. */
  lemma TakeMoves<M(!new), S(!new)>(m: M, x: Shared<M, S>, n: M, t: S)
    requires m in x.incomplete && x.incomplete[m] != [] && NoDup(x.incomplete[m])
    ensures var y := TakeFrom(m, x);
            var moved := (m, x.incomplete[m][|x.incomplete[m]| - 1]);
            && (t in At(y.incomplete, n) <==> t in At(x.incomplete, n) && (n, t) != moved)
            && (t in At(y.complete, n) <==> t in At(x.complete, n) || (n, t) == moved)
            && ((n, t) in y.taken <==> (n, t) in x.taken || (n, t) == moved)
  {
    var w := x.incomplete[m];
    assert w == w[..|w| - 1] + [w[|w| - 1]];
    if n == m {
      assert t in w <==> t in w[..|w| - 1] || t == w[|w| - 1];
      LastIsOnce(w);
    }
  }

  lemma TakeKeepsBalance<M(!new), S(!new)>(m: M, x: Shared<M, S>)
    requires Balanced(x) && m in x.incomplete && x.incomplete[m] != []
    ensures Balanced(TakeFrom(m, x))
    ensures forall n, t :: Holds(x, n, t) ==> Holds(TakeFrom(m, x), n, t)
  {
    var y := TakeFrom(m, x);
    var w := x.incomplete[m];
    assert w == At(x.incomplete, m) && w[|w| - 1] in At(x.incomplete, m);
    forall n, t
      ensures var moved := (m, w[|w| - 1]);
              && (t in At(y.incomplete, n) <==> t in At(x.incomplete, n) && (n, t) != moved)
              && (t in At(y.complete, n) <==> t in At(x.complete, n) || (n, t) == moved)
              && ((n, t) in y.taken <==> (n, t) in x.taken || (n, t) == moved)
    {
      TakeMoves(m, x, n, t);
    }
    forall n
      ensures NoDup(At(y.incomplete, n))
    {
      assert NoDup(At(x.incomplete, n));
    }
  }

  lemma TakeKeeps<M(!new), S(!new)>(prog: Program<M, S>, m: M, x: Shared<M, S>)
    requires prog.Valid() && Kept(prog, x) && m in x.incomplete && x.incomplete[m] != []
    ensures Kept(prog, TakeFrom(m, x)) && Grows(prog.dom, x, TakeFrom(m, x))
    ensures forall n :: At(TakeFrom(m, x).complete, n) ==
                        if n == m then At(x.complete, n) + [x.incomplete[m][|x.incomplete[m]| - 1]]
                        else At(x.complete, n)
  {
    TakeKeepsBalance(m, x);
    HoldingMoreGrows(prog.dom, x, TakeFrom(m, x));
  }

  lemma EraseKeeps<M(!new), S(!new)>(prog: Program<M, S>, m: M, x: Shared<M, S>)
    requires prog.Valid() && Kept(prog, x) && m in x.incomplete && x.incomplete[m] == []
    ensures Kept(prog, EraseFrom(m, x)) && Grows(prog.dom, x, EraseFrom(m, x))
  {
    var y := EraseFrom(m, x);
    assert forall n :: At(y.incomplete, n) == At(x.incomplete, n);
    HoldingMoreGrows(prog.dom, x, y);
  }

  // ---- seeding ----

  lemma SeedOneKeeps<M(!new), S(!new)>(prog: Program<M, S>, m: M, s: S, x: Shared<M, S>)
    requires prog.Valid() && Kept(prog, x) && m in prog.methods
    requires x.complete == map[] && m !in x.incomplete
    ensures Kept(prog, SeedOne(m, s, x))
  {
    assert !Known(prog.dom, x, m, s);
    PushKeepsOrder(prog, m, s, x);
    PushKeepsBalance(m, s, x, SeedOne(m, s, x));
  }

  /** Exactly the methods of `order` were seeded. */
  ghost predicate SeededFor<M(!new), S(!new)>(prog: Program<M, S>, order: seq<M>, sh: Shared<M, S>) {
    && sh.complete == map[] && sh.taken == []
    && (forall m :: m in sh.incomplete <==> m in order)
    && (forall m :: m in order ==> (m, prog.seed(m)) in sh.pushed)
    && (forall m :: m in order ==> At(sh.incomplete, m) == [prog.seed(m)])
  }

  lemma SeedOneMore<M(!new), S(!new)>(prog: Program<M, S>, order: seq<M>, sh: Shared<M, S>)
    requires order != [] && NoDup(order) && SeededFor(prog, order[..|order| - 1], sh)
    ensures var m := order[|order| - 1]; SeededFor(prog, order, SeedOne(m, prog.seed(m), sh))
  {
    var n := |order| - 1;
    LastIsOnce(order);
    assert order == order[..n] + [order[n]];
    assert forall m :: m in order <==> m in order[..n] || m == order[n];
  }

  lemma {:induction false} SeedAllKeeps<M(!new), S(!new)>(prog: Program<M, S>, order: seq<M>)
    requires prog.Valid() && NoDup(order) && forall m :: m in order ==> m in prog.methods
    ensures Kept(prog, SeedAll(prog, order)) && SeededFor(prog, order, SeedAll(prog, order))
  {
    if order != [] {
      var n := |order| - 1;
      var m := order[n];
      assert m in order;
      SeedAllKeeps(prog, order[..n]);
      LastIsOnce(order);
      SeedOneKeeps(prog, m, prog.seed(m), SeedAll(prog, order[..n]));
      SeedOneMore(prog, order, SeedAll(prog, order[..n]));
    }
  }

  lemma SeededKeeps<M(!new), S(!new)>(prog: Program<M, S>, sh: Shared<M, S>)
    requires prog.Valid() && Seeded(prog, sh)
    ensures Kept(prog, sh) && sh.complete == map[] && sh.taken == []
    ensures forall m :: m in prog.methods ==> (m, prog.seed(m)) in sh.pushed
    ensures sh.incomplete == map m | m in prog.methods :: [prog.seed(m)]
  {
    var order: seq<M> :| Lists(order, prog.methods) && sh == SeedAll(prog, order);
    SeedAllKeeps(prog, order);
  }
}
