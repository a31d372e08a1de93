/**
 FunctionTest counts the analyses that calling a function could start: one for
 each chain of call sites on which no function repeats.
 */
module CallTree {
  import opened Collections
  import opened Wrappers
  import opened ControlFlow
  import opened ParentChain

  /** A block of a function body: the functions it calls, in order, and its
      successors. A call through an unknown pointer has no callee. */
  datatype Body = Body(calls: seq<Option<Func>>, succs: seq<Block>)

  /** Function bodies; one without blocks is only declared. */
  datatype Code = Code(funcs: seq<seq<Body>>) {
    predicate Defined(f: Func) {
      f < |funcs| && funcs[f] != []
    }

    predicate HasBlock(f: Func, b: Block) {
      f < |funcs| && b < |funcs[f]|
    }

    ghost predicate WellFormed() {
      forall f: Func, b: Block, t: Block ::
        HasBlock(f, b) && t in funcs[f][b].succs ==> HasBlock(f, t)
    }

    ghost function Funcs(): set<Func> {
      set f: Func | f < |funcs| && funcs[f] != []
    }
  }

  // ---- reachable blocks ----

  /** `k` steps lead from the entry block of `f` to `b`. */
  ghost predicate StepsTo(code: Code, f: Func, b: Block, k: nat)
    decreases k
  {
    if k == 0 then b == ENTRY
    else exists a: Block :: code.HasBlock(f, a) && StepsTo(code, f, a, k - 1) && b in code.funcs[f][a].succs
  }

  ghost predicate Reaches(code: Code, f: Func, b: Block) {
    exists k: nat :: StepsTo(code, f, b, k)
  }

  // ---- call chains ----

  /** Call number `index` of block `block`. */
  datatype Site = Site(block: Block, index: nat)

  /** The site is in a reachable block of `f` and calls defined function `g`. */
  ghost predicate Calls(code: Code, f: Func, s: Site, g: Func) {
    && code.HasBlock(f, s.block)
    && Reaches(code, f, s.block)
    && s.index < |code.funcs[f][s.block].calls|
    && code.funcs[f][s.block].calls[s.index] == Some(g)
    && g < |code.funcs| && code.funcs[g] != []
  }

  ghost function Callee(code: Code, f: Func, s: Site): Func {
    if code.HasBlock(f, s.block) && s.index < |code.funcs[f][s.block].calls|
       && code.funcs[f][s.block].calls[s.index].Some?
    then code.funcs[f][s.block].calls[s.index].value else 0
  }

  /** From function `f`, with `used` entered already, the sites can be taken one
      inside the other without entering any function twice. */
  ghost predicate IsChain(code: Code, f: Func, used: set<Func>, sites: seq<Site>)
    decreases |sites|
  {
    sites != [] ==>
      var g := Callee(code, f, sites[0]);
      && Calls(code, f, sites[0], g)
      && g !in used
      && IsChain(code, g, used + {g}, sites[1..])
  }

  /** `chains` lists, once each, all chains from `f`. */
  ghost predicate ListsChains(code: Code, f: Func, used: set<Func>, chains: seq<seq<Site>>) {
    NoDup(chains) && forall c :: c in chains <==> IsChain(code, f, used, c)
  }

  /** So the length of such a list is the number of chains. */
  lemma SameLength<T(!new)>(x: seq<T>, y: seq<T>)
    requires NoDup(x) && NoDup(y) && forall t :: t in x <==> t in y
    ensures |x| == |y|
  {
    NoDupIsSet(x);
    NoDupIsSet(y);
    assert (set t | t in x) == (set t | t in y);
  }

  // ---- the counter ----

  /** Chains whose first site is in `blocks`, or in `at` before call `i`. */
  ghost predicate StartsIn(c: seq<Site>, blocks: set<Block>, at: Block, i: nat) {
    c == [] || c[0].block in blocks || (c[0].block == at && c[0].index < i)
  }

  /** The chains found so far, once each. */
  ghost predicate Found(
      code: Code, f: Func, used: set<Func>, chains: seq<seq<Site>>, blocks: set<Block>, at: Block, i: nat)
  {
    NoDup(chains) && forall c :: c in chains <==> IsChain(code, f, used, c) && StartsIn(c, blocks, at, i)
  }

  ghost function Under(s: Site, inner: seq<seq<Site>>): seq<seq<Site>> {
    seq(|inner|, k requires 0 <= k < |inner| => [s] + inner[k])
  }

  lemma UnderLists(s: Site, inner: seq<seq<Site>>)
    requires NoDup(inner)
    ensures NoDup(Under(s, inner)) && |Under(s, inner)| == |inner|
    ensures forall c :: c in Under(s, inner) <==> c != [] && c[0] == s && c[1..] in inner
  {
    var u := Under(s, inner);
    forall c
      ensures c in u <==> c != [] && c[0] == s && c[1..] in inner
    {
      if c in u {
        var k :| 0 <= k < |u| && u[k] == c;
        assert c[1..] == inner[k];
      }
      if c != [] && c[0] == s && c[1..] in inner {
        var k :| 0 <= k < |inner| && inner[k] == c[1..];
        assert c == [s] + c[1..];
        assert u[k] == c;
      }
    }
    forall i, j | 0 <= i < j < |u|
      ensures u[i] != u[j]
    {
      assert u[i][1..] == inner[i] && u[j][1..] == inner[j];
    }
  }

  /** A call past the guard adds the callee's chains, each behind its site. */
  lemma AddCall(code: Code, f: Func, used: set<Func>, chains: seq<seq<Site>>,
                blocks: set<Block>, at: Block, i: nat, g: Func, inner: seq<seq<Site>>)
    requires Found(code, f, used, chains, blocks, at, i) && at !in blocks
    requires Calls(code, f, Site(at, i), g) && g !in used
    requires ListsChains(code, g, used + {g}, inner)
    ensures Found(code, f, used, chains + Under(Site(at, i), inner), blocks, at, i + 1)
  {
    var s := Site(at, i);
    var u := Under(s, inner);
    UnderLists(s, inner);
    assert Callee(code, f, s) == g;
    forall c
      ensures c in chains + u <==> IsChain(code, f, used, c) && StartsIn(c, blocks, at, i + 1)
    {
      assert c in chains + u <==> c in chains || c in u;
      if c != [] && c[0] == s {
        assert IsChain(code, f, used, c) <==> c[1..] in inner;
      }
    }
    forall x, y | 0 <= x < |chains| && 0 <= y < |u|
      ensures chains[x] != u[y]
    {
      assert chains[x] in chains && u[y] in u;
    }
  }

  /** A call that is not followed starts no chain. */
  lemma SkipCall(code: Code, f: Func, used: set<Func>, chains: seq<seq<Site>>,
                 blocks: set<Block>, at: Block, i: nat)
    requires Found(code, f, used, chains, blocks, at, i)
    requires forall g :: Calls(code, f, Site(at, i), g) ==> g in used
    ensures Found(code, f, used, chains, blocks, at, i + 1)
  {
    forall c
      ensures c in chains <==> IsChain(code, f, used, c) && StartsIn(c, blocks, at, i + 1)
    {
    }
  }

  /** A block without calls left to look at is a finished block. */
  lemma FinishBlock(code: Code, f: Func, used: set<Func>, chains: seq<seq<Site>>,
                    blocks: set<Block>, at: Block)
    requires code.HasBlock(f, at)
    requires Found(code, f, used, chains, blocks, at, |code.funcs[f][at].calls|)
    ensures Found(code, f, used, chains, blocks + {at}, ENTRY, 0)
  {
    forall c
      ensures c in chains <==> IsChain(code, f, used, c) && StartsIn(c, blocks + {at}, ENTRY, 0)
    {
    }
  }

  lemma ReachesNext(code: Code, f: Func, a: Block, t: Block)
    requires code.HasBlock(f, a) && Reaches(code, f, a) && t in code.funcs[f][a].succs
    ensures Reaches(code, f, t)
  {
    var k: nat :| StepsTo(code, f, a, k);
    assert StepsTo(code, f, t, k + 1);
  }

  /** The worklist leads to every reachable block that was not popped. */
  lemma {:induction false} ReachedIsPopped(
      code: Code, f: Func, popped: set<Block>, b: Block, k: nat)
    requires ENTRY in popped && StepsTo(code, f, b, k)
    requires forall a, t :: a in popped && code.HasBlock(f, a) && t in code.funcs[f][a].succs ==> t in popped
    ensures b in popped
    decreases k
  {
    if k > 0 {
      var a: Block :| code.HasBlock(f, a) && StepsTo(code, f, a, k - 1) && b in code.funcs[f][a].succs;
      ReachedIsPopped(code, f, popped, a, k - 1);
    }
  }

  class Counter {
    const code: Code
    var numCalls: nat

    constructor (c: Code)
      ensures code == c && numCalls == 0
    {
      code := c;
      numCalls := 0;
    }

    /** FunctionTest's constructor: count this function, then run. */
    method Test(frame: Frame) returns (ghost chains: seq<seq<Site>>, ghost pops: seq<Block>)
      requires code.WellFormed() && frame.Guarded(code.Funcs())
      modifies this`numCalls
      ensures ListsChains(code, frame.f, frame.Functions(), chains)
      ensures numCalls == old(numCalls) + |chains|
      ensures NoDup(pops) && forall b :: b in pops <==> Reaches(code, frame.f, b)
      decreases |code.Funcs()| - frame.Depth(), 2
    {
      numCalls := numCalls + 1;
      frame.DepthIsBounded(code.Funcs());
      chains, pops := Run(frame);
    }

    method Run(frame: Frame) returns (ghost chains: seq<seq<Site>>, ghost pops: seq<Block>)
      requires code.WellFormed() && frame.Guarded(code.Funcs())
      modifies this`numCalls
      ensures ListsChains(code, frame.f, frame.Functions(), chains)
      ensures numCalls + 1 == old(numCalls) + |chains|
      ensures NoDup(pops) && forall b :: b in pops <==> Reaches(code, frame.f, b)
      decreases |code.Funcs()| - frame.Depth(), 1
    {
      var f := frame.f;
      var worklist := [ENTRY];
      var visited: set<Block> := {};
      chains, pops := [[]], [];
      frame.DepthIsBounded(code.Funcs());
      assert StepsTo(code, f, ENTRY, 0);
      while worklist != []
        invariant numCalls + 1 == old(numCalls) + |chains|
        invariant Found(code, f, frame.Functions(), chains, visited, ENTRY, 0)
        invariant NoDup(worklist) && NoDup(pops) && |pops| <= |code.funcs[f]|
        invariant forall b :: b in pops <==> b in visited
        invariant forall b :: b in worklist ==> b !in visited
        invariant forall b :: b in worklist || b in visited ==> code.HasBlock(f, b) && Reaches(code, f, b)
        invariant ENTRY in worklist || ENTRY in visited
        invariant forall a, t :: a in visited && t in code.funcs[f][a].succs ==> t in worklist || t in visited
        decreases |code.funcs[f]| - |pops|
      {
        var b := worklist[0];
        ghost var queued := worklist;
        assert b in worklist;
        worklist := worklist[1..];
        visited := visited + {b};
        chains := VisitCalls(frame, b, visited - {b}, chains);
        worklist := PushSuccessors(f, b, visited, worklist);
        pops := pops + [b];
        forall x | x in worklist && x !in queued
          ensures code.HasBlock(f, x) && Reaches(code, f, x)
        {
          ReachesNext(code, f, b, x);
        }
        NoDupIsShort(pops, |code.funcs[f]|);
      }
      forall b | Reaches(code, f, b)
        ensures b in pops
      {
        var k: nat :| StepsTo(code, f, b, k);
        ReachedIsPopped(code, f, visited, b, k);
      }
    }

    /** The calls of one block, each followed unless it would recurse. */
    method VisitCalls(frame: Frame, b: Block, ghost blocks: set<Block>, ghost before: seq<seq<Site>>)
        returns (ghost chains: seq<seq<Site>>)
      requires code.WellFormed() && frame.Guarded(code.Funcs())
      requires code.HasBlock(frame.f, b) && Reaches(code, frame.f, b) && b !in blocks
      requires Found(code, frame.f, frame.Functions(), before, blocks, ENTRY, 0)
      modifies this`numCalls
      ensures Found(code, frame.f, frame.Functions(), chains, blocks + {b}, ENTRY, 0)
      ensures numCalls + |before| == old(numCalls) + |chains|
      decreases |code.Funcs()| - frame.Depth(), 0
    {
      var f := frame.f;
      var calls := code.funcs[f][b].calls;
      ghost var used := frame.Functions();
      chains := before;
      for i := 0 to |calls|
        invariant Found(code, f, used, chains, blocks, b, i)
        invariant numCalls + |before| == old(numCalls) + |chains|
      {
        var callee := calls[i];
        if callee.Some? && code.Defined(callee.value) && !frame.IsRecursive(callee.value) {
          var inside := Nested(callee.value, frame);
          frame.RecursiveIffOnChain(callee.value);
          inside.DepthIsBounded(code.Funcs());
          ghost var inner, innerPops := Test(inside);
          assert inside.Functions() == used + {callee.value};
          assert Calls(code, f, Site(b, i), callee.value);
          AddCall(code, f, used, chains, blocks, b, i, callee.value, inner);
          UnderLists(Site(b, i), inner);
          chains := chains + Under(Site(b, i), inner);
        } else {
          if callee.Some? {
            frame.RecursiveIffOnChain(callee.value);
          }
          SkipCall(code, f, used, chains, blocks, b, i);
        }
      }
      FinishBlock(code, f, used, chains, blocks, b);
    }

    /** Successors not visited join the worklist, unless they are queued. */
    method PushSuccessors(f: Func, b: Block, visited: set<Block>, worklist: seq<Block>)
        returns (w: seq<Block>)
      requires code.HasBlock(f, b) && NoDup(worklist)
      ensures NoDup(w) && worklist <= w
      ensures forall x :: x in w <==> x in worklist || (x in code.funcs[f][b].succs && x !in visited)
    {
      w := worklist;
      var succs := code.funcs[f][b].succs;
      for i := 0 to |succs|
        invariant NoDup(w) && worklist <= w
        invariant forall x :: x in w <==> x in worklist || (x in succs[..i] && x !in visited)
      {
        var t := succs[i];
        assert succs[..i + 1] == succs[..i] + [t];
        if t !in visited && t !in w {
          ghost var before := w;
          w := w + [t];
          assert forall x :: x in w <==> x in before || x == t;
        }
      }
      assert succs[..|succs|] == succs;
    }
  }
}
