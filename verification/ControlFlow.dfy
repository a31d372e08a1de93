/**
 Control-flow graphs as the analysis reads them: blocks, terminators, and
 predecessor lists with one entry for every edge use.
 */
module ControlFlow {
  import opened Collections

  type Block = nat

  datatype Edge = Edge(start: Block, end: Block)

  /** Instructions before the terminator; a call is one kind of `Visit`. */
  datatype Instruction = Phi | LandingPad | Visit

  /** `Branch` is the conditional branch; `Multi` is a switch or an invoke. */
  datatype Terminator =
    | Jump(target: Block)
    | Branch(onTrue: Block, onFalse: Block)
    | Multi(targets: seq<Block>)
    | Return
    | Resume
    | Unreachable
  {
    function Succs(): seq<Block> {
      match this
      case Jump(t) => [t]
      case Branch(t, f) => [t, f]
      case Multi(ts) => ts
      case Return => []
      case Resume => []
      case Unreachable => []
    }
  }

  datatype BasicBlock = BasicBlock(insts: seq<Instruction>, term: Terminator)

  const ENTRY: Block := 0

  datatype Cfg = Cfg(blocks: seq<BasicBlock>, preds: seq<seq<Block>>) {

    predicate Has(b: Block) {
      b < |blocks|
    }

    function Insts(b: Block): seq<Instruction>
      requires Has(b)
    {
      blocks[b].insts
    }

    function Term(b: Block): Terminator
      requires Has(b)
    {
      blocks[b].term
    }

    function Succs(b: Block): seq<Block>
      requires Has(b)
    {
      Term(b).Succs()
    }

    /** What LLVM's own verifier guarantees of a function that has a body. */
    ghost predicate WellFormed() {
      && |blocks| > 0
      && |preds| == |blocks|
      && preds[ENTRY] == []
      && (forall b: Block, t: Block :: Has(b) && t in Succs(b) ==> Has(t))
      && (forall b: Block, p: Block :: Has(b) && p in preds[b] ==> Has(p))
      && (forall b: Block :: Has(b) && Term(b).Multi? ==> Term(b).targets != [])
      && (forall b: Block :: Has(b) && preds[b] == [] ==> Phi !in Insts(b))
      && (forall b: Block, p: Block {:trigger multiset(preds[b])[p]} ::
            Has(b) && Has(p) ==> multiset(preds[b])[p] == multiset(Succs(p))[b])
    }

    lemma PredIffSucc(p: Block, b: Block)
      requires WellFormed() && Has(p) && Has(b)
      ensures p in preds[b] <==> b in Succs(p)
    {
      assert multiset(preds[b])[p] == multiset(Succs(p))[b];
      assert p in preds[b] <==> p in multiset(preds[b]);
      assert b in Succs(p) <==> b in multiset(Succs(p));
    }
  }

  /** What is left of the queue when its block `k` is taken. */
  function Rotated(w: seq<Block>, k: nat): seq<Block>
    requires k < |w|
  {
    w[k + 1..] + w[..k]
  }

  /** That is all the rest, once. */
  lemma TakeOut(w: seq<Block>, k: nat)
    requires k < |w| && NoDup(w)
    ensures var rest := Rotated(w, k);
            && NoDup(rest) && w[k] !in rest
            && (forall x :: x in rest <==> x in w && x != w[k])
  {
    var rest := Rotated(w, k);
    forall x | x in w && x != w[k]
      ensures x in rest
    {
      var j :| 0 <= j < |w| && w[j] == x;
      assert if j < k then w[..k][j] == x else w[k + 1..][j - k - 1] == x;
    }
  }

  /** Distinct block numbers below `n` are at most `n`. */
  lemma {:induction false} NoDupIsShort(s: seq<Block>, n: nat)
    requires NoDup(s) && forall b :: b in s ==> b < n
    ensures |s| <= n
    decreases n
  {
    if s != [] {
      assert s[0] in s;
      if n - 1 in s {
        var i :| 0 <= i < |s| && s[i] == n - 1;
        TakeOut(s, i);
        NoDupIsShort(Rotated(s, i), n - 1);
      } else {
        NoDupIsShort(s, n - 1);
      }
    }
  }
}
