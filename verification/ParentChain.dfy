/**
 The chain of analyses that led to the current one. It guards the recursion of
 FunctionAnalysis, and of FunctionTest in the same way: a function that is on
 the chain is not entered again.
 */
module ParentChain {
  import opened Collections

  type Func = nat

  /** A FunctionAnalysis (or FunctionTest) and the ones that led to it. */
  datatype Frame = Root(f: Func) | Nested(f: Func, parent: Frame) {

    /** isRecursive walks the parents. */
    predicate IsRecursive(g: Func) {
      f == g || (Nested? && parent.IsRecursive(g))
    }

    ghost function Functions(): set<Func> {
      {f} + if Nested? then parent.Functions() else {}
    }

    /** getDepth */
    function Depth(): nat {
      1 + if Nested? then parent.Depth() else 0
    }

    /** Every frame was entered past the guard of handleCall. */
    ghost predicate Guarded(funcs: set<Func>) {
      && f in funcs
      && (Nested? ==> parent.Guarded(funcs) && !parent.IsRecursive(f))
    }

    lemma {:induction false} RecursiveIffOnChain(g: Func)
      ensures IsRecursive(g) <==> g in Functions()
    {
      if Nested? {
        parent.RecursiveIffOnChain(g);
      }
    }

    /** No function repeats on the chain, so it has as many functions as frames. */
    lemma {:induction false} ChainIsSimple(funcs: set<Func>)
      requires Guarded(funcs)
      ensures |Functions()| == Depth() && Functions() <= funcs
    {
      if Nested? {
        parent.ChainIsSimple(funcs);
        parent.RecursiveIffOnChain(f);
        assert Functions() == parent.Functions() + {f};
      }
    }

    /** Nesting never gets deeper than the number of defined functions. */
    lemma DepthIsBounded(funcs: set<Func>)
      requires Guarded(funcs)
      ensures Depth() <= |funcs|
    {
      ChainIsSimple(funcs);
      SubsetIsSmaller(Functions(), funcs);
    }
  }
}
