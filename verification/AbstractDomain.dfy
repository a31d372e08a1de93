/**
 The abstract heaps of the analysis, seen from the engines that drive it.

 The bodies of the heap operations are not in the repository (Graph.h gives
 their signatures), so a domain is a record of operations together with the
 laws that the engines rely on. `Leq` is `moreSpecific`.
 */
module AbstractDomain {

  datatype Domain<!S(!new)> = Domain(
    leq: (S, S) -> bool,            // Graph::moreSpecific
    equivalent: (S, S) -> bool,     // Graph::equivalent
    isBottom: S -> bool,            // Graph::isBottom
    bottom: S,                      // Graph::createBottom
    merge: (S, S) -> S,             // Graph::merge
    markBottom: S -> S              // Graph::markIsBottom
  ) {

    /** Each is below the other: what `equivalent` is meant to decide. */
    ghost predicate Same(x: S, y: S) {
      leq(x, y) && leq(y, x)
    }

    ghost predicate Preorder() {
      && (forall x :: leq(x, x))
      && (forall x, y, z :: leq(x, y) && leq(y, z) ==> leq(x, z))
    }

    ghost predicate BottomIsLeast() {
      && isBottom(bottom)
      && (forall x :: isBottom(markBottom(x)))
      && (forall x, y :: isBottom(x) ==> leq(x, y))
      && (forall x, y :: leq(x, y) && isBottom(y) ==> isBottom(x))
    }

    /** `merge` is an upper bound, not necessarily the least one. */
    ghost predicate MergeIsUpperBound() {
      forall x, y :: leq(x, merge(x, y)) && leq(y, merge(x, y))
    }

    ghost predicate MergeIsCongruent() {
      forall x, x', y, y' :: Same(x, x') && Same(y, y') ==> Same(merge(x, y), merge(x', y'))
    }

    /** `equivalent` may be finer than mutual specificity, never coarser. */
    ghost predicate EquivalentIsSound() {
      forall x, y :: equivalent(x, y) ==> Same(x, y)
    }

    ghost predicate EquivalentIsReflexive() {
      forall x :: equivalent(x, x)
    }

    ghost predicate EquivalentIsExact() {
      forall x, y :: equivalent(x, y) <==> Same(x, y)
    }

    ghost predicate Valid() {
      && Preorder()
      && BottomIsLeast()
      && MergeIsUpperBound()
      && MergeIsCongruent()
      && EquivalentIsSound()
    }
  }
}
