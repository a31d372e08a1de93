/** Sequences without repetition, and the sizes of sets. */
module Collections {

  ghost predicate NoDup<T>(s: seq<T>) {
    forall i, j :: 0 <= i < j < |s| ==> s[i] != s[j]
  }

  lemma LastIsOnce<T(!new)>(w: seq<T>)
    requires w != [] && NoDup(w)
    ensures w[|w| - 1] !in w[..|w| - 1]
  {
  }

  lemma {:induction false} NoDupIsSet<T>(s: seq<T>)
    requires NoDup(s)
    ensures |set t | t in s| == |s|
  {
    if s != [] {
      var n := |s| - 1;
      NoDupIsSet(s[..n]);
      assert (set t | t in s) == (set t | t in s[..n]) + {s[n]};
    }
  }

  lemma {:induction false} SubsetIsSmaller<T>(x: set<T>, y: set<T>)
    requires x <= y
    ensures |x| <= |y|
  {
    if x != {} {
      var t :| t in x;
      SubsetIsSmaller(x - {t}, y - {t});
    }
  }

  lemma NoDupWithin<T(!new)>(s: seq<T>, all: set<T>)
    requires NoDup(s) && forall t :: t in s ==> t in all
    ensures |s| <= |all|
  {
    NoDupIsSet(s);
    var elements := set t | t in s;
    SubsetIsSmaller(elements, all);
  }

  lemma {:induction false} SetOfSeq<T(!new)>(s: seq<T>, t: set<T>)
    requires forall b :: b in t ==> b in s
    ensures |t| <= |s|
  {
    if s != [] {
      SetOfSeq(s[1..], t - {s[0]});
      assert t <= (t - {s[0]}) + {s[0]};
      SubsetIsSmaller(t, (t - {s[0]}) + {s[0]});
    } else {
      assert t == {};
    }
  }
}
