/** Sizes of sets and sequences. */
module Collections {

  lemma {:induction false} SubsetIsNoLarger<T>(a: set<T>, b: set<T>)
    requires a <= b
    ensures |a| <= |b|
  {
    if a != {} {
      var x :| x in a;
      SubsetIsNoLarger(a - {x}, b - {x});
    }
  }

  lemma {:induction false} ElementsAreNoMore<T>(some: set<T>, xs: seq<T>)
    requires forall x :: x in some ==> x in xs
    ensures |some| <= |xs|
  {
    if xs == [] {
      assert some == {};
    } else {
      var head, last := xs[..|xs| - 1], xs[|xs| - 1];
      assert xs == head + [last];
      ElementsAreNoMore(some - {last}, head);
      SubsetIsNoLarger(some, (some - {last}) + {last});
    }
  }
}
