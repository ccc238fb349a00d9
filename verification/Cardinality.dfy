/** Counting finite sets. */
module Cardinality {

  lemma {:induction false} CardinalityOfSubset<T>(a: set<T>, b: set<T>)
    requires a <= b
    ensures |a| <= |b|
    decreases a
  {
    if a != {} {
      var x :| x in a;
      CardinalityOfSubset(a - {x}, b - {x});
    }
  }

  lemma {:induction false} InjectiveImage<A, B>(f: A -> B, a: set<A>, b: set<B>)
    requires (forall x, y :: x in a && y in a && f(x) == f(y) ==> x == y) && forall x :: x in a ==> f(x) in b
    ensures |a| <= |b|
    decreases |a|
  {
    if a != {} {
      var x :| x in a;
      InjectiveImage(f, a - {x}, b - {f(x)});
    }
  }

  /** A sequence without repeats has no more elements than a set that holds them all. */
  lemma {:induction false} AsManyElements<T>(items: seq<T>, all: set<T>)
    requires (forall i, j :: 0 <= i < j < |items| ==> items[i] != items[j]) && forall x :: x in items ==> x in all
    ensures |all| >= |items|
    decreases |items|
  {
    if items != [] {
      AsManyElements(items[1..], all - {items[0]});
    }
  }
}
