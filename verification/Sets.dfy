/** Sizes of finite sets. */
module Sets {

  lemma {:induction false} SubsetSize<T>(a: set<T>, b: set<T>)
    requires a <= b
    ensures |a| <= |b|
  {
    if a != {} {
      var x :| x in a;
      SubsetSize(a - {x}, b - {x});
    }
  }

  /** A set of two or more has an element other than a given one. */
  lemma OtherElement<T>(a: set<T>, x: T) returns (y: T)
    requires |a| >= 2
    ensures y in a && y != x
  {
    if forall z :: z in a ==> z == x {
      assert a <= {x};
      SubsetSize(a, {x});
    }
    y :| y in a && y != x;
  }

  /** The elements of a set in some order, once each. */
  lemma {:induction false} Enumerate<T>(s: set<T>) returns (all: seq<T>)
    ensures |all| == |s| && multiset(all) == multiset(s)
    ensures forall i, j :: 0 <= i < j < |all| ==> all[i] != all[j]
    ensures forall x :: x in all <==> x in s
    decreases |s|
  {
    if s == {} {
      all := [];
    } else {
      var x :| x in s;
      var rest := Enumerate(s - {x});
      all := rest + [x];
      assert multiset(s) == multiset(s - {x}) + multiset{x};
      forall y ensures y in all <==> y in s { assert y in all <==> y in rest || y == x; }
    }
  }
}
