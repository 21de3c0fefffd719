/** Facts about set sizes and multiples that several models need. */
module Arithmetic {

  lemma SubsetSize<T>(a: set<T>, b: set<T>)
    requires a <= b
    ensures |a| <= |b|
  {
    assert b == a + (b - a);
  }

  lemma TwoElements<T>(s: set<T>, a: T, b: T)
    requires a in s && b in s && a != b
    ensures |s| >= 2
  {
    SubsetSize({a, b}, s);
  }

  lemma SingletonExactly<T>(s: set<T>)
    ensures |s| == 1 <==> exists x :: s == {x}
    ensures |s| == 1 ==> forall x | x in s :: s == {x}
  {
    forall x | |s| == 1 && x in s ensures s == {x} {
      assert |s - {x}| == 0;
      assert s == (s - {x}) + {x};
    }
    if |s| == 1 {
      var x :| x in s;
    }
    if x :| s == {x} {
      assert |{x}| == 1;
    }
  }

  lemma Multiples(a: int, b: int, k: int)
    requires a <= b && k >= 0
    ensures a * k <= b * k && (a + 1) * k == a * k + k
  {
    assert b * k == a * k + (b - a) * k;
  }
}
