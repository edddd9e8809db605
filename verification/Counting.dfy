/** Sizes of finite sets, by pairing their members off. */
module Counting {
  import opened Arith

  /** Sets paired off one to one have the same size. */
  lemma {:induction false} PairedOff<X, Y>(A: set<X>, B: set<Y>, f: X -> Y, g: Y -> X)
    requires forall x :: x in A ==> f(x) in B && g(f(x)) == x
    requires forall y :: y in B ==> g(y) in A && f(g(y)) == y
    ensures |A| == |B|
    decreases |A|
  {
    if A == {} {
      assert B == {};
    } else {
      var x :| x in A;
      assert forall x' :: x' in A - {x} ==> f(x') != f(x);
      PairedOff(A - {x}, B - {f(x)}, f, g);
    }
  }

  lemma SmallerSet<X>(a: set<X>, b: set<X>)
    requires a <= b
    ensures |a| <= |b|
  {
    assert b == a + (b - a);
  }

  ghost function Below(n: nat): (s: set<nat>)
    ensures forall i: nat :: i in s <==> i < n
    ensures |s| == n
  {
    if n == 0 then {} else Below(n - 1) + {n - 1}
  }

  ghost function Product<Y>(n: nat, S: set<Y>): set<(nat, Y)> {
    set i, y | i in Below(n) && y in S :: (i, y)
  }

  lemma InProduct<Y>(n: nat, S: set<Y>, p: (nat, Y))
    ensures p in Product(n, S) <==> p.0 < n && p.1 in S
  {
    hide Below;
    assert p == (p.0, p.1);
    assert p.0 in Below(n) <==> p.0 < n;
  }

  lemma ProductStep<Y>(n: nat, S: set<Y>)
    requires n > 0
    ensures |Product(n, S)| == |Product(n - 1, S)| + |S|
  {
    var last: set<(nat, Y)> := set y | y in S :: (n - 1, y);
    PairedOff<Y, (nat, Y)>(S, last, (y: Y) => (n - 1, y), (p: (nat, Y)) => p.1);
    assert Product(n, S) == Product(n - 1, S) + last;
    assert Product(n - 1, S) !! last;
  }

  lemma {:induction false} ProductSize<Y>(n: nat, S: set<Y>)
    ensures |Product(n, S)| == n * |S|
  {
    if n > 0 {
      ProductStep(n, S);
      ProductSize(n - 1, S);
      MulSucc(n - 1, |S|);
    } else {
      assert Product(n, S) == {};
    }
  }

  /** the numbers of [lo, hi) */
  ghost function Range(lo: nat, hi: nat): (s: set<nat>)
    requires lo <= hi
    ensures forall i: nat :: i in s <==> lo <= i < hi
    ensures |s| == hi - lo
  {
    assert Below(lo) <= Below(hi);
    assert Below(hi) * Below(lo) == Below(lo);
    Below(hi) - Below(lo)
  }
}
