/** The little nonlinear arithmetic the other modules need, one fact a lemma. */
module Arith {

  lemma MulSucc(a: nat, n: nat)
    ensures (a + 1) * n == a * n + n
  {
  }

  lemma {:induction false} MulMono(a: nat, b: nat, n: nat)
    requires a <= b
    ensures a * n <= b * n
    decreases b
  {
    if a < b {
      MulMono(a, b - 1, n);
      MulSucc(b - 1, n);
    }
  }

  /** b*n + c with c < n stays below nb*n. */
  lemma IndexInBounds(b: nat, c: nat, nb: nat, n: nat)
    requires b < nb && c < n
    ensures b * n + c < nb * n
  {
    MulSucc(b, n);
    MulMono(b + 1, nb, n);
  }

  lemma DivModUnique(q: nat, r: nat, n: nat)
    requires r < n
    ensures (q * n + r) / n == q && (q * n + r) % n == r
  {
    var x := q * n + r;
    var q', r' := x / n, x % n;
    assert x == q' * n + r';
    if q' < q {
      IndexInBounds(q', r', q, n);
    } else if q' > q {
      IndexInBounds(q, r, q', n);
    }
  }

  lemma ModOnce(x: nat, n: nat)
    requires n <= x < 2 * n
    ensures x % n == x - n
  {
    DivModUnique(1, x - n, n);
  }

  /** x / n and x % n by repeated subtraction: atoms to the solver where the
      operators would cost it its nonlinear search. */
  function DivMod(x: nat, n: nat): (nat, nat)
    requires 0 < n
  {
    if x < n then (0, x) else (DivMod(x - n, n).0 + 1, DivMod(x - n, n).1)
  }

  lemma {:induction false} DivModIs(x: nat, n: nat)
    requires 0 < n
    ensures DivMod(x, n) == (x / n, x % n)
  {
    if x >= n {
      DivModIs(x - n, n);
      var (q, r) := DivMod(x - n, n);
      MulSucc(q, n);
      DivModUnique(q + 1, r, n);
    } else {
      DivModUnique(0, x, n);
    }
  }

  /** a quotient below nb exactly when the number is below nb*n */
  lemma QuotientBound(x: nat, nb: nat, n: nat)
    requires 0 < n
    ensures x / n < nb <==> x < nb * n
  {
    assert x == (x / n) * n + x % n;
    if x / n < nb {
      IndexInBounds(x / n, x % n, nb, n);
    } else {
      MulMono(nb, x / n, n);
    }
  }

  /** Rotating by t and rotating back are inverse on [0, n). */
  lemma RotateBack(x: nat, t: nat, n: nat)
    requires x < n && t < n
    ensures ((x + t) % n + n - t) % n == x
    ensures ((x + n - t) % n + t) % n == x
  {
    if x + t < n {
      DivModUnique(0, x + t, n);
      ModOnce(x + n, n);
    } else {
      ModOnce(x + t, n);
      DivModUnique(0, x, n);
    }
    if x < t {
      DivModUnique(0, x + n - t, n);
      ModOnce(x + n, n);
    } else {
      ModOnce(x + n - t, n);
      DivModUnique(0, x, n);
    }
  }
}
