/** Multiplication and division facts that the other modules call by name. */
module Arithmetic {

  lemma Mono(a: nat, b: nat, q: nat)
    requires a <= b
    ensures a * q <= b * q
  {
  }

  lemma Doubled(a: nat, b: nat)
    ensures 2 * a * b == 2 * (a * b)
  {
  }

  /** Division, as a natural number. */
  function Div(a: nat, b: nat): (q: nat)
    requires b > 0
    ensures q <= a
  {
    DivBound(a, b);
    a / b
  }

  lemma DivBound(a: nat, b: nat)
    requires b > 0
    ensures 0 <= a / b <= a
  {
    var q := a / b;
    assert a == b * q + a % b;
    if q > 0 {
      Mono(1, b, q);
    }
  }

  lemma Quotient(v: nat, d: nat, q: int, r: int)
    requires d > 0 && v == d * q + r && 0 <= r < d
    ensures v / d == q
  {
    var q1, r1 := v / d, v % d;
    assert d * (q1 - q) == r - r1;
    if q1 > q {
      Mono(1, q1 - q, d);
    } else if q1 < q {
      Mono(1, q - q1, d);
    }
  }

  lemma DivTwice(v: nat, f: nat, p: nat)
    requires f > 0 && p > 0 && f * p > 0
    ensures v / f / p == v / (f * p)
  {
    var q, r := v / f, v % f;
    var q1, r1 := q / p, q % p;
    Regrouped(f, p, q1, r1, r);
    assert v == f * (p * q1 + r1) + r;
    Mono(r1, p - 1, f);
    assert f * (p - 1) == f * p - f;
    Quotient(v, f * p, q1, f * r1 + r);
  }

  lemma Regrouped(f: nat, p: nat, q: int, r: int, s: int)
    ensures f * (p * q + r) + s == (f * p) * q + (f * r + s)
  {
    assert f * (p * q + r) == f * (p * q) + f * r;
    assert f * (p * q) == (f * p) * q;
  }

  /** k goes into n / f exactly when f times k goes into n. */
  lemma DivAtLeast(n: nat, f: nat, k: nat)
    requires f > 0
    ensures k <= n / f <==> f * k <= n
  {
    var q := n / f;
    assert n == f * q + n % f;
    if k <= q {
      Mono(k, q, f);
    } else {
      Mono(q + 1, k, f);
      assert (q + 1) * f == f * q + f;
    }
  }
}
