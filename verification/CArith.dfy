/** Integer arithmetic as C does it. */
module CArith {

  /** Division, rounding towards zero. */
  function CDiv(a: int, b: int): int
    requires b != 0
  {
    if b > 0 then if a >= 0 then a / b else -((-a) / b)
    else if a >= 0 then -(a / (-b)) else (-a) / (-b)
  }

  /** `q` is the exact quotient of `n` by the positive `d` with its fraction dropped. */
  ghost predicate TowardZero(q: int, n: int, d: int)
  {
    d > 0 && if n >= 0 then 0 <= n - q * d < d else -d < n - q * d <= 0
  }

  lemma {:induction false} DivisionTruncates(n: int, d: int)
    requires d > 0
    ensures TowardZero(CDiv(n, d), n, d)
  {
    var x := if n >= 0 then n else -n;
    assert x == (x / d) * d + x % d;
    if n < 0 {
      assert (-(x / d)) * d == -((x / d) * d);
    }
  }

  /** There is one such quotient. */
  lemma {:induction false} OneQuotient(p: int, q: int, n: int, d: int)
    requires TowardZero(p, n, d) && TowardZero(q, n, d)
    ensures p == q
  {
    assert (p - q) * d == p * d - q * d && (q - p) * d == q * d - p * d;
    if p > q {
      MulMono(1, p - q, d);
    } else if q > p {
      MulMono(1, q - p, d);
    }
  }

  lemma {:induction false} Multiples(q: int, d: int)
    requires d > 0
    ensures TowardZero(q, q * d, d)
  {
  }

  lemma {:induction false} MulMono(a: int, b: int, c: nat)
    requires a <= b
    ensures a * c <= b * c && c * a <= c * b
  {
    assert (b - a) * c >= 0;
  }
}
