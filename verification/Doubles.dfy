/**
 Addition of counts as the source's numbers do it: exact up to 2^53, and from there on
 rounded to the nearest representable integer, ties to even (IEEE 754 binary64).
 */
module Doubles {
  const TWO_53 := 9007199254740992

  const MAX_SAFE_INTEGER := TWO_53 - 1

  /** The distance between representable integers of the size of `n`. */
  function Ulp(n: int): (u: int)
    ensures u >= 1
  {
    if n < TWO_53 then 1 else 2 * Ulp(n / 2)
  }

  function Rounded(n: int): int {
    var u := Ulp(n);
    var q, r := n / u, n % u;
    if 2 * r < u || (2 * r == u && q % 2 == 0) then q * u else (q + 1) * u
  }

  function Add(a: int, b: int): int {
    Rounded(a + b)
  }

  lemma RoundedExact(n: int)
    requires n <= TWO_53
    ensures Rounded(n) == n
  {
    if n == TWO_53 {
      assert Ulp(TWO_53 / 2) == 1;
    }
  }

  lemma DivTwice(n: int, v: int)
    requires n >= 0 && v >= 1
    ensures n / (2 * v) == (n / 2) / v
  {
    var m := n / 2;
    var q, r := m / v, m % v;
    assert n == 2 * (q * v + r) + n % 2;
    DivUnique(n, 2 * v, q, 2 * r + n % 2);
  }

  lemma DivUnique(n: int, d: int, q: int, r: int)
    requires n == q * d + r && 0 <= r < d
    ensures n / d == q
  {
    var p := n / d;
    assert n == p * d + n % d;
    if p < q {
      assert (q - p) * d >= d by { MulAtLeast(q - p, d); }
    } else if p > q {
      assert (p - q) * d >= d by { MulAtLeast(p - q, d); }
    }
  }

  lemma MulAtLeast(a: int, d: int)
    requires a >= 1 && d >= 0
    ensures a * d >= d
  {}

  /** The representable integer below a large number is still large. */
  lemma {:induction false} FloorStaysLarge(n: int)
    requires n >= TWO_53
    ensures (n / Ulp(n)) * Ulp(n) >= TWO_53
  {
    var m, v := n / 2, Ulp(n / 2);
    DivTwice(n, v);
    assert (n / Ulp(n)) * Ulp(n) == 2 * ((m / v) * v);
    if m >= TWO_53 {
      FloorStaysLarge(m);
    }
  }

  lemma RoundedLarge(n: int)
    requires n >= TWO_53
    ensures Rounded(n) >= TWO_53
  {
    FloorStaysLarge(n);
    var u, q := Ulp(n), n / Ulp(n);
    assert (q + 1) * u == q * u + u;
  }
}
