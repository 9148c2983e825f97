/** Integer `/` and `%` as C computes them on `int`: the quotient is truncated
    toward zero and the remainder takes the sign of the dividend. Dafny's own
    operators are Euclidean, which differs for negative dividends. */
module CArith {

  /** C's `a / b` for a positive divisor. */
  function CDiv(a: int, b: int): int
    requires b > 0
  {
    if a >= 0 then a / b else -((-a) / b)
  }

  /** C's `/` truncates toward zero: `b * CDiv(a, b)` is the multiple of `b`
      nearest to `a` on the side of 0. */
  lemma CDivTruncates(a: int, b: int)
    requires b > 0
    ensures a >= 0 ==> b * CDiv(a, b) <= a < b * CDiv(a, b) + b
    ensures a < 0 ==> b * CDiv(a, b) - b < a <= b * CDiv(a, b)
  {
  }

  /** C's `a % b` for a positive divisor: what is left of `a` after taking
      away `b` times the truncated quotient. */
  function CRem(a: int, b: int): (r: int)
    requires b > 0
    ensures r == a - b * CDiv(a, b)
    ensures -b < r < b
    ensures a >= 0 ==> 0 <= r && r == a % b
    ensures a <= 0 ==> r <= 0
  {
    if a >= 0 then a % b else -((-a) % b)
  }

  /** A positive multiple of `c` is at least `c`. */
  lemma MulAtLeast(c: int, k: int)
    requires c > 0 && k >= 1
    ensures c * k >= c
  {
    assert c * k == c * (k - 1) + c;
  }

  /** Dividing `c * q + r` by `c` gives back `q` and `r` when `0 <= r < c`. */
  lemma DivOfSum(q: int, r: int, c: int)
    requires c > 0 && 0 <= r < c
    ensures (c * q + r) / c == q && (c * q + r) % c == r
  {
    var x := c * q + r;
    var k := x / c - q;
    assert x == c * (x / c) + x % c;
    assert c * k == r - x % c by { assert c * (x / c) == c * q + c * k; }
    if k >= 1 {
      MulAtLeast(c, k);
    } else if k <= -1 {
      assert c * (-k) == -(c * k);
      MulAtLeast(c, -k);
    }
  }
}
