/**
 * Integer arithmetic shared by both field generators: the power of two that
 * gives a level's tile step and the field's edge length, and the number of
 * summation levels an iteration count produces.
 */
module Grid {

  /** 2^i, written `1 << i` in 3d.js and `2**i` in tfractal.js. */
  function Pow2(i: nat): (r: nat)
    ensures r >= 1
    ensures i >= 1 ==> r % 2 == 0
  {
    if i == 0 then 1 else 2 * Pow2(i - 1)
  }

  /** The number of passes of a `for (i = 0; i < iterations - 1; i++)` loop. */
  function Levels(iterations: nat): (k: nat)
    ensures k + 1 >= iterations
    ensures iterations >= 1 ==> k + 1 == iterations
  {
    if iterations == 0 then 0 else iterations - 1
  }

  /** (x, y) lies on the border of the n-by-n square: a coordinate is 0 or n - 1. */
  predicate OnBorder(n: nat, x: nat, y: nat) {
    x == 0 || y == 0 || x == n - 1 || y == n - 1
  }

  /**
   * Halving a coordinate moves it one level down: the cell (2c + b) at step
   * 2^(i+1) lies in the same tile as c at step 2^i, for b in {0, 1}.
   */
  lemma DivDouble(c: nat, b: nat, p: nat)
    requires b < 2 && p >= 1
    ensures (2 * c + b) / (2 * p) == c / p
  {
    var q, r := c / p, c % p;
    assert c == q * p + r && 0 <= r < p;
    assert 2 * c + b == q * (2 * p) + (2 * r + b);
    assert 0 <= 2 * r + b < 2 * p;
    DivUnique(2 * c + b, 2 * p, q, 2 * r + b);
  }

  /** Euclidean division is determined by any quotient/remainder pair. */
  lemma DivUnique(a: nat, d: nat, q: nat, r: nat)
    requires d >= 1 && a == q * d + r && r < d
    ensures a / d == q
  {
    var q', r' := a / d, a % d;
    assert q' * d + r' == q * d + r;
    if q' < q {
      MulAtLeast(q - q', d);
    } else if q' > q {
      MulAtLeast(q' - q, d);
    }
  }

  lemma {:induction false} MulAtLeast(k: nat, d: nat)
    requires k >= 1
    ensures k * d >= d
  {
    if k > 1 {
      MulAtLeast(k - 1, d);
      assert k * d == (k - 1) * d + d;
    }
  }
}
