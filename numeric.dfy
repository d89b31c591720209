/** Integer arithmetic as the JavaScript code performs it on exact values:
    `Math.round(a / b)`, `Math.ceil(a / b)` and the percentage formula the
    analytics endpoints share. */
module Numeric {

  /** `Math.round(num / den)` for `den > 0`: the integer `r` with
      `r <= num/den + 1/2 < r + 1`, i.e. halves round up (towards +infinity),
      as `Math.round` does. */
  function RoundDiv(num: int, den: int): (r: int)
    requires den > 0
    ensures 2 * den * r <= 2 * num + den < 2 * den * r + 2 * den
  {
    (2 * num + den) / (2 * den)
  }

  /** `Math.ceil(num / den)` for `den > 0`: the least `r` with `num <= r * den`. */
  function CeilDiv(num: int, den: int): (r: int)
    requires den > 0
    ensures (r - 1) * den < num <= r * den
  {
    -((-num) / den)
  }

  /** `den > 0 ? Math.round((num / den) * 100) : 0` on exact values: the
      ratio is not rounded to a double before the percentage is rounded. */
  function Percent(num: nat, den: nat): (r: int)
    ensures den == 0 ==> r == 0
    ensures den > 0 ==> 2 * den * r <= 200 * num + den < 2 * den * r + 2 * den
  {
    if den > 0 then RoundDiv(100 * num, den) else 0
  }

  lemma ProductSign(k: int, x: int)
    requires k > 0
    ensures x >= 0 <==> k * x >= 0
    ensures x > 0 <==> k * x > 0
  {
    if x >= 0 {
      ProductNonNeg(k, x);
    } else {
      ProductNonNeg(k, -x - 1);
      assert k * (-x - 1) == -(k * x) - k;
    }
  }

  lemma {:induction false} ProductNonNeg(k: nat, x: nat)
    ensures k * x >= 0
    ensures x > 0 && k > 0 ==> k * x >= k
  {
  }

  /** A rounded share of a whole lies between 0 and 100. */
  lemma PercentBounds(num: nat, den: nat)
    requires num <= den
    ensures 0 <= Percent(num, den) <= 100
  {
    if den > 0 {
      var r := Percent(num, den);
      assert 2 * den * r <= 200 * num + den;
      assert 200 * num <= 200 * den;
      assert (2 * den) * (r - 101) == 2 * den * r - 202 * den;
      ProductSign(2 * den, r - 101);
      assert (2 * den) * (r + 1) == 2 * den * r + 2 * den;
      ProductSign(2 * den, r + 1);
    }
  }

  /** Rounding a mean keeps it within the bounds of the averaged values:
      if every one of `n` values lies in `[lo, hi]`, so does
      `Math.round(sum / n)`. */
  lemma RoundedMeanBounds(sum: int, n: int, lo: int, hi: int)
    requires n > 0
    requires lo * n <= sum <= hi * n
    ensures lo <= RoundDiv(sum, n) <= hi
  {
    var r := RoundDiv(sum, n);
    assert (2 * n) * (r - hi - 1) == 2 * n * r - 2 * (hi * n) - 2 * n;
    assert (2 * n) * (r - hi - 1) <= 2 * sum + n - 2 * (hi * n) - 2 * n;
    ProductSign(2 * n, r - hi - 1);
    assert (2 * n) * (r + 1 - lo) == 2 * n * r + 2 * n - 2 * (lo * n);
    ProductSign(2 * n, r + 1 - lo);
  }

  /** The whole is 100 percent of itself. */
  lemma PercentOfWhole(n: nat)
    requires n > 0
    ensures Percent(n, n) == 100
  {
    var r := Percent(n, n);
    assert 2 * n * r <= 201 * n < 2 * n * r + 2 * n;
    assert (2 * n) * (r - 101) == 2 * n * r - 202 * n;
    ProductSign(2 * n, r - 101);
    assert (2 * n) * (r - 99) == 2 * n * r + 2 * n - 200 * n;
    ProductSign(2 * n, r - 99);
  }
}
