/** Amounts of money and percentages. The source stores them as binary floats; here they are exact
    `real`s, and Python's `round(x, 2)` (or JavaScript's `toFixed(2)`) is the rounding to whole cents
    below, half-way cases rounded up. */
module Money {

  /** `x` is a whole number of cents. */
  predicate IsCents(x: real) {
    (x * 100.0).Floor as real == x * 100.0
  }

  /** `round(x, 2)`: the nearest whole number of cents. */
  function Round2(x: real): (r: real)
    ensures IsCents(r)
    ensures x - 0.005 < r <= x + 0.005
  {
    var k := (x * 100.0 + 0.5).Floor;
    assert (k as real) * 100.0 / 100.0 == k as real;
    k as real / 100.0
  }

  /** An amount that already is whole cents is left alone by rounding. */
  lemma Round2OfCents(x: real)
    requires IsCents(x)
    ensures Round2(x) == x
  {
    var k := (x * 100.0).Floor;
    assert (x * 100.0 + 0.5).Floor == k;
  }

  /** Rounding twice is rounding once. */
  lemma Round2Idempotent(x: real)
    ensures Round2(Round2(x)) == Round2(x)
  {
    Round2OfCents(Round2(x));
  }

  /** A buyer's part of `total` for an ownership share of `pct` percent: `total * (pct / 100)`. */
  function Share(total: real, pct: real): real {
    total * (pct / 100.0)
  }

  function Sum(xs: seq<real>): real {
    if xs == [] then 0.0 else Sum(xs[..|xs| - 1]) + xs[|xs| - 1]
  }

  /** Shares of `total` taken for each percentage in `pcts`. */
  function Shares(total: real, pcts: seq<real>): (r: seq<real>)
    ensures |r| == |pcts|
    ensures forall i :: 0 <= i < |pcts| ==> r[i] == Share(total, pcts[i])
  {
    if pcts == [] then [] else Shares(total, pcts[..|pcts| - 1]) + [Share(total, pcts[|pcts| - 1])]
  }

  /** The unrounded split adds up to `total * (sum of percentages) / 100`. */
  lemma {:induction false} SharesSum(total: real, pcts: seq<real>)
    ensures Sum(Shares(total, pcts)) == total * (Sum(pcts) / 100.0)
  {
    if pcts != [] {
      var init := pcts[..|pcts| - 1];
      SharesSum(total, init);
      assert Shares(total, pcts)[..|pcts| - 1] == Shares(total, init);
      calc {
        Sum(Shares(total, pcts));
        Sum(Shares(total, init)) + Share(total, pcts[|pcts| - 1]);
        total * (Sum(init) / 100.0) + total * (pcts[|pcts| - 1] / 100.0);
        { assert Sum(pcts) == Sum(init) + pcts[|pcts| - 1]; }
        total * (Sum(pcts) / 100.0);
      }
    }
  }

  /** When the percentages sum to exactly 100 the unrounded split is exact. */
  lemma SharesExact(total: real, pcts: seq<real>)
    requires Sum(pcts) == 100.0
    ensures Sum(Shares(total, pcts)) == total
  {
    SharesSum(total, pcts);
  }

  /** With the 0.01 tolerance the source accepts, the unrounded split is off by at most
      one ten-thousandth of the amount. */
  lemma SharesWithinTolerance(total: real, pcts: seq<real>)
    requires -0.01 <= Sum(pcts) - 100.0 <= 0.01
    requires total >= 0.0
    ensures -total * 0.0001 <= Sum(Shares(total, pcts)) - total <= total * 0.0001
  {
    SharesSum(total, pcts);
    var e := (Sum(pcts) - 100.0) / 100.0;
    assert Sum(pcts) / 100.0 == 1.0 + e;
    ScaledBound(total, e);
  }

  /** A non-negative amount scaled by at most one ten-thousandth either way. */
  lemma ScaledBound(total: real, e: real)
    requires total >= 0.0 && -0.0001 <= e <= 0.0001
    ensures -total * 0.0001 <= total * (1.0 + e) - total <= total * 0.0001
  {
    assert total * (1.0 + e) - total == total * e;
    assert total * e <= total * 0.0001 by {
      assert total * (0.0001 - e) >= 0.0;
    }
    assert -total * 0.0001 <= total * e by {
      assert total * (e + 0.0001) >= 0.0;
    }
  }

  /** Rounding each share separately moves the total by at most half a cent per share. */
  lemma {:induction false} RoundedSumDeviation(xs: seq<real>, ys: seq<real>)
    requires |xs| == |ys|
    requires forall i :: 0 <= i < |xs| ==> ys[i] == Round2(xs[i])
    ensures -0.005 * (|xs| as real) <= Sum(ys) - Sum(xs)
    ensures Sum(ys) - Sum(xs) <= 0.005 * (|xs| as real)
  {
    if xs != [] {
      var n := |xs| - 1;
      RoundedSumDeviation(xs[..n], ys[..n]);
      assert ys[n] == Round2(xs[n]);
    }
  }
}
