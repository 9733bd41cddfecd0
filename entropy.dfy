/**
 * The entropy and information-gain arithmetic of ID3/attribute.py, over the
 * four counters of one attribute.
 *
 * Python floats are modelled as exact reals. The logarithm `log2` (the
 * source's math.log(x) / math.log(2)) is a parameter: no property here
 * depends on its values, only on where it is applied.
 */
module Entropy {
  import opened Contingency

  const Scale: real := 1000000000000.0

  /** round(x, 12) of Python 2: the nearest multiple of 10^-12, halves rounded away from zero. */
  function Round12(x: real): real
  {
    if x >= 0.0 then ((x * Scale + 0.5).Floor as real) / Scale
    else -((((-x) * Scale + 0.5).Floor as real) / Scale)
  }

  /**
   * Rounding to 12 places gives 0 exactly when |x| is below half of 10^-12,
   * and keeps the sign.
   */
  lemma Round12Zero(x: real)
    ensures Round12(x) == 0.0 <==> -0.0000000000005 < x < 0.0000000000005
    ensures (x >= 0.0 ==> Round12(x) >= 0.0) && (x <= 0.0 ==> Round12(x) <= 0.0)
  {
  }

  /**
   * CalcEntropy: the binary entropy of a split into `zeroes` and `ones` out of
   * `total`, and 0 when the total or either part is 0.
   */
  function CalcEntropy(log2: real -> real, total: real, zeroes: real, ones: real): real
  {
    if total == 0.0 || zeroes == 0.0 || ones == 0.0 then 0.0
    else -1.0 * ((zeroes / total) * log2(zeroes / total) + (ones / total) * log2(ones / total))
  }

  /** The entropy of the class over all counted rows (CalcTotalEntropy). */
  function TotalEntropy(log2: real -> real, c: Counts): real
  {
    CalcEntropy(log2, Total(c) as real, (c.zeroZero + c.oneZero) as real, (c.zeroOne + c.oneOne) as real)
  }

  /** The entropy of the class over the rows with attribute value 0 (CalcZeroEntropy). */
  function ZeroEntropy(log2: real -> real, c: Counts): real
  {
    CalcEntropy(log2, (c.zeroZero + c.zeroOne) as real, c.zeroZero as real, c.zeroOne as real)
  }

  /** The entropy of the class over the rows with attribute value 1 (CalcOneEntropy). */
  function OneEntropy(log2: real -> real, c: Counts): real
  {
    CalcEntropy(log2, (c.oneZero + c.oneOne) as real, c.oneZero as real, c.oneOne as real)
  }

  /**
   * The gain formula of CalcGain over already computed entropies, before
   * rounding: the total entropy less the zero and one entropies weighted by the
   * share of rows with attribute value 0 and 1. It divides by the number of
   * counted rows, which must therefore be positive.
   */
  function WeightedGain(c: Counts, totalEntropy: real, zeroEntropy: real, oneEntropy: real): real
    requires Total(c) > 0
  {
    var total := Total(c) as real;
    totalEntropy
    - ((c.zeroZero + c.zeroOne) as real / total) * zeroEntropy
    - ((c.oneZero + c.oneOne) as real / total) * oneEntropy
  }

  /** The information gain of splitting on the attribute (CalcInformationGain), rounded to 12 places. */
  function Gain(log2: real -> real, c: Counts): real
    requires Total(c) > 0
  {
    Round12(WeightedGain(c, TotalEntropy(log2, c), ZeroEntropy(log2, c), OneEntropy(log2, c)))
  }

  /**
   * The gain is exactly 0 when one attribute branch is empty (the other
   * branch then has the same entropy as the whole, with weight 1) and when
   * every counted row has the same class (all three entropies are then 0).
   */
  lemma ZeroGainCases(log2: real -> real, c: Counts)
    requires Total(c) > 0
    ensures c.zeroZero + c.zeroOne == 0 || c.oneZero + c.oneOne == 0 ==> Gain(log2, c) == 0.0
    ensures c.zeroOne + c.oneOne == 0 || c.zeroZero + c.oneZero == 0 ==> Gain(log2, c) == 0.0
  {
    var w := WeightedGain(c, TotalEntropy(log2, c), ZeroEntropy(log2, c), OneEntropy(log2, c));
    EmptyBranchCancels(log2, c);
    if c.zeroOne + c.oneOne == 0 || c.zeroZero + c.oneZero == 0 {
      PureClassEntropies(log2, c);
      assert w == 0.0;
    }
    Round12Zero(w);
  }

  /**
   * With one attribute branch empty, the other branch is weighted by 1 and has
   * the same entropy as the whole, so the gain before rounding is exactly 0.
   */
  lemma EmptyBranchCancels(log2: real -> real, c: Counts)
    requires Total(c) > 0
    ensures c.zeroZero + c.zeroOne == 0 || c.oneZero + c.oneOne == 0 ==>
      WeightedGain(c, TotalEntropy(log2, c), ZeroEntropy(log2, c), OneEntropy(log2, c)) == 0.0
  {
    var total := Total(c) as real;
    var zeroes := (c.zeroZero + c.zeroOne) as real;
    var ones := (c.oneZero + c.oneOne) as real;
    if zeroes == 0.0 {
      assert ones == total;
      assert ones / total == 1.0;
      assert ZeroEntropy(log2, c) == 0.0;
      assert OneEntropy(log2, c) == TotalEntropy(log2, c);
    } else if ones == 0.0 {
      assert zeroes == total;
      assert zeroes / total == 1.0;
      assert OneEntropy(log2, c) == 0.0;
      assert ZeroEntropy(log2, c) == TotalEntropy(log2, c);
    }
  }

  /** Gain is the rounded weighted gain of the three entropies of the same counters. */
  lemma GainIsRoundedWeightedGain(log2: real -> real, c: Counts)
    requires Total(c) > 0
    ensures Gain(log2, c) == Round12(WeightedGain(c, TotalEntropy(log2, c), ZeroEntropy(log2, c), OneEntropy(log2, c)))
  {
  }

  /** When every counted row has the same class, all three entropies are 0. */
  lemma PureClassEntropies(log2: real -> real, c: Counts)
    requires c.zeroOne + c.oneOne == 0 || c.zeroZero + c.oneZero == 0
    ensures TotalEntropy(log2, c) == 0.0 && ZeroEntropy(log2, c) == 0.0 && OneEntropy(log2, c) == 0.0
  {
  }

  /**
   * A non-zero gain needs rows on both sides of the attribute and rows of
   * both classes.
   */
  lemma NonZeroGainSplits(log2: real -> real, c: Counts)
    requires Total(c) > 0 && Gain(log2, c) != 0.0
    ensures c.zeroZero + c.zeroOne > 0 && c.oneZero + c.oneOne > 0
    ensures c.zeroZero + c.oneZero > 0 && c.zeroOne + c.oneOne > 0
  {
    ZeroGainCases(log2, c);
  }
}
