/**
 * The Attribute class of NaiveBayes/attribute.py: the same four counters as
 * the ID3 attribute, and six smoothed probability estimates computed from
 * them with the two pseudo-counts beta0 and beta1 (floats in the source,
 * reals here).
 *
 * Each estimate comes in a pair over one split of the counted rows into two
 * groups of n0 and n1 rows: prob_zero/prob_one over the attribute value
 * (n0 = zeroZero + zeroOne, n1 = oneZero + oneOne), the two given-zero
 * estimates over the class-0 rows (n0 = zeroZero, n1 = oneZero) and the two
 * given-one estimates over the class-1 rows (n0 = zeroOne, n1 = oneOne).
 * Both estimates of a pair share the denominator n0 + n1 + beta0 + beta1 - 2.
 */
module NaiveBayesAttribute {
  import opened Contingency

  /** min(max(x, 0.0), 1.0): x cut back into [0, 1]. */
  function Clamp(x: real): (r: real)
    ensures 0.0 <= r <= 1.0
    ensures 0.0 <= x <= 1.0 ==> r == x
    ensures x < 0.0 ==> r == 0.0
    ensures x > 1.0 ==> r == 1.0
  {
    var atLeastZero := if x > 0.0 then x else 0.0;
    if atLeastZero < 1.0 then atLeastZero else 1.0
  }

  /** The shared denominator of a pair over groups of n0 and n1 rows. */
  function Denominator(n0: nat, n1: nat, beta0: real, beta1: real): real
  {
    (n0 + n1) as real + beta0 + beta1 - 2.0
  }

  /** The smoothed estimate of one group of `count` rows with pseudo-count `beta`. */
  function Estimate(count: nat, beta: real, denom: real): (p: real)
    requires denom != 0.0
    ensures 0.0 <= p <= 1.0
  {
    Clamp((count as real + beta - 1.0) / denom)
  }

  /**
   * The two numerators of a pair add up to its denominator, so with both
   * pseudo-counts at least 1 neither estimate is clamped and the pair sums to 1.
   */
  lemma PairSumsToOne(n0: nat, n1: nat, beta0: real, beta1: real)
    requires beta0 >= 1.0 && beta1 >= 1.0 && Denominator(n0, n1, beta0, beta1) != 0.0
    ensures var d := Denominator(n0, n1, beta0, beta1);
      && Estimate(n0, beta0, d) == (n0 as real + beta0 - 1.0) / d
      && Estimate(n1, beta1, d) == (n1 as real + beta1 - 1.0) / d
      && Estimate(n0, beta0, d) + Estimate(n1, beta1, d) == 1.0
  {
    var d := Denominator(n0, n1, beta0, beta1);
    var a, b := n0 as real + beta0 - 1.0, n1 as real + beta1 - 1.0;
    assert a >= 0.0 && b >= 0.0 && a + b == d && d > 0.0;
    assert a / d + b / d == (a + b) / d;
    assert (a + b) / d == 1.0;
    assert a / d <= 1.0 && b / d <= 1.0;
  }

  /** With both pseudo-counts 1 the estimates are the plain frequencies of the two groups. */
  lemma UnitBetaFrequencies(n0: nat, n1: nat)
    requires n0 + n1 > 0
    ensures Denominator(n0, n1, 1.0, 1.0) == (n0 + n1) as real
    ensures Estimate(n0, 1.0, Denominator(n0, n1, 1.0, 1.0)) == n0 as real / (n0 + n1) as real
    ensures Estimate(n1, 1.0, Denominator(n0, n1, 1.0, 1.0)) == n1 as real / (n0 + n1) as real
  {
    PairSumsToOne(n0, n1, 1.0, 1.0);
  }

  /** With both pseudo-counts 1 a denominator is 0 exactly when its two groups are empty. */
  lemma UnitBetaZeroDenominator(n0: nat, n1: nat)
    ensures Denominator(n0, n1, 1.0, 1.0) == 0.0 <==> n0 + n1 == 0
  {
  }

  /**
   * Clamping at both ends: with beta0 = 0.5, beta1 = 1, an empty first group
   * and two rows in the second, the denominator is 1.5, the first ratio
   * -0.5 / 1.5 is cut up to 0 and the second 2 / 1.5 down to 1.
   */
  lemma ClampExample()
    ensures Estimate(0, 0.5, Denominator(0, 2, 0.5, 1.0)) == 0.0
    ensures Estimate(2, 1.0, Denominator(0, 2, 0.5, 1.0)) == 1.0
  {
    assert Denominator(0, 2, 0.5, 1.0) == 1.5;
    assert (0.5 - 1.0) / 1.5 < 0.0;
    assert (2.0 + 1.0 - 1.0) / 1.5 > 1.0;
  }

  class Attribute {
    var name: string
    var zeroZero: nat
    var zeroOne: nat
    var oneZero: nat
    var oneOne: nat
    var probZero: real
    var probOne: real
    var probZeroGivenZero: real
    var probZeroGivenOne: real
    var probOneGivenZero: real
    var probOneGivenOne: real

    /** The four counters as a value. */
    function Tally(): Counts
      reads this`zeroZero, this`zeroOne, this`oneZero, this`oneOne
    {
      Counts(zeroZero, zeroOne, oneZero, oneOne)
    }

    /** The six probabilities as one tuple, in declaration order. */
    function Probabilities(): (real, real, real, real, real, real)
      reads this`probZero, this`probOne, this`probZeroGivenZero, this`probZeroGivenOne,
            this`probOneGivenZero, this`probOneGivenOne
    {
      (probZero, probOne, probZeroGivenZero, probZeroGivenOne, probOneGivenZero, probOneGivenOne)
    }

    /** Every probability lies in [0, 1]. */
    predicate InRange()
      reads this`probZero, this`probOne, this`probZeroGivenZero, this`probZeroGivenOne,
            this`probOneGivenZero, this`probOneGivenOne
    {
      && 0.0 <= probZero <= 1.0 && 0.0 <= probOne <= 1.0
      && 0.0 <= probZeroGivenZero <= 1.0 && 0.0 <= probZeroGivenOne <= 1.0
      && 0.0 <= probOneGivenZero <= 1.0 && 0.0 <= probOneGivenOne <= 1.0
    }

    /** A fresh attribute: no row counted and every probability 0. */
    constructor (name: string)
      ensures this.name == name && Tally() == Empty
      ensures Probabilities() == (0.0, 0.0, 0.0, 0.0, 0.0, 0.0)
      ensures InRange()
    {
      this.name := name;
      zeroZero, zeroOne, oneZero, oneOne := 0, 0, 0, 0;
      probZero, probOne := 0.0, 0.0;
      probZeroGivenZero, probZeroGivenOne := 0.0, 0.0;
      probOneGivenZero, probOneGivenOne := 0.0, 0.0;
    }

    /**
     * Counts one row: the counter selected by the attribute token and the
     * class token grows by one when both are "0" or "1"; otherwise nothing
     * changes. Only the counters may change.
     */
    method AddNewData(attribValue: string, yValue: string)
      modifies this`zeroZero, this`zeroOne, this`oneZero, this`oneOne
      ensures Tally() == Accumulate(old(Tally()), attribValue, yValue)
    {
      if attribValue == "0" {
        if yValue == "0" {
          zeroZero := zeroZero + 1;
        } else if yValue == "1" {
          zeroOne := zeroOne + 1;
        }
      } else if attribValue == "1" {
        if yValue == "0" {
          oneZero := oneZero + 1;
        } else if yValue == "1" {
          oneOne := oneOne + 1;
        }
      }
    }

    /**
     * Recomputes the three pairs of estimates. A pair whose denominator is 0
     * keeps its previous values; otherwise each of its estimates is the
     * clamped ratio of its group's smoothed count to the denominator. The
     * counters do not change, and every probability that was in [0, 1] stays
     * there.
     */
    method CalculateProbabilities(beta0: real, beta1: real)
      modifies this`probZero, this`probOne, this`probZeroGivenZero, this`probZeroGivenOne,
               this`probOneGivenZero, this`probOneGivenOne
      ensures var d := Denominator(zeroZero + zeroOne, oneZero + oneOne, beta0, beta1);
        if d != 0.0 then
          probZero == Estimate(zeroZero + zeroOne, beta0, d) && probOne == Estimate(oneZero + oneOne, beta1, d)
        else
          probZero == old(probZero) && probOne == old(probOne)
      ensures var d := Denominator(zeroZero, oneZero, beta0, beta1);
        if d != 0.0 then
          probZeroGivenZero == Estimate(zeroZero, beta0, d) && probOneGivenZero == Estimate(oneZero, beta1, d)
        else
          probZeroGivenZero == old(probZeroGivenZero) && probOneGivenZero == old(probOneGivenZero)
      ensures var d := Denominator(zeroOne, oneOne, beta0, beta1);
        if d != 0.0 then
          probZeroGivenOne == Estimate(zeroOne, beta0, d) && probOneGivenOne == Estimate(oneOne, beta1, d)
        else
          probZeroGivenOne == old(probZeroGivenOne) && probOneGivenOne == old(probOneGivenOne)
      ensures old(InRange()) ==> InRange()
    {
      var denom := (zeroZero + zeroOne + oneZero + oneOne) as real + beta0 + beta1 - 2.0;
      if denom != 0.0 {
        probZero := Clamp(((zeroZero + zeroOne) as real + beta0 - 1.0) / denom);
        probOne := Clamp(((oneZero + oneOne) as real + beta1 - 1.0) / denom);
      }

      denom := (zeroZero + oneZero) as real + beta0 + beta1 - 2.0;
      if denom != 0.0 {
        probZeroGivenZero := Clamp((zeroZero as real + beta0 - 1.0) / denom);
        probOneGivenZero := Clamp((oneZero as real + beta1 - 1.0) / denom);
      }

      denom := (zeroOne + oneOne) as real + beta0 + beta1 - 2.0;
      if denom != 0.0 {
        probZeroGivenOne := Clamp((zeroOne as real + beta0 - 1.0) / denom);
        probOneGivenOne := Clamp((oneOne as real + beta1 - 1.0) / denom);
      }
    }
  }

}
