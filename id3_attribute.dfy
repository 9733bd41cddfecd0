/**
 * The Attribute class of ID3/attribute.py: the counters of one column over the
 * rows in scope, and the entropies and gain computed from them.
 */
module Id3Attribute {
  import opened Contingency
  import opened Entropy

  class Attribute {
    /** Set once on creation; no method renames an attribute. */
    const name: string
    var zeroZero: nat
    var zeroOne: nat
    var oneZero: nat
    var oneOne: nat
    var totalEntropy: real
    var zeroEntropy: real
    var oneEntropy: real
    var gain: real

    /** The four counters as a value. */
    function Tally(): Counts
      reads this`zeroZero, this`zeroOne, this`oneZero, this`oneOne
    {
      Counts(zeroZero, zeroOne, oneZero, oneOne)
    }

    /** A fresh attribute: no row counted, entropies and gain 0. */
    constructor (name: string)
      ensures this.name == name && Tally() == Empty
      ensures totalEntropy == 0.0 && zeroEntropy == 0.0 && oneEntropy == 0.0 && gain == 0.0
    {
      this.name := name;
      zeroZero, zeroOne, oneZero, oneOne := 0, 0, 0, 0;
      totalEntropy, zeroEntropy, oneEntropy, gain := 0.0, 0.0, 0.0, 0.0;
    }

    /**
     * Counts one row: the counter selected by the attribute token and the
     * class token grows by one when both are "0" or "1"; otherwise nothing
     * changes. Only the counters may change.
     */
    method AddNewData(attribValue: string, yValue: string)
      modifies this`zeroZero, this`zeroOne, this`oneZero, this`oneOne
      ensures Tally() == Accumulate(old(Tally()), attribValue, yValue)
    {
      if attribValue == "0" {
        if yValue == "0" {
          zeroZero := zeroZero + 1;
        } else if yValue == "1" {
          zeroOne := zeroOne + 1;
        }
      } else if attribValue == "1" {
        if yValue == "0" {
          oneZero := oneZero + 1;
        } else if yValue == "1" {
          oneOne := oneOne + 1;
        }
      }
    }

    /** Class entropy over all counted rows, from the class marginals. */
    method CalcTotalEntropy(log2: real -> real)
      modifies this`totalEntropy
      ensures totalEntropy == TotalEntropy(log2, Tally())
    {
      var total := (zeroZero + zeroOne + oneZero + oneOne) as real;
      var zeroes := (zeroZero + oneZero) as real;
      var ones := (zeroOne + oneOne) as real;
      totalEntropy := CalcEntropy(log2, total, zeroes, ones);
    }

    /** Class entropy over the rows with attribute value 0: only zeroZero and zeroOne. */
    method CalcZeroEntropy(log2: real -> real)
      modifies this`zeroEntropy
      ensures zeroEntropy == ZeroEntropy(log2, Tally())
    {
      var total := (zeroZero + zeroOne) as real;
      var zeroes := zeroZero as real;
      var ones := zeroOne as real;
      zeroEntropy := CalcEntropy(log2, total, zeroes, ones);
    }

    /** Class entropy over the rows with attribute value 1: only oneZero and oneOne. */
    method CalcOneEntropy(log2: real -> real)
      modifies this`oneEntropy
      ensures oneEntropy == OneEntropy(log2, Tally())
    {
      var total := (oneZero + oneOne) as real;
      var zeroes := oneZero as real;
      var ones := oneOne as real;
      oneEntropy := CalcEntropy(log2, total, zeroes, ones);
    }

    /**
     * The gain from the three stored entropies and the counters. It divides
     * by the number of counted rows, so at least one row must have been counted.
     */
    method CalcGain()
      requires Total(Tally()) > 0
      modifies this`gain
      ensures gain == Round12(WeightedGain(Tally(), totalEntropy, zeroEntropy, oneEntropy))
    {
      var total := (zeroZero + zeroOne + oneZero + oneOne) as real;
      var zeroes := (zeroZero + zeroOne) as real;
      var ones := (oneZero + oneOne) as real;
      var unrounded := totalEntropy - (zeroes / total) * zeroEntropy - (ones / total) * oneEntropy;
      assert unrounded == WeightedGain(Tally(), totalEntropy, zeroEntropy, oneEntropy);
      gain := Round12(unrounded);
    }

    /**
     * Computes the total, zero and one entropies and then the gain from them;
     * the counters and the name do not change.
     */
    method CalcInformationGain(log2: real -> real)
      requires Total(Tally()) > 0
      modifies this`totalEntropy, this`zeroEntropy, this`oneEntropy, this`gain
      ensures totalEntropy == TotalEntropy(log2, Tally())
      ensures zeroEntropy == ZeroEntropy(log2, Tally())
      ensures oneEntropy == OneEntropy(log2, Tally())
      ensures gain == Gain(log2, Tally())
    {
      CalcTotalEntropy(log2);
      CalcZeroEntropy(log2);
      CalcOneEntropy(log2);
      CalcGain();
      GainIsRoundedWeightedGain(log2, Tally());
    }
  }
}
