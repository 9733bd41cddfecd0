/**
 * The four binary contingency counters that both Attribute classes keep
 * (ID3/attribute.py and NaiveBayes/attribute.py), as a value.
 *
 * `zeroZero` counts rows with attribute value "0" and class value "0",
 * `zeroOne` attribute "0" and class "1", `oneZero` attribute "1" and class
 * "0", `oneOne` attribute "1" and class "1".
 */
module Contingency {

  datatype Counts = Counts(zeroZero: nat, zeroOne: nat, oneZero: nat, oneOne: nat)

  const Empty: Counts := Counts(0, 0, 0, 0)

  /** A well-formed cell of the data: the token "0" or the token "1". */
  predicate IsBit(token: string)
  {
    token == "0" || token == "1"
  }

  /** Python's int() applied to a well-formed token. */
  function IntOf(token: string): int
  {
    if token == "1" then 1 else 0
  }

  function Total(c: Counts): nat
  {
    c.zeroZero + c.zeroOne + c.oneZero + c.oneOne
  }

  /** The counter for attribute value `a` and class value `y` (each 0 or 1). */
  function Cell(c: Counts, a: int, y: int): nat
    requires a in {0, 1} && y in {0, 1}
  {
    if a == 0 then (if y == 0 then c.zeroZero else c.zeroOne)
    else (if y == 0 then c.oneZero else c.oneOne)
  }

  /**
   * The counters after observing one (attribute value, class value) pair,
   * as AddNewData updates them: when both tokens are well formed exactly the
   * matching counter grows by one; any other token leaves all four alone.
   */
  function Accumulate(c: Counts, attribValue: string, yValue: string): Counts
  {
    if attribValue == "0" then
      if yValue == "0" then c.(zeroZero := c.zeroZero + 1)
      else if yValue == "1" then c.(zeroOne := c.zeroOne + 1)
      else c
    else if attribValue == "1" then
      if yValue == "0" then c.(oneZero := c.oneZero + 1)
      else if yValue == "1" then c.(oneOne := c.oneOne + 1)
      else c
    else c
  }

  /**
   * When both tokens are well formed exactly the counter they select grows by
   * one; any other token leaves all four alone, and the total grows by one
   * exactly for a well-formed pair.
   */
  lemma AccumulateCells(c: Counts, attribValue: string, yValue: string)
    ensures forall a, y | a in {0, 1} && y in {0, 1} ::
      Cell(Accumulate(c, attribValue, yValue), a, y) == Cell(c, a, y) +
        (if IsBit(attribValue) && IsBit(yValue) && a == IntOf(attribValue) && y == IntOf(yValue) then 1 else 0)
    ensures Total(Accumulate(c, attribValue, yValue)) == Total(c) + (if IsBit(attribValue) && IsBit(yValue) then 1 else 0)
  {
  }
}
