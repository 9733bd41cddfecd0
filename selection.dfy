/**
 * Split selection of ID3/id3.py: FindBestGain and ChiSquaredTest.
 *
 * `Decide` is the specification of FindBestGain as a function of the training
 * rows and the path: it picks the column of maximum gain (the lowest one on
 * ties), returns a leaf when that gain is 0, and otherwise splits unless the
 * node is below the root and the chi-squared test rejects the split.
 */
module Selection {
  import opened Contingency
  import opened Entropy
  import opened Dataset
  import opened Id3Attribute

  /** (ad - bc)^2 n for the table a = zeroZero, b = zeroOne, c = oneZero, d = oneOne. */
  function ChiNumerator(t: Counts): nat
  {
    var cross := t.zeroZero * t.oneOne - t.zeroOne * t.oneZero;
    (cross * cross) as nat * Total(t)
  }

  /** The product of the four marginals (a+b)(c+d)(b+d)(a+c) of the table. */
  function Marginals(t: Counts): nat
  {
    (t.zeroZero + t.zeroOne) * (t.oneZero + t.oneOne) * (t.zeroOne + t.oneOne) * (t.zeroZero + t.oneZero)
  }

  /**
   * The chi-squared statistic of the table, taken as 0 when any of the four
   * marginals is 0, which is when their product is 0 (MarginalsPositive).
   */
  function ChiSquared(t: Counts): real
  {
    if Marginals(t) == 0 then 0.0
    else (ChiNumerator(t) as real) / (Marginals(t) as real)
  }

  /** ChiSquaredTest: always passes when the test is switched off, else needs a statistic above 6.635. */
  function ChiSquaredTest(useChiSquare: bool, t: Counts): bool
  {
    if !useChiSquare then true
    else ChiSquared(t) > 6.635
  }

  /**
   * The test passes exactly when it is switched off, or when, in exact
   * integers, 1000 (ad - bc)^2 n > 6635 (a+b)(c+d)(b+d)(a+c) with every
   * marginal non-zero: the statistic strictly above 6.635, the 99% point for
   * one degree of freedom. A statistic equal to 6.635 fails.
   */
  lemma ChiSquaredTestCriterion(useChiSquare: bool, t: Counts)
    ensures ChiSquaredTest(useChiSquare, t) <==>
      !useChiSquare ||
      (t.zeroZero + t.zeroOne > 0 && t.oneZero + t.oneOne > 0 && t.zeroOne + t.oneOne > 0 && t.zeroZero + t.oneZero > 0
       && 1000 * ChiNumerator(t) > 6635 * Marginals(t))
  {
    ChiSquaredCriterion(t);
    MarginalsPositive(t);
  }

  lemma ThresholdScaled(x: real, den: real)
    requires den > 0.0
    ensures x / den > 6.635 <==> 1000.0 * x > 6635.0 * den
  {
    var q := x / den;
    assert x == q * den;
    if q > 6.635 {
      assert q * den > 6.635 * den;
    } else {
      assert q * den <= 6.635 * den;
    }
  }

  lemma MarginalsPositive(t: Counts)
    ensures Marginals(t) > 0 <==>
      t.zeroZero + t.zeroOne > 0 && t.oneZero + t.oneOne > 0 && t.zeroOne + t.oneOne > 0 && t.zeroZero + t.oneZero > 0
  {
    var p, q, r, s := t.zeroZero + t.zeroOne, t.oneZero + t.oneOne, t.zeroOne + t.oneOne, t.zeroZero + t.oneZero;
    assert Marginals(t) == p * q * r * s;
    if p > 0 && q > 0 && r > 0 && s > 0 {
      assert p * q > 0;
      assert p * q * r > 0;
    } else if p == 0 || q == 0 {
      assert p * q == 0;
    } else if r == 0 {
      assert p * q * r == 0;
    }
  }

  /** The real statistic exceeds 6.635 exactly when the integer criterion holds. */
  lemma ChiSquaredCriterion(t: Counts)
    ensures ChiSquared(t) > 6.635 <==> Marginals(t) > 0 && 1000 * ChiNumerator(t) > 6635 * Marginals(t)
  {
    MarginalsPositive(t);
    if Marginals(t) > 0 {
      var num, den := ChiNumerator(t), Marginals(t);
      ThresholdScaled(num as real, den as real);
      assert 1000.0 * (num as real) == (1000 * num) as real;
      assert 6635.0 * (den as real) == (6635 * den) as real;
    }
  }

  /** Python's max over a non-empty list: an element no smaller than any other. */
  function MaxOf(s: seq<real>): (m: real)
    requires |s| > 0
    ensures m in s
    ensures forall j :: 0 <= j < |s| ==> s[j] <= m
  {
    MaxPrefix(s, |s|)
  }

  /** The maximum of the first n elements, scanned left to right as max does. */
  function MaxPrefix(s: seq<real>, n: nat): (m: real)
    requires 0 < n <= |s|
    ensures exists k :: 0 <= k < n && s[k] == m
    ensures forall j :: 0 <= j < n ==> s[j] <= m
  {
    if n == 1 then s[0]
    else if s[n - 1] > MaxPrefix(s, n - 1) then s[n - 1]
    else MaxPrefix(s, n - 1)
  }

  /** Python's list.index: the position of the first occurrence. */
  function FirstIndex(s: seq<real>, x: real): (i: nat)
    requires x in s
    ensures i < |s| && s[i] == x
    ensures forall j :: 0 <= j < i ==> s[j] != x
  {
    FirstFrom(s, x, 0)
  }

  /** The first occurrence of x at or after position i, when none comes before i. */
  function FirstFrom(s: seq<real>, x: real, i: nat): (r: nat)
    requires x in s && i <= |s|
    requires forall j :: 0 <= j < i ==> s[j] != x
    ensures i <= r < |s| && s[r] == x
    ensures forall j :: 0 <= j < r ==> s[j] != x
    decreases |s| - i
  {
    if i < |s| && s[i] == x then i
    else
      assert i < |s|;
      FirstFrom(s, x, i + 1)
  }

  /** The gain of column `col` over the in-scope rows. */
  function GainAt(log2: real -> real, rows: seq<Row>, width: nat, col: nat): real
    requires WellFormed(rows, width) && col < width && |rows| > 0
  {
    TabulateCountsRows(rows, width, col);
    Gain(log2, Tabulate(rows, col))
  }

  /** The list of gains of columns 0 .. n-1, appended one column at a time. */
  function Gains(log2: real -> real, rows: seq<Row>, width: nat, n: nat): (g: seq<real>)
    requires WellFormed(rows, width) && |rows| > 0 && n <= width
    ensures |g| == n
    ensures forall j :: 0 <= j < n ==> g[j] == GainAt(log2, rows, width, j)
  {
    seq(n, j requires 0 <= j < n => GainAt(log2, rows, width, j))
  }

  lemma GainsSnoc(log2: real -> real, rows: seq<Row>, width: nat, n: nat)
    requires WellFormed(rows, width) && |rows| > 0 && n < width
    ensures Gains(log2, rows, width, n + 1) == Gains(log2, rows, width, n) + [GainAt(log2, rows, width, n)]
  {
    hide GainAt;
  }

  /**
   * The maximum gain over the split candidates: every column except the
   * class column, which is the last one.
   */
  function BestGain(log2: real -> real, rows: seq<Row>, width: nat): real
    requires WellFormed(rows, width) && |rows| > 0 && width >= 2
  {
    MaxOf(Gains(log2, rows, width, width - 1))
  }

  /** The first candidate column whose gain is the maximum. */
  function BestIndex(log2: real -> real, rows: seq<Row>, width: nat): (k: nat)
    requires WellFormed(rows, width) && |rows| > 0 && width >= 2
    ensures k < width - 1 && GainAt(log2, rows, width, k) == BestGain(log2, rows, width)
    ensures forall j :: 0 <= j < width - 1 ==> GainAt(log2, rows, width, j) <= GainAt(log2, rows, width, k)
    ensures forall j :: 0 <= j < k ==> GainAt(log2, rows, width, j) < GainAt(log2, rows, width, k)
  {
    FirstIndex(Gains(log2, rows, width, width - 1), BestGain(log2, rows, width))
  }

  /** What FindBestGain returns: a leaf with its class value, or a column to split on. */
  datatype Decision = LeafDecision(yValue: int) | SplitOn(index: nat)

  /** What FindBestGain needs of its inputs. */
  predicate Ready(data: seq<Row>, schema: Schema, path: Path)
  {
    && schema.attribCnt >= 2
    && Named(schema)
    && WellFormed(data, schema.attribCnt)
    && PathFits(path, schema.attribCnt)
    && |Scope(data, path)| > 0
  }

  /** The counters of columns 0 .. width-1 over `rows`, the class column last. */
  function Tallies(rows: seq<Row>, width: nat): (t: seq<Counts>)
    requires WellFormed(rows, width)
    ensures |t| == width && forall i :: 0 <= i < width ==> t[i] == Tabulate(rows, i)
  {
    seq(width, i requires 0 <= i < width => Tabulate(rows, i))
  }

  /**
   * The decision of FindBestGain from the gains of the candidate columns and
   * the counters of every column: a leaf with the class seen when the best
   * gain is 0; below the root, a leaf with the majority class (0 on ties) of
   * the best column's counters when they fail the chi-squared test; otherwise
   * a split on the first column of maximum gain.
   */
  function Choose(useChiSquare: bool, belowRoot: bool, gains: seq<real>, tallies: seq<Counts>): (d: Decision)
    requires |gains| > 0 && |tallies| == |gains| + 1
    ensures d.SplitOn? ==> d.index == FirstIndex(gains, MaxOf(gains)) && gains[d.index] != 0.0
    ensures d.LeafDecision? ==> d.yValue in {0, 1}
  {
    var maxGain := MaxOf(gains);
    if maxGain == 0.0 then
      LeafDecision(if tallies[|gains|].oneOne > 0 then 1 else 0)
    else
      var gainIndex := FirstIndex(gains, maxGain);
      var passedTest := if belowRoot then ChiSquaredTest(useChiSquare, tallies[gainIndex]) else true;
      if !passedTest then
        var attrib := tallies[gainIndex];
        LeafDecision(if attrib.zeroZero + attrib.oneZero >= attrib.zeroOne + attrib.oneOne then 0 else 1)
      else
        SplitOn(gainIndex)
  }

  /** The specification of FindBestGain: the decision for the rows in scope at the end of `path`. */
  function Decide(log2: real -> real, useChiSquare: bool, data: seq<Row>, schema: Schema, path: Path): Decision
    requires Ready(data, schema, path)
  {
    Choose(useChiSquare, |path| > 0,
           Gains(log2, Scope(data, path), schema.attribCnt, schema.attribCnt - 1),
           Tallies(Scope(data, path), schema.attribCnt))
  }

  lemma DecideFromParts(log2: real -> real, useChiSquare: bool, data: seq<Row>, schema: Schema, path: Path,
                        gains: seq<real>, tallies: seq<Counts>)
    requires Ready(data, schema, path)
    requires gains == Gains(log2, Scope(data, path), schema.attribCnt, schema.attribCnt - 1)
    requires tallies == Tallies(Scope(data, path), schema.attribCnt)
    ensures Decide(log2, useChiSquare, data, schema, path) == Choose(useChiSquare, |path| > 0, gains, tallies)
  {
    hide Choose, Gains, Tallies;
  }

  /** The three outcomes of Choose, one lemma each. */
  lemma ChooseZeroGain(useChiSquare: bool, belowRoot: bool, gains: seq<real>, tallies: seq<Counts>)
    requires |gains| > 0 && |tallies| == |gains| + 1 && MaxOf(gains) == 0.0
    ensures Choose(useChiSquare, belowRoot, gains, tallies) == LeafDecision(if tallies[|gains|].oneOne > 0 then 1 else 0)
  {
  }

  lemma ChooseChiFail(useChiSquare: bool, belowRoot: bool, gains: seq<real>, tallies: seq<Counts>)
    requires |gains| > 0 && |tallies| == |gains| + 1 && MaxOf(gains) != 0.0 && belowRoot
    requires !ChiSquaredTest(useChiSquare, tallies[FirstIndex(gains, MaxOf(gains))])
    ensures Choose(useChiSquare, belowRoot, gains, tallies) ==
      LeafDecision(if tallies[FirstIndex(gains, MaxOf(gains))].zeroZero + tallies[FirstIndex(gains, MaxOf(gains))].oneZero
                      >= tallies[FirstIndex(gains, MaxOf(gains))].zeroOne + tallies[FirstIndex(gains, MaxOf(gains))].oneOne
                   then 0 else 1)
  {
  }

  lemma ChooseSplit(useChiSquare: bool, belowRoot: bool, gains: seq<real>, tallies: seq<Counts>)
    requires |gains| > 0 && |tallies| == |gains| + 1 && MaxOf(gains) != 0.0
    requires !belowRoot || ChiSquaredTest(useChiSquare, tallies[FirstIndex(gains, MaxOf(gains))])
    ensures Choose(useChiSquare, belowRoot, gains, tallies) == SplitOn(FirstIndex(gains, MaxOf(gains)))
  {
  }

  lemma ChooseChiOff(belowRoot: bool, gains: seq<real>, tallies: seq<Counts>)
    requires |gains| > 0 && |tallies| == |gains| + 1
    ensures Choose(true, belowRoot, gains, tallies).SplitOn? ==>
      Choose(false, belowRoot, gains, tallies) == Choose(true, belowRoot, gains, tallies)
    ensures Choose(false, belowRoot, gains, tallies).LeafDecision? ==>
      Choose(true, belowRoot, gains, tallies) == Choose(false, belowRoot, gains, tallies)
  {
  }

  /**
   * A split is on the lowest-numbered candidate column of maximum gain over
   * the rows in scope, and that gain is not 0; a leaf predicts 0 or 1.
   */
  lemma DecideIsBest(log2: real -> real, useChiSquare: bool, data: seq<Row>, schema: Schema, path: Path)
    requires Ready(data, schema, path)
    ensures var d := Decide(log2, useChiSquare, data, schema, path);
      && (d.SplitOn? ==> d.index == BestIndex(log2, Scope(data, path), schema.attribCnt))
      && (d.SplitOn? ==> GainAt(log2, Scope(data, path), schema.attribCnt, d.index) != 0.0)
      && (d.LeafDecision? ==> d.yValue in {0, 1})
  {
  }

  /** Two tables either side of the threshold: a statistic of about 6.43 fails, 6.875 passes. */
  lemma ChiThresholdExamples()
    ensures !ChiSquaredTest(true, Counts(3, 1, 0, 6))
    ensures ChiSquaredTest(true, Counts(10, 0, 6, 6))
  {
    ChiSquaredTestCriterion(true, Counts(3, 1, 0, 6));
    ChiSquaredTestCriterion(true, Counts(10, 0, 6, 6));
  }

  /**
   * When no candidate column has a non-zero gain, the node is a leaf that
   * predicts 1 exactly when some row in scope has class 1.
   */
  lemma ZeroGainLeaf(log2: real -> real, useChiSquare: bool, data: seq<Row>, schema: Schema, path: Path)
    requires Ready(data, schema, path)
    requires BestGain(log2, Scope(data, path), schema.attribCnt) == 0.0
    ensures Decide(log2, useChiSquare, data, schema, path) ==
      LeafDecision(if exists row :: row in Scope(data, path) && IntOf(row[schema.attribCnt - 1]) == 1 then 1 else 0)
  {
    var rows := Scope(data, path);
    var cnt := schema.attribCnt;
    var gains := Gains(log2, rows, cnt, cnt - 1);
    var tallies := Tallies(rows, cnt);
    assert MaxOf(gains) == 0.0 && |gains| > 0 && |tallies| == |gains| + 1;
    assert tallies[cnt - 1] == Tabulate(rows, cnt - 1);
    ClassPresent(rows, cnt);
    hide *;
    DecideFromParts(log2, useChiSquare, data, schema, path, gains, tallies);
    ChooseZeroGain(useChiSquare, |path| > 0, gains, tallies);
  }

  /** The best gain of a list of zero gains is 0. */
  lemma BestGainOfZeros(log2: real -> real, rows: seq<Row>, width: nat)
    requires WellFormed(rows, width) && |rows| > 0 && width >= 2
    requires forall j :: 0 <= j < width - 1 ==> GainAt(log2, rows, width, j) == 0.0
    ensures BestGain(log2, rows, width) == 0.0
  {
    var gains := Gains(log2, rows, width, width - 1);
    var k :| 0 <= k < |gains| && gains[k] == MaxOf(gains);
  }

  /**
   * A node whose rows in scope all have the same class v is a leaf
   * predicting v: every gain is 0 there.
   */
  lemma PureScopeIsLeaf(log2: real -> real, useChiSquare: bool, data: seq<Row>, schema: Schema, path: Path, v: int)
    requires Ready(data, schema, path) && v in {0, 1}
    requires forall row :: row in Scope(data, path) ==> IntOf(row[schema.attribCnt - 1]) == v
    ensures Decide(log2, useChiSquare, data, schema, path) == LeafDecision(v)
  {
    hide Scope, Decide, GainAt, BestGain, Gains, Tabulate;
    var rows := Scope(data, path);
    var cnt := schema.attribCnt;
    forall j | 0 <= j < cnt - 1
      ensures GainAt(log2, rows, cnt, j) == 0.0
    {
      PureColumnGainZero(log2, rows, cnt, j, v);
    }
    BestGainOfZeros(log2, rows, cnt);
    ZeroGainLeaf(log2, useChiSquare, data, schema, path);
    assert rows[0] in rows && IntOf(rows[0][cnt - 1]) == v;
  }

  /** Over rows of a single class every column has gain 0. */
  lemma PureColumnGainZero(log2: real -> real, rows: seq<Row>, width: nat, j: nat, v: int)
    requires WellFormed(rows, width) && |rows| > 0 && j < width && v in {0, 1}
    requires forall row :: row in rows ==> IntOf(row[width - 1]) == v
    ensures GainAt(log2, rows, width, j) == 0.0
  {
    PureClassCounts(rows, width, j, v);
    TabulateCountsRows(rows, width, j);
    ZeroGainCases(log2, Tabulate(rows, j));
  }

  /** Over rows of a single class v, the counters of any column only count class v. */
  lemma PureClassCounts(rows: seq<Row>, width: nat, j: nat, v: int)
    requires WellFormed(rows, width) && j < width && v in {0, 1}
    requires forall row :: row in rows ==> IntOf(row[width - 1]) == v
    ensures v == 0 ==> Tabulate(rows, j).zeroOne + Tabulate(rows, j).oneOne == 0
    ensures v == 1 ==> Tabulate(rows, j).zeroZero + Tabulate(rows, j).oneZero == 0
  {
    NoneOfClass(rows, width, 1 - v);
    ClassSizes(rows, width, j);
  }

  /**
   * Below the root, a best split that fails the chi-squared test gives a leaf
   * with the majority class of the rows in scope, 0 on a tie.
   */
  lemma ChiFailLeaf(log2: real -> real, useChiSquare: bool, data: seq<Row>, schema: Schema, path: Path)
    requires Ready(data, schema, path) && |path| > 0
    requires BestGain(log2, Scope(data, path), schema.attribCnt) != 0.0
    requires !ChiSquaredTest(useChiSquare, Tabulate(Scope(data, path), BestIndex(log2, Scope(data, path), schema.attribCnt)))
    ensures Decide(log2, useChiSquare, data, schema, path) ==
      LeafDecision(if |Scope(Scope(data, path), [(schema.attribCnt - 1, 0)])| >= |Scope(Scope(data, path), [(schema.attribCnt - 1, 1)])| then 0 else 1)
  {
    var rows := Scope(data, path);
    var cnt := schema.attribCnt;
    var gains := Gains(log2, rows, cnt, cnt - 1);
    var tallies := Tallies(rows, cnt);
    var best := BestIndex(log2, rows, cnt);
    assert MaxOf(gains) != 0.0 && FirstIndex(gains, MaxOf(gains)) == best;
    assert tallies[best] == Tabulate(rows, best);
    DecideFromParts(log2, useChiSquare, data, schema, path, gains, tallies);
    hide Decide;
    ChooseChiFail(useChiSquare, |path| > 0, gains, tallies);
    hide Choose;
    ClassSizes(rows, cnt, best);
  }

  /**
   * A non-zero best gain splits on the best column at the root, and below it
   * whenever the chi-squared test passes (always when the test is off).
   */
  lemma SplitWhenTestPasses(log2: real -> real, useChiSquare: bool, data: seq<Row>, schema: Schema, path: Path)
    requires Ready(data, schema, path)
    requires BestGain(log2, Scope(data, path), schema.attribCnt) != 0.0
    requires |path| == 0 || !useChiSquare ||
      ChiSquaredTest(useChiSquare, Tabulate(Scope(data, path), BestIndex(log2, Scope(data, path), schema.attribCnt)))
    ensures Decide(log2, useChiSquare, data, schema, path) == SplitOn(BestIndex(log2, Scope(data, path), schema.attribCnt))
  {
    var rows := Scope(data, path);
    var gains := Gains(log2, rows, schema.attribCnt, schema.attribCnt - 1);
    var tallies := Tallies(rows, schema.attribCnt);
    DecideFromParts(log2, useChiSquare, data, schema, path, gains, tallies);
    ChooseSplit(useChiSquare, |path| > 0, gains, tallies);
  }

  /**
   * Switching the chi-squared test off never turns a split into a leaf, and
   * any leaf found with the test off is also found with it on.
   */
  lemma ChiSquareOnlyPrunes(log2: real -> real, data: seq<Row>, schema: Schema, path: Path)
    requires Ready(data, schema, path)
    ensures Decide(log2, true, data, schema, path).SplitOn? ==>
      Decide(log2, false, data, schema, path) == Decide(log2, true, data, schema, path)
    ensures Decide(log2, false, data, schema, path).LeafDecision? ==>
      Decide(log2, true, data, schema, path) == Decide(log2, false, data, schema, path)
  {
    var rows := Scope(data, path);
    var gains := Gains(log2, rows, schema.attribCnt, schema.attribCnt - 1);
    var tallies := Tallies(rows, schema.attribCnt);
    DecideFromParts(log2, true, data, schema, path, gains, tallies);
    DecideFromParts(log2, false, data, schema, path, gains, tallies);
    ChooseChiOff(|path| > 0, gains, tallies);
  }

  /**
   * A column already fixed on the path is never split on again: every row in
   * scope has the same value there, so one of its branches is empty and its
   * gain is 0.
   */
  lemma NoRepeatedSplit(log2: real -> real, useChiSquare: bool, data: seq<Row>, schema: Schema, path: Path, k: nat)
    requires Ready(data, schema, path)
    requires exists j :: 0 <= j < |path| && path[j].0 == k
    ensures Decide(log2, useChiSquare, data, schema, path) != SplitOn(k)
  {
    var j :| 0 <= j < |path| && path[j].0 == k;
    var rows := Scope(data, path);
    var cnt := schema.attribCnt;
    if Decide(log2, useChiSquare, data, schema, path) == SplitOn(k) {
      DecideIsBest(log2, useChiSquare, data, schema, path);
      TabulateCountsRows(rows, cnt, k);
      NonZeroGainSplits(log2, Tabulate(rows, k));
      BranchSizes(rows, cnt, k);
      ScopeNonEmpty(rows, k, 0);
      ScopeNonEmpty(rows, k, 1);
      assert false;
    }
  }

  /**
   * The two children of a split node: their paths stay inside the header,
   * each keeps some row and each keeps fewer rows than the node.
   */
  lemma SplitNarrows(log2: real -> real, useChiSquare: bool, data: seq<Row>, schema: Schema, path: Path, k: nat)
    requires Ready(data, schema, path)
    requires Decide(log2, useChiSquare, data, schema, path) == SplitOn(k)
    ensures k < schema.attribCnt - 1
    ensures Ready(data, schema, path + [(k, 0)]) && Ready(data, schema, path + [(k, 1)])
    ensures |Scope(data, path + [(k, 0)])| < |Scope(data, path)|
    ensures |Scope(data, path + [(k, 1)])| < |Scope(data, path)|
  {
    DecideIsBest(log2, useChiSquare, data, schema, path);
    var rows := Scope(data, path);
    TabulateCountsRows(rows, schema.attribCnt, k);
    NonZeroGainSplits(log2, Tabulate(rows, k));
    ChildScopes(data, schema, path, k);
  }

  /**
   * When both values of column k occur among the rows in scope, each child
   * path keeps some but not all of them.
   */
  lemma ChildScopes(data: seq<Row>, schema: Schema, path: Path, k: nat)
    requires Ready(data, schema, path) && k < schema.attribCnt - 1
    requires Tabulate(Scope(data, path), k).zeroZero + Tabulate(Scope(data, path), k).zeroOne > 0
    requires Tabulate(Scope(data, path), k).oneZero + Tabulate(Scope(data, path), k).oneOne > 0
    ensures Ready(data, schema, path + [(k, 0)]) && Ready(data, schema, path + [(k, 1)])
    ensures |Scope(data, path + [(k, 0)])| < |Scope(data, path)|
    ensures |Scope(data, path + [(k, 1)])| < |Scope(data, path)|
  {
    BranchSizes(Scope(data, path), schema.attribCnt, k);
    ScopeExtend(data, path, k, 0);
    ScopeExtend(data, path, k, 1);
    assert forall j :: 0 <= j < |path| ==> (path + [(k, 0)])[j] == path[j] && (path + [(k, 1)])[j] == path[j];
  }

  /**
   * The counters of every column over `rows`, one distinct Attribute object
   * per column; no object before the first row is counted. Only the counter
   * fields are read.
   */
  ghost predicate Tallied(bucket: map<nat, Attribute>, rows: seq<Row>, width: nat)
    reads bucket.Values`zeroZero, bucket.Values`zeroOne, bucket.Values`oneZero, bucket.Values`oneOne
  {
    && WellFormed(rows, width)
    && (forall i :: i in bucket ==> i < width)
    && (forall i, j :: i in bucket && j in bucket && i != j ==> bucket[i] != bucket[j])
    && (|rows| == 0 ==> bucket == map[])
    && (|rows| > 0 ==> forall i :: 0 <= i < width ==> i in bucket && bucket[i].Tally() == Tabulate(rows, i))
  }

  /** Tallied part-way through counting `row`: the columns below `upTo` have counted it. */
  ghost predicate TalliedUpTo(bucket: map<nat, Attribute>, rows: seq<Row>, row: Row, width: nat, upTo: nat)
    reads bucket.Values`zeroZero, bucket.Values`zeroOne, bucket.Values`oneZero, bucket.Values`oneOne
  {
    && WellFormed(rows, width) && WellFormedRow(row, width)
    && (forall i :: i in bucket ==> i < width)
    && (forall i, j :: i in bucket && j in bucket && i != j ==> bucket[i] != bucket[j])
    && (forall i :: 0 <= i < upTo && i < width ==> i in bucket && bucket[i].Tally() == Tabulate(rows + [row], i))
    && (forall i :: upTo <= i < width ==>
          if |rows| == 0 then i !in bucket else i in bucket && bucket[i].Tally() == Tabulate(rows, i))
  }

  /** Every record in the bucket carries the name of its column, as it was given on creation. */
  ghost predicate NamedAfter(bucket: map<nat, Attribute>, schema: Schema)
  {
    forall i :: i in bucket ==> i in schema.indexToName && bucket[i].name == schema.indexToName[i]
  }

  /** The path loop of FindBestGain: a row is skipped when some constraint of the path fails. */
  method SkipRow(row: Row, path: Path, width: nat) returns (skip: bool)
    requires WellFormedRow(row, width) && PathFits(path, width)
    ensures skip <==> !Matches(row, path)
  {
    skip := false;
    for j := 0 to |path|
      invariant skip <==> !Matches(row, path[..j])
    {
      assert path[..j + 1] == path[..j] + [path[j]];
      MatchesExtend(row, path[..j], path[j].0, path[j].1);
      MatchesOne(row, path[j].0, path[j].1);
      var (attIndex, val) := path[j];
      if IntOf(row[attIndex]) != val {
        skip := true;
      }
    }
    assert path[..|path|] == path;
  }

  /**
   * The column loop of FindBestGain: every column's Attribute, created on
   * first use with the column's name, counts the row's cell together with
   * its class cell.
   */
  method CountRow(bucket: map<nat, Attribute>, ghost rows: seq<Row>, row: Row, schema: Schema)
    returns (counted: map<nat, Attribute>)
    requires Named(schema) && Tallied(bucket, rows, schema.attribCnt) && WellFormedRow(row, schema.attribCnt)
    requires NamedAfter(bucket, schema)
    modifies bucket.Values
    ensures Tallied(counted, rows + [row], schema.attribCnt)
    ensures NamedAfter(counted, schema)
    ensures forall i :: i in counted ==> (i in bucket && counted[i] == bucket[i]) || fresh(counted[i])
  {
    counted := bucket;
    for i := 0 to |row|
      invariant TalliedUpTo(counted, rows, row, schema.attribCnt, i)
      invariant NamedAfter(counted, schema)
      invariant forall k :: k in counted ==> (k in bucket && counted[k] == bucket[k]) || fresh(counted[k])
    {
      counted := CountCell(counted, rows, row, schema, i);
    }
  }

  /**
   * TalliedUpTo `i`, with the record of column `i` present: it holds the
   * counters of `rows`, before `row`.
   */
  ghost predicate Prepared(bucket: map<nat, Attribute>, rows: seq<Row>, row: Row, width: nat, i: nat)
    reads bucket.Values`zeroZero, bucket.Values`zeroOne, bucket.Values`oneZero, bucket.Values`oneOne
  {
    && WellFormed(rows, width) && WellFormedRow(row, width) && i < width
    && (forall k :: k in bucket ==> k < width)
    && (forall j, k :: j in bucket && k in bucket && j != k ==> bucket[j] != bucket[k])
    && i in bucket && bucket[i].Tally() == Tabulate(rows, i)
    && (forall k :: 0 <= k < i ==> k in bucket && bucket[k].Tally() == Tabulate(rows + [row], k))
    && (forall k :: i < k < width ==>
          if |rows| == 0 then k !in bucket else k in bucket && bucket[k].Tally() == Tabulate(rows, k))
  }

  /**
   * One pass of the column loop: the record of column `i`, created with the
   * column's name when missing, counts the row; the other records are
   * unchanged.
   */
  method CountCell(bucket: map<nat, Attribute>, ghost rows: seq<Row>, row: Row, schema: Schema, i: nat)
    returns (counted: map<nat, Attribute>)
    requires Named(schema) && i < schema.attribCnt && TalliedUpTo(bucket, rows, row, schema.attribCnt, i)
    requires NamedAfter(bucket, schema)
    modifies bucket.Values
    ensures TalliedUpTo(counted, rows, row, schema.attribCnt, i + 1)
    ensures NamedAfter(counted, schema)
    ensures forall k :: k in counted ==> (k in bucket && counted[k] == bucket[k]) || fresh(counted[k])
  {
    counted := RecordFor(bucket, rows, row, schema, i);
    Observe(counted, rows, row, schema.attribCnt, i);
  }

  /**
   * The lookup of column `i`'s record: the one in the bucket, or a new one
   * named after the column and added to the bucket when there is none.
   */
  method RecordFor(bucket: map<nat, Attribute>, ghost rows: seq<Row>, row: Row, schema: Schema, i: nat)
    returns (counted: map<nat, Attribute>)
    requires Named(schema) && i < schema.attribCnt && TalliedUpTo(bucket, rows, row, schema.attribCnt, i)
    requires NamedAfter(bucket, schema)
    ensures Prepared(counted, rows, row, schema.attribCnt, i)
    ensures NamedAfter(counted, schema)
    ensures forall k :: k in counted ==> (k in bucket && counted[k] == bucket[k]) || fresh(counted[k])
  {
    if i in bucket {
      counted := bucket;
    } else {
      var a := new Attribute(schema.indexToName[i]);
      assert a.name == schema.indexToName[i];
      counted := bucket[i := a];
    }
  }

  /** The record of column `i` counts the row's cell `i` with its class cell; no other record changes. */
  method Observe(counted: map<nat, Attribute>, ghost rows: seq<Row>, row: Row, width: nat, i: nat)
    requires Prepared(counted, rows, row, width, i)
    modifies counted[i]
    ensures TalliedUpTo(counted, rows, row, width, i + 1)
  {
    TabulateSnoc(rows, row, i);
    counted[i].AddNewData(row[i], row[|row| - 1]);
    forall k | k in counted && k != i
      ensures counted[k].Tally() == old(counted[k].Tally())
    {
      assert counted[k] != counted[i];
    }
  }

  /** The row loop of FindBestGain: every column counted over the rows in scope. */
  method CountScope(data: seq<Row>, schema: Schema, path: Path) returns (bucket: map<nat, Attribute>)
    requires Named(schema) && WellFormed(data, schema.attribCnt) && PathFits(path, schema.attribCnt)
    ensures Tallied(bucket, Scope(data, path), schema.attribCnt)
    ensures NamedAfter(bucket, schema)
    ensures forall i :: i in bucket ==> fresh(bucket[i])
  {
    bucket := map[];
    ghost var seen: seq<Row> := [];
    assert Tallied(bucket, seen, schema.attribCnt);
    hide Tallied;
    for r := 0 to |data|
      invariant seen == Scope(data[..r], path)
      invariant Tallied(bucket, seen, schema.attribCnt)
      invariant NamedAfter(bucket, schema)
      invariant forall i :: i in bucket ==> fresh(bucket[i])
    {
      var row := data[r];
      assert row in data;
      ScopePrefix(data, r, path);
      var skip := SkipRow(row, path, schema.attribCnt);
      if !skip {
        bucket := CountRow(bucket, seen, row, schema);
        seen := seen + [row];
      }
    }
    assert data[..|data|] == data;
  }

  /**
   * The gains loop of FindBestGain: the information gain of every candidate
   * column, in column order; the counters do not change.
   */
  method ComputeGains(log2: real -> real, bucket: map<nat, Attribute>, ghost rows: seq<Row>, width: nat)
    returns (gains: seq<real>)
    requires width >= 1 && |rows| > 0 && Tallied(bucket, rows, width)
    modifies bucket.Values`totalEntropy, bucket.Values`zeroEntropy, bucket.Values`oneEntropy, bucket.Values`gain
    ensures gains == Gains(log2, rows, width, width - 1)
    ensures Tallied(bucket, rows, width)
  {
    hide Gain;
    gains := [];
    for i := 0 to width - 1
      invariant gains == Gains(log2, rows, width, i)
      invariant Tallied(bucket, rows, width)
    {
      if i in bucket {
        TabulateCountsRows(rows, width, i);
        assert bucket[i].Tally() == Tabulate(rows, i);
        bucket[i].CalcInformationGain(log2);
        assert bucket[i].gain == GainAt(log2, rows, width, i);
        GainsSnoc(log2, rows, width, i);
        gains := gains + [bucket[i].gain];
      } else {
        assert false;
      }
    }
  }

  /**
   * FindBestGain: counts every column over the rows in scope, computes the
   * gains of the candidate columns and decides as `Decide` says. The result is
   * (-1, class value) for a leaf and (column, -1) for a split.
   */
  method FindBestGain(log2: real -> real, useChiSquare: bool, data: seq<Row>, schema: Schema, path: Path)
    returns (nodeToSplit: int, yValue: int)
    requires Ready(data, schema, path)
    ensures nodeToSplit < 0 ==> nodeToSplit == -1 && Decide(log2, useChiSquare, data, schema, path) == LeafDecision(yValue)
    ensures nodeToSplit >= 0 ==> yValue == -1 && Decide(log2, useChiSquare, data, schema, path) == SplitOn(nodeToSplit)
  {
    hide Decide, Choose, Gain;
    var cnt := schema.attribCnt;
    ghost var rows := Scope(data, path);
    var bucket := CountScope(data, schema, path);
    var gains := ComputeGains(log2, bucket, rows, cnt);
    ghost var tallies := Tallies(rows, cnt);
    nodeToSplit, yValue := Resolve(useChiSquare, |path| > 0, gains, bucket, tallies);
    DecideFromParts(log2, useChiSquare, data, schema, path, gains, tallies);
  }

  /** The decision part of FindBestGain, over the computed gains and counters. */
  method Resolve(useChiSquare: bool, belowRoot: bool, gains: seq<real>, bucket: map<nat, Attribute>, ghost tallies: seq<Counts>)
    returns (nodeToSplit: int, yValue: int)
    requires |gains| > 0 && |tallies| == |gains| + 1
    requires forall i :: 0 <= i < |tallies| ==> i in bucket && bucket[i].Tally() == tallies[i]
    ensures nodeToSplit < 0 ==> nodeToSplit == -1 && Choose(useChiSquare, belowRoot, gains, tallies) == LeafDecision(yValue)
    ensures nodeToSplit >= 0 ==> yValue == -1 && Choose(useChiSquare, belowRoot, gains, tallies) == SplitOn(nodeToSplit)
  {
    var maxGain := MaxOf(gains);
    if maxGain == 0.0 {
      var yClass := bucket[|gains|];
      if yClass.oneOne > 0 {
        return -1, 1;
      } else {
        return -1, 0;
      }
    } else {
      var gainIndex := FirstIndex(gains, maxGain);
      var passedTest: bool;
      if belowRoot {
        passedTest := ChiSquaredTest(useChiSquare, bucket[gainIndex].Tally());
      } else {
        passedTest := true;
      }
      if !passedTest {
        var attrib := bucket[gainIndex];
        if attrib.zeroZero + attrib.oneZero >= attrib.zeroOne + attrib.oneOne {
          return -1, 0;
        } else {
          return -1, 1;
        }
      } else {
        return gainIndex, -1;
      }
    }
  }
}
