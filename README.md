# ID3 decision trees over binary data, and the Naive Bayes attribute record

This project models the core of a small machine-learning repository in
Dafny. It covers:

- the ID3 learner for data whose attributes and class are all `0`/`1`;
- the count-keeping `Attribute` record that ID3 and Naive Bayes each use.

ID3 grows a decision tree from training rows. For each node it does the
following:

- It keeps the training rows that satisfy the node's path. A path is a
  list of (column index, value) constraints collected on the way down from
  the root.
- It counts, for every column, the four (attribute value, class value)
  combinations over those rows.
- It computes each candidate column's information gain, rounded to 12
  decimal places, and takes the maximum, preferring the first column on
  ties.
- It then does one of three things:
  - makes a leaf when the best gain is 0;
  - below the root, makes a majority-class leaf when the best column fails
    a 2x2 chi-squared test at 6.635;
  - otherwise splits on that column and recurses into the two child paths
    `path + [(k, 0)]` and `path + [(k, 1)]`.

The learned tree is then used in two ways. `TestRowAgainstTree` and
`TestData` classify test rows and count how many are predicted correctly.
`PrintTree` renders the tree as indented text.

The Naive Bayes `Attribute` keeps the same four counters. From them it
computes six smoothed probability estimates, each clamped to [0, 1].

Files and modules:

- `contingency.dfy` (`Contingency`): the four counters as a value, and how
  one row updates them.
- `entropy.dfy` (`Entropy`):
  - the entropy and gain arithmetic;
  - Python 2's `round(x, 12)`;
  - the structural facts of when a gain is exactly 0.
- `id3_attribute.dfy` (`Id3Attribute`): the ID3 `Attribute` class. Its
  methods update its fields in place. Each method is proved against the
  `Entropy` functions.
- `dataset.dfy` (`Dataset`):
  - rows, paths, and the rows in scope at a node (`Scope`);
  - per-column counters (`Tabulate`) and the facts that tie them to row
    counts;
  - the header maps built by `LoadAttributeDict`.
- `selection.dfy` (`Selection`):
  - the pure specification of split selection and the chi-squared test
    (`Choose` and `Decide`);
  - the imperative `FindBestGain`, which uses loops and a map of `Attribute`
    objects and is proved to return what `Decide` says.
- `tree.dfy` (`Trees`):
  - the `Tree` node class with its child-attachment methods;
  - the `DecisionTree` value that a valid linked structure represents.
- `id3.dfy` (`Id3`):
  - `Grow`, the specification of `BuildTree`;
  - the imperative `BuildTree`, which links new `Tree` objects and is proved
    to build the tree `Grow` describes;
  - lemmas about the grown tree: shape, depth bounds, and pruning by the
    chi-squared test;
  - classification, evaluation (`TestData`) and rendering (`PrintTree`).
- `nb_attribute.dfy` (`NaiveBayesAttribute`): the Naive Bayes `Attribute`
  class and the properties of its estimates.

Modelling choices:

- The module globals of `id3.py` are explicit parameters:
  - the training rows (`data`);
  - the header maps and column count (`schema`);
  - the chi-squared switch (`useChiSquare`);
  - the logarithm (`log2`).
- `log2` is an uninterpreted function parameter. No proof depends on its
  values.
- Python floats are exact reals.
- `round(x, 12)` is written out exactly: halves round away from zero, as in
  Python 2.
- `LoadAttributeDict` stores index→name and name→index in one dictionary.
  The model keeps them as two maps.
- Every internal node also stores its column index.
  - `Classify` looks the column up by the node's name, as
    `TestRowAgainstTree` does.
  - `Predict` uses the stored index.
  - `Id3.ClassifyByStoredIndex` proves the two agree when the header names
    are distinct.

Three behaviours of the code are worth stating because a reader might expect otherwise:

- **Zero-gain leaf.** When the best gain is 0, the leaf predicts 1 exactly
  when at least one row in scope has class 1. The code reads this from the
  `one_one` counter of the class column, so this is not a majority vote
  (`Selection.ZeroGainLeaf`).
- **Columns already on the path.** They are not removed from the candidates.
  They are still scored, and `Selection.NoRepeatedSplit` proves they are
  never chosen, because their gain is 0.
- **Empty scope.** The code fails on a node with no rows in scope (a
  `KeyError` at `ID3/id3.py:121`). The model instead:
  - requires a non-empty scope at the root (`Ready`);
  - proves every split leaves both children non-empty
    (`Selection.SplitNarrows`).

## Model

| member | source | states |
|---|---|---|
| Contingency.AccumulateCells | ID3/attribute.py:23-33 | With both tokens "0" or "1", exactly the counter those two tokens select grows by one. Any other token leaves all four counters unchanged. The total grows by one exactly for a well-formed pair. |
| Contingency.Accumulate | ID3/attribute.py:23-33 | Defines one observation: the counter named by the two tokens "0"/"1" grows by one, and any other token leaves the counters as they are. |
| Id3Attribute.Attribute.constructor | ID3/attribute.py:12-21 | A fresh attribute has its name, all four counters 0, and both entropies and its gain at 0.0. |
| Id3Attribute.Attribute.AddNewData | ID3/attribute.py:23-33 | The counters become the old counters after one observation (`Accumulate`). Only the counters may change. |
| Id3Attribute.Attribute.CalcTotalEntropy | ID3/attribute.py:52-59 | The total entropy is the entropy of the class marginals (zz+oz, zo+oo) over all counted rows. |
| Id3Attribute.Attribute.CalcZeroEntropy | ID3/attribute.py:61-68 | The zero entropy uses only the attribute=0 counters (zz, zo). |
| Id3Attribute.Attribute.CalcOneEntropy | ID3/attribute.py:70-77 | The one entropy uses only the attribute=1 counters (oz, oo). |
| Id3Attribute.Attribute.CalcGain | ID3/attribute.py:88-95 | It needs at least one counted row. The gain is the 12-place rounding of the stored total entropy, less the zero and one entropies weighted by their branch shares. |
| Id3Attribute.Attribute.CalcInformationGain | ID3/attribute.py:43-50 | The three entropies and the gain are those of the unchanged counters, and the gain depends only on them. |
| Entropy.GainIsRoundedWeightedGain | ID3/attribute.py:88-95 | Unfolds `Gain`: the gain of a non-empty table is the 12-place rounding of its weighted gain over the total, zero and one entropies. |
| Entropy.CalcEntropy | ID3/attribute.py:79-86 | Defines the binary entropy −(p0·log2 p0 + p1·log2 p1) of a split into zeroes and ones, which is 0 when the total or either part is 0. |
| Entropy.Round12 | ID3/attribute.py:95 | Defines Python 2's `round(x, 12)`: the nearest multiple of 10^-12, with halves rounded away from zero. |
| Entropy.Round12Zero | ID3/attribute.py:95 | Rounding to 12 places gives 0 exactly when the absolute value is below 5·10^-13, and it keeps the sign. |
| Entropy.ZeroGainCases | ID3/attribute.py:56-95 | The gain is exactly 0 when either attribute branch is empty, and when every counted row has the same class. |
| Entropy.EmptyBranchCancels | ID3/attribute.py:56-95 | With one branch empty, the unrounded gain is exactly 0. The other branch has weight 1 and the entropy of the whole. |
| Entropy.PureClassEntropies | ID3/attribute.py:79-86 | When all counted rows share one class, the total, zero and one entropies are all 0. |
| Entropy.NonZeroGainSplits | ID3/attribute.py:83-95 | A non-zero gain needs rows on both attribute branches and rows of both classes. |
| Dataset.Scope | ID3/id3.py:90-100 | A row is in scope exactly when it is a training row satisfying every (index, value) constraint of the path. The scope is no longer than the data. |
| Dataset.ScopeOfEmptyPath | ID3/id3.py:93 | The empty path keeps every row, in order. |
| Dataset.MatchesExtend | ID3/id3.py:94-98 | A row satisfies a path extended by one constraint exactly when it satisfies both parts. |
| Dataset.ScopeExtend | ID3/id3.py:90-100 | Adding (k, v) to the path selects, from the parent's scope, the rows whose cell k reads as v. |
| Dataset.Tabulate | ID3/id3.py:101-105 | Defines a column's counters over a list of rows: every row's (cell, class cell) pair observed in turn by `Accumulate`, starting from all zeros. |
| Dataset.TabulateSnoc | ID3/id3.py:101-105 | Unfolds `Tabulate` at its far end: one more row at the end adds its (cell, class) observation to a column's counters. |
| Dataset.BranchSizes | ID3/id3.py:101-105 | Over well-formed rows, a column's counters sum to the number of rows. The attribute=0 and attribute=1 counters count the rows whose cell is 0 and 1. |
| Dataset.ClassSizes | ID3/id3.py:101-105 | The class=0 and class=1 counters of any column count the rows of class 0 and class 1. |
| Dataset.ClassColumn | ID3/id3.py:105 | The class column counted against itself fills only zeroZero (the class-0 rows) and oneOne (the class-1 rows). |
| Dataset.ClassPresent | ID3/id3.py:121-125 | The class column's oneOne counter is positive exactly when some row has class 1. |
| Dataset.LoadAttributeDict | ID3/id3.py:156-161 | Column i is named attributes[i]. A name maps to the last column carrying it. With distinct names each name maps back to its own column and the two maps agree. |
| Selection.MarginalsPositive | ID3/id3.py:60-61 | The product of the four marginals is positive exactly when none of them is 0. |
| Selection.ChiSquaredCriterion | ID3/id3.py:60-68 | The statistic exceeds 6.635 exactly when every marginal is positive and the integer criterion holds: 1000·(ad−bc)²·n > 6635·(a+b)(c+d)(b+d)(a+c). |
| Selection.ChiSquaredTest | ID3/id3.py:48-71 | Defines the test: it passes when switched off, and otherwise exactly when the 2x2 chi-squared statistic of the counters exceeds 6.635. |
| Selection.ChiSquaredTestCriterion | ID3/id3.py:48-71 | The test passes exactly when it is switched off, or when every marginal is non-zero and the integer criterion holds. A statistic equal to 6.635 fails. |
| Selection.ChiThresholdExamples | ID3/id3.py:63-71 | A table with a statistic of about 6.43 fails the test, and one with 6.875 passes. |
| Selection.MaxOf | ID3/id3.py:118 | `max` returns an element of the list that no element exceeds. |
| Selection.FirstIndex | ID3/id3.py:132 | `list.index` returns a position of the value, and no earlier position holds it. |
| Selection.BestIndex | ID3/id3.py:117-132 | The chosen column is a candidate, never the class column. Its gain over the rows in scope is the maximum of the gains list, whose entry j is column j's gain (`Gains`), and every earlier column's gain is strictly smaller. |
| Selection.Choose | ID3/id3.py:117-148 | A split is on the first index of the maximum gain, and that gain is not 0. A leaf predicts 0 or 1. |
| Selection.Decide | ID3/id3.py:81-148 | Defines FindBestGain's decision: `Choose` applied to the candidate gains and the counters of every column over the rows in scope, with the test applied only below the root. |
| Selection.DecideIsBest | ID3/id3.py:108-148 | A split is on the lowest-numbered column of maximum, non-zero gain over the rows in scope. A leaf predicts 0 or 1. |
| Selection.ZeroGainLeaf | ID3/id3.py:119-128 | With best gain 0, the result is a leaf predicting 1 exactly when some row in scope has class 1. |
| Selection.PureColumnGainZero | ID3/id3.py:107-115 | Over rows of a single class, every column has gain 0. |
| Selection.PureScopeIsLeaf | ID3/id3.py:119-128 | When every row in scope has class v, the decision is a leaf predicting v. |
| Selection.ChiFailLeaf | ID3/id3.py:139-145 | Below the root, a best column that fails the test gives a leaf predicting 0 when the class-0 rows are at least as many as the class-1 rows, and 1 otherwise. |
| Selection.SplitWhenTestPasses | ID3/id3.py:130-148 | A non-zero best gain splits on the best column in three cases: at the root, with the test off, or when the test passes. |
| Selection.ChiSquareOnlyPrunes | ID3/id3.py:134-145 | Switching the test off never turns a split into a leaf. Any leaf found with the test off is found with it on. |
| Selection.NoRepeatedSplit | ID3/id3.py:90-132 | A column already constrained on the path is never chosen for a split. |
| Selection.SplitNarrows | ID3/id3.py:37-43 | A split's column is a candidate. Both child paths keep some row, and each keeps strictly fewer rows than the node. |
| Selection.SkipRow | ID3/id3.py:91-100 | The path loop skips a row exactly when the row fails some constraint. |
| Selection.CountRow | ID3/id3.py:101-105 | After one in-scope row, every column's attribute record holds the counters of the rows seen so far plus that row, and stays named after its column. |
| Selection.CountCell | ID3/id3.py:102-105 | One pass of the column loop: columns before i have counted the row, column i's record (created if missing) counts it too, and later columns are untouched. Every record, old or new, carries the name the header gives its column (`NamedAfter`). |
| Selection.RecordFor | ID3/id3.py:103-104 | Afterwards column i has a record holding its counters over the earlier rows: the existing record, or a new `Attribute` when no earlier row created one. Every record is the old one or a new one, and every record carries its column's name from the header (`NamedAfter`). |
| Selection.Observe | ID3/id3.py:105 | Column i's record counts the row's (cell i, class cell) pair, and no other record changes. |
| Selection.CountScope | ID3/id3.py:86-105 | After the row loop, every column's record holds that column's counters over exactly the rows in scope, and is named after its column. |
| Selection.ComputeGains | ID3/id3.py:107-115 | The gains list built from the records has one entry per candidate column 0 .. attribCnt-2, and entry j is column j's gain over the rows in scope. The counters do not change. Every candidate column has a record, because the scope is non-empty and every row has attribCnt cells, so the `gains.append(0.0)` branch (`ID3/id3.py:115`) is never taken. |
| Selection.Resolve | ID3/id3.py:117-148 | It returns (-1, y) for a leaf decision y, and (k, -1) for a split on k, as the decision `Choose` takes over the computed gains and counters. |
| Selection.FindBestGain | ID3/id3.py:81-148 | It returns (-1, y) exactly when `Decide` gives a leaf with class y, and (k, -1) exactly when `Decide` splits on column k. |
| Trees.Tree.constructor | ID3/tree.py:10-18 | A new node has no children and no parent, `y_value`, `left_value` and `right_value` 0, and is not a leaf. |
| Trees.Tree.AddLeftChild | ID3/tree.py:20-25 | `left` becomes the given tree and its parent becomes this node. The right child, name, class value, leaf flag and both values are unchanged. This node's own parent is unchanged too when the given tree is not this node itself. |
| Trees.Tree.AddRightChild | ID3/tree.py:27-32 | `right` becomes the given tree and its parent becomes this node. Everything else is unchanged, as for the left child, including this node's own parent when the given tree is not this node itself. |
| Id3.Grow | ID3/id3.py:19-46 | Defines the tree BuildTree grows for a path: a leaf for a leaf decision; for a split on k, a node for column k over the trees of `path + [(k, 0)]` and `path + [(k, 1)]`. |
| Id3.GrowStep | ID3/id3.py:25-44 | A leaf decision grows a leaf with that class. A split on k grows a node named after column k, with the tree of `path + [(k, 0)]` on the left and of `path + [(k, 1)]` on the right. |
| Id3.NewLeaf | ID3/id3.py:29-31 | A new valid node named "leaf", marked a leaf, with the given class value. |
| Id3.BuildSplit | ID3/id3.py:33-44 | A new node for column k whose left and right subtrees are built for the two child paths. The node and both subtrees are new and valid. |
| Id3.BuildTree | ID3/id3.py:19-46 | The returned node and everything below it are new and form a valid tree whose value is `Grow` of the path. So every internal node has two children. |
| Id3.GrowIsWellGrown | ID3/id3.py:25-44 | In a grown tree every leaf predicts 0 or 1. Every split is on a named candidate column that no ancestor split on. |
| Id3.WellGrownDepth | ID3/id3.py:25-44 | A well-grown tree is no deeper than the number of unconstrained candidate columns. |
| Id3.DepthBound | ID3/id3.py:19-46 | The tree learned from the whole training set tests at most attribCnt-1 columns on any root-to-leaf path. |
| Id3.DepthBelowRows | ID3/id3.py:37-43 | Every split separates the rows in scope, so the tree's depth is less than its number of rows in scope. |
| Id3.PureScopeGrowsLeaf | ID3/id3.py:25-31 | When all rows in scope share class v, BuildTree's tree is the single leaf v. |
| Id3.PrunesIsSmaller | ID3/id3.py:139-145 | A tree cut back at some nodes has no more internal nodes and is no deeper. |
| Id3.ChiSquareGrowsPruned | ID3/id3.py:134-145 | The tree grown with the chi-squared test is the tree grown without it, cut back to leaves at some nodes. |
| Id3.ChiSquareNeverGrows | ID3/id3.py:134-145 | The test never makes the tree larger or deeper. |
| Id3.GrowRoutes | ID3/id3.py:262-271 | A training row in scope reaches a leaf whose path keeps it in scope. The class predicted there is the leaf decision over exactly the rows in scope at that leaf. |
| Id3.RouteThroughNode | ID3/id3.py:268-271 | Unfolds `LeafPath` and `Predict` at one node: the path to the leaf and the prediction continue in the right child when the row's cell reads 1, and in the left child otherwise. |
| Id3.Classify | ID3/id3.py:257-271 | Defines the prediction of TestRowAgainstTree: a leaf's class, or the right subtree's prediction when the row's cell under the node's name reads 1, and the left's otherwise. |
| Id3.ClassifyByStoredIndex | ID3/id3.py:268 | When the two header maps agree, looking a node's column up by name gives the column it stores. So on a grown tree, classifying by name and predicting by index agree. |
| Id3.TestRowAgainstTree | ID3/id3.py:257-271 | True exactly when the tree's prediction equals the row's class cell. At a leaf it compares the leaf's class; at a node it goes right on 1 and left on anything else. |
| Id3.CountCorrect | ID3/id3.py:248-253 | The number of correctly predicted rows is at most the number of rows. |
| Id3.CountCorrectAll | ID3/id3.py:248-253 | All rows count as correct exactly when the tree predicts every one of them correctly. |
| Id3.TestData | ID3/id3.py:243-253 | Returns the number of correctly predicted test rows and the number of test rows, so correct ≤ total. |
| Id3.Lines | ID3/id3.py:205-229 | Defines the lines PrintTree writes for a node at depth d: its " = 0 : " side, then its " = 1 : " side. A leaf child ends its side's line with the class, and a node child adds its own lines at depth d+1. |
| Id3.TextAppend | ID3/id3.py:205-229 | The text of two runs of lines is the concatenation of their texts. |
| Id3.LinesCount | ID3/id3.py:205-229 | PrintTree writes two lines per internal node. |
| Id3.LinesIndented | ID3/id3.py:209-220 | Every line written for a node at depth d starts with d indentation marks "\| ". |
| Id3.AppendIndent | ID3/id3.py:209-210 | The indentation loop appends exactly d copies of "\| ". |
| Id3.PrintSide | ID3/id3.py:212-217 | One side of a node: the indentation, then name and tag. For a leaf child that is followed by the class and a line break; for a node child, by a line break and the child's lines one level deeper. |
| Id3.PrintTree | ID3/id3.py:205-229 | Appends to the given text the lines of the subtree at the given depth: the " = 0 : " side, then the " = 1 : " side. |
| Id3.LeafRootExample | ID3/id3.py:278-281 | Training rows that all have class 1 grow a single leaf at the root, which TrainData then hands to PrintTree. |
| NaiveBayesAttribute.Clamp | NaiveBayes/attribute.py:40 | `min(max(x, 0.0), 1.0)` lies in [0, 1], is x on [0, 1], and is 0 below and 1 above. |
| NaiveBayesAttribute.Estimate | NaiveBayes/attribute.py:40-41 | Every smoothed estimate lies in [0, 1]. |
| NaiveBayesAttribute.PairSumsToOne | NaiveBayes/attribute.py:38-51 | In a pair the two numerators add up to the denominator. With both betas at least 1, neither estimate is clamped and the pair sums to 1. |
| NaiveBayesAttribute.UnitBetaFrequencies | NaiveBayes/attribute.py:38-51 | With both betas 1, the estimates are the plain frequencies of the two groups. |
| NaiveBayesAttribute.UnitBetaZeroDenominator | NaiveBayes/attribute.py:38-39 | With both betas 1, a denominator is 0 exactly when both of its groups are empty. |
| NaiveBayesAttribute.ClampExample | NaiveBayes/attribute.py:40-41 | With beta0 0.5 the ratio of an empty group is cut up to 0. A ratio above 1 is cut down to 1. |
| NaiveBayesAttribute.Attribute.constructor | NaiveBayes/attribute.py:8-19 | A fresh attribute has all four counters 0 and all six probabilities 0.0. |
| NaiveBayesAttribute.Attribute.AddNewData | NaiveBayes/attribute.py:21-31 | The counters become the old counters after one observation. Only the counters may change. |
| NaiveBayesAttribute.Attribute.CalculateProbabilities | NaiveBayes/attribute.py:33-51 | For each pair: a zero denominator leaves both fields as they were; otherwise each field becomes its group's clamped estimate. The prior pair uses zz+zo against oz+oo, the given-zero pair zz against oz, and the given-one pair zo against oo. Probabilities in [0, 1] stay there. |

## Left out

- File and command-line plumbing is not modelled. This covers `OpenFiles`, `CloseFiles`, `ParseInputArguments`, `ParseOptionalArguments`, `StoreFileData`, the header `readline` of `LoadAttributeDict`, the model-file write, and the debug prints. Rows arrive already split at their commas, and the options are parameters.
- The accuracy percentage and its print (`ID3/id3.py:255`) are left out because they are float formatting. They would need a non-empty test set, since they divide by `total`.
- `TrainData` is not a member of its own. Its substance is `BuildTree` on the empty path followed by `PrintTree`, and both are modelled.
- The `ToString` and `PrintAttribute` debug renderers are not modelled.
- `NaiveBayes/nb.py` is not part of this model. Its weights use `math.log` and `math.exp` with a ±99 sentinel, it keeps global state and it does file I/O. Its only count keeping is the attribute record, which is modelled.
- `log2` is a parameter. No property depends on the values of the logarithm, so there are no numeric bounds such as 0 ≤ entropy ≤ 1.
- Malformed input is a precondition, not an error path: `WellFormed` and `Ready` require every training row to have exactly attribCnt cells, each "0" or "1", and a non-empty scope at the root. On other input the source behaves as follows, and none of it is modelled:
  - `AddNewData` silently skips any pair with a token other than "0"/"1" (`ID3/attribute.py:23-33`, as `Contingency.Accumulate` models). Such a row is in scope but counted in no counter, so the gains are computed over fewer rows than the scope has.
  - The path filter reads cells with `int()` (`ID3/id3.py:96`). That accepts tokens such as "2" or " 1", which then fail every constraint or match 1 while `AddNewData` skips them. A non-integer token on a constrained column raises a `ValueError`, and a row too short for a path index raises an `IndexError`.
  - A row longer than the header raises a `KeyError` at `ID3/id3.py:104`, unless the extra index happens to be a column name. A row shorter than the header uses its own last cell as the class, and leaves later columns without a record, whose gain is then 0.0 (`ID3/id3.py:115`).
  - An empty scope raises a `KeyError` at `ID3/id3.py:121`.
- Ready: requires attribCnt ≥ 2. A header holding only the class column makes the gains list empty, and `max([])` raises a `ValueError` at `ID3/id3.py:118`.
- Python floats are modelled as exact reals. The chi-squared comparison with 6.635 (`ID3/id3.py:68`) and `round(x, 12)` (`ID3/attribute.py:95`) are computed in doubles by the source, so a statistic or a gain within rounding error of the threshold or of a rounding half can come out differently. `Selection.ChiSquaredTestCriterion` and `Entropy.Round12Zero` hold for the exact values.
- The `parent` back-references of `Tree` are set by `AddLeftChild` and `AddRightChild`, and `BuildTree` ensures the root's parent is null. `Tree.Valid` does not read a node's own `parent`, so the model does not capture upward navigation.
- Id3.PrintTree: requires a node that is not a leaf. The source reads `node.left.is_leaf` (`ID3/id3.py:213`), and a leaf has no left child. A training set of one class makes the root such a leaf, and `Id3.LeafRootExample` exhibits one.
- NaiveBayesAttribute.Attribute.CalculateProbabilities: the [0, 1] range is stated as preserved, not as unconditional. A pair with a zero denominator keeps its old values, which are in range because the constructor sets them to 0.0 and every estimate is clamped.
- Id3Attribute.Attribute.CalcGain: requires at least one counted row, because the source divides by the total count.
