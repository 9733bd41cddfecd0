/**
 * Tree growth, classification, evaluation and the printed model of
 * ID3/id3.py.
 *
 * `Grow` is the specification of BuildTree: the decision tree, as a value,
 * that BuildTree links together from Tree objects for the rows in scope at the
 * end of `path`. A split on column k has the subtree of `path + [(k, 0)]` on
 * its left and the subtree of `path + [(k, 1)]` on its right.
 */
module Id3 {
  import opened Contingency
  import opened Dataset
  import opened Selection
  import opened Trees

  /** The tree BuildTree grows below `path`; a split node carries its column's name and index. */
  function Grow(log2: real -> real, useChiSquare: bool, data: seq<Row>, schema: Schema, path: Path): DecisionTree
    requires Ready(data, schema, path)
    decreases |Scope(data, path)|
  {
    match Decide(log2, useChiSquare, data, schema, path)
    case LeafDecision(y) => Leaf(y)
    case SplitOn(k) =>
      SplitNarrows(log2, useChiSquare, data, schema, path, k);
      Node(schema.indexToName[k], k,
           Grow(log2, useChiSquare, data, schema, path + [(k, 0)]),
           Grow(log2, useChiSquare, data, schema, path + [(k, 1)]))
  }

  /**
   * One step of Grow: a leaf decision gives a leaf with that class value, a split
   * on k a node named after column k over the two child paths' trees.
   */
  lemma GrowStep(log2: real -> real, useChiSquare: bool, data: seq<Row>, schema: Schema, path: Path)
    requires Ready(data, schema, path)
    ensures Decide(log2, useChiSquare, data, schema, path).LeafDecision? ==>
      Grow(log2, useChiSquare, data, schema, path) == Leaf(Decide(log2, useChiSquare, data, schema, path).yValue)
    ensures Decide(log2, useChiSquare, data, schema, path).SplitOn? ==>
      var k := Decide(log2, useChiSquare, data, schema, path).index;
      && k < schema.attribCnt - 1
      && Ready(data, schema, path + [(k, 0)]) && Ready(data, schema, path + [(k, 1)])
      && |Scope(data, path + [(k, 0)])| < |Scope(data, path)|
      && |Scope(data, path + [(k, 1)])| < |Scope(data, path)|
      && Grow(log2, useChiSquare, data, schema, path) ==
           Node(schema.indexToName[k], k,
                Grow(log2, useChiSquare, data, schema, path + [(k, 0)]),
                Grow(log2, useChiSquare, data, schema, path + [(k, 1)]))
  {
    match Decide(log2, useChiSquare, data, schema, path)
    case LeafDecision(_) =>
    case SplitOn(k) =>
      SplitNarrows(log2, useChiSquare, data, schema, path, k);
  }

  /** A leaf decision grows a leaf with the decided class value. */
  lemma GrowLeaf(log2: real -> real, useChiSquare: bool, data: seq<Row>, schema: Schema, path: Path, y: int)
    requires Ready(data, schema, path) && Decide(log2, useChiSquare, data, schema, path) == LeafDecision(y)
    ensures Grow(log2, useChiSquare, data, schema, path) == Leaf(y)
  {
    GrowStep(log2, useChiSquare, data, schema, path);
  }

  /** A split on k grows a node over the trees of the two child paths, which are ready and smaller. */
  lemma GrowSplit(log2: real -> real, useChiSquare: bool, data: seq<Row>, schema: Schema, path: Path, k: nat)
    requires Ready(data, schema, path) && Decide(log2, useChiSquare, data, schema, path) == SplitOn(k)
    ensures k < schema.attribCnt - 1 && Named(schema)
    ensures Ready(data, schema, path + [(k, 0)]) && Ready(data, schema, path + [(k, 1)])
    ensures |Scope(data, path + [(k, 0)])| < |Scope(data, path)| && |Scope(data, path + [(k, 1)])| < |Scope(data, path)|
    ensures Grow(log2, useChiSquare, data, schema, path) ==
      Node(schema.indexToName[k], k,
           Grow(log2, useChiSquare, data, schema, path + [(k, 0)]),
           Grow(log2, useChiSquare, data, schema, path + [(k, 1)]))
  {
    GrowStep(log2, useChiSquare, data, schema, path);
  }

  /**
   * BuildTree: a leaf node named "leaf" with the class value FindBestGain
   * returns, or a node named after the split column whose left child is built
   * for `path + [(k, 0)]` and right child for `path + [(k, 1)]`. The nodes
   * are all new and the structure is the tree `Grow` describes.
   */
  method BuildTree(log2: real -> real, useChiSquare: bool, data: seq<Row>, schema: Schema, path: Path)
    returns (trainingTree: Tree)
    requires Ready(data, schema, path)
    ensures trainingTree.Valid() && fresh(trainingTree.Repr) && trainingTree.parent == null
    ensures trainingTree.Model == Grow(log2, useChiSquare, data, schema, path)
    decreases |Scope(data, path)|, 1
  {
    var nodeToSplit, yValue := FindBestGain(log2, useChiSquare, data, schema, path);
    if nodeToSplit < 0 {
      GrowLeaf(log2, useChiSquare, data, schema, path, yValue);
      trainingTree := NewLeaf(yValue);
    } else {
      GrowSplit(log2, useChiSquare, data, schema, path, nodeToSplit);
      trainingTree := BuildSplit(log2, useChiSquare, data, schema, path, nodeToSplit);
    }
  }

  /** The leaf branch of BuildTree: a new node named "leaf", marked a leaf, with class value y. */
  method NewLeaf(y: int) returns (trainingTree: Tree)
    ensures trainingTree.Valid() && fresh(trainingTree.Repr) && trainingTree.parent == null
    ensures trainingTree.isLeaf && trainingTree.name == "leaf" && trainingTree.yValue == y
    ensures trainingTree.Model == Leaf(y)
  {
    trainingTree := new Tree("leaf");
    trainingTree.yValue := y;
    trainingTree.isLeaf := true;
    trainingTree.Model := Leaf(y);
  }

  /** The split branch of BuildTree: a node for column k over the trees of the two child paths. */
  method BuildSplit(log2: real -> real, useChiSquare: bool, data: seq<Row>, schema: Schema, path: Path, k: nat)
    returns (trainingTree: Tree)
    requires k < schema.attribCnt - 1 && Named(schema)
    requires Ready(data, schema, path + [(k, 0)]) && Ready(data, schema, path + [(k, 1)])
    requires |Scope(data, path + [(k, 0)])| < |Scope(data, path)| && |Scope(data, path + [(k, 1)])| < |Scope(data, path)|
    ensures trainingTree.Valid() && fresh(trainingTree.Repr) && trainingTree.parent == null
    ensures trainingTree.Model == Node(schema.indexToName[k], k,
                                       Grow(log2, useChiSquare, data, schema, path + [(k, 0)]),
                                       Grow(log2, useChiSquare, data, schema, path + [(k, 1)]))
    decreases |Scope(data, path)|, 0
  {
    hide Grow;
    hide Tree.Valid;
    trainingTree := new Tree(schema.indexToName[k]);
    var leftTree := BuildTree(log2, useChiSquare, data, schema, path + [(k, 0)]);
    assert trainingTree !in leftTree.Repr;
    trainingTree.AddLeftChild(leftTree);
    assert leftTree.Valid();
    var rightTree := BuildTree(log2, useChiSquare, data, schema, path + [(k, 1)]);
    assert trainingTree !in rightTree.Repr && leftTree.Repr !! rightTree.Repr;
    trainingTree.AddRightChild(rightTree);
    assert rightTree.Valid();
    assert leftTree.Valid();
    Seal(trainingTree, k);
  }

  /** Ghost bookkeeping after both children are attached: the node's set of nodes and its model. */
  ghost method Seal(node: Tree, k: nat)
    requires node.left != null && node.right != null && node.left != node && node.right != node
    requires node.left.Valid() && node.right.Valid() && node.left.Repr !! node.right.Repr
    requires node !in node.left.Repr && node !in node.right.Repr
    requires node.left.parent == node && node.right.parent == node && !node.isLeaf
    modifies node`Repr, node`Model
    ensures node.Valid() && node.Repr == {node} + node.left.Repr + node.right.Repr
    ensures node.Model == Node(node.name, k, node.left.Model, node.right.Model)
  {
    node.Repr := {node} + node.left.Repr + node.right.Repr;
    node.Model := Node(node.name, k, node.left.Model, node.right.Model);
  }

  /** The columns a path constrains. */
  function Columns(path: Path): set<nat>
  {
    set j | 0 <= j < |path| :: path[j].0
  }

  lemma ColumnsSnoc(path: Path, k: nat, v: int)
    ensures Columns(path + [(k, v)]) == Columns(path) + {k}
  {
    var p := path + [(k, v)];
    assert p[|path|].0 == k;
    forall c | c in Columns(path) ensures c in Columns(p) {
      var j :| 0 <= j < |path| && path[j].0 == c;
      assert p[j] == path[j];
    }
  }

  /**
   * The shape of a grown tree below a node whose path constrains `used`: every
   * leaf predicts 0 or 1, every split is on a candidate column (never the
   * class column) that no ancestor split on, and carries that column's name.
   */
  predicate WellGrown(t: DecisionTree, schema: Schema, used: set<nat>)
  {
    match t
    case Leaf(y) => y in {0, 1}
    case Node(name, k, l, r) =>
      && k < schema.attribCnt - 1 && k !in used
      && k in schema.indexToName && name == schema.indexToName[k]
      && WellGrown(l, schema, used + {k}) && WellGrown(r, schema, used + {k})
  }

  /** Every tree BuildTree grows has the shape WellGrown describes. */
  lemma {:induction false} GrowIsWellGrown(log2: real -> real, useChiSquare: bool, data: seq<Row>, schema: Schema, path: Path)
    requires Ready(data, schema, path)
    ensures WellGrown(Grow(log2, useChiSquare, data, schema, path), schema, Columns(path))
    decreases |Scope(data, path)|
  {
    GrowStep(log2, useChiSquare, data, schema, path);
    match Decide(log2, useChiSquare, data, schema, path)
    case LeafDecision(_) =>
      DecideIsBest(log2, useChiSquare, data, schema, path);
    case SplitOn(k) =>
      SplitNarrows(log2, useChiSquare, data, schema, path, k);
      if k in Columns(path) {
        NoRepeatedSplit(log2, useChiSquare, data, schema, path, k);
      }
      ColumnsSnoc(path, k, 0);
      ColumnsSnoc(path, k, 1);
      GrowIsWellGrown(log2, useChiSquare, data, schema, path + [(k, 0)]);
      GrowIsWellGrown(log2, useChiSquare, data, schema, path + [(k, 1)]);
  }

  /** The column indices 0 .. n-1. */
  function Range(n: nat): (r: set<nat>)
    ensures forall k: nat :: k in r <==> k < n
    ensures |r| == n
  {
    if n == 0 then {}
    else
      var below := Range(n - 1);
      assert n - 1 !in below;
      below + {n - 1}
  }

  /** The candidate columns not yet constrained. */
  function Unused(width: nat, used: set<nat>): set<nat>
  {
    Range(if width == 0 then 0 else width - 1) - used
  }

  /** A well-grown tree is no deeper than the number of candidate columns left. */
  lemma {:induction false} WellGrownDepth(t: DecisionTree, schema: Schema, used: set<nat>)
    requires WellGrown(t, schema, used)
    ensures Depth(t) <= |Unused(schema.attribCnt, used)|
  {
    match t
    case Leaf(_) =>
    case Node(_, k, l, r) =>
      WellGrownDepth(l, schema, used + {k});
      WellGrownDepth(r, schema, used + {k});
      assert Unused(schema.attribCnt, used + {k}) == Unused(schema.attribCnt, used) - {k};
      assert k in Unused(schema.attribCnt, used);
  }

  /** The tree learned from the whole training set tests at most attribCnt - 1 columns on any path. */
  lemma DepthBound(log2: real -> real, useChiSquare: bool, data: seq<Row>, schema: Schema)
    requires Ready(data, schema, [])
    ensures Depth(Grow(log2, useChiSquare, data, schema, [])) <= schema.attribCnt - 1
  {
    GrowIsWellGrown(log2, useChiSquare, data, schema, []);
    assert Columns([]) == {};
    WellGrownDepth(Grow(log2, useChiSquare, data, schema, []), schema, {});
    assert Unused(schema.attribCnt, {}) == Range(schema.attribCnt - 1);
  }

  /** Every split separates the rows in scope, so a tree is shallower than its number of rows. */
  lemma {:induction false} DepthBelowRows(log2: real -> real, useChiSquare: bool, data: seq<Row>, schema: Schema, path: Path)
    requires Ready(data, schema, path)
    ensures Depth(Grow(log2, useChiSquare, data, schema, path)) < |Scope(data, path)|
    decreases |Scope(data, path)|
  {
    hide Grow, Decide;
    var d := Decide(log2, useChiSquare, data, schema, path);
    if d.SplitOn? {
      var k := d.index;
      GrowSplit(log2, useChiSquare, data, schema, path, k);
      DepthBelowRows(log2, useChiSquare, data, schema, path + [(k, 0)]);
      DepthBelowRows(log2, useChiSquare, data, schema, path + [(k, 1)]);
    } else {
      GrowLeaf(log2, useChiSquare, data, schema, path, d.yValue);
    }
  }

  /** A node whose rows in scope all have class v grows into the single leaf v. */
  lemma PureScopeGrowsLeaf(log2: real -> real, useChiSquare: bool, data: seq<Row>, schema: Schema, path: Path, v: int)
    requires Ready(data, schema, path) && v in {0, 1}
    requires forall row :: row in Scope(data, path) ==> IntOf(row[schema.attribCnt - 1]) == v
    ensures Grow(log2, useChiSquare, data, schema, path) == Leaf(v)
  {
    PureScopeIsLeaf(log2, useChiSquare, data, schema, path, v);
    GrowStep(log2, useChiSquare, data, schema, path);
  }

  /**
   * `a` is `b` with some subtrees cut back to a leaf: the two agree on every
   * split they share, and a leaf of `b` is a leaf of `a` as well.
   */
  predicate Prunes(a: DecisionTree, b: DecisionTree)
  {
    match b
    case Leaf(_) => a == b
    case Node(name, k, l, r) =>
      a.Leaf? || (a.Node? && a.name == name && a.index == k && Prunes(a.left, l) && Prunes(a.right, r))
  }

  /** A pruned tree has no more internal nodes and is no deeper. */
  lemma {:induction false} PrunesIsSmaller(a: DecisionTree, b: DecisionTree)
    requires Prunes(a, b)
    ensures InternalCount(a) <= InternalCount(b) && Depth(a) <= Depth(b)
  {
    if a.Node? {
      PrunesIsSmaller(a.left, b.left);
      PrunesIsSmaller(a.right, b.right);
    }
  }

  /**
   * The tree grown with the chi-squared test is the tree grown without it,
   * cut back at some nodes: the test only ever turns a split into a leaf.
   */
  lemma {:induction false} ChiSquareGrowsPruned(log2: real -> real, data: seq<Row>, schema: Schema, path: Path)
    requires Ready(data, schema, path)
    ensures Prunes(Grow(log2, true, data, schema, path), Grow(log2, false, data, schema, path))
    decreases |Scope(data, path)|
  {
    ChiSquareOnlyPrunes(log2, data, schema, path);
    GrowStep(log2, true, data, schema, path);
    GrowStep(log2, false, data, schema, path);
    match Decide(log2, true, data, schema, path)
    case LeafDecision(_) =>
    case SplitOn(k) =>
      ChiSquareGrowsPruned(log2, data, schema, path + [(k, 0)]);
      ChiSquareGrowsPruned(log2, data, schema, path + [(k, 1)]);
  }

  /** The chi-squared test never makes the tree larger or deeper. */
  lemma ChiSquareNeverGrows(log2: real -> real, data: seq<Row>, schema: Schema, path: Path)
    requires Ready(data, schema, path)
    ensures InternalCount(Grow(log2, true, data, schema, path)) <= InternalCount(Grow(log2, false, data, schema, path))
    ensures Depth(Grow(log2, true, data, schema, path)) <= Depth(Grow(log2, false, data, schema, path))
  {
    ChiSquareGrowsPruned(log2, data, schema, path);
    PrunesIsSmaller(Grow(log2, true, data, schema, path), Grow(log2, false, data, schema, path));
  }

  /** The class a tree predicts for a row, following the column index each node stores. */
  function Predict(t: DecisionTree, row: Row): int
  {
    match t
    case Leaf(y) => y
    case Node(_, k, l, r) => if k < |row| && IntOf(row[k]) == 1 then Predict(r, row) else Predict(l, row)
  }

  /** The constraints a row meets on its way from the root to its leaf. */
  function LeafPath(t: DecisionTree, row: Row): Path
  {
    match t
    case Leaf(_) => []
    case Node(_, k, l, r) =>
      if k < |row| && IntOf(row[k]) == 1 then [(k, 1)] + LeafPath(r, row) else [(k, 0)] + LeafPath(l, row)
  }

  /**
   * A training row in scope at a node reaches a leaf whose path still keeps
   * it in scope, and the class predicted there is the leaf decision taken over
   * exactly the rows in scope at that leaf.
   */
  lemma {:induction false} GrowRoutes(log2: real -> real, useChiSquare: bool, data: seq<Row>, schema: Schema, path: Path, row: Row)
    requires Ready(data, schema, path) && row in Scope(data, path)
    ensures Ready(data, schema, path + LeafPath(Grow(log2, useChiSquare, data, schema, path), row))
    ensures row in Scope(data, path + LeafPath(Grow(log2, useChiSquare, data, schema, path), row))
    ensures Decide(log2, useChiSquare, data, schema, path + LeafPath(Grow(log2, useChiSquare, data, schema, path), row))
      == LeafDecision(Predict(Grow(log2, useChiSquare, data, schema, path), row))
    decreases |Scope(data, path)|
  {
    GrowStep(log2, useChiSquare, data, schema, path);
    var t := Grow(log2, useChiSquare, data, schema, path);
    match Decide(log2, useChiSquare, data, schema, path)
    case LeafDecision(_) =>
      assert path + LeafPath(t, row) == path;
    case SplitOn(k) =>
      var v := ChildKeepsRow(data, schema, path, k, row);
      var child := path + [(k, v)];
      GrowRoutes(log2, useChiSquare, data, schema, child, row);
      RouteThroughNode(t, row, path, v);
  }

  /** A row in scope at a node stays in scope at the child its cell k selects: v is 1 when the cell reads 1, else 0. */
  lemma ChildKeepsRow(data: seq<Row>, schema: Schema, path: Path, k: nat, row: Row) returns (v: int)
    requires Ready(data, schema, path) && row in Scope(data, path) && k < schema.attribCnt
    ensures k < |row| && v == (if IntOf(row[k]) == 1 then 1 else 0)
    ensures row in Scope(data, path + [(k, v)])
  {
    assert row in data;
    assert WellFormedRow(row, schema.attribCnt);
    v := if IntOf(row[k]) == 1 then 1 else 0;
    ScopeExtend(data, path, k, v);
    MatchesOne(row, k, v);
  }

  /** At a node, the way down continues in the child the row's cell selects, and so does the prediction. */
  lemma RouteThroughNode(t: DecisionTree, row: Row, path: Path, v: int)
    requires t.Node? && t.index < |row| && v == (if IntOf(row[t.index]) == 1 then 1 else 0)
    ensures var sub := if v == 1 then t.right else t.left;
      && path + LeafPath(t, row) == (path + [(t.index, v)]) + LeafPath(sub, row)
      && Predict(t, row) == Predict(sub, row)
  {
    var sub := if v == 1 then t.right else t.left;
    assert LeafPath(t, row) == [(t.index, v)] + LeafPath(sub, row);
  }

  /** Every name on the tree is a key of `nameToIndex` and leads to a column inside the row. */
  predicate Resolves(t: DecisionTree, nameToIndex: map<string, nat>, width: nat)
  {
    match t
    case Leaf(_) => true
    case Node(name, _, l, r) =>
      name in nameToIndex && nameToIndex[name] < width && Resolves(l, nameToIndex, width) && Resolves(r, nameToIndex, width)
  }

  /** The class TestRowAgainstTree reaches: each node looks its column up by its name. */
  function Classify(t: DecisionTree, row: Row, nameToIndex: map<string, nat>): int
    requires Resolves(t, nameToIndex, |row|)
  {
    match t
    case Leaf(y) => y
    case Node(name, _, l, r) =>
      if IntOf(row[nameToIndex[name]]) == 1 then Classify(r, row, nameToIndex) else Classify(l, row, nameToIndex)
  }

  /**
   * When the two maps of the schema agree, looking a column up by name
   * reaches the column the node stores: on a well-grown tree Classify and
   * Predict give the same class.
   */
  lemma {:induction false} ClassifyByStoredIndex(t: DecisionTree, schema: Schema, used: set<nat>, row: Row)
    requires WellGrown(t, schema, used) && Consistent(schema) && |row| >= schema.attribCnt
    ensures Resolves(t, schema.nameToIndex, |row|)
    ensures Classify(t, row, schema.nameToIndex) == Predict(t, row)
  {
    match t
    case Leaf(_) =>
    case Node(_, k, l, r) =>
      ClassifyByStoredIndex(l, schema, used + {k}, row);
      ClassifyByStoredIndex(r, schema, used + {k}, row);
  }

  /** A test row: cells "0" or "1", the class cell last, and every name on the tree resolving inside it. */
  predicate Testable(t: DecisionTree, row: Row, nameToIndex: map<string, nat>)
  {
    && |row| > 0
    && (forall j :: 0 <= j < |row| ==> IsBit(row[j]))
    && Resolves(t, nameToIndex, |row|)
  }

  /** The tree predicts the row's class. */
  predicate Correct(t: DecisionTree, row: Row, nameToIndex: map<string, nat>)
    requires Testable(t, row, nameToIndex)
  {
    Classify(t, row, nameToIndex) == IntOf(row[|row| - 1])
  }

  /**
   * TestRowAgainstTree: at a leaf, whether its class value is the row's last
   * cell; at a node, the answer of the right subtree when the row's cell at
   * the column named by the node is 1 and of the left subtree otherwise.
   */
  function TestRowAgainstTree(row: Row, decisionTree: Tree, nameToIndex: map<string, nat>): (correct: bool)
    reads decisionTree, decisionTree.Repr
    requires decisionTree.Valid() && Testable(decisionTree.Model, row, nameToIndex)
    ensures correct <==> Correct(decisionTree.Model, row, nameToIndex)
    decreases decisionTree.Repr
  {
    if decisionTree.isLeaf then decisionTree.yValue == IntOf(row[|row| - 1])
    else if IntOf(row[nameToIndex[decisionTree.name]]) == 1 then TestRowAgainstTree(row, decisionTree.right, nameToIndex)
    else TestRowAgainstTree(row, decisionTree.left, nameToIndex)
  }

  /** The number of rows the tree predicts correctly. */
  function CountCorrect(t: DecisionTree, rows: seq<Row>, nameToIndex: map<string, nat>): (n: nat)
    requires forall row :: row in rows ==> Testable(t, row, nameToIndex)
    ensures n <= |rows|
  {
    if |rows| == 0 then 0
    else
      var last := rows[|rows| - 1];
      CountCorrect(t, rows[..|rows| - 1], nameToIndex) + (if Correct(t, last, nameToIndex) then 1 else 0)
  }

  /** Every row counts as correct exactly when the tree predicts each of them correctly. */
  lemma {:induction false} CountCorrectAll(t: DecisionTree, rows: seq<Row>, nameToIndex: map<string, nat>)
    requires forall row :: row in rows ==> Testable(t, row, nameToIndex)
    ensures CountCorrect(t, rows, nameToIndex) == |rows| <==> forall row :: row in rows ==> Correct(t, row, nameToIndex)
  {
    if |rows| > 0 {
      var init, last := rows[..|rows| - 1], rows[|rows| - 1];
      assert rows == init + [last];
      CountCorrectAll(t, init, nameToIndex);
      if !Correct(t, last, nameToIndex) {
        assert CountCorrect(t, init, nameToIndex) <= |init|;
      }
    }
  }

  /** TestData without its printout: the rows predicted correctly and the rows seen. */
  method TestData(decisionTree: Tree, testRows: seq<Row>, nameToIndex: map<string, nat>)
    returns (correct: nat, total: nat)
    requires decisionTree.Valid()
    requires forall row :: row in testRows ==> Testable(decisionTree.Model, row, nameToIndex)
    ensures total == |testRows| && correct == CountCorrect(decisionTree.Model, testRows, nameToIndex)
    ensures correct <= total
  {
    correct, total := 0, 0;
    for r := 0 to |testRows|
      invariant total == r
      invariant correct == CountCorrect(decisionTree.Model, testRows[..r], nameToIndex)
    {
      assert testRows[..r + 1][..r] == testRows[..r];
      assert testRows[r] in testRows;
      var ok := TestRowAgainstTree(testRows[r], decisionTree, nameToIndex);
      if ok {
        correct := correct + 1;
      }
      total := total + 1;
    }
    assert testRows[..|testRows|] == testRows;
  }

  function DigitChar(d: nat): char
    requires d < 10
  {
    "0123456789"[d]
  }

  function NatString(n: nat): string
  {
    if n < 10 then [DigitChar(n)] else NatString(n / 10) + [DigitChar(n % 10)]
  }

  /** Python's str() of an integer. */
  function IntString(n: int): string
  {
    if n < 0 then "-" + NatString(-n) else NatString(n)
  }

  /** The indentation of a line at `depth`: one "| " per level. */
  function Indent(depth: nat): string
  {
    if depth == 0 then "" else Indent(depth - 1) + "| "
  }

  /**
   * The lines PrintTree writes for a node at `depth`, without their line
   * breaks: the left side labelled " = 0 : " and then the right side
   * labelled " = 1 : ".
   */
  function Lines(t: DecisionTree, depth: nat): seq<string>
    decreases t, 0
  {
    match t
    case Leaf(_) => []
    case Node(name, _, l, r) => Side(name, " = 0 : ", l, depth) + Side(name, " = 1 : ", r, depth)
  }

  /**
   * One side of a node: the node's name and the side's tag followed by the
   * class when the child is a leaf, or alone and followed by the child's own
   * lines one level deeper.
   */
  function Side(name: string, tag: string, child: DecisionTree, depth: nat): seq<string>
    decreases child, 1
  {
    if child.Leaf? then [Indent(depth) + (name + tag + IntString(child.yValue))]
    else [Indent(depth) + (name + tag)] + Lines(child, depth + 1)
  }

  /** Lines joined, each followed by a line break. */
  function Text(lines: seq<string>): string
  {
    if |lines| == 0 then "" else lines[0] + "\n" + Text(lines[1..])
  }

  lemma {:induction false} TextAppend(a: seq<string>, b: seq<string>)
    ensures Text(a + b) == Text(a) + Text(b)
  {
    if |a| > 0 {
      assert (a + b)[1..] == a[1..] + b;
      TextAppend(a[1..], b);
    } else {
      assert a + b == b;
    }
  }

  /** Two lines per internal node. */
  lemma {:induction false} LinesCount(t: DecisionTree, depth: nat)
    ensures |Lines(t, depth)| == 2 * InternalCount(t)
  {
    match t
    case Leaf(_) =>
    case Node(_, _, l, r) =>
      LinesCount(l, depth + 1);
      LinesCount(r, depth + 1);
  }

  lemma {:induction false} IndentGrows(depth: nat, deeper: nat)
    requires depth <= deeper
    ensures Indent(depth) <= Indent(deeper)
    decreases deeper
  {
    if depth < deeper {
      IndentGrows(depth, deeper - 1);
    }
  }

  /** Every line written for a node at `depth` starts with that depth's indentation. */
  lemma {:induction false} LinesIndented(t: DecisionTree, depth: nat)
    ensures forall line :: line in Lines(t, depth) ==> Indent(depth) <= line
    decreases t, 0
  {
    match t
    case Leaf(_) =>
    case Node(name, _, l, r) =>
      SideIndented(name, " = 0 : ", l, depth);
      SideIndented(name, " = 1 : ", r, depth);
  }

  lemma {:induction false} SideIndented(name: string, tag: string, child: DecisionTree, depth: nat)
    ensures forall line :: line in Side(name, tag, child, depth) ==> Indent(depth) <= line
    decreases child, 1
  {
    var head := if child.Leaf? then name + tag + IntString(child.yValue) else name + tag;
    assert Indent(depth) <= Indent(depth) + head;
    if child.Node? {
      LinesIndented(child, depth + 1);
      IndentGrows(depth, depth + 1);
    }
  }

  lemma AppendAssoc(a: string, b: string, c: string)
    ensures (a + b) + c == a + (b + c)
  {
  }

  /** Text of a line followed by more lines. */
  lemma TextCons(head: string, rest: seq<string>)
    ensures Text([head] + rest) == head + "\n" + Text(rest)
  {
    assert ([head] + rest)[1..] == rest;
  }

  /** The text already written, the indentation, then a line and what follows it. */
  lemma Regroup(s: string, indent: string, body: string, rest: string)
    ensures (s + indent) + (body + "\n") + rest == s + (indent + body + "\n" + rest)
  {
    AppendAssoc(indent, body, "\n");
    AppendAssoc(s, indent, body + "\n");
    AppendAssoc(s, indent + body + "\n", rest);
  }

  /** Text of a side whose child is a leaf: its one line and a line break. */
  lemma LeafSideText(s: string, depth: nat, name: string, tag: string, y: int)
    ensures (s + Indent(depth)) + (name + tag + IntString(y) + "\n")
         == s + Text(Side(name, tag, Leaf(y), depth))
  {
    var body := name + tag + IntString(y);
    assert Side(name, tag, Leaf(y), depth) == [Indent(depth) + body] + [];
    TextCons(Indent(depth) + body, []);
    Regroup(s, Indent(depth), body, "");
  }

  /** Text of a side whose child is a node: the header line, then the child's text. */
  lemma NodeSideText(s: string, depth: nat, name: string, tag: string, child: DecisionTree)
    requires child.Node?
    ensures (s + Indent(depth)) + (name + tag + "\n") + Text(Lines(child, depth + 1))
         == s + Text(Side(name, tag, child, depth))
  {
    var rest := Lines(child, depth + 1);
    assert Side(name, tag, child, depth) == [Indent(depth) + (name + tag)] + rest;
    TextCons(Indent(depth) + (name + tag), rest);
    Regroup(s, Indent(depth), name + tag, Text(rest));
  }

  /** The loop PrintTree runs before each side: one "| " per level of depth. */
  method AppendIndent(treeString: string, depth: nat) returns (result: string)
    ensures result == treeString + Indent(depth)
  {
    result := treeString;
    for i := 0 to depth
      invariant result == treeString + Indent(i)
    {
      AppendAssoc(treeString, Indent(i), "| ");
      result := result + "| ";
    }
  }

  /**
   * PrintTree: appends the lines of the subtree rooted at `node`, at
   * `depth`, to `treeString`: the left side tagged " = 0 : ", then the right
   * side tagged " = 1 : ". The node must not be a leaf: each side reads its
   * child's `isLeaf`.
   */
  method PrintTree(node: Tree, treeString: string, depth: nat) returns (result: string)
    requires node.Valid() && !node.isLeaf
    ensures result == treeString + Text(Lines(node.Model, depth))
    decreases node.Repr, 0
  {
    ghost var leftLines := Side(node.name, " = 0 : ", node.Model.left, depth);
    ghost var rightLines := Side(node.name, " = 1 : ", node.Model.right, depth);
    assert Lines(node.Model, depth) == leftLines + rightLines;
    result := PrintSide(node.left, node.name, " = 0 : ", treeString, depth);
    ghost var middle := result;
    result := PrintSide(node.right, node.name, " = 1 : ", result, depth);
    TextAppend(leftLines, rightLines);
    AppendAssoc(treeString, Text(leftLines), Text(rightLines));
  }

  /**
   * One side of PrintTree: the indentation, then the node's name and the
   * side's tag, then the class and a line break when the child is a leaf,
   * or a line break and the child's own lines one level deeper.
   */
  method PrintSide(child: Tree, name: string, tag: string, treeString: string, depth: nat)
    returns (result: string)
    requires child.Valid()
    ensures result == treeString + Text(Side(name, tag, child.Model, depth))
    decreases child.Repr, 1
  {
    result := AppendIndent(treeString, depth);
    if child.isLeaf {
      result := result + (name + tag + IntString(child.yValue) + "\n");
      LeafSideText(treeString, depth, name, tag, child.yValue);
    } else {
      result := result + (name + tag + "\n");
      result := PrintTree(child, result, depth + 1);
      NodeSideText(treeString, depth, name, tag, child.Model);
    }
  }

  /** The training set of LeafRootExample: three rows, all of class 1. */
  function LeafRootData(): seq<Row>
  {
    [["1", "0", "1"], ["0", "1", "1"], ["1", "1", "1"]]
  }

  function LeafRootSchema(): Schema
  {
    Schema(map[0 := "a", 1 := "b", 2 := "y"], map["a" := 0, "b" := 1, "y" := 2], 3)
  }

  lemma LeafRootReady()
    ensures Ready(LeafRootData(), LeafRootSchema(), [])
    ensures forall row :: row in Scope(LeafRootData(), []) ==> IntOf(row[2]) == 1
  {
    var data := LeafRootData();
    ScopeOfEmptyPath(data);
    assert WellFormedRow(data[0], 3) && WellFormedRow(data[1], 3) && WellFormedRow(data[2], 3);
    assert forall row :: row in data ==> row == data[0] || row == data[1] || row == data[2];
  }

  /**
   * A training set whose rows all have class 1 grows a tree that is a single
   * leaf, so the root handed to PrintTree is a leaf, which has no children.
   */
  lemma LeafRootExample(log2: real -> real, useChiSquare: bool)
    ensures Ready(LeafRootData(), LeafRootSchema(), [])
    ensures Grow(log2, useChiSquare, LeafRootData(), LeafRootSchema(), []) == Leaf(1)
  {
    LeafRootReady();
    PureScopeGrowsLeaf(log2, useChiSquare, LeafRootData(), LeafRootSchema(), [], 1);
  }
}
