/**
 * The decision-tree node of ID3/tree.py and the value it stands for.
 *
 * `DecisionTree` is the shape of a finished tree as a value: a leaf carries the
 * predicted class, an internal node the name of the attribute it tests, the
 * column index of that attribute, and its two subtrees (left for value 0,
 * right for value 1). `Tree` is the mutable node object that BuildTree links
 * together; its ghost field `Model` gives the value the linked structure
 * below it represents.
 */
module Trees {

  datatype DecisionTree =
    | Leaf(yValue: int)
    | Node(name: string, index: nat, left: DecisionTree, right: DecisionTree)

  /** Number of internal nodes on the longest root-to-leaf path. */
  function Depth(t: DecisionTree): nat
  {
    match t
    case Leaf(_) => 0
    case Node(_, _, l, r) => 1 + (if Depth(l) < Depth(r) then Depth(r) else Depth(l))
  }

  /** Number of internal nodes. */
  function InternalCount(t: DecisionTree): nat
  {
    match t
    case Leaf(_) => 0
    case Node(_, _, l, r) => 1 + InternalCount(l) + InternalCount(r)
  }

  class Tree {
    var name: string
    var left: Tree?
    var leftValue: int
    var right: Tree?
    var rightValue: int
    var parent: Tree?
    var yValue: int
    var isLeaf: bool

    /** The nodes of the subtree rooted here. */
    ghost var Repr: set<object>
    /** The decision tree that the subtree rooted here represents. */
    ghost var Model: DecisionTree

    /**
     * A finished subtree: a leaf has no children and models `Leaf(yValue)`;
     * an internal node has two children whose node sets are disjoint and do not
     * contain this node, each child's `parent` is this node, and the model is
     * a `Node` over the children's models. The node's own `parent` field is
     * deliberately not read, so that attaching the subtree to a parent keeps it
     * valid.
     */
    ghost predicate Valid()
      reads this`left, this`right, this`isLeaf, this`yValue, this`name, this`Repr, this`Model
      reads Repr - {this}
      decreases Repr
    {
      && this in Repr
      && (isLeaf ==> left == null && right == null && Model == Leaf(yValue))
      && (!isLeaf ==>
            && left != null && right != null
            && left != this && right != this
            && left in Repr && right in Repr
            && left.Repr <= Repr - {this} && right.Repr <= Repr - {this}
            && left.Repr !! right.Repr
            && left.parent == this && right.parent == this
            && left.Valid() && right.Valid()
            && Model.Node? && Model.name == name
            && Model.left == left.Model && Model.right == right.Model)
    }

    /** A fresh node: no children, no parent, class value 0, not a leaf. */
    constructor (name: string)
      ensures this.name == name
      ensures left == null && right == null && parent == null
      ensures leftValue == 0 && rightValue == 0 && yValue == 0 && !isLeaf
      ensures Repr == {this}
    {
      this.name := name;
      left := null;
      leftValue := 0;
      right := null;
      rightValue := 0;
      parent := null;
      yValue := 0;
      isLeaf := false;
      Repr := {this};
    }

    /** Makes `tree` the left child of this node and this node its parent. */
    method AddLeftChild(tree: Tree)
      modifies this`left, tree`parent
      ensures left == tree && tree.parent == this
      ensures right == old(right) && name == old(name) && yValue == old(yValue) && isLeaf == old(isLeaf)
      ensures leftValue == old(leftValue) && rightValue == old(rightValue)
      ensures tree != this ==> parent == old(parent)
    {
      left := tree;
      tree.parent := this;
    }

    /** Makes `tree` the right child of this node and this node its parent. */
    method AddRightChild(tree: Tree)
      modifies this`right, tree`parent
      ensures right == tree && tree.parent == this
      ensures left == old(left) && name == old(name) && yValue == old(yValue) && isLeaf == old(isLeaf)
      ensures leftValue == old(leftValue) && rightValue == old(rightValue)
      ensures tree != this ==> parent == old(parent)
    {
      right := tree;
      tree.parent := this;
    }
  }
}
