/**
 * `ParseTree.tree_to_binary` (parse_tree.py:34-44): collapse single-child nodes and
 * reduce-fold wider nodes into a left-leaning spine of two-child nodes that all carry
 * the node's label.  The fold re-binarizes its accumulator at every step, exactly as
 * the reducing lambda does; `ToBinaryFixesBinary` shows that this repeated pass
 * changes nothing.
 */
module Binarizer {
  import opened Outcomes
  import opened Trees

  /** 0 for a tree that is already binary, 1 otherwise: the first termination component. */
  function BinaryRank<V>(t: Tree<V>): nat
  {
    if IsBinary(t) then 0 else 1
  }

  function Width<V>(t: Tree<V>): nat
  {
    if t.Node? then |t.children| else 0
  }

  /**
   * `tree_to_binary(tree)`; `None` when `reduce` meets a node without children
   * (Python raises TypeError there).
   */
  function ToBinary<V>(t: Tree<V>): (r: Option<Tree<V>>)
    requires NoVectors(t)
    ensures r.Some? ==> IsBinary(r.value) && NoVectors(r.value)
    decreases BinaryRank(t), t, Width(t)
  {
    match t
    case Atom(_) => Some(t)
    case Node(_, children) =>
      if |children| == 0 then None
      else if |children| == 1 then ToBinary(children[0])
      else Reduce(t, |children| - 1)
  }

  /**
   * The accumulator of `reduce(lambda x, y: Tree(label, (tree_to_binary(x),
   * tree_to_binary(y))), tree)` after it has consumed children 0..j.
   */
  function Reduce<V>(t: Tree<V>, j: nat): (r: Option<Tree<V>>)
    requires t.Node? && NoVectors(t) && 1 <= j < |t.children|
    ensures r.Some? ==> IsBinary(r.value) && NoVectors(r.value)
    ensures r.Some? ==> r.value.Node? && r.value.tag == t.tag
    decreases BinaryRank(t), t, j
  {
    var left :=
      if j == 1 then ToBinary(t.children[0])
      else match Reduce(t, j - 1)
        case None => None
        case Some(acc) => ToBinary(acc);
    match left
    case None => None
    case Some(l) =>
      match ToBinary(t.children[j])
      case None => None
      case Some(right) => Some(Node(t.tag, [l, right]))
  }

  /** A binary tree of tokens is its own binarization. */
  lemma {:induction false} ToBinaryFixesBinary<V>(b: Tree<V>)
    requires IsBinary(b) && NoVectors(b)
    ensures ToBinary(b) == Some(b)
  {
    match b
    case Atom(_) =>
    case Node(tag, children) =>
      ToBinaryFixesBinary(children[0]);
      ToBinaryFixesBinary(children[1]);
      assert Reduce(b, 1) == Some(Node(tag, [children[0], children[1]]));
      assert [children[0], children[1]] == children;
  }

  /** Binarizing twice is binarizing once. */
  lemma ToBinaryIdempotent<V>(t: Tree<V>)
    requires NoVectors(t) && ToBinary(t).Some?
    ensures ToBinary(ToBinary(t).value) == ToBinary(t)
  {
    ToBinaryFixesBinary(ToBinary(t).value);
  }

  /** The left-leaning spine over `ds`, every inner node labelled `tag`. */
  function Spine<V>(tag: string, ds: seq<Tree<V>>): (r: Tree<V>)
    requires |ds| >= 1
  {
    if |ds| == 1 then ds[0] else Node(tag, [Spine(tag, ds[..|ds| - 1]), ds[|ds| - 1]])
  }

  lemma {:induction false} SpineIsBinary<V>(tag: string, ds: seq<Tree<V>>)
    requires |ds| >= 1
    requires forall i :: 0 <= i < |ds| ==> IsBinary(ds[i]) && NoVectors(ds[i])
    ensures IsBinary(Spine(tag, ds)) && NoVectors(Spine(tag, ds))
  {
    if |ds| > 1 {
      SpineIsBinary(tag, ds[..|ds| - 1]);
    }
  }

  lemma {:induction false} ReduceIsSpine<V>(t: Tree<V>, j: nat, ds: seq<Tree<V>>)
    requires t.Node? && NoVectors(t) && 1 <= j < |t.children| && |ds| == |t.children|
    requires forall i :: 0 <= i < |ds| ==> ToBinary(t.children[i]) == Some(ds[i])
    ensures Reduce(t, j) == Some(Spine(t.tag, ds[..j + 1]))
  {
    if j == 1 {
      ReduceFirst(t, ds);
    } else {
      ReduceIsSpine(t, j - 1, ds);
      ReduceStep(t, j, ds);
    }
  }

  /** The first step of the fold pairs the first two binarized children. */
  lemma ReduceFirst<V>(t: Tree<V>, ds: seq<Tree<V>>)
    requires t.Node? && NoVectors(t) && 2 <= |t.children| && |ds| == |t.children|
    requires ToBinary(t.children[0]) == Some(ds[0]) && ToBinary(t.children[1]) == Some(ds[1])
    ensures Reduce(t, 1) == Some(Spine(t.tag, ds[..2]))
  {
    var two := ds[..2];
    assert two[..1] == [ds[0]] && two[1] == ds[1];
    assert Spine(t.tag, two) == Node(t.tag, [ds[0], ds[1]]);
  }

  /** One step of the fold: the accumulated spine, already binary, is kept and extended. */
  lemma ReduceStep<V>(t: Tree<V>, j: nat, ds: seq<Tree<V>>)
    requires t.Node? && NoVectors(t) && 2 <= j < |t.children| && |ds| == |t.children|
    requires forall i :: 0 <= i < |ds| ==> ToBinary(t.children[i]) == Some(ds[i])
    requires Reduce(t, j - 1) == Some(Spine(t.tag, ds[..j]))
    ensures Reduce(t, j) == Some(Spine(t.tag, ds[..j + 1]))
  {
    forall i | 0 <= i < j ensures IsBinary(ds[..j][i]) && NoVectors(ds[..j][i]) {
      assert ToBinary(t.children[i]) == Some(ds[i]);
    }
    var acc := Spine(t.tag, ds[..j]);
    SpineIsBinary(t.tag, ds[..j]);
    ToBinaryFixesBinary(acc);
    assert ds[..j + 1][..j] == ds[..j];
  }

  /**
   * A node with two or more children binarizes to the left-leaning spine over its
   * binarized children, every spine node carrying the node's own label.
   */
  lemma BinarizeWideNode<V>(t: Tree<V>, ds: seq<Tree<V>>)
    requires t.Node? && NoVectors(t) && |t.children| >= 2 && |ds| == |t.children|
    requires forall i :: 0 <= i < |ds| ==> ToBinary(t.children[i]) == Some(ds[i])
    ensures ToBinary(t) == Some(Spine(t.tag, ds))
  {
    var last := |t.children| - 1;
    assert ToBinary(t) == Reduce(t, last);
    ReduceIsSpine(t, last, ds);
    assert ds[..last + 1] == ds;
  }

  lemma {:induction false} ReduceFails<V>(t: Tree<V>, j: nat)
    requires t.Node? && NoVectors(t) && 1 <= j < |t.children|
    ensures Reduce(t, j).None? <==> exists i :: 0 <= i <= j && ToBinary(t.children[i]).None?
  {
    if j > 1 {
      ReduceFails(t, j - 1);
      if Reduce(t, j - 1).Some? {
        ToBinaryFixesBinary(Reduce(t, j - 1).value);
      }
    }
  }

  /** Binarization fails exactly when some node of the tree has no children. */
  lemma {:induction false} ToBinaryFailsIffEmptyNode<V>(t: Tree<V>)
    requires NoVectors(t)
    ensures ToBinary(t).None? <==> HasEmptyNode(t)
  {
    match t
    case Atom(_) =>
    case Node(_, children) =>
      forall i | 0 <= i < |children|
        ensures ToBinary(children[i]).None? <==> HasEmptyNode(children[i])
      {
        ToBinaryFailsIffEmptyNode(children[i]);
      }
      if |children| >= 2 {
        ReduceFails(t, |children| - 1);
      }
  }

  lemma LeavesOfPair<V>(tag: string, a: Tree<V>, b: Tree<V>)
    ensures Leaves(Node(tag, [a, b])) == Leaves(a) + Leaves(b)
  {
    var n := Node(tag, [a, b]);
    assert seq(2, i requires 0 <= i < 2 => Leaves(n.children[i])) == [] + [Leaves(a)] + [Leaves(b)];
    FlattenAppend([], Leaves(a));
    FlattenAppend([Leaves(a)], Leaves(b));
  }

  lemma LeavesOfAllSnoc<V>(ds: seq<Tree<V>>)
    requires |ds| >= 1
    ensures LeavesOfAll(ds) == LeavesOfAll(ds[..|ds| - 1]) + Leaves(ds[|ds| - 1])
  {
    var front := ds[..|ds| - 1];
    assert seq(|ds|, i requires 0 <= i < |ds| => Leaves(ds[i]))
        == seq(|front|, i requires 0 <= i < |front| => Leaves(front[i])) + [Leaves(ds[|ds| - 1])];
    FlattenAppend(seq(|front|, i requires 0 <= i < |front| => Leaves(front[i])), Leaves(ds[|ds| - 1]));
  }

  lemma {:induction false} LeavesOfSpine<V>(tag: string, ds: seq<Tree<V>>)
    requires |ds| >= 1
    ensures Leaves(Spine(tag, ds)) == LeavesOfAll(ds)
  {
    LeavesOfAllSnoc(ds);
    if |ds| == 1 {
      assert LeavesOfAll(ds[..0]) == [];
    } else {
      LeavesOfSpine(tag, ds[..|ds| - 1]);
      LeavesOfPair(tag, Spine(tag, ds[..|ds| - 1]), ds[|ds| - 1]);
    }
  }

  /** Binarization keeps the tokens of the tree, in order. */
  lemma {:induction false} ToBinaryKeepsLeaves<V>(t: Tree<V>)
    requires NoVectors(t) && ToBinary(t).Some?
    ensures Leaves(ToBinary(t).value) == Leaves(t)
  {
    match t
    case Atom(_) =>
    case Node(tag, children) =>
      ToBinaryFailsIffEmptyNode(t);
      forall i | 0 <= i < |children|
        ensures ToBinary(children[i]).Some? && Leaves(ToBinary(children[i]).value) == Leaves(children[i])
      {
        ToBinaryFailsIffEmptyNode(children[i]);
        ToBinaryKeepsLeaves(children[i]);
      }
      if |children| == 1 {
        var one := seq(1, i requires 0 <= i < 1 => Leaves(children[i]));
        assert one == [] + [Leaves(children[0])];
        FlattenAppend([], Leaves(children[0]));
      } else {
        var ds := seq(|children|, i requires 0 <= i < |children| => ToBinary(children[i]).value);
        BinarizeWideNode(t, ds);
        LeavesOfSpine(tag, ds);
        assert seq(|ds|, i requires 0 <= i < |ds| => Leaves(ds[i]))
            == seq(|children|, i requires 0 <= i < |children| => Leaves(children[i]));
      }
  }
}
