/**
 * The nltk `Tree` values the composition engine works on.  An nltk tree is a
 * labelled list whose elements are either trees or plain objects; a plain
 * element is a token string before evaluation and a vector (or `None`) after.
 */
module Trees {
  import opened Outcomes

  /** A plain (non-tree) element of an nltk tree. */
  datatype Payload<V> =
    | Token(text: string)        // a word, as the parser leaves it
    | Vec(vector: Option<V>)     // a resolved vector, or None for "no representation"

  datatype Tree<V> =
    | Atom(payload: Payload<V>)                  // a bare element, not itself a Tree
    | Node(tag: string, children: seq<Tree<V>>)

  /** Every bare element is a token: the shape produced by parsing or by a flat sentence. */
  predicate NoVectors<V>(t: Tree<V>)
  {
    match t
    case Atom(p) => p.Token?
    case Node(_, children) => forall i :: 0 <= i < |children| ==> NoVectors(children[i])
  }

  /** Every node has exactly two children. */
  predicate IsBinary<V>(t: Tree<V>)
  {
    match t
    case Atom(_) => true
    case Node(_, children) => |children| == 2 && IsBinary(children[0]) && IsBinary(children[1])
  }

  /** Some node of the tree has no children at all. */
  predicate HasEmptyNode<V>(t: Tree<V>)
  {
    match t
    case Atom(_) => false
    case Node(_, children) =>
      |children| == 0 || exists i :: 0 <= i < |children| && HasEmptyNode(children[i])
  }

  /** Concatenation of a sequence of sequences, left to right. */
  function Flatten<P>(ss: seq<seq<P>>): (r: seq<P>)
  {
    if ss == [] then [] else Flatten(ss[..|ss| - 1]) + ss[|ss| - 1]
  }

  lemma {:induction false} FlattenAppend<P>(ss: seq<seq<P>>, s: seq<P>)
    ensures Flatten(ss + [s]) == Flatten(ss) + s
  {
    assert (ss + [s])[..|ss|] == ss;
  }

  /** The bare elements of a tree in left-to-right order. */
  function Leaves<V>(t: Tree<V>): (r: seq<Payload<V>>)
  {
    match t
    case Atom(p) => [p]
    case Node(_, children) =>
      Flatten(seq(|children|, i requires 0 <= i < |children| => Leaves(children[i])))
  }

  /** The bare elements of a sequence of trees, tree after tree. */
  function LeavesOfAll<V>(ts: seq<Tree<V>>): seq<Payload<V>>
  {
    Flatten(seq(|ts|, i requires 0 <= i < |ts| => Leaves(ts[i])))
  }

  /**
   * The leaf test of the engine (parse_tree.py:177-182): an object of length one
   * whose single element is not a tree.  For a node that is a preterminal; for a
   * bare token it is a string of one character (its only element is itself).
   */
  predicate TreeIsLeaf<V>(t: Tree<V>)
    requires t.Atom? ==> t.payload.Token?
  {
    match t
    case Atom(p) => |p.text| == 1
    case Node(_, children) => |children| == 1 && children[0].Atom?
  }

  /** `len()` of an element: the number of children of a tree, the number of characters of a string. */
  function Length<V>(t: Tree<V>): nat
    requires t.Atom? ==> t.payload.Token?
  {
    if t.Atom? then |t.payload.text| else |t.children|
  }

  /** `tree[0]` is itself a `Tree`; the characters of a string never are. */
  predicate FirstIsTree<V>(t: Tree<V>)
  {
    t.Node? && |t.children| >= 1 && t.children[0].Node?
  }

  /**
   * The leaf test means "length one and the one element is not a tree": the
   * preterminals among nodes and the one-character strings among bare tokens.
   * A leaf can always be handed to a pairwise evaluation.
   */
  lemma TreeIsLeafMeaning<V>(t: Tree<V>)
    requires t.Atom? ==> t.payload.Token?
    ensures TreeIsLeaf(t) <==> Length(t) == 1 && !FirstIsTree(t)
    ensures t.Node? ==> (TreeIsLeaf(t) <==> |t.children| == 1 && t.children[0].Atom?)
    ensures t.Atom? ==> (TreeIsLeaf(t) <==> |t.payload.text| == 1)
    ensures TreeIsLeaf(t) ==> IsOperand(t)
  {
  }

  /**
   * What the engine may hand to a pairwise evaluation: a one-character bare token
   * or a node holding exactly one bare element (a preterminal, or the result of an
   * evaluation).
   */
  predicate IsOperand<V>(t: Tree<V>)
  {
    match t
    case Atom(p) => p.Token?
    case Node(_, children) => |children| == 1 && children[0].Atom?
  }

  /** `tree[0]` of an operand: the bare element it carries (a bare token is its own first element). */
  function OperandPayload<V>(t: Tree<V>): (p: Payload<V>)
    requires IsOperand(t)
    ensures t.Node? ==> Atom(p) == t.children[0]
  {
    if t.Atom? then t.payload else t.children[0].payload
  }

  /** The shape every evaluation returns: `Tree(tag, [vector])`. */
  predicate IsEvaluated<V>(t: Tree<V>, tag: string)
  {
    t.Node? && t.tag == tag && |t.children| == 1 &&
    t.children[0].Atom? && t.children[0].payload.Vec?
  }

  /** The vector (or None) held by an evaluated node. */
  function EvaluatedVector<V>(t: Tree<V>): Option<V>
    requires t.Node? && |t.children| == 1 && t.children[0].Atom? && t.children[0].payload.Vec?
  {
    t.children[0].payload.vector
  }
}
