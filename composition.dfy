/**
 * The composition engine of `ParseTree` as functions of its inputs: operator
 * selection, pairwise evaluation, the two directional folds and the post-order
 * recursion (parse_tree.py:60-149).  The engine's field `default_op` is the
 * parameter `defaultOp`, `hl.mmult1` is `projection` and the word-vector
 * object's `safe_lookup` is `lookup`; all three are left uninterpreted.
 */
module Composition {
  import opened Outcomes
  import opened Trees
  import opened Labels

  /** The exceptions the engine raises on trees it cannot evaluate. */
  datatype Failure =
    | MissingLabel(duringProjection: bool)
      // AttributeError: `.label()` asked of a bare string; `duringProjection` holds when
      // it escaped from the right-to-left fold, leaving `default_op` set to the projection
    | TooFewChildren
      // AssertionError of parse_tree.py:118: a node without children

  /** `__binary_operation` (parse_tree.py:60-68): the rule chosen from two labels. */
  function BinaryOperation<V(!new)>(label1: string, label2: string, defaultOp: (V, V) -> V)
    : (operation: (V, V) -> Option<V>)
    ensures IsIgnored(label1) && IsIgnored(label2) ==>
      forall x, y :: operation(x, y) == None
    ensures IsIgnored(label1) && !IsIgnored(label2) ==>
      forall x, y :: operation(x, y) == Some(y)
    ensures !IsIgnored(label1) && IsIgnored(label2) ==>
      forall x, y :: operation(x, y) == Some(x)
    ensures !IsIgnored(label1) && !IsIgnored(label2) ==>
      forall x, y :: operation(x, y) == Some(defaultOp(x, y))
  {
    if IsIgnored(label1) then
      if IsIgnored(label2) then (x: V, y: V) => None else (x: V, y: V) => Some(y)
    else if IsIgnored(label2) then (x: V, y: V) => Some(x)
    else (x: V, y: V) => Some(defaultOp(x, y))
  }

  /** A string element goes through `safe_lookup`; a vector or None is used as it is. */
  function Resolve<V(!new)>(p: Payload<V>, lookup: string -> Option<V>): (r: Option<V>)
    ensures p.Token? ==> r == lookup(p.text)
    ensures p.Vec? ==> r == p.vector
  {
    match p
    case Token(s) => lookup(s)
    case Vec(v) => v
  }

  /** The vector an operand stands for. */
  function OperandVector<V(!new)>(t: Tree<V>, lookup: string -> Option<V>): Option<V>
    requires IsOperand(t)
  {
    Resolve(OperandPayload(t), lookup)
  }

  /** `__evaluate_2` (parse_tree.py:94-115). */
  function Evaluate2<V(!new)>(t1: Tree<V>, t2: Tree<V>, parentTag: string,
                        defaultOp: (V, V) -> V, lookup: string -> Option<V>)
    : (r: Result<Tree<V>, Failure>)
    requires IsOperand(t1) && IsOperand(t2)
    ensures r.Err? <==> t1.Atom? || t2.Atom?
    ensures r.Err? ==> r.error == MissingLabel(false)
    ensures r.Ok? ==> IsEvaluated(r.value, parentTag)
    // an absent operand never destroys the other one, whatever the labels
    ensures r.Ok? && OperandVector(t1, lookup).None? ==>
      EvaluatedVector(r.value) == OperandVector(t2, lookup)
    ensures r.Ok? && OperandVector(t2, lookup).None? ==>
      EvaluatedVector(r.value) == OperandVector(t1, lookup)
    // two present operands are combined by the rule the two child labels select
    ensures r.Ok? && OperandVector(t1, lookup).Some? && OperandVector(t2, lookup).Some? ==>
      EvaluatedVector(r.value) == BinaryOperation(t1.tag, t2.tag, defaultOp)(
        OperandVector(t1, lookup).value, OperandVector(t2, lookup).value)
  {
    if t1.Atom? || t2.Atom? then Err(MissingLabel(false))
    else
      var vector1 := OperandVector(t1, lookup);
      var vector2 := OperandVector(t2, lookup);
      var operation := BinaryOperation(t1.tag, t2.tag, defaultOp);
      if vector1.None? then
        if vector2.None? then Ok(Node(parentTag, [Atom(Vec(None))]))
        else Ok(Node(parentTag, [Atom(Vec(vector2))]))
      else if vector2.None? then Ok(Node(parentTag, [Atom(Vec(vector1))]))
      else Ok(Node(parentTag, [Atom(Vec(operation(vector1.value, vector2.value)))]))
  }

  predicate AllOperands<V(!new)>(ts: seq<Tree<V>>)
  {
    forall i :: 0 <= i < |ts| ==> IsOperand(ts[i])
  }

  /**
   * `__evaluate_left2right` (parse_tree.py:131-135) from the running tree `current`
   * over the trees still to be consumed: every step is labelled with the running
   * tree's label, which is the first tree's label throughout.
   */
  function FoldLeft<V(!new)>(current: Tree<V>, rest: seq<Tree<V>>,
                       defaultOp: (V, V) -> V, lookup: string -> Option<V>)
    : (r: Result<Tree<V>, Failure>)
    requires IsOperand(current) && AllOperands(rest)
    ensures rest == [] ==> r == Ok(current)
    ensures r.Ok? && rest != [] ==> current.Node? && IsEvaluated(r.value, current.tag)
    ensures r.Err? ==> r.error == MissingLabel(false)
    decreases |rest|
  {
    if rest == [] then Ok(current)
    else if current.Atom? then Err(MissingLabel(false))
    else
      match Evaluate2(current, rest[0], current.tag, defaultOp, lookup)
      case Err(e) => Err(e)
      case Ok(next) => FoldLeft(next, rest[1..], defaultOp, lookup)
  }

  /**
   * `__evaluate_right2left` (parse_tree.py:137-141): fold from the last tree leftwards;
   * every step is labelled with the running tree's label, the last tree's label.
   */
  function FoldRight<V(!new)>(ts: seq<Tree<V>>, defaultOp: (V, V) -> V, lookup: string -> Option<V>)
    : (r: Result<Tree<V>, Failure>)
    requires |ts| >= 1 && AllOperands(ts)
    ensures |ts| == 1 ==> r == Ok(ts[0])
    ensures r.Ok? && |ts| > 1 ==> ts[|ts| - 1].Node? && IsEvaluated(r.value, ts[|ts| - 1].tag)
    ensures r.Err? ==> r.error == MissingLabel(false)
    decreases |ts|
  {
    if |ts| == 1 then Ok(ts[0])
    else
      match FoldRight(ts[1..], defaultOp, lookup)
      case Err(e) => Err(e)
      case Ok(current) =>
        if current.Atom? then Err(MissingLabel(false))
        else Evaluate2(ts[0], current, current.tag, defaultOp, lookup)
  }

  /** `__contains_adjective` (parse_tree.py:143-149): scan labels left to right, stopping at the first adjective. */
  function AdjectiveScan<V(!new)>(ts: seq<Tree<V>>): (r: Result<bool, Failure>)
    ensures r.Err? ==> r.error == MissingLabel(false)
  {
    if ts == [] then Ok(false)
    else if ts[0].Atom? then Err(MissingLabel(false))
    else if IsAdjective(ts[0].tag) then Ok(true)
    else AdjectiveScan(ts[1..])
  }

  /** `__evaluate_greater_than_2` (parse_tree.py:117-129). */
  function GreaterThan2<V(!new)>(ts: seq<Tree<V>>, parentTag: string, defaultOp: (V, V) -> V,
                           projection: (V, V) -> V, lookup: string -> Option<V>)
    : (r: Result<Tree<V>, Failure>)
    requires AllOperands(ts)
    ensures r.Ok? ==> IsEvaluated(r.value, parentTag)
    ensures |ts| <= 2 ==> r == Err(TooFewChildren)
  {
    if |ts| <= 2 then Err(TooFewChildren)
    else
      match AdjectiveScan(ts)
      case Err(e) => Err(e)
      case Ok(hasAdjective) =>
        if hasAdjective then
          match FoldRight(ts, projection, lookup)
          case Err(_) => Err(MissingLabel(true))
          case Ok(folded) => Ok(Node(parentTag, [folded.children[0]]))
        else
          match FoldLeft(ts[0], ts[1..], defaultOp, lookup)
          case Err(e) => Err(e)
          case Ok(folded) => Ok(Node(parentTag, [folded.children[0]]))
  }

  /** The dispatch on the number of evaluated children (parse_tree.py:83-92). */
  function EvaluateList<V(!new)>(ts: seq<Tree<V>>, parentTag: string, defaultOp: (V, V) -> V,
                           projection: (V, V) -> V, lookup: string -> Option<V>)
    : (r: Result<Tree<V>, Failure>)
    requires AllOperands(ts)
    ensures r.Ok? ==> IsEvaluated(r.value, parentTag)
  {
    if |ts| == 1 then Ok(Node(parentTag, [Atom(Vec(OperandVector(ts[0], lookup)))]))
    else if |ts| == 2 then Evaluate2(ts[0], ts[1], parentTag, defaultOp, lookup)
    else GreaterThan2(ts, parentTag, defaultOp, projection, lookup)
  }

  /**
   * `__evaluate` (parse_tree.py:70-92): evaluate the children in order, then
   * combine them.  On success the whole tree collapses to one node that keeps the
   * root's label and holds one vector or None.
   */
  function EvalTree<V(!new)>(t: Tree<V>, defaultOp: (V, V) -> V, projection: (V, V) -> V,
                       lookup: string -> Option<V>)
    : (r: Result<Tree<V>, Failure>)
    requires t.Node? && NoVectors(t)
    ensures r.Ok? ==> IsEvaluated(r.value, t.tag)
    decreases t, |t.children| + 1
  {
    match EvalFrom(t, 0, [], defaultOp, projection, lookup)
    case Err(e) => Err(e)
    case Ok(ts) => EvaluateList(ts, t.tag, defaultOp, projection, lookup)
  }

  /**
   * The loop of parse_tree.py:76-81 from child `i` on, with `acc` the list built so
   * far: a leaf is kept as it is, any other child is evaluated.  A bare token that is
   * not a leaf is a string that `__evaluate` walks character by character, and it
   * fails on `.label()` of that string.
   */
  function EvalFrom<V(!new)>(t: Tree<V>, i: nat, acc: seq<Tree<V>>, defaultOp: (V, V) -> V,
                       projection: (V, V) -> V, lookup: string -> Option<V>)
    : (r: Result<seq<Tree<V>>, Failure>)
    requires t.Node? && NoVectors(t) && i <= |t.children| && AllOperands(acc)
    ensures r.Ok? ==> AllOperands(r.value) && |r.value| == |acc| + |t.children| - i
    ensures r.Ok? ==> r.value[..|acc|] == acc
    decreases t, |t.children| - i
  {
    if i == |t.children| then Ok(acc)
    else
      var child := t.children[i];
      assert NoVectors(child);
      if TreeIsLeaf(child) then EvalFrom(t, i + 1, acc + [child], defaultOp, projection, lookup)
      else if child.Atom? then Err(MissingLabel(false))
      else
        match EvalTree(child, defaultOp, projection, lookup)
        case Err(e) => Err(e)
        case Ok(x) => EvalFrom(t, i + 1, acc + [x], defaultOp, projection, lookup)
  }

  /** The engine's `default_op` once an evaluation has returned or raised. */
  function OpAfter<V(!new), T>(r: Result<T, Failure>, defaultOp: (V, V) -> V, projection: (V, V) -> V)
    : (op: (V, V) -> V)
    ensures r.Ok? ==> op == defaultOp
    ensures r.Err? && r.error == MissingLabel(true) ==> op == projection
    ensures r.Err? && r.error != MissingLabel(true) ==> op == defaultOp
  {
    if r.Err? && r.error.MissingLabel? && r.error.duringProjection then projection else defaultOp
  }
}
