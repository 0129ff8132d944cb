/**
 * What the composition engine guarantees, stated over the functions of
 * `Composition`: the operator rules seen from the caller's side, the closed forms
 * of the two folds, the label that steers every fold step, the choice of
 * direction for nodes with more than two children, and success on well-formed
 * trees.
 */
module CompositionProperties {
  import opened Outcomes
  import opened Trees
  import opened Labels
  import opened Composition

  /** A pairwise result is None only when both operands are absent, or both present and both labels ignored. */
  lemma Evaluate2AbsentExactly<V(!new)>(t1: Tree<V>, t2: Tree<V>, parentTag: string,
                                        defaultOp: (V, V) -> V, lookup: string -> Option<V>)
    requires t1.Node? && t2.Node? && IsOperand(t1) && IsOperand(t2)
    ensures Evaluate2(t1, t2, parentTag, defaultOp, lookup).Ok?
    ensures EvaluatedVector(Evaluate2(t1, t2, parentTag, defaultOp, lookup).value).None? <==>
      (OperandVector(t1, lookup).None? && OperandVector(t2, lookup).None?) ||
      (OperandVector(t1, lookup).Some? && OperandVector(t2, lookup).Some? &&
       IsIgnored(t1.tag) && IsIgnored(t2.tag))
  {
  }

  /** An ignored left label lets the right vector through unchanged, whatever the left operand holds. */
  lemma IgnoredLeftPassesRight<V(!new)>(t1: Tree<V>, t2: Tree<V>, parentTag: string,
                                        defaultOp: (V, V) -> V, lookup: string -> Option<V>)
    requires t1.Node? && t2.Node? && IsOperand(t1) && IsOperand(t2)
    requires IsIgnored(t1.tag) && !IsIgnored(t2.tag) && OperandVector(t2, lookup).Some?
    ensures Evaluate2(t1, t2, parentTag, defaultOp, lookup)
         == Ok(Node(parentTag, [Atom(Vec(OperandVector(t2, lookup)))]))
  {
  }

  /** An ignored right label lets the left vector through unchanged, whatever the right operand holds. */
  lemma IgnoredRightPassesLeft<V(!new)>(t1: Tree<V>, t2: Tree<V>, parentTag: string,
                                        defaultOp: (V, V) -> V, lookup: string -> Option<V>)
    requires t1.Node? && t2.Node? && IsOperand(t1) && IsOperand(t2)
    requires !IsIgnored(t1.tag) && IsIgnored(t2.tag) && OperandVector(t1, lookup).Some?
    ensures Evaluate2(t1, t2, parentTag, defaultOp, lookup)
         == Ok(Node(parentTag, [Atom(Vec(OperandVector(t1, lookup)))]))
  {
  }

  /** Only string elements are looked up: lookups that agree on the operands' tokens give the same result. */
  lemma Evaluate2LooksUpOnlyTokens<V(!new)>(t1: Tree<V>, t2: Tree<V>, parentTag: string,
                                            defaultOp: (V, V) -> V,
                                            lookupA: string -> Option<V>, lookupB: string -> Option<V>)
    requires IsOperand(t1) && IsOperand(t2)
    requires OperandPayload(t1).Token? ==> lookupA(OperandPayload(t1).text) == lookupB(OperandPayload(t1).text)
    requires OperandPayload(t2).Token? ==> lookupA(OperandPayload(t2).text) == lookupB(OperandPayload(t2).text)
    ensures Evaluate2(t1, t2, parentTag, defaultOp, lookupA)
         == Evaluate2(t1, t2, parentTag, defaultOp, lookupB)
  {
  }

  /** Every tree is a node whose label is not ignored and whose vector is present; `vs` lists the vectors. */
  ghost predicate Combinable<V(!new)>(ts: seq<Tree<V>>, lookup: string -> Option<V>, vs: seq<V>)
  {
    |vs| == |ts| &&
    forall i :: 0 <= i < |ts| ==>
      IsOperand(ts[i]) && ts[i].Node? && !IsIgnored(ts[i].tag) &&
      OperandVector(ts[i], lookup) == Some(vs[i])
  }

  /** Reference left fold over plain vectors: op(...op(op(acc, v1), v2)..., vn). */
  function LeftCombine<V>(op: (V, V) -> V, acc: V, vs: seq<V>): V
  {
    if vs == [] then acc else LeftCombine(op, op(acc, vs[0]), vs[1..])
  }

  /** Reference right fold over plain vectors: op(v1, op(v2, ... op(vn-1, vn))). */
  function RightCombine<V>(op: (V, V) -> V, vs: seq<V>): V
    requires |vs| >= 1
  {
    if |vs| == 1 then vs[0] else op(vs[0], RightCombine(op, vs[1..]))
  }

  /** With every vector present and no label ignored, the left fold is the plain left fold of `defaultOp`. */
  lemma {:induction false} FoldLeftCombines<V(!new)>(current: Tree<V>, rest: seq<Tree<V>>, c: V, vs: seq<V>,
                                                    defaultOp: (V, V) -> V, lookup: string -> Option<V>)
    requires IsOperand(current) && current.Node? && !IsIgnored(current.tag)
    requires OperandVector(current, lookup) == Some(c) && Combinable(rest, lookup, vs)
    ensures AllOperands(rest)
    ensures FoldLeft(current, rest, defaultOp, lookup).Ok?
    ensures OperandVector(FoldLeft(current, rest, defaultOp, lookup).value, lookup)
         == Some(LeftCombine(defaultOp, c, vs))
    decreases |rest|
  {
    if rest != [] {
      var next := Evaluate2(current, rest[0], current.tag, defaultOp, lookup);
      assert next == Ok(Node(current.tag, [Atom(Vec(Some(defaultOp(c, vs[0]))))]));
      assert Combinable(rest[1..], lookup, vs[1..]);
      FoldLeftCombines(next.value, rest[1..], defaultOp(c, vs[0]), vs[1..], defaultOp, lookup);
    }
  }

  /** With every vector present and no label ignored, the right fold is the plain right fold of its operator. */
  lemma {:induction false} FoldRightCombines<V(!new)>(ts: seq<Tree<V>>, vs: seq<V>,
                                                     op: (V, V) -> V, lookup: string -> Option<V>)
    requires |ts| >= 1 && Combinable(ts, lookup, vs)
    ensures AllOperands(ts)
    ensures FoldRight(ts, op, lookup).Ok?
    ensures OperandVector(FoldRight(ts, op, lookup).value, lookup) == Some(RightCombine(op, vs))
    decreases |ts|
  {
    if |ts| > 1 {
      assert Combinable(ts[1..], lookup, vs[1..]);
      FoldRightCombines(ts[1..], vs[1..], op, lookup);
    }
  }

  /**
   * The left fold keeps the first tree's label on every step, so an ignored first
   * label makes every step pass its right operand through: the fold returns the last
   * tree's vector and drops all the others.
   */
  lemma {:induction false} FoldLeftIgnoredFirst<V(!new)>(current: Tree<V>, rest: seq<Tree<V>>, vs: seq<V>,
                                                        defaultOp: (V, V) -> V, lookup: string -> Option<V>)
    requires IsOperand(current) && current.Node? && IsIgnored(current.tag)
    requires rest != [] && Combinable(rest, lookup, vs)
    ensures AllOperands(rest)
    ensures FoldLeft(current, rest, defaultOp, lookup).Ok?
    ensures OperandVector(FoldLeft(current, rest, defaultOp, lookup).value, lookup) == Some(vs[|vs| - 1])
    decreases |rest|
  {
    var next := Evaluate2(current, rest[0], current.tag, defaultOp, lookup);
    assert next == Ok(Node(current.tag, [Atom(Vec(Some(vs[0])))]));
    if |rest| > 1 {
      assert Combinable(rest[1..], lookup, vs[1..]);
      FoldLeftIgnoredFirst(next.value, rest[1..], vs[1..], defaultOp, lookup);
    }
  }

  /**
   * The right fold keeps the last tree's label on every step, so an ignored last
   * label makes every step pass its left operand through: the fold returns the first
   * tree's vector.
   */
  lemma {:induction false} FoldRightIgnoredLast<V(!new)>(ts: seq<Tree<V>>, vs: seq<V>,
                                                        op: (V, V) -> V, lookup: string -> Option<V>)
    requires |ts| >= 2 && IsOperand(ts[|ts| - 1]) && ts[|ts| - 1].Node? && IsIgnored(ts[|ts| - 1].tag)
    requires Combinable(ts[..|ts| - 1], lookup, vs)
    ensures AllOperands(ts)
    ensures FoldRight(ts, op, lookup).Ok?
    ensures OperandVector(FoldRight(ts, op, lookup).value, lookup) == Some(vs[0])
    decreases |ts|
  {
    assert ts[1..][..|ts| - 2] == ts[..|ts| - 1][1..];
    if |ts| > 2 {
      assert Combinable(ts[1..][..|ts[1..]| - 1], lookup, vs[1..]);
      FoldRightIgnoredLast(ts[1..], vs[1..], op, lookup);
    }
    assert ts[..|ts| - 1][0] == ts[0];
  }

  /** Once the fold of a suffix raises, the fold of the whole sequence raises the same exception. */
  lemma {:induction false} FoldRightSuffixFails<V(!new)>(ts: seq<Tree<V>>, i: nat, op: (V, V) -> V,
                                                        lookup: string -> Option<V>)
    requires i < |ts| && AllOperands(ts)
    requires FoldRight(ts[i..], op, lookup).Err?
    ensures FoldRight(ts, op, lookup) == Err(MissingLabel(false))
    decreases i
  {
    if i == 0 {
      assert ts[0..] == ts;
    } else {
      assert ts[1..][i - 1..] == ts[i..];
      FoldRightSuffixFails(ts[1..], i - 1, op, lookup);
    }
  }

  /** Over nodes only, the scan succeeds and reports whether some label is an adjective. */
  lemma {:induction false} AdjectiveScanOfNodes<V(!new)>(ts: seq<Tree<V>>)
    requires forall i :: 0 <= i < |ts| ==> ts[i].Node?
    ensures AdjectiveScan(ts) == Ok(exists i :: 0 <= i < |ts| && IsAdjective(ts[i].tag))
  {
    if ts != [] && !IsAdjective(ts[0].tag) {
      AdjectiveScanOfNodes(ts[1..]);
      if exists i :: 0 <= i < |ts| && IsAdjective(ts[i].tag) {
        var i :| 0 <= i < |ts| && IsAdjective(ts[i].tag);
        assert IsAdjective(ts[1..][i - 1].tag);
      }
    }
  }

  /**
   * Direction of a node with more than two children: with an adjective among the
   * labels its vector is the right-to-left fold of the projection, otherwise the
   * left-to-right fold of the default operator (every vector present, no label ignored).
   */
  lemma WideNodeDirection<V(!new)>(ts: seq<Tree<V>>, vs: seq<V>, parentTag: string,
                                   defaultOp: (V, V) -> V, projection: (V, V) -> V,
                                   lookup: string -> Option<V>)
    requires |ts| > 2 && Combinable(ts, lookup, vs)
    ensures AllOperands(ts)
    ensures GreaterThan2(ts, parentTag, defaultOp, projection, lookup).Ok?
    ensures EvaluatedVector(GreaterThan2(ts, parentTag, defaultOp, projection, lookup).value) ==
      if exists i :: 0 <= i < |ts| && IsAdjective(ts[i].tag)
      then Some(RightCombine(projection, vs))
      else Some(LeftCombine(defaultOp, vs[0], vs[1..]))
  {
    AdjectiveScanOfNodes(ts);
    if exists i :: 0 <= i < |ts| && IsAdjective(ts[i].tag) {
      FoldRightCombines(ts, vs, projection, lookup);
    } else {
      assert Combinable(ts[1..], lookup, vs[1..]);
      FoldLeftCombines(ts[0], ts[1..], vs[0], vs[1..], defaultOp, lookup);
    }
  }

  predicate AllNodes<V>(ts: seq<Tree<V>>)
  {
    forall i :: 0 <= i < |ts| ==> ts[i].Node?
  }

  lemma {:induction false} FoldLeftOfNodes<V(!new)>(current: Tree<V>, rest: seq<Tree<V>>,
                                                   defaultOp: (V, V) -> V, lookup: string -> Option<V>)
    requires IsOperand(current) && current.Node? && AllOperands(rest) && AllNodes(rest)
    ensures FoldLeft(current, rest, defaultOp, lookup).Ok?
    decreases |rest|
  {
    if rest != [] {
      var next := Evaluate2(current, rest[0], current.tag, defaultOp, lookup);
      FoldLeftOfNodes(next.value, rest[1..], defaultOp, lookup);
    }
  }

  lemma {:induction false} FoldRightOfNodes<V(!new)>(ts: seq<Tree<V>>, op: (V, V) -> V,
                                                    lookup: string -> Option<V>)
    requires |ts| >= 1 && AllOperands(ts) && AllNodes(ts)
    ensures FoldRight(ts, op, lookup).Ok?
    decreases |ts|
  {
    if |ts| > 1 {
      FoldRightOfNodes(ts[1..], op, lookup);
    }
  }

  /**
   * A tree the engine can evaluate: every node has children, and each child is a
   * node, either a preterminal or itself evaluable.  Parsed sentences and flat
   * sentences have this shape.
   */
  predicate Evaluable<V>(t: Tree<V>)
  {
    t.Node? && |t.children| >= 1 &&
    forall i :: 0 <= i < |t.children| ==>
      t.children[i].Node? &&
      ((|t.children[i].children| == 1 && t.children[i].children[0].Atom?) || Evaluable(t.children[i]))
  }

  /** Evaluation of a well-formed tree raises nothing. */
  lemma {:induction false} EvaluableSucceeds<V(!new)>(t: Tree<V>, defaultOp: (V, V) -> V,
                                                     projection: (V, V) -> V, lookup: string -> Option<V>)
    requires NoVectors(t) && Evaluable(t)
    ensures EvalTree(t, defaultOp, projection, lookup).Ok?
    decreases t, |t.children| + 1
  {
    EvalFromSucceeds(t, 0, [], defaultOp, projection, lookup);
    var ts := EvalFrom(t, 0, [], defaultOp, projection, lookup).value;
    if |ts| > 2 {
      AdjectiveScanOfNodes(ts);
      FoldRightOfNodes(ts, projection, lookup);
      FoldLeftOfNodes(ts[0], ts[1..], defaultOp, lookup);
    }
  }

  lemma {:induction false} EvalFromSucceeds<V(!new)>(t: Tree<V>, i: nat, acc: seq<Tree<V>>,
                                                    defaultOp: (V, V) -> V, projection: (V, V) -> V,
                                                    lookup: string -> Option<V>)
    requires NoVectors(t) && Evaluable(t) && i <= |t.children| && AllOperands(acc) && AllNodes(acc)
    ensures EvalFrom(t, i, acc, defaultOp, projection, lookup).Ok?
    ensures AllNodes(EvalFrom(t, i, acc, defaultOp, projection, lookup).value)
    decreases t, |t.children| - i
  {
    if i < |t.children| {
      var child := t.children[i];
      assert NoVectors(child);
      if TreeIsLeaf(child) {
        EvalFromSucceeds(t, i + 1, acc + [child], defaultOp, projection, lookup);
      } else {
        EvaluableSucceeds(child, defaultOp, projection, lookup);
        var x := EvalTree(child, defaultOp, projection, lookup).value;
        EvalFromSucceeds(t, i + 1, acc + [x], defaultOp, projection, lookup);
      }
    }
  }

  /** A node without children raises the assertion of the wide-node branch. */
  lemma EmptyNodeFails<V(!new)>(tag: string, defaultOp: (V, V) -> V, projection: (V, V) -> V,
                                lookup: string -> Option<V>)
    ensures EvalTree(Node(tag, []), defaultOp, projection, lookup) == Err(TooFewChildren)
  {
  }

  /**
   * A preterminal evaluated as the root: its token is looked up only when it is a
   * single character; a longer token is walked as a string and fails on `.label()`.
   */
  lemma PreterminalRoot<V(!new)>(tag: string, word: string, defaultOp: (V, V) -> V,
                                 projection: (V, V) -> V, lookup: string -> Option<V>)
    ensures EvalTree(Node(tag, [Atom(Token(word))]), defaultOp, projection, lookup) ==
      if |word| == 1 then Ok(Node(tag, [Atom(Vec(lookup(word)))])) else Err(MissingLabel(false))
  {
    var t := Node(tag, [Atom(Token(word))]);
    if |word| == 1 {
      var leaf := Atom(Token(word));
      assert EvalFrom(t, 1, [leaf], defaultOp, projection, lookup) == Ok([leaf]);
      assert EvalFrom(t, 0, [], defaultOp, projection, lookup) == Ok([leaf]);
      assert OperandVector(leaf, lookup) == lookup(word);
    }
  }
}
