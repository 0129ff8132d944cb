/**
 * The `ParseTree` object (parse_tree.py:17-182): it owns the tree `data` and the
 * operator `default_op`, evaluates the tree in place, and swaps `default_op` for
 * the projection while it folds a node that has an adjective child.  Each method
 * is proved against the function of `Composition` that specifies it.
 */
module Engine {
  import opened Outcomes
  import opened Trees
  import opened Labels
  import opened Composition
  import opened CompositionProperties
  import opened Sentences

  class ParseTree<V(!new)> {
    /** The tree; `evaluate` replaces it by its evaluation. */
    var data: Tree<V>
    /** The operator applied to two non-ignored operands (`hl.mult` unless given). */
    var defaultOp: (V, V) -> V
    /** `hl.mmult1`, the projection used for nodes with an adjective child. */
    const projection: (V, V) -> V
    /** `word_vectors.safe_lookup`. */
    const wordVectors: string -> Option<V>

    /** `__init__` (parse_tree.py:22-25), given the tree the bracket parser produced. */
    constructor (parsed: Tree<V>, wordVectors: string -> Option<V>,
                 defaultOp: (V, V) -> V, projection: (V, V) -> V)
      ensures data == parsed && this.defaultOp == defaultOp
      ensures this.wordVectors == wordVectors && this.projection == projection
    {
      data := parsed;
      this.defaultOp := defaultOp;
      this.projection := projection;
      this.wordVectors := wordVectors;
    }

    /**
     * `from_sentence` (parse_tree.py:46-58).  `mult` is `hl.mult`, the default
     * operator of every tree it builds, and `parse` is the bracket parser.
     */
    static method FromSentence(sentence: string, wordVectors: string -> Option<V>, delimiter: string,
                               tags: Option<seq<string>>, mult: (V, V) -> V, projection: (V, V) -> V,
                               parse: string -> Option<Tree<V>>)
      returns (r: Result<ParseTree<V>, BuildError>)
      ensures r.Ok? ==>
        fresh(r.value) && r.value.defaultOp == mult &&
        r.value.wordVectors == wordVectors && r.value.projection == projection
      ensures '(' !in sentence ==>
        match FlatTree<V>(sentence, delimiter, tags)
        case Err(e) => r == Err(e)
        case Ok(t) => r.Ok? && r.value.data == t
      ensures '(' in sentence ==>
        match parse(sentence)
        case None => r == Err(Malformed)
        case Some(t) => r.Ok? && r.value.data == t
    {
      if '(' !in sentence {
        var flat := FlatTree<V>(sentence, delimiter, tags);
        if flat.Err? {
          return Err(flat.error);
        }
        var output := new ParseTree(flat.value, wordVectors, mult, projection);
        return Ok(output);
      }
      var parsed := parse(sentence);
      if parsed.None? {
        return Err(Malformed);
      }
      var output := new ParseTree(parsed.value, wordVectors, mult, projection);
      r := Ok(output);
    }

    /**
     * `evaluate` (parse_tree.py:30-32): on success `data` becomes the evaluated tree;
     * when an exception escapes, `data` is untouched and `default_op` is left as the
     * evaluation left it.  If `data` is a bare string, its characters are leaves
     * without a label: whatever their number, `.label()` is asked of the string itself
     * or of one of its characters before any combination, so evaluating it raises.
     */
    method Evaluate() returns (raised: Option<Failure>)
      requires NoVectors(data)
      modifies this
      ensures old(data).Atom? ==>
        raised == Some(MissingLabel(false)) &&
        data == old(data) && defaultOp == old(defaultOp)
      ensures old(data).Node? ==>
        var out := EvalTree(old(data), old(defaultOp), projection, wordVectors);
        (out.Ok? ==> raised == None && data == out.value && IsEvaluated(data, old(data).tag)) &&
        (out.Err? ==> raised == Some(out.error) && data == old(data)) &&
        defaultOp == OpAfter(out, old(defaultOp), projection)
    {
      if data.Atom? {
        raised := Some(MissingLabel(false));
        return;
      }
      var out := EvaluateTree(data);
      if out.Ok? {
        data := out.value;
        raised := None;
      } else {
        raised := Some(out.error);
      }
    }

    /** `__evaluate` (parse_tree.py:70-92). */
    method EvaluateTree(t: Tree<V>) returns (r: Result<Tree<V>, Failure>)
      requires t.Node? && NoVectors(t)
      modifies this`defaultOp
      ensures r == EvalTree(t, old(defaultOp), projection, wordVectors)
      ensures defaultOp == OpAfter(r, old(defaultOp), projection)
      decreases t
    {
      var treeList: seq<Tree<V>> := [];
      var i := 0;
      while i < |t.children|
        invariant 0 <= i <= |t.children|
        invariant defaultOp == old(defaultOp)
        invariant AllOperands(treeList)
        invariant EvalFrom(t, 0, [], defaultOp, projection, wordVectors)
               == EvalFrom(t, i, treeList, defaultOp, projection, wordVectors)
      {
        var child := t.children[i];
        assert NoVectors(child);
        if TreeIsLeaf(child) {
          treeList := treeList + [child];
        } else if child.Atom? {
          return Err(MissingLabel(false));
        } else {
          var evaluated := EvaluateTree(child);
          if evaluated.Err? {
            return evaluated;
          }
          treeList := treeList + [evaluated.value];
        }
        i := i + 1;
      }
      if |treeList| == 1 {
        var vector1 := Resolve(OperandPayload(treeList[0]), wordVectors);
        r := Ok(Node(t.tag, [Atom(Vec(vector1))]));
      } else if |treeList| == 2 {
        r := Evaluate2(treeList[0], treeList[1], t.tag, defaultOp, wordVectors);
      } else {
        r := EvaluateGreaterThan2(treeList, t.tag);
      }
    }

    /**
     * `__evaluate_greater_than_2` (parse_tree.py:117-129): `default_op` is saved,
     * set to the projection for the right-to-left fold and restored after it; an
     * exception from the fold skips the restore.
     */
    method EvaluateGreaterThan2(treeList: seq<Tree<V>>, parentTag: string)
      returns (r: Result<Tree<V>, Failure>)
      requires AllOperands(treeList)
      modifies this`defaultOp
      ensures r == GreaterThan2(treeList, parentTag, old(defaultOp), projection, wordVectors)
      ensures defaultOp == OpAfter(r, old(defaultOp), projection)
      ensures r.Ok? ==> defaultOp == old(defaultOp)
    {
      if |treeList| <= 2 {
        return Err(TooFewChildren);
      }
      var hasAdjective := ContainsAdjective(treeList);
      if hasAdjective.Err? {
        return Err(hasAdjective.error);
      }
      if hasAdjective.value {
        var previousDefaultOp := defaultOp;
        defaultOp := projection;
        var evaluated := EvaluateRight2Left(treeList);
        if evaluated.Err? {
          return Err(MissingLabel(true));
        }
        defaultOp := previousDefaultOp;
        return Ok(Node(parentTag, [evaluated.value.children[0]]));
      }
      var evaluated := EvaluateLeft2Right(treeList);
      if evaluated.Err? {
        return Err(evaluated.error);
      }
      r := Ok(Node(parentTag, [evaluated.value.children[0]]));
    }

    /** `__evaluate_left2right` (parse_tree.py:131-135). */
    method EvaluateLeft2Right(treeList: seq<Tree<V>>) returns (r: Result<Tree<V>, Failure>)
      requires |treeList| >= 1 && AllOperands(treeList)
      ensures r == FoldLeft(treeList[0], treeList[1..], defaultOp, wordVectors)
    {
      var current := treeList[0];
      var i := 1;
      while i < |treeList|
        invariant 1 <= i <= |treeList|
        invariant IsOperand(current)
        invariant FoldLeft(treeList[0], treeList[1..], defaultOp, wordVectors)
               == FoldLeft(current, treeList[i..], defaultOp, wordVectors)
      {
        assert treeList[i..][0] == treeList[i] && treeList[i..][1..] == treeList[i + 1..];
        if current.Atom? {
          return Err(MissingLabel(false));
        }
        var next := Evaluate2(current, treeList[i], current.tag, defaultOp, wordVectors);
        if next.Err? {
          return next;
        }
        current := next.value;
        i := i + 1;
      }
      r := Ok(current);
    }

    /** `__evaluate_right2left` (parse_tree.py:137-141). */
    method EvaluateRight2Left(treeList: seq<Tree<V>>) returns (r: Result<Tree<V>, Failure>)
      requires |treeList| >= 1 && AllOperands(treeList)
      ensures r == FoldRight(treeList, defaultOp, wordVectors)
    {
      var i := |treeList| - 1;
      var current := treeList[i];
      while i > 0
        invariant 0 <= i <= |treeList| - 1
        invariant IsOperand(current)
        invariant FoldRight(treeList[i..], defaultOp, wordVectors) == Ok(current)
      {
        i := i - 1;
        assert treeList[i..][0] == treeList[i] && treeList[i..][1..] == treeList[i + 1..];
        if current.Atom? {
          FoldRightSuffixFails(treeList, i, defaultOp, wordVectors);
          return Err(MissingLabel(false));
        }
        var next := Evaluate2(treeList[i], current, current.tag, defaultOp, wordVectors);
        if next.Err? {
          FoldRightSuffixFails(treeList, i, defaultOp, wordVectors);
          return next;
        }
        current := next.value;
      }
      assert treeList[0..] == treeList;
      r := Ok(current);
    }

    /** `__contains_adjective` (parse_tree.py:143-149). */
    method ContainsAdjective(treeList: seq<Tree<V>>) returns (r: Result<bool, Failure>)
      ensures r == AdjectiveScan(treeList)
    {
      var hasAdjective := false;
      var i := 0;
      while i < |treeList|
        invariant 0 <= i <= |treeList|
        invariant !hasAdjective
        invariant AdjectiveScan(treeList) == AdjectiveScan(treeList[i..])
      {
        assert treeList[i..][0] == treeList[i] && treeList[i..][1..] == treeList[i + 1..];
        if treeList[i].Atom? {
          return Err(MissingLabel(false));
        }
        if IsAdjective(treeList[i].tag) {
          hasAdjective := true;
          break;
        }
        i := i + 1;
      }
      r := Ok(hasAdjective);
    }
  }
}
