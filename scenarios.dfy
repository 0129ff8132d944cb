/**
 * Whole-sentence consequences of the model: every flat sentence evaluates, and
 * worked sentences show the drop rule, the case-sensitive ignore test and the two
 * fold directions.
 */
module Scenarios {
  import opened Outcomes
  import opened Trees
  import opened Labels
  import opened Composition
  import opened CompositionProperties
  import opened Sentences

  /** Every tree built from a flat sentence evaluates without raising. */
  lemma FlatSentenceEvaluates<V(!new)>(sentence: string, delimiter: string, tags: Option<seq<string>>,
                                       defaultOp: (V, V) -> V, projection: (V, V) -> V,
                                       lookup: string -> Option<V>)
    requires FlatTree<V>(sentence, delimiter, tags).Ok?
    ensures NoVectors(FlatTree<V>(sentence, delimiter, tags).value)
    ensures EvalTree(FlatTree<V>(sentence, delimiter, tags).value, defaultOp, projection, lookup).Ok?
  {
    var t := FlatTree<V>(sentence, delimiter, tags).value;
    assert forall i :: 0 <= i < |t.children| ==> t.children[i].Node? && |t.children[i].children| == 1;
    EvaluableSucceeds(t, defaultOp, projection, lookup);
  }

  /** The noun phrase `(NP (DT det) (NN noun))`, as in "the cat". */
  function NounPhrase<V>(det: string, noun: string): (t: Tree<V>)
    ensures NoVectors(t)
  {
    var d := Preterminal("DT", det);
    var n := Preterminal("NN", noun);
    assert NoVectors(d.children[0]) && NoVectors(n.children[0]);
    Node("NP", [d, n])
  }

  /** The sentence `(S (NP (DT det) (NN noun)) (VP (VBZ verb)))`, as in "the cat sits". */
  function DeterminerNounVerb<V>(det: string, noun: string, verb: string): (t: Tree<V>)
    ensures NoVectors(t)
  {
    var vp := Node("VP", [Preterminal("VBZ", verb)]);
    assert NoVectors(vp.children[0]);
    Node("S", [NounPhrase(det, noun), vp])
  }

  /** A node whose children are all preterminals evaluates to the combination of those children. */
  lemma EvalOfPreterminals<V(!new)>(t: Tree<V>, defaultOp: (V, V) -> V, projection: (V, V) -> V,
                                    lookup: string -> Option<V>)
    requires t.Node? && NoVectors(t)
    requires forall i :: 0 <= i < |t.children| ==>
      t.children[i].Node? && |t.children[i].children| == 1 && t.children[i].children[0].Atom?
    ensures AllOperands(t.children)
    ensures EvalTree(t, defaultOp, projection, lookup)
         == EvaluateList(t.children, t.tag, defaultOp, projection, lookup)
  {
    EvalFromPreterminals(t, defaultOp, projection, lookup);
  }

  /** A determiner without a vector ("the") drops out: the noun phrase is the noun's vector. */
  lemma NounPhraseDropsDeterminer<V(!new)>(det: string, noun: string, c: V, defaultOp: (V, V) -> V,
                                           projection: (V, V) -> V, lookup: string -> Option<V>)
    requires lookup(det) == None && lookup(noun) == Some(c)
    ensures EvalTree(NounPhrase<V>(det, noun), defaultOp, projection, lookup)
         == Ok(Node("NP", [Atom(Vec(Some(c)))]))
  {
    var np := NounPhrase<V>(det, noun);
    EvalOfPreterminals(np, defaultOp, projection, lookup);
    var r := Evaluate2(np.children[0], np.children[1], "NP", defaultOp, lookup);
    assert OperandVector(np.children[0], lookup) == None;
    assert OperandVector(np.children[1], lookup) == Some(c);
    assert r.Ok? && IsEvaluated(r.value, "NP") && EvaluatedVector(r.value) == Some(c);
  }

  /** The verb phrase `(VP (VBZ verb))` is the verb's vector. */
  lemma VerbPhraseOfOneWord<V(!new)>(verb: string, s: V, defaultOp: (V, V) -> V,
                                     projection: (V, V) -> V, lookup: string -> Option<V>)
    requires lookup(verb) == Some(s)
    ensures EvalTree(Node("VP", [Preterminal<V>("VBZ", verb)]), defaultOp, projection, lookup)
         == Ok(Node("VP", [Atom(Vec(Some(s)))]))
  {
    EvalOfPreterminals(Node("VP", [Preterminal<V>("VBZ", verb)]), defaultOp, projection, lookup);
  }

  /**
   * "the cat sits" with no vector for "the": the noun phrase is the vector of the
   * noun (an absent operand is dropped), the verb phrase that of the verb, and the
   * sentence their combination by the default operator.
   */
  lemma SentenceWithoutDeterminer<V(!new)>(det: string, noun: string, verb: string, c: V, s: V,
                                           defaultOp: (V, V) -> V, projection: (V, V) -> V,
                                           lookup: string -> Option<V>)
    requires lookup(det) == None && lookup(noun) == Some(c) && lookup(verb) == Some(s)
    ensures EvalTree(DeterminerNounVerb<V>(det, noun, verb), defaultOp, projection, lookup)
         == Ok(Node("S", [Atom(Vec(Some(defaultOp(c, s))))]))
  {
    var t := DeterminerNounVerb<V>(det, noun, verb);
    var npValue := Node("NP", [Atom(Vec(Some(c)))]);
    var vpValue := Node("VP", [Atom(Vec(Some(s)))]);
    NounPhraseDropsDeterminer(det, noun, c, defaultOp, projection, lookup);
    VerbPhraseOfOneWord(verb, s, defaultOp, projection, lookup);
    EvalFromTwoPhrases(t, npValue, vpValue, defaultOp, projection, lookup);
    assert EvalTree(t, defaultOp, projection, lookup)
        == Evaluate2(npValue, vpValue, "S", defaultOp, lookup);
    PhrasesCombine(c, s, "NP", "VP", "S", defaultOp, lookup);
  }

  /** Two evaluated phrases with present vectors and labels outside the ignore list are combined by the default operator. */
  lemma PhrasesCombine<V(!new)>(a: V, b: V, tag1: string, tag2: string, parentTag: string,
                                defaultOp: (V, V) -> V, lookup: string -> Option<V>)
    requires !IsIgnored(tag1) && !IsIgnored(tag2)
    ensures Evaluate2(Node(tag1, [Atom(Vec(Some(a)))]), Node(tag2, [Atom(Vec(Some(b)))]), parentTag, defaultOp, lookup)
         == Ok(Node(parentTag, [Atom(Vec(Some(defaultOp(a, b))))]))
  {
    var x := Node(tag1, [Atom(Vec(Some(a)))]);
    var y := Node(tag2, [Atom(Vec(Some(b)))]);
    assert OperandVector(x, lookup) == Some(a) && OperandVector(y, lookup) == Some(b);
  }

  /** Two non-preterminal children are each replaced by their evaluation. */
  lemma EvalFromTwoPhrases<V(!new)>(t: Tree<V>, x0: Tree<V>, x1: Tree<V>, defaultOp: (V, V) -> V,
                                    projection: (V, V) -> V, lookup: string -> Option<V>)
    requires t.Node? && NoVectors(t) && |t.children| == 2
    requires t.children[0].Node? && !TreeIsLeaf(t.children[0]) && t.children[1].Node? && !TreeIsLeaf(t.children[1])
    requires EvalTree(t.children[0], defaultOp, projection, lookup) == Ok(x0)
    requires EvalTree(t.children[1], defaultOp, projection, lookup) == Ok(x1)
    ensures EvalFrom(t, 0, [], defaultOp, projection, lookup) == Ok([x0, x1])
  {
    assert IsOperand(x0) && IsOperand(x1);
    assert EvalFrom(t, 1, [x0], defaultOp, projection, lookup) == Ok([x0, x1]) by {
      assert [x0] + [x1] == [x0, x1];
    }
    assert [] + [x0] == [x0];
  }

  /**
   * The upper-case label "DT" is not in the lower-case ignore list, so a determiner
   * that has a vector is combined into the noun phrase like any other word.
   */
  lemma UpperCaseDeterminerIsCombined<V(!new)>(det: string, noun: string, d: V, c: V,
                                               defaultOp: (V, V) -> V, projection: (V, V) -> V,
                                               lookup: string -> Option<V>)
    requires lookup(det) == Some(d) && lookup(noun) == Some(c)
    ensures EvalTree(NounPhrase<V>(det, noun), defaultOp, projection, lookup)
         == Ok(Node("NP", [Atom(Vec(Some(defaultOp(d, c))))]))
  {
    var np := NounPhrase<V>(det, noun);
    EvalOfPreterminals(np, defaultOp, projection, lookup);
    IgnoreIsCaseSensitive();
    assert !IsIgnored("NN");
    assert OperandVector(np.children[0], lookup) == Some(d);
    assert OperandVector(np.children[1], lookup) == Some(c);
  }

  predicate SpaceFree(w: string)
  {
    forall i :: 0 <= i < |w| ==> w[i] != ' '
  }

  /** A word without spaces is glued onto the first piece of what follows it. */
  lemma {:induction false} SplitWord(w: string, rest: string)
    requires SpaceFree(w)
    ensures Split(w + rest, " ") == [w + Split(rest, " ")[0]] + Split(rest, " ")[1..]
    decreases |w|
  {
    var pieces := Split(rest, " ");
    if w == [] {
      assert w + rest == rest;
      assert w + pieces[0] == pieces[0];
      assert [w + pieces[0]] + pieces[1..] == pieces;
    } else {
      var s := w + rest;
      assert s[..1] == [w[0]] != " ";
      assert s[1..] == w[1..] + rest;
      SplitWord(w[1..], rest);
      var tail := Split(s[1..], " ");
      assert tail == [w[1..] + pieces[0]] + pieces[1..];
      assert Split(s, " ") == [[s[0]] + tail[0]] + tail[1..];
      assert [s[0]] + (w[1..] + pieces[0]) == w + pieces[0];
    }
  }

  /** A leading space starts a new piece. */
  lemma SplitSpace(rest: string)
    ensures Split(" " + rest, " ") == [""] + Split(rest, " ")
  {
    assert (" " + rest)[..1] == " ";
    assert (" " + rest)[1..] == rest;
  }

  /** A last word without spaces is a piece of its own. */
  lemma SplitLastWord(w: string)
    requires SpaceFree(w)
    ensures Split(w, " ") == [w]
  {
    assert Split([], " ") == [[]];
    SplitWord(w, []);
    assert w + [] == w;
  }

  /** A word without spaces followed by a space is a piece of its own. */
  lemma SplitFirstWord(w: string, rest: string)
    requires SpaceFree(w)
    ensures Split(w + " " + rest, " ") == [w] + Split(rest, " ")
  {
    SplitWord(w, " " + rest);
    SplitSpace(rest);
    assert w + (" " + rest) == w + " " + rest;
    assert w + "" == w;
  }

  /** Splitting three space-free words joined by single spaces gives the three words back. */
  lemma SplitThreeWords(w1: string, w2: string, w3: string)
    requires SpaceFree(w1) && SpaceFree(w2) && SpaceFree(w3)
    ensures Split(w1 + " " + w2 + " " + w3, " ") == [w1, w2, w3]
  {
    var tail := w2 + " " + w3;
    SplitLastWord(w3);
    SplitFirstWord(w2, w3);
    assert Split(tail, " ") == [w2, w3];
    SplitFirstWord(w1, tail);
    ConcatThree(w1, w2, w3);
  }

  lemma ConcatThree(w1: string, w2: string, w3: string)
    ensures w1 + " " + (w2 + " " + w3) == w1 + " " + w2 + " " + w3
  {
  }

  /** The flat tree of three space-free words with three tags: one preterminal per word under "Root". */
  lemma FlatTreeOfThreeWords<V>(w1: string, w2: string, w3: string, t1: string, t2: string, t3: string)
    requires SpaceFree(w1) && SpaceFree(w2) && SpaceFree(w3)
    ensures FlatTree<V>(w1 + " " + w2 + " " + w3, " ", Some([t1, t2, t3]))
         == Ok(Node("Root", [Preterminal(t1, w1), Preterminal(t2, w2), Preterminal(t3, w3)]))
  {
    SplitThreeWords(w1, w2, w3);
    var r := FlatTree<V>(w1 + " " + w2 + " " + w3, " ", Some([t1, t2, t3]));
    assert r.Ok?;
    assert r.value.children == [Preterminal(t1, w1), Preterminal(t2, w2), Preterminal(t3, w3)];
  }

  /** Three vectors folded right to left: op(v1, op(v2, v3)). */
  lemma RightCombineOfThree<V>(op: (V, V) -> V, v1: V, v2: V, v3: V)
    ensures RightCombine(op, [v1, v2, v3]) == op(v1, op(v2, v3))
  {
    assert [v1, v2, v3][1..] == [v2, v3];
    assert [v2, v3][1..] == [v3];
    assert RightCombine(op, [v3]) == v3;
    assert RightCombine(op, [v2, v3]) == op(v2, RightCombine(op, [v3]));
  }

  /** Three vectors folded left to right: op(op(v1, v2), v3). */
  lemma LeftCombineOfThree<V>(op: (V, V) -> V, v1: V, v2: V, v3: V)
    ensures LeftCombine(op, v1, [v2, v3]) == op(op(v1, v2), v3)
  {
    assert [v2, v3][1..] == [v3];
    assert [v3][1..] == [];
    assert LeftCombine(op, op(op(v1, v2), v3), []) == op(op(v1, v2), v3);
    assert LeftCombine(op, op(v1, v2), [v3]) == LeftCombine(op, op(op(v1, v2), v3), []);
  }

  /** A "Root" node over preterminals tagged `jj nn vbz` is the right-to-left projection fold. */
  lemma AdjectiveRootProjects<V(!new)>(w1: string, w2: string, w3: string, v1: V, v2: V, v3: V,
                                       defaultOp: (V, V) -> V, projection: (V, V) -> V,
                                       lookup: string -> Option<V>)
    requires lookup(w1) == Some(v1) && lookup(w2) == Some(v2) && lookup(w3) == Some(v3)
    ensures EvalTree(Node("Root", [Preterminal<V>("jj", w1), Preterminal<V>("nn", w2), Preterminal<V>("vbz", w3)]),
                     defaultOp, projection, lookup)
         == Ok(Node("Root", [Atom(Vec(Some(projection(v1, projection(v2, v3)))))]))
  {
    var ts := [Preterminal<V>("jj", w1), Preterminal<V>("nn", w2), Preterminal<V>("vbz", w3)];
    var t := Node("Root", ts);
    EvalOfPreterminals(t, defaultOp, projection, lookup);
    assert EvalTree(t, defaultOp, projection, lookup) == GreaterThan2(ts, "Root", defaultOp, projection, lookup);
    ThreePreterminalsCombinable(w1, w2, w3, v1, v2, v3, "jj", "nn", "vbz", lookup);
    JjIsAdjective();
    assert IsAdjective(ts[0].tag);
    WideNodeDirection(ts, [v1, v2, v3], "Root", defaultOp, projection, lookup);
    RightCombineOfThree(projection, v1, v2, v3);
  }

  /**
   * A three-word flat sentence whose first tag is the adjective `jj` (as
   * `from_sentence("red ball flies", tags=["jj", "nn", "vbz"])`): the root has more
   * than two children, one of them an adjective, so its vector is the
   * right-to-left projection fold.
   */
  lemma AdjectiveSentenceProjects<V(!new)>(w1: string, w2: string, w3: string, v1: V, v2: V, v3: V,
                                           defaultOp: (V, V) -> V, projection: (V, V) -> V,
                                           lookup: string -> Option<V>)
    requires SpaceFree(w1) && SpaceFree(w2) && SpaceFree(w3)
    requires lookup(w1) == Some(v1) && lookup(w2) == Some(v2) && lookup(w3) == Some(v3)
    ensures FlatTree<V>(w1 + " " + w2 + " " + w3, " ", Some(["jj", "nn", "vbz"])).Ok?
    ensures EvalTree(FlatTree<V>(w1 + " " + w2 + " " + w3, " ", Some(["jj", "nn", "vbz"])).value,
                     defaultOp, projection, lookup)
         == Ok(Node("Root", [Atom(Vec(Some(projection(v1, projection(v2, v3)))))]))
  {
    FlatTreeOfThreeWords<V>(w1, w2, w3, "jj", "nn", "vbz");
    AdjectiveRootProjects(w1, w2, w3, v1, v2, v3, defaultOp, projection, lookup);
  }

  /** Three preterminals with non-ignored tags and looked-up words are combinable operands. */
  lemma ThreePreterminalsCombinable<V(!new)>(w1: string, w2: string, w3: string, v1: V, v2: V, v3: V,
                                             t1: string, t2: string, t3: string,
                                             lookup: string -> Option<V>)
    requires lookup(w1) == Some(v1) && lookup(w2) == Some(v2) && lookup(w3) == Some(v3)
    requires !IsIgnored(t1) && !IsIgnored(t2) && !IsIgnored(t3)
    ensures Combinable([Preterminal<V>(t1, w1), Preterminal<V>(t2, w2), Preterminal<V>(t3, w3)],
                       lookup, [v1, v2, v3])
  {
  }

  lemma JjIsAdjective()
    ensures IsAdjective("jj")
  {
    AdjectiveSpellings("jj");
  }

  lemma PlainTagsHaveNoAdjective<V>(ts: seq<Tree<V>>)
    requires |ts| == 3 && forall i :: 0 <= i < 3 ==> ts[i].Node?
    requires ts[0].tag == "nn" && ts[1].tag == "nn" && ts[2].tag == "vbz"
    ensures !exists i :: 0 <= i < |ts| && IsAdjective(ts[i].tag)
  {
    AdjectiveSpellings("nn");
    AdjectiveSpellings("vbz");
    forall i | 0 <= i < |ts| ensures !IsAdjective(ts[i].tag) {
      assert ts[i].tag == "nn" || ts[i].tag == "vbz";
    }
  }

  /** A "Root" node over preterminals tagged `nn nn vbz` is the left-to-right fold of the default operator. */
  lemma PlainRootFoldsLeft<V(!new)>(w1: string, w2: string, w3: string, v1: V, v2: V, v3: V,
                                    defaultOp: (V, V) -> V, projection: (V, V) -> V,
                                    lookup: string -> Option<V>)
    requires lookup(w1) == Some(v1) && lookup(w2) == Some(v2) && lookup(w3) == Some(v3)
    ensures EvalTree(Node("Root", [Preterminal<V>("nn", w1), Preterminal<V>("nn", w2), Preterminal<V>("vbz", w3)]),
                     defaultOp, projection, lookup)
         == Ok(Node("Root", [Atom(Vec(Some(defaultOp(defaultOp(v1, v2), v3))))]))
  {
    var ts := [Preterminal<V>("nn", w1), Preterminal<V>("nn", w2), Preterminal<V>("vbz", w3)];
    var t := Node("Root", ts);
    EvalOfPreterminals(t, defaultOp, projection, lookup);
    assert EvalTree(t, defaultOp, projection, lookup) == GreaterThan2(ts, "Root", defaultOp, projection, lookup);
    ThreePreterminalsCombinable(w1, w2, w3, v1, v2, v3, "nn", "nn", "vbz", lookup);
    PlainTagsHaveNoAdjective(ts);
    WideNodeDirection(ts, [v1, v2, v3], "Root", defaultOp, projection, lookup);
    LeftCombineOfThree(defaultOp, v1, v2, v3);
  }

  /** The same sentence tagged without an adjective folds left to right with the default operator. */
  lemma PlainSentenceFoldsLeft<V(!new)>(w1: string, w2: string, w3: string, v1: V, v2: V, v3: V,
                                        defaultOp: (V, V) -> V, projection: (V, V) -> V,
                                        lookup: string -> Option<V>)
    requires SpaceFree(w1) && SpaceFree(w2) && SpaceFree(w3)
    requires lookup(w1) == Some(v1) && lookup(w2) == Some(v2) && lookup(w3) == Some(v3)
    ensures FlatTree<V>(w1 + " " + w2 + " " + w3, " ", Some(["nn", "nn", "vbz"])).Ok?
    ensures EvalTree(FlatTree<V>(w1 + " " + w2 + " " + w3, " ", Some(["nn", "nn", "vbz"])).value,
                     defaultOp, projection, lookup)
         == Ok(Node("Root", [Atom(Vec(Some(defaultOp(defaultOp(v1, v2), v3))))]))
  {
    FlatTreeOfThreeWords<V>(w1, w2, w3, "nn", "nn", "vbz");
    PlainRootFoldsLeft(w1, w2, w3, v1, v2, v3, defaultOp, projection, lookup);
  }

  /** Children that are all preterminals are kept as they are by the evaluation loop. */
  lemma EvalFromPreterminals<V(!new)>(t: Tree<V>, defaultOp: (V, V) -> V, projection: (V, V) -> V,
                                      lookup: string -> Option<V>)
    requires t.Node? && NoVectors(t)
    requires forall i :: 0 <= i < |t.children| ==>
      t.children[i].Node? && |t.children[i].children| == 1 && t.children[i].children[0].Atom?
    ensures EvalFrom(t, 0, [], defaultOp, projection, lookup) == Ok(t.children)
  {
    var n := |t.children|;
    var k := n;
    assert t.children[..n] == t.children;
    while k > 0
      invariant 0 <= k <= n
      invariant EvalFrom(t, k, t.children[..k], defaultOp, projection, lookup) == Ok(t.children)
    {
      k := k - 1;
      assert NoVectors(t.children[k]);
      assert t.children[..k] + [t.children[k]] == t.children[..k + 1];
    }
  }
}
