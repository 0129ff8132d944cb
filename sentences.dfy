/**
 * The flat-sentence path of `ParseTree.from_sentence` (parse_tree.py:47-57): a
 * sentence without brackets is split on a delimiter, each token becomes a
 * preterminal labelled with its tag (or the empty label), and all of them hang
 * under one node labelled "Root".
 */
module Sentences {
  import opened Outcomes
  import opened Trees

  /** Why building a tree from a sentence raises. */
  datatype BuildError =
    | EmptySeparator     // ValueError of `str.split("")`
    | TagCountMismatch   // the assertion of parse_tree.py:54
    | Malformed          // the bracket parser rejected the sentence

  /** `d` occurs somewhere inside `p`. */
  ghost predicate Occurs(d: string, p: string)
  {
    exists k :: OccursAt(d, p, k)
  }

  /** `d` occurs inside `p` starting at index `k`. */
  predicate OccursAt(d: string, p: string, k: int)
  {
    0 <= k && k + |d| <= |p| && p[k..k + |d|] == d
  }

  /** Python's `s.split(d)` for a non-empty `d`: cut at every leftmost non-overlapping occurrence. */
  function Split(s: string, d: string): (r: seq<string>)
    requires |d| > 0
    ensures |r| >= 1 && r[0] <= s
    decreases |s|
  {
    if |s| < |d| then [s]
    else if s[..|d|] == d then [""] + Split(s[|d|..], d)
    else
      var rest := Split(s[1..], d);
      [[s[0]] + rest[0]] + rest[1..]
  }

  /** `d.join(parts)`. */
  function Join(parts: seq<string>, d: string): string
    requires |parts| >= 1
  {
    if |parts| == 1 then parts[0] else parts[0] + d + Join(parts[1..], d)
  }

  /** Joining the pieces with the delimiter gives back the sentence. */
  lemma {:induction false} JoinSplit(s: string, d: string)
    requires |d| > 0
    ensures Join(Split(s, d), d) == s
    decreases |s|
  {
    if |s| < |d| {
    } else if s[..|d|] == d {
      JoinSplit(s[|d|..], d);
      assert [""] + Split(s[|d|..], d) == Split(s, d);
      assert s == d + s[|d|..];
    } else {
      var rest := Split(s[1..], d);
      JoinSplit(s[1..], d);
      if |rest| == 1 {
        assert s == [s[0]] + s[1..];
      } else {
        assert Join(rest, d) == rest[0] + d + Join(rest[1..], d);
        assert ([[s[0]] + rest[0]] + rest[1..])[1..] == rest[1..];
        assert s == [s[0]] + s[1..];
      }
    }
  }

  /** No piece contains the delimiter: every occurrence was cut. */
  lemma {:induction false} SplitPiecesAreFree(s: string, d: string)
    requires |d| > 0
    ensures forall i :: 0 <= i < |Split(s, d)| ==> !Occurs(d, Split(s, d)[i])
    decreases |s|
  {
    var r := Split(s, d);
    if |s| < |d| {
      assert !Occurs(d, s);
    } else if s[..|d|] == d {
      SplitPiecesAreFree(s[|d|..], d);
      assert !Occurs(d, "");
      forall i | 0 < i < |r| ensures !Occurs(d, r[i]) {
        assert r[i] == Split(s[|d|..], d)[i - 1];
      }
    } else {
      var rest := Split(s[1..], d);
      SplitPiecesAreFree(s[1..], d);
      var first := [s[0]] + rest[0];
      assert first <= s;
      forall k ensures !OccursAt(d, first, k) {
        if !(0 <= k && k + |d| <= |first|) {
        } else if k == 0 {
          assert first[..|d|] == s[..|d|];
        } else {
          assert first[k..k + |d|] == rest[0][k - 1..k - 1 + |d|];
          assert !OccursAt(d, rest[0], k - 1);
        }
      }
      assert !Occurs(d, r[0]);
      forall i | 0 < i < |r| ensures !Occurs(d, r[i]) {
        assert r[i] == rest[i];
      }
    }
  }

  /** The preterminal `Tree(tag, [token])`. */
  function Preterminal<V>(tag: string, token: string): Tree<V>
  {
    Node(tag, [Atom(Token(token))])
  }

  /**
   * The tree `from_sentence` builds when the sentence holds no '(' (parse_tree.py:49-56).
   * `tags` is the optional parallel list of tags.
   */
  function FlatTree<V>(sentence: string, delimiter: string, tags: Option<seq<string>>)
    : (r: Result<Tree<V>, BuildError>)
    ensures r == Err(EmptySeparator) <==> delimiter == ""
    ensures r == Err(TagCountMismatch) <==>
      delimiter != "" && tags.Some? && |tags.value| != |Split(sentence, delimiter)|
    ensures r.Ok? ==> delimiter != "" && r.value.Node? && r.value.tag == "Root"
    ensures r.Ok? ==>
      var words := Split(sentence, delimiter);
      |r.value.children| == |words| &&
      forall i :: 0 <= i < |words| ==>
        r.value.children[i] == Preterminal(if tags.Some? then tags.value[i] else "", words[i])
  {
    if delimiter == "" then Err(EmptySeparator)
    else
      var words := Split(sentence, delimiter);
      match tags
      case None => Ok(Node("Root", seq(|words|, i requires 0 <= i < |words| => Preterminal("", words[i]))))
      case Some(ts) =>
        if |ts| != |words| then Err(TagCountMismatch)
        else Ok(Node("Root", seq(|words|, i requires 0 <= i < |words| => Preterminal(ts[i], words[i]))))
  }

  /** The token texts of a sequence of token elements. */
  function Texts<V>(ps: seq<Payload<V>>): (r: seq<string>)
    requires forall i :: 0 <= i < |ps| ==> ps[i].Token?
    ensures |r| == |ps|
  {
    seq(|ps|, i requires 0 <= i < |ps| => ps[i].text)
  }

  lemma {:induction false} LeavesOfPreterminals<V>(t: Tree<V>, words: seq<string>, tags: seq<string>)
    requires t.Node? && |t.children| == |words| == |tags|
    requires forall i :: 0 <= i < |words| ==> t.children[i] == Preterminal(tags[i], words[i])
    ensures forall i :: 0 <= i < |Leaves(t)| ==> Leaves(t)[i].Token?
    ensures Texts(Leaves(t)) == words
    decreases |words|
  {
    forall i | 0 <= i < |words| ensures Leaves(t.children[i]) == [Token(words[i])] {
      LeavesOfPreterminal<V>(tags[i], words[i]);
    }
    var parts := seq(|t.children|, i requires 0 <= i < |t.children| => Leaves(t.children[i]));
    assert parts == seq(|words|, i requires 0 <= i < |words| => [Token(words[i])]);
    FlattenSingletons<V>(words);
  }

  lemma LeavesOfPreterminal<V>(tag: string, word: string)
    ensures Leaves(Preterminal<V>(tag, word)) == [Token(word)]
  {
    var t := Preterminal<V>(tag, word);
    assert seq(1, i requires 0 <= i < 1 => Leaves(t.children[i])) == [] + [[Token(word)]];
    FlattenAppend<Payload<V>>([], [Token(word)]);
  }

  lemma {:induction false} FlattenSingletons<V>(words: seq<string>)
    ensures Flatten(seq(|words|, i requires 0 <= i < |words| => [Token(words[i])]))
         == seq(|words|, i requires 0 <= i < |words| => Payload<V>.Token(words[i]))
    decreases |words|
  {
    if words != [] {
      var front := words[..|words| - 1];
      FlattenSingletons<V>(front);
      assert seq(|words|, i requires 0 <= i < |words| => [Payload<V>.Token(words[i])])[..|words| - 1]
          == seq(|front|, i requires 0 <= i < |front| => [Payload<V>.Token(front[i])]);
    }
  }

  /**
   * Round trip of the flat path: the tree holds the sentence's pieces as its tokens,
   * in order, and joining them with the delimiter restores the sentence.
   */
  lemma FlatTreeKeepsSentence<V>(sentence: string, delimiter: string, tags: Option<seq<string>>)
    requires FlatTree<V>(sentence, delimiter, tags).Ok?
    ensures var leaves := Leaves(FlatTree<V>(sentence, delimiter, tags).value);
      (forall i :: 0 <= i < |leaves| ==> leaves[i].Token?) &&
      |leaves| >= 1 && Join(Texts(leaves), delimiter) == sentence
  {
    var t := FlatTree<V>(sentence, delimiter, tags).value;
    var words := Split(sentence, delimiter);
    var labels := if tags.Some? then tags.value else seq(|words|, i => "");
    LeavesOfPreterminals(t, words, labels);
    JoinSplit(sentence, delimiter);
  }
}
