/**
 * Part-of-speech label classes of `ParseTree` (parse_tree.py:18-20, 151-175).
 * Case folding is Python's `str.lower()` restricted to ASCII letters; no other
 * character lowercases to one of the letters these tests compare against.
 */
module Labels {

  /** Labels whose node contributes no representation; compared exactly, case-sensitively. */
  const IgnoreLabels: seq<string> := ["ls", "pos", ".", "dt", ","]
  /** Labels declared for element-wise combination; no operation of the engine consults them. */
  const HadamardLabels: seq<string> := ["ex", "cd", "md", "pdt", "prp", "prp$", "rp", "uh", "to"]
  /** Labels that switch a wide node to right-to-left projection; compared after lowercasing. */
  const AdjectiveLabels: seq<string> := ["in", "jj"]

  function Lower(c: char): (r: char)
    ensures 'A' <= c <= 'Z' ==> 'a' <= r <= 'z' && r as int - c as int == 32
    ensures !('A' <= c <= 'Z') ==> r == c
  {
    if 'A' <= c <= 'Z' then (c as int - 'A' as int + 'a' as int) as char else c
  }

  function LowerString(s: string): (r: string)
    ensures |r| == |s|
    ensures forall i :: 0 <= i < |s| ==> r[i] == Lower(s[i])
  {
    if s == [] then [] else [Lower(s[0])] + LowerString(s[1..])
  }

  /** `label in self.ignore_labels` (parse_tree.py:61, 62, 65). */
  predicate IsIgnored(tag: string)
  {
    tag in IgnoreLabels
  }

  /** `__is_adjective` (parse_tree.py:170-175). */
  predicate IsAdjective(tag: string)
  {
    tag != "" && LowerString(tag) in AdjectiveLabels
  }

  /** `__is_verb` (parse_tree.py:151-157). */
  predicate IsVerb(tag: string)
  {
    tag != "" && Lower(tag[0]) == 'v'
  }

  /** `__is_noun` (parse_tree.py:159-168). */
  predicate IsNoun(tag: string)
  {
    tag != "" && (LowerString(tag)[0] == 'n' || LowerString(tag) == "wp")
  }

  /** The ignore test does not fold case: "DT" is combined like any other label, "dt" is not. */
  lemma IgnoreIsCaseSensitive()
    ensures IsIgnored("dt") && !IsIgnored("DT")
    ensures IsIgnored(".") && IsIgnored(",") && !IsIgnored("POS") && !IsIgnored("LS")
  {
  }

  lemma LowerIsLetter(c: char, letter: char)
    requires 'a' <= letter <= 'z'
    ensures Lower(c) == letter <==> c == letter || c as int == letter as int - 32
  {
  }

  /** The adjective test accepts exactly the eight spellings of "in" and "jj". */
  lemma {:induction false} AdjectiveSpellings(tag: string)
    ensures IsAdjective(tag) <==>
      tag in ["in", "In", "iN", "IN", "jj", "Jj", "jJ", "JJ"]
  {
    var low := LowerString(tag);
    if |tag| == 2 {
      LowerIsLetter(tag[0], 'i');
      LowerIsLetter(tag[0], 'j');
      LowerIsLetter(tag[1], 'n');
      LowerIsLetter(tag[1], 'j');
      assert low == [Lower(tag[0]), Lower(tag[1])];
      assert tag == [tag[0], tag[1]];
    } else {
      assert |low| != 2;
    }
  }

  /** A label is a verb exactly when it starts with `v` or `V`. */
  lemma VerbSpellings(tag: string)
    ensures IsVerb(tag) <==> |tag| > 0 && (tag[0] == 'v' || tag[0] == 'V')
  {
    if |tag| > 0 { LowerIsLetter(tag[0], 'v'); }
  }

  /** A label is a noun exactly when it starts with `n` or `N`, or spells "wp" in any case. */
  lemma {:induction false} NounSpellings(tag: string)
    ensures IsNoun(tag) <==>
      |tag| > 0 && (tag[0] == 'n' || tag[0] == 'N' || tag in ["wp", "Wp", "wP", "WP"])
  {
    if |tag| > 0 {
      var low := LowerString(tag);
      LowerIsLetter(tag[0], 'n');
      if |tag| == 2 {
        LowerIsLetter(tag[0], 'w');
        LowerIsLetter(tag[1], 'p');
        assert low == [Lower(tag[0]), Lower(tag[1])];
        assert tag == [tag[0], tag[1]];
      } else {
        assert |low| != 2;
      }
    }
  }

  /** The empty tag belongs to no class (a flat sentence without tags uses it). */
  lemma EmptyLabelClasses()
    ensures !IsAdjective("") && !IsVerb("") && !IsNoun("") && !IsIgnored("")
  {
  }
}
