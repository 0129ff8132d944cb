# ParseTree composition engine, in Dafny

This project models the sentence-composition engine of `parse_tree.py`, the class
`ParseTree`. The engine takes a constituency tree, an nltk `Tree` whose leaves are words.
It folds word vectors up the tree, and the part-of-speech labels of each pair of
operands choose how the pair is combined:

- drop both,
- pass one side through,
- or apply the configured default operator `default_op`.

A node with more than two children is folded left to right with `default_op`. When one of
its children is an adjective (`in` or `jj` in any case), the node is instead folded right
to left, with `default_op` temporarily replaced by the projection `hl.mmult1`.

The model also covers the flat-sentence constructor `from_sentence`, the binarizer
`tree_to_binary` and the label predicates.

Layout:

- `outcomes.dfy`: `Option` and `Result`.
- `trees.dfy`: the tree datatype.
  - `Atom` is a plain element of an nltk tree: a token string before evaluation, a vector
    or `None` after.
  - `Node(tag, children)` is a labelled tree.
  - Also here: leaves, binary shape, and the shape of an evaluated node.
- `labels.dfy`: the label lists, `lower()` and the label predicates.
- `composition.dfy`: the engine as functions of its inputs. These are the specifications:
  - operator selection,
  - `__evaluate_2`,
  - the two folds,
  - the adjective scan,
  - the post-order recursion.
- `composition_properties.dfy`: what those functions guarantee:
  - the drop rules,
  - each fold equals a plain left or right fold of vectors,
  - direction selection,
  - evaluation of a well-formed tree never raises.
- `binarizer.dfy`: `tree_to_binary`, including the re-binarization of the accumulator that
  `reduce` performs.
- `sentences.dfy`: `str.split`, `str.join` and the flat tree of `from_sentence`.
- `parse_tree.dfy`: the class `ParseTree`, with fields `data` and `defaultOp`. Its methods
  are the loops and field updates of the source, and each is proved equal to its
  specification function.
- `scenarios.dfy`: whole-sentence consequences.
  - A flat sentence always evaluates.
  - `(S (NP (DT the) (NN cat)) (VP (VBZ sits)))` when the determiner has no vector.
  - An upper-case `DT` label is not ignored.
  - Three tagged words fold right to left with an adjective and left to right without one.

Failures are values. `Failure.MissingLabel` is the `AttributeError` raised when `.label()`
is asked of a string. `Failure.TooFewChildren` is the `AssertionError` of
parse_tree.py:118.

`hl.mult`, `hl.mmult1` and `word_vectors.safe_lookup` are uninterpreted parameters:

- `defaultOp` and `projection` of type `(V, V) -> V`;
- `lookup` of type `string -> Option<V>`.

### Behaviour worth noting

- **Fold labels.** The label carried through a fold is the running tree's label. That is the
  first child's label for the left-to-right fold and the last child's label for the
  right-to-left fold, taken at parse_tree.py:134 and :140. It is not the parent's label.
  The parent's label is only put back on the final node, at parse_tree.py:126 and :129.
- **Wide nodes anywhere.** `tree_to_binary` is never called by the constructor, so nodes
  with more than two children reach `__evaluate` anywhere in a parsed tree.
- **Evaluated shape.** `evaluate` collapses the tree into a single node `Tree(root_label,
  [vector])`. It does not produce a tree of the same shape with vectors in it.
- **Tag-count mismatch.** A mismatch in `from_sentence` fails the `assert` of
  parse_tree.py:54, so it raises `AssertionError` (`BuildError.TagCountMismatch`); the
  `TypeError` named there is only the assertion's message.
- **Ignore test.** The ignore test is an exact, case-sensitive membership test in a
  lower-case list, so `DT` is not ignored.
- **Bare-string root.** If `data` is a bare string, `evaluate` raises `AttributeError`
  whatever its length, even when it is empty: `tree.label()` at parse_tree.py:92 is
  evaluated before the assertion of :118 could be reached.
- **Single-character tokens.** `__tree_is_leaf` also accepts a bare one-character string.
  A longer bare string is walked character by character and fails on `.label()`. So a
  preterminal evaluated as the root only works for a one-character word
  (`CompositionProperties.PreterminalRoot`).
- **`default_op` after a failure.** When the right-to-left fold raises, there is no
  `finally`, so `default_op` stays set to the projection (`Composition.OpAfter`). It is
  restored only on success.
- **Hadamard labels.** `hadamard_labels` is declared but not used by any operation.

## Model

| member | source | states |
|---|---|---|
| Labels.IgnoreIsCaseSensitive | parse_tree.py:18 | `dt`, `.` and `,` are ignored; `DT`, `POS` and `LS` are not: the test is exact membership in the lower-case list |
| Labels.Lower | parse_tree.py:163 | an upper-case ASCII letter maps to its lower-case letter; every other character is unchanged |
| Labels.LowerString | parse_tree.py:163 | lower-casing keeps the length and lower-cases each character in place |
| Labels.LowerIsLetter | parse_tree.py:155 | a character lower-cases to a given letter iff it is that letter or its upper-case form |
| Labels.AdjectiveSpellings | parse_tree.py:170-175 | a label is an adjective iff it is one of the eight case spellings of `in` or `jj` |
| Labels.VerbSpellings | parse_tree.py:151-157 | a label is a verb iff it is non-empty and starts with `v` or `V` |
| Labels.NounSpellings | parse_tree.py:159-168 | a label is a noun iff it starts with `n`/`N` or is one of the four case spellings of `wp` |
| Labels.EmptyLabelClasses | parse_tree.py:151-175 | the empty label is neither adjective, verb, noun nor ignored |
| Trees.TreeIsLeafMeaning | parse_tree.py:177-182 | the leaf test holds iff the element has length one and that one element is not a tree: a node is a leaf iff it holds one bare element, a bare token iff it has exactly one character; a leaf is always a valid operand |
| Composition.Resolve | parse_tree.py:98-104 | a string element is resolved through `safe_lookup`; an element that is already a vector or None is returned untouched |
| Composition.OpAfter | parse_tree.py:122-125 | after a success `default_op` is its old value; after an exception escaping the projection fold it stays the projection; after any other exception it is unchanged |
| Composition.BinaryOperation | parse_tree.py:60-68 | the four rules: both labels ignored gives None; only the left ignored gives the right operand; only the right ignored gives the left operand; otherwise the default operator |
| Composition.Evaluate2 | parse_tree.py:94-115 | raises iff an operand is a bare string; the result is `Tree(parent, [v])`; an absent operand yields the other one whatever the labels; two present operands are combined by the rule the two labels select |
| Composition.FoldLeft | parse_tree.py:131-135 | an empty rest returns the first tree unchanged; a success carries the first tree's label; the only failure is a missing label |
| Composition.FoldRight | parse_tree.py:137-141 | one tree is returned unchanged; a success carries the last tree's label; the only failure is a missing label |
| Composition.AdjectiveScan | parse_tree.py:143-149 | the only failure of the scan is a label asked of a bare string |
| Composition.GreaterThan2 | parse_tree.py:117-129 | two or fewer trees fail the assertion; a success is a node with the parent's label holding one vector |
| Composition.EvaluateList | parse_tree.py:83-92 | whichever branch is taken, a success is a node with the parent's label holding one vector or None |
| Composition.EvalTree | parse_tree.py:70-92 | a successful evaluation is the root's label over exactly one vector or None |
| Composition.EvalFrom | parse_tree.py:76-81 | the list built holds one operand per child, after the ones already built |
| CompositionProperties.Evaluate2AbsentExactly | parse_tree.py:108-115 | for two labelled operands the result is None iff both vectors are absent, or both are present and both labels are ignored |
| CompositionProperties.IgnoredLeftPassesRight | parse_tree.py:61-64 | an ignored left label passes the right vector through unchanged |
| CompositionProperties.IgnoredRightPassesLeft | parse_tree.py:65-66 | an ignored right label passes the left vector through unchanged |
| CompositionProperties.Evaluate2LooksUpOnlyTokens | parse_tree.py:98-104 | only token payloads are looked up: two lookups that agree on the operands' tokens give the same result |
| CompositionProperties.FoldLeftCombines | parse_tree.py:131-135 | with every vector present and no label ignored, the left fold is `op(...op(op(v1, v2), v3)..., vn)` |
| CompositionProperties.FoldRightCombines | parse_tree.py:137-141 | with every vector present and no label ignored, the right fold is `op(v1, op(v2, ... op(vn-1, vn)))` |
| CompositionProperties.FoldLeftIgnoredFirst | parse_tree.py:131-135 | when the first label is ignored, every step passes the right operand through, so the fold yields the last vector |
| CompositionProperties.FoldRightIgnoredLast | parse_tree.py:137-141 | when the last label is ignored, every step passes the left operand through, so the fold yields the first vector |
| CompositionProperties.FoldRightSuffixFails | parse_tree.py:137-141 | a failure on a suffix is a failure of the whole right-to-left fold |
| CompositionProperties.AdjectiveScanOfNodes | parse_tree.py:143-149 | over labelled trees the scan answers whether some label is an adjective |
| CompositionProperties.WideNodeDirection | parse_tree.py:117-129 | more than two present, non-ignored operands are folded right to left with the projection iff one label is an adjective, otherwise left to right with the default operator |
| CompositionProperties.FoldLeftOfNodes | parse_tree.py:131-135 | the left fold of labelled operands never raises |
| CompositionProperties.FoldRightOfNodes | parse_tree.py:137-141 | the right fold of labelled operands never raises |
| CompositionProperties.EvaluableSucceeds | parse_tree.py:70-92 | a tree whose nodes all have children, each child a preterminal or such a tree, evaluates without raising |
| CompositionProperties.EvalFromSucceeds | parse_tree.py:76-81 | on such a tree the child loop never raises and yields labelled operands |
| CompositionProperties.EmptyNodeFails | parse_tree.py:117-118 | a node without children fails the assertion of the wide-node branch |
| CompositionProperties.PreterminalRoot | parse_tree.py:83-87 | a preterminal root evaluates to the lookup of its word when that word is one character, and raises otherwise |
| Binarizer.ToBinary | parse_tree.py:34-44 | a binarized tree has two children at every node and still holds only tokens |
| Binarizer.Reduce | parse_tree.py:44 | each reduce step yields a binary node carrying the parent's label |
| Binarizer.ToBinaryFixesBinary | parse_tree.py:34-44 | a tree that is already binary is returned unchanged |
| Binarizer.ToBinaryIdempotent | parse_tree.py:34-44 | binarizing twice is the same as binarizing once |
| Binarizer.SpineIsBinary | parse_tree.py:44 | a left-leaning spine of binary trees is binary |
| Binarizer.ReduceFirst | parse_tree.py:44 | the first reduce step pairs the first two binarized children under the parent's label |
| Binarizer.ReduceStep | parse_tree.py:44 | each later step keeps the already binary accumulator unchanged and pairs it with the next binarized child |
| Binarizer.ReduceIsSpine | parse_tree.py:44 | reducing the first j+1 children is the left-leaning spine, under the parent's label, of their binarizations |
| Binarizer.BinarizeWideNode | parse_tree.py:42-44 | a node with two or more children binarizes to the left-leaning spine of its binarized children |
| Binarizer.ReduceFails | parse_tree.py:44 | a reduce step fails iff one of the children it covers fails to binarize |
| Binarizer.ToBinaryFailsIffEmptyNode | parse_tree.py:34-44 | binarization fails (`reduce` of an empty sequence) iff some node has no children |
| Binarizer.LeavesOfSpine | parse_tree.py:44 | the leaves of a spine are the leaves of its parts, in order |
| Binarizer.ToBinaryKeepsLeaves | parse_tree.py:34-44 | binarization keeps the sequence of leaf tokens, in order |
| Sentences.Split | parse_tree.py:50 | splitting yields at least one piece, and the first piece is a prefix of the sentence |
| Sentences.JoinSplit | parse_tree.py:50 | joining the pieces with the delimiter gives back the sentence |
| Sentences.SplitPiecesAreFree | parse_tree.py:50 | no piece contains the delimiter |
| Sentences.FlatTree | parse_tree.py:48-56 | an empty delimiter is an error; a tag count that differs from the word count is an error, and only then; otherwise a "Root" node holds one preterminal per word, labelled by its tag or by "" without tags |
| Sentences.LeavesOfPreterminals | parse_tree.py:52-55 | the leaves of a node of preterminals are its words, in order |
| Sentences.FlatTreeKeepsSentence | parse_tree.py:47-57 | the leaves of a flat tree are tokens that, joined with the delimiter, give back the sentence |
| Engine.ParseTree.constructor | parse_tree.py:22-25 | the new object holds the parsed tree, the default operator and the word vectors |
| Engine.ParseTree.FromSentence | parse_tree.py:47-58 | without '(' the object holds the flat tree, or the construction fails with its error; with '(' it holds the parsed tree, or fails as malformed; the default operator is `hl.mult` |
| Engine.ParseTree.Evaluate | parse_tree.py:30-32 | on success `data` becomes the evaluation of the old tree, a node with the root's label over one vector; on failure `data` is unchanged and the failure is returned; `default_op` is restored unless the projection fold raised |
| Engine.ParseTree.EvaluateTree | parse_tree.py:70-92 | the loop and dispatch compute exactly `EvalTree`, and leave `default_op` as `OpAfter` says |
| Engine.ParseTree.EvaluateGreaterThan2 | parse_tree.py:117-129 | computes `GreaterThan2`; on success `default_op` is back to its value before the call |
| Engine.ParseTree.EvaluateLeft2Right | parse_tree.py:131-135 | the loop computes the left fold `FoldLeft` |
| Engine.ParseTree.EvaluateRight2Left | parse_tree.py:137-141 | the loop over the reversed prefix computes the right fold `FoldRight` |
| Engine.ParseTree.ContainsAdjective | parse_tree.py:143-149 | the flag-and-break loop computes the scan `AdjectiveScan` |
| Scenarios.FlatSentenceEvaluates | parse_tree.py:47-57 | every tree built from a flat sentence holds only tokens and evaluates without raising |
| Scenarios.EvalFromPreterminals | parse_tree.py:76-81 | preterminal children are kept as they are by the child loop |
| Scenarios.EvalOfPreterminals | parse_tree.py:76-92 | a node of preterminals evaluates to the dispatch over its own children |
| Scenarios.NounPhraseDropsDeterminer | parse_tree.py:108-113 | `(NP (DT the) (NN cat))` with no vector for the determiner is the vector of the noun |
| Scenarios.VerbPhraseOfOneWord | parse_tree.py:83-87 | `(VP (VBZ sits))` is the vector of the verb |
| Scenarios.PhrasesCombine | parse_tree.py:106-115 | two evaluated phrases with present vectors and labels outside the ignore list give `Tree(parent, [op(a, b)])` |
| Scenarios.EvalFromTwoPhrases | parse_tree.py:76-81 | two children that are not preterminals are each replaced by their own evaluation, in order |
| Scenarios.SentenceWithoutDeterminer | parse_tree.py:70-92 | the sentence `(S (NP (DT the) (NN cat)) (VP (VBZ sits)))` without a vector for the determiner is `Tree("S", [op(cat, sits)])` |
| Scenarios.UpperCaseDeterminerIsCombined | parse_tree.py:18 | a determiner labelled `DT` that has a vector is combined by the default operator, not dropped |
| Scenarios.SplitWord | parse_tree.py:50 | a word without spaces is glued onto the first piece of what follows it, the other pieces unchanged |
| Scenarios.SplitFirstWord | parse_tree.py:50 | a space-free word followed by a space is a piece of its own, ahead of the pieces of the rest |
| Scenarios.SplitThreeWords | parse_tree.py:50 | three space-free words joined by spaces split back into those three words |
| Scenarios.FlatTreeOfThreeWords | parse_tree.py:48-56 | three tagged words give a "Root" node of three preterminals |
| Scenarios.AdjectiveRootProjects | parse_tree.py:120-126 | a "Root" node over preterminals tagged `jj nn vbz` evaluates to `Tree("Root", [mmult1(v1, mmult1(v2, v3))])` |
| Scenarios.AdjectiveSentenceProjects | parse_tree.py:120-126 | words tagged `jj nn vbz` evaluate to `Tree("Root", [mmult1(v1, mmult1(v2, v3))])` |
| Scenarios.PlainRootFoldsLeft | parse_tree.py:128-129 | a "Root" node over preterminals tagged `nn nn vbz` evaluates to `Tree("Root", [op(op(v1, v2), v3)])` |
| Scenarios.PlainSentenceFoldsLeft | parse_tree.py:128-129 | words tagged `nn nn vbz` evaluate to `Tree("Root", [op(op(v1, v2), v3)])` |

## Left out

- `Tree.fromstring` (parse_tree.py:185-187) is NLTK's bracket parser, whose source is not part of this model. `FromSentence` takes the parser as a parameter `parse`. A parse error becomes `BuildError.Malformed`.
- The constructor call `ParseTree('()', word_vectors)` inside `from_sentence` parses a placeholder that is immediately overwritten. The model builds the object directly from the flat tree.
- `hl.mult` and `hl.mmult1` are numpy tensor operations, and `word_vectors.safe_lookup` is an external embedding table. All three are uninterpreted parameters. Nothing is proved about numeric values, shapes or floating point.
- `Composition.EvalTree`, `Binarizer.ToBinary`, `Engine.ParseTree.Evaluate`: each requires a tree that holds tokens only (`NoVectors`). `__tree_is_leaf` and `tree_to_binary` call `len()` on a plain element, and for a numpy vector that depends on its dimension. So evaluating an already evaluated tree a second time is not modelled.
- Both `assert` statements (parse_tree.py:54, 118) are assumed enabled. Under `python -O` they are removed: a tag-count mismatch is then silently truncated by `zip`, and an empty node fails with `IndexError` at `tree_list[0]` (parse_tree.py:132). The model does not capture this mode.
- `from_sentence` also accepts `delimiter=None`, which `str.split` treats as splitting on runs of whitespace. `Engine.ParseTree.FromSentence` takes a delimiter string only, so this splitting mode is not modelled.
- `Labels.Lower`: case folding is ASCII only. Python's `str.lower` also folds non-ASCII letters. The labels compared against (`in`, `jj`, `wp`, `v`, `n`) are ASCII, but `lower()` of some non-ASCII letters (for example the Kelvin sign) can yield an ASCII letter, and the model does not capture this.
- `__repr__`, `main` and the unused `ChildAlreadyExistsError` (parse_tree.py:11-14, 27-28, 190-195) have no behaviour to model.
- `hadamard_labels` (parse_tree.py:19) is kept as a constant only: no operation reads it.
- model_training.py is a training script (file paths, GloVe loading, plotting) and is not part of this model.
- model_errors.py holds exception classes with messages only and is not part of this model.
- data_pipeline/file_operations_test.py tests a file-handling module whose source is not part of this model.
