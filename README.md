# ChatterBot statement comparisons, modelled in Dafny

This project models the scoring logic of `chatterbot/conversation/comparisons.py`.
ChatterBot uses this logic to decide how close a new input statement is to a
known one. Two comparators are modelled:

- **`synset_distance`** (module `SemanticComparator`). Each statement becomes a
  set of lower-cased tokens with the stop words removed (`get_tokens`). For
  every pair in the product of the two token sets, the best WordNet path
  similarity between any sense of one token and any sense of the other is
  added to a running total. A similarity replaces the running maximum only
  when it is defined (not `None`), non-zero and strictly greater than it. A
  pair where either token has no senses adds nothing.
- **`jaccard_similarity`** (module `LemmaComparator`). An exclusion list is built
  in place: the English stop words, then each punctuation character, then the
  empty string. Each statement is tokenized and POS-tagged, and the tags are
  mapped to WordNet categories (`get_wordnet_pos`: J to ADJ, V to VERB, N to
  NOUN, R to ADV, anything else to NOUN). Only NOUN tokens whose lower-cased,
  punctuation-stripped form is not excluded are lemmatized. The Jaccard index
  of the two lemma sets is then compared with a threshold (default 0.5). When
  both sets are empty the division raises, the exception is swallowed, and the
  ratio stays at 0.

The NLTK and WordNet collaborators cannot be seen from this file. They are
fields of function type in a `Resources` datatype, one per comparator:

- the tokenizers and the POS tagger;
- the stop-word list;
- `synsets` and `path_similarity`, where `Option<real>` stands for "a float or `None`";
- the lemmatizer.

Every property is therefore proved for all possible collaborators. Senses are a
type parameter `S`.

Supporting modules:

- `Text` holds lower-casing and `strip(string.punctuation)`.
- `SetSums` holds an order-independent sum over a finite set. Python iterates a
  `set` in an order it does not promise, so `synset_distance` is specified by
  such a sum. The method picks elements in any order. `SetSumPick` proves that
  the order does not matter, and `SetSumSwap` proves that a double sum may be
  taken in either order.

In these places the model follows what the code does rather than what its docstring or a first reading suggests:

- `jaccard_similarity` does not lower-case the text before tagging. It tags the
  text as given and lower-cases each token afterwards (lines 115-120).
- The max-tracking rule skips a similarity of exactly 0 as well as `None`.
  Because the maximum starts at 0, the resulting value is the same as skipping
  only `None`: the largest of 0 and every defined similarity
  (`PairSimilarityIsBestSense`).
- The `try` block catches every exception, not only division by zero. The only
  step inside it that can fail on these values is the division, so the model
  treats an empty union as the one failure.
- The docstring says "young", "very" and "hungry" survive the filtering. The
  code keeps only tokens tagged as nouns, so the worked example is proved at the
  level of the lemma sets only (`DocumentedExample`).

## Model

| member | source | states |
|---|---|---|
| `Text.Lower` | chatterbot/conversation/comparisons.py:29 | Lower-casing keeps the length. Each upper-case letter becomes the matching lower-case letter, every other character is unchanged, and no upper-case letter is left. |
| `SemanticComparator.GetTokens` | chatterbot/conversation/comparisons.py:22-38 | Stop words are excluded by default. With stop-word exclusion the result is a set. A string is in it exactly when it is a token of the lower-cased text and not a stop word. Without exclusion the result is the tokenizer's list of the lower-cased text. |
| `SemanticComparator.KeepBetter` | chatterbot/conversation/comparisons.py:59-60 | The updated maximum is never below the old one. It is either the old maximum or the similarity just seen. It is at least every defined, non-zero similarity offered to it. |
| `SemanticComparator.RowBest` | chatterbot/conversation/comparisons.py:56-60 | Applying the max-tracking rule to one sense paired with each sense of a list, in list order, never lowers the running maximum. |
| `SemanticComparator.GridBest` | chatterbot/conversation/comparisons.py:53-60 | Applying the rule to every pair of two sense lists, in product order, never lowers the running maximum. |
| `SemanticComparator.RowBestIsMaximum` | chatterbot/conversation/comparisons.py:56-60 | Over one sense paired with a list of senses, the running maximum ends at least at its start value and at least every defined similarity. It equals either its start value or one of those similarities. |
| `SemanticComparator.GridBestIsMaximum` | chatterbot/conversation/comparisons.py:53-60 | The same over the whole product of two sense lists: the result is the largest of the start value and every defined similarity. |
| `SemanticComparator.BestSenseSimilarity` | chatterbot/conversation/comparisons.py:53-60 | The nested loop computes the running maximum in product order. The result is at least 0 and at least every defined path similarity. It is either 0 or one of those similarities. |
| `SemanticComparator.PairSimilarity` | chatterbot/conversation/comparisons.py:48-63 | A token pair's contribution to the total is never negative. It is exactly 0 when either token has no senses. |
| `SemanticComparator.PairSimilarityIsBestSense` | chatterbot/conversation/comparisons.py:48-63 | A token pair contributes 0 when either token has no senses. Otherwise it contributes at least 0 and at least every defined similarity of their senses, and the contribution is 0 or one of those similarities. |
| `SemanticComparator.RowTotalPick` | chatterbot/conversation/comparisons.py:46-63 | The contributions of one token's row may be added in any order: any token of the other set can be the one added first. |
| `SemanticComparator.ProductTotalPick` | chatterbot/conversation/comparisons.py:46-63 | The rows of the product may be added in any order: any token of the first set can be the one whose row is added first. |
| `SemanticComparator.ProductTotalNonNegative` | chatterbot/conversation/comparisons.py:43-65 | The total over any two token sets is never negative. |
| `SemanticComparator.SynsetScore` | chatterbot/conversation/comparisons.py:40-65 | The score of two statements, the sum of every token pair's contribution over the product of their token sets, is never negative. |
| `SemanticComparator.ProductTotalNoSenses` | chatterbot/conversation/comparisons.py:48-63 | When no token of one set has any sense, every pair fails the `synset1 and synset2` test and the total is exactly 0. |
| `SemanticComparator.ProductTotalEmpty` | chatterbot/conversation/comparisons.py:43-46 | When either token set is empty, the product is empty and the total is exactly 0. |
| `SemanticComparator.GridBestSymmetric` | chatterbot/conversation/comparisons.py:56-60 | If path similarity is symmetric, the best sense similarity of two sense lists does not depend on their order. |
| `SemanticComparator.SynsetScoreSymmetric` | chatterbot/conversation/comparisons.py:40-65 | If path similarity is symmetric, the score of (a, b) equals the score of (b, a). |
| `SemanticComparator.SynsetDistance` | chatterbot/conversation/comparisons.py:7-65 | The loops return the order-independent sum, over every pair of the two statements' token sets, of each pair's contribution. The result is non-negative. It is 0 when either token set is empty, and 0 when no token of one statement has any sense. |
| `SetSums.SetSumSwap` | chatterbot/conversation/comparisons.py:46 | A double sum over the product of two finite sets is the same whichever set the outer sum runs over. |
| `Text.StripPunctuation` | chatterbot/conversation/comparisons.py:117 | The result is the run of the input that is left after every leading and every trailing punctuation character is removed. It is empty, or it starts and ends with a character that is not punctuation. |
| `Text.StripNeverSinglePunctuation` | chatterbot/conversation/comparisons.py:98-118 | A stripped token is never a single punctuation character. So, of the punctuation entries added to the exclusion list, none can match a stripped token. |
| `LemmaComparator.GetWordnetPos` | chatterbot/conversation/comparisons.py:102-112 | The token is returned unchanged. The category is ADJ, VERB or ADV exactly when the tag starts with J, V or R respectively, and NOUN exactly when it starts with none of these. So every N tag and every other tag becomes NOUN. |
| `LemmaComparator.TagWordnet` | chatterbot/conversation/comparisons.py:115-116 | Mapping keeps the length, and each element is the mapped category of the tagged token at the same position. |
| `LemmaComparator.Exclusions` | chatterbot/conversation/comparisons.py:97-99 | The exclusion list starts with the stop words and has 33 more entries. A string is excluded exactly when it is a stop word, the empty string, or a single punctuation character. |
| `LemmaComparator.ExclusionList` | chatterbot/conversation/comparisons.py:97-99 | Extending the copied stop-word list in place, one punctuation character at a time and then the empty string, yields exactly the exclusion list. |
| `LemmaComparator.Normalize` | chatterbot/conversation/comparisons.py:117 | `token.lower().strip(string.punctuation)` is no longer than the token, has no upper-case letter, and neither starts nor ends with punctuation. |
| `LemmaComparator.KeptLemmas` | chatterbot/conversation/comparisons.py:117-120 | There are no more lemmas than tokens. A string is a kept lemma exactly when it is the lemma of a token that is a NOUN and whose normalized form is not excluded. |
| `LemmaComparator.LemmaSet` | chatterbot/conversation/comparisons.py:115-120 | `set(lemmae_a)`: a string is in it exactly when it is the lemma (`LemmaOf`) of a tagged token of the statement that passes the comprehension's filter (`Kept`: a NOUN whose normalized form is not in the exclusion list). |
| `LemmaComparator.KeptLemmaOrigin` | chatterbot/conversation/comparisons.py:97-120 | Every compared lemma is the noun-lemma of a tagged token. That token's tag starts with none of J, V and R. Its lower-cased, stripped form is not a stop word, not empty and not a single punctuation character. |
| `LemmaComparator.JaccardIndex` | chatterbot/conversation/comparisons.py:124 | The division fails exactly when the union is empty. Otherwise the ratio lies in [0, 1], and the ratio times the union's size equals the intersection's size. |
| `LemmaComparator.JaccardIndexSymmetric` | chatterbot/conversation/comparisons.py:124 | The index is symmetric in the two lemma sets. |
| `LemmaComparator.JaccardIndexOfEqualSets` | chatterbot/conversation/comparisons.py:124 | Two equal, non-empty lemma sets have index 1. |
| `LemmaComparator.LemmaSetsMatch` | chatterbot/conversation/comparisons.py:124-127 | The decision without division. Any two lemma sets match at a threshold of at most 0. Lemma sets with nothing in common match exactly when the threshold is at most 0. |
| `LemmaComparator.RatioAgreesWithMatch` | chatterbot/conversation/comparisons.py:114-127 | The ratio (0 when the division fails) reaches the threshold exactly when the division-free test holds: size of A ∩ B >= threshold × size of A ∪ B, or `0 >= threshold` when the union is empty. |
| `LemmaComparator.MatchMonotone` | chatterbot/conversation/comparisons.py:127 | A match at a threshold is still a match at every lower threshold. |
| `LemmaComparator.MatchSymmetric` | chatterbot/conversation/comparisons.py:123-127 | Swapping the two lemma sets does not change the decision. |
| `LemmaComparator.EmptyLemmaSetsMatch` | chatterbot/conversation/comparisons.py:114-127 | With both lemma sets empty, the decision is a match exactly when the threshold is at most 0. It is never a match at the default 0.5. |
| `LemmaComparator.DocumentedExample` | chatterbot/conversation/comparisons.py:81-89 | The sets {young, cat, hungry} and {cat, very, hungry} have an intersection of 2 and a union of 4. Their ratio is 0.5, a match at 0.5 and not at 0.51. |
| `LemmaComparator.JaccardSimilarity` | chatterbot/conversation/comparisons.py:68-127 | The threshold defaults to 0.5. The comparator returns true exactly when the two statements' lemma sets pass the division-free threshold test. Equivalently, their Jaccard ratio, defaulting to 0, reaches the threshold. |

## Left out

- `levenshtein_distance` (lines 1-4) is not modelled. Its only own logic is lower-casing; the rest is `fuzzywuzzy.fuzz.ratio`, a library that is not part of this model.
- The tokenizers, the POS tagger, the stop-word corpus, WordNet's `synsets` and `path_similarity`, and the lemmatizer are parameters, not implementations. The same holds for ChatterBot's `POSTagger`, `StopWordsManager` and `Wordnet` wrappers, which are not part of this model. Their loading and per-call construction (lines 13-20, 91-97 and 100) are not modelled.
- `Text.Lower`: lower-casing is modelled for ASCII letters only. Python's `str.lower` also maps non-ASCII letters, and can change a string's length.
- Similarities, sums and the ratio are exact Dafny `real` values. Floating-point rounding is not modelled. Because of rounding, a float sum taken in a different set-iteration order can differ in its last bits; the exact sum cannot.
- The `print` in the exception handler (line 126) is output only. The model keeps just its effect: the ratio stays 0.
- Failures of the tokenizer, the POS tagger and the lemmatizer (lines 115-120, outside the `try`) propagate to the caller in the source. Here the collaborators are total functions, so no such failure is modelled.
- `SemanticComparator.SynsetDistance` is specified by a ghost sum over sets, with the running-maximum rule applied to each pair. It is not specified by a fixed iteration order, because Python does not promise one for a `set`.
