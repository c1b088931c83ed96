/**
 * `jaccard_similarity`: the lemma-overlap comparator. Each statement is
 * tokenized and POS-tagged; only the tokens that count as nouns and whose
 * lower-cased, punctuation-stripped form is not excluded are lemmatized; the
 * Jaccard index of the two lemma sets is compared with a threshold.
 */
module LemmaComparator {
  import opened Wrappers
  import opened Text

  /** WordNet's word categories: `wordnet.ADJ`, `VERB`, `NOUN` and `ADV`. */
  datatype WordnetPos = Adj | Verb | Noun | Adv

  /**
   * The resources `jaccard_similarity` uses: NLTK's word tokenizer, its POS
   * tagger (a Penn Treebank tag per token), its English stop-word list and
   * the WordNet lemmatizer.
   */
  datatype Resources = Resources(
    wordTokenize: string -> seq<string>,
    posTag: seq<string> -> seq<(string, string)>,
    stopWords: seq<string>,
    lemmatize: (string, WordnetPos) -> string)

  /** The default of the `threshold` parameter. */
  const DefaultThreshold: real := 0.5

  predicate StartsWith(tag: string, c: char) {
    |tag| > 0 && tag[0] == c
  }

  /**
   * `get_wordnet_pos`: keeps the token and maps the tag by its first
   * character, J to ADJ, V to VERB, R to ADV and every other tag (N included)
   * to NOUN.
   */
  function GetWordnetPos(posTag: (string, string)): (r: (string, WordnetPos))
    ensures r.0 == posTag.0
    ensures r.1 == Adj <==> StartsWith(posTag.1, 'J')
    ensures r.1 == Verb <==> StartsWith(posTag.1, 'V')
    ensures r.1 == Adv <==> StartsWith(posTag.1, 'R')
    ensures r.1 == Noun <==> !StartsWith(posTag.1, 'J') && !StartsWith(posTag.1, 'V') && !StartsWith(posTag.1, 'R')
    ensures StartsWith(posTag.1, 'N') ==> r.1 == Noun
  {
    var (token, tag) := posTag;
    if StartsWith(tag, 'J') then (token, Adj)
    else if StartsWith(tag, 'V') then (token, Verb)
    else if StartsWith(tag, 'N') then (token, Noun)
    else if StartsWith(tag, 'R') then (token, Adv)
    else (token, Noun)
  }

  /** `map(get_wordnet_pos, tagged)`. */
  function TagWordnet(tagged: seq<(string, string)>): (r: seq<(string, WordnetPos)>)
    ensures |r| == |tagged|
    ensures forall i :: 0 <= i < |tagged| ==> r[i] == GetWordnetPos(tagged[i])
  {
    seq(|tagged|, i requires 0 <= i < |tagged| => GetWordnetPos(tagged[i]))
  }

  /** Each character of `string.punctuation` as a one-character string. */
  function PunctuationStrings(): seq<string> {
    seq(|Punctuation|, i requires 0 <= i < |Punctuation| => [Punctuation[i]])
  }

  /**
   * The exclusion list: the stop words, then every punctuation character,
   * then the empty string. A string is excluded exactly when it is a stop
   * word, the empty string or a single punctuation character.
   */
  function Exclusions(stopWords: seq<string>): (r: seq<string>)
    ensures |r| == |stopWords| + |Punctuation| + 1
    ensures r[..|stopWords|] == stopWords
    ensures forall w :: w in r <==> w in stopWords || w == "" || (|w| == 1 && IsPunctuation(w[0]))
  {
    var r := stopWords + PunctuationStrings() + [""];
    assert r[..|stopWords|] == stopWords;
    forall w | |w| == 1 && IsPunctuation(w[0])
      ensures w in r
    {
      var i :| 0 <= i < |Punctuation| && Punctuation[i] == w[0];
      assert PunctuationStrings()[i] == w;
      assert r[|stopWords| + i] == w;
    }
    r
  }

  /**
   * Builds the exclusion list in place, as `jaccard_similarity` does: a copy of the
   * stop words, extended by each punctuation character, then the empty string.
   */
  method ExclusionList(stopWords: seq<string>) returns (stopwords: seq<string>)
    ensures stopwords == Exclusions(stopWords)
  {
    stopwords := stopWords;
    for i := 0 to |Punctuation|
      invariant stopwords == stopWords + PunctuationStrings()[..i]
    {
      stopwords := stopwords + [[Punctuation[i]]];
      assert PunctuationStrings()[..i + 1] == PunctuationStrings()[..i] + [[Punctuation[i]]];
    }
    assert PunctuationStrings()[..|Punctuation|] == PunctuationStrings();
    stopwords := stopwords + [""];
  }

  /**
   * `token.lower().strip(string.punctuation)`: a lower-case run of the token
   * that neither starts nor ends with punctuation.
   */
  function Normalize(token: string): (r: string)
    ensures |r| <= |token|
    ensures forall i :: 0 <= i < |r| ==> !IsUpper(r[i])
    ensures r == [] || (!IsPunctuation(r[0]) && !IsPunctuation(r[|r| - 1]))
  {
    StripPunctuation(Lower(token))
  }

  /** The filter of the list comprehension: a NOUN whose normalized form is not excluded. */
  predicate Kept(posTag: (string, WordnetPos), exclusions: seq<string>) {
    posTag.1 == Noun && Normalize(posTag.0) !in exclusions
  }

  /** The lemma the comprehension produces for a kept token. */
  function LemmaOf(lemmatize: (string, WordnetPos) -> string, posTag: (string, WordnetPos)): string {
    lemmatize(Normalize(posTag.0), posTag.1)
  }

  /**
   * `lemmae_a`: the lemmas of the kept tokens, in order. A string is among
   * them exactly when it is the lemma of some kept token.
   */
  function KeptLemmas(lemmatize: (string, WordnetPos) -> string, pos: seq<(string, WordnetPos)>, exclusions: seq<string>)
    : (r: seq<string>)
    ensures |r| <= |pos|
    ensures forall l :: l in r <==>
      exists i :: 0 <= i < |pos| && Kept(pos[i], exclusions) && l == LemmaOf(lemmatize, pos[i])
  {
    if pos == [] then []
    else
      var rest := KeptLemmas(lemmatize, pos[1..], exclusions);
      var r := (if Kept(pos[0], exclusions) then [LemmaOf(lemmatize, pos[0])] else []) + rest;
      assert forall i :: 0 < i < |pos| ==> pos[i] == pos[1..][i - 1];
      r
  }

  /** The set of lemmas `jaccard_similarity` compares for one statement's text. */
  function LemmaSet(res: Resources, text: string): (r: set<string>)
    ensures var pos := TagWordnet(res.posTag(res.wordTokenize(text)));
      forall l :: l in r <==>
        exists i :: 0 <= i < |pos| && Kept(pos[i], Exclusions(res.stopWords)) && l == LemmaOf(res.lemmatize, pos[i])
  {
    var pos := TagWordnet(res.posTag(res.wordTokenize(text)));
    var lemmas := KeptLemmas(res.lemmatize, pos, Exclusions(res.stopWords));
    var r := set l | l in lemmas;
    assert forall l :: l in r <==> l in lemmas;
    r
  }

  /**
   * Every lemma compared comes from a token whose tag does not start with J,
   * V or R (so it maps to NOUN), and whose lower-cased, punctuation-stripped
   * form is not a stop word, not a punctuation character and not empty.
   */
  lemma KeptLemmaOrigin(res: Resources, text: string, l: string)
    requires l in LemmaSet(res, text)
    ensures var tagged := res.posTag(res.wordTokenize(text));
      exists i :: 0 <= i < |tagged| &&
        var tag, n := tagged[i].1, Normalize(tagged[i].0);
        && !StartsWith(tag, 'J') && !StartsWith(tag, 'V') && !StartsWith(tag, 'R')
        && n !in res.stopWords && n != "" && !(|n| == 1 && IsPunctuation(n[0]))
        && l == res.lemmatize(n, Noun)
  {
    var tagged := res.posTag(res.wordTokenize(text));
    var pos := TagWordnet(tagged);
    var i :| 0 <= i < |pos| && Kept(pos[i], Exclusions(res.stopWords)) && l == LemmaOf(res.lemmatize, pos[i]);
    assert pos[i] == GetWordnetPos(tagged[i]);
  }

  /**
   * The Jaccard index `|A ∩ B| / |A ∪ B|`; `None` when the union is empty,
   * where the division raises.
   */
  function JaccardIndex(a: set<string>, b: set<string>): (r: Option<real>)
    ensures r.None? <==> a + b == {}
    ensures r.Some? ==> 0.0 <= r.value <= 1.0
    ensures r.Some? ==> r.value * (|a + b| as real) == |a * b| as real
  {
    if a + b == {} then None
    else
      IntersectionWithinUnion(a, b);
      var shared, total := |a * b| as real, |a + b| as real;
      QuotientAtMostOne(shared, total);
      Some(shared / total)
  }

  lemma QuotientAtMostOne(p: real, q: real)
    requires 0.0 <= p <= q && q > 0.0
    ensures 0.0 <= p / q <= 1.0
    ensures (p / q) * q == p
  {
    var r := p / q;
    assert r * q == p;
    assert (r - 1.0) * q == p - q <= 0.0;
  }

  lemma IntersectionWithinUnion(a: set<string>, b: set<string>)
    ensures |a * b| <= |a + b|
  {
    var u, i := a + b, a * b;
    assert u == i + (u - i);
  }

  /** The index does not depend on the order of the two sets. */
  lemma JaccardIndexSymmetric(a: set<string>, b: set<string>)
    ensures JaccardIndex(a, b) == JaccardIndex(b, a)
  {
    assert a + b == b + a;
    assert a * b == b * a;
  }

  /** Two equal, non-empty sets have index 1. */
  lemma JaccardIndexOfEqualSets(a: set<string>)
    requires a != {}
    ensures JaccardIndex(a, a) == Some(1.0)
  {
    assert a + a == a;
    assert a * a == a;
    var n := |a| as real;
    assert n / n == 1.0;
  }

  /**
   * The match decision without division: with an empty union the ratio stays
   * 0; otherwise `|A ∩ B| >= threshold * |A ∪ B|`. Any two statements match
   * at a threshold of at most 0, and statements with no lemma in common match
   * at no positive threshold.
   */
  predicate LemmaSetsMatch(a: set<string>, b: set<string>, threshold: real)
    ensures threshold <= 0.0 ==> LemmaSetsMatch(a, b, threshold)
    ensures a * b == {} ==> (LemmaSetsMatch(a, b, threshold) <==> threshold <= 0.0)
  {
    if a + b == {} then 0.0 >= threshold
    else |a * b| as real >= threshold * (|a + b| as real)
  }

  /** Comparing the ratio, 0 by default, with the threshold is the division-free test. */
  lemma {:induction false} RatioAgreesWithMatch(a: set<string>, b: set<string>, threshold: real)
    ensures (JaccardIndex(a, b).GetOr(0.0) >= threshold) == LemmaSetsMatch(a, b, threshold)
  {
    var ix := JaccardIndex(a, b);
    if ix.Some? {
      var u := |a + b| as real;
      assert u > 0.0;
      assert ix.value * u == |a * b| as real;
      if ix.value >= threshold {
        assert ix.value * u >= threshold * u;
      } else {
        assert ix.value * u < threshold * u;
      }
    }
  }

  /** A match at some threshold is a match at every lower threshold. */
  lemma MatchMonotone(a: set<string>, b: set<string>, threshold: real, lower: real)
    requires lower <= threshold
    requires LemmaSetsMatch(a, b, threshold)
    ensures LemmaSetsMatch(a, b, lower)
  {
    if a + b != {} {
      assert lower * (|a + b| as real) <= threshold * (|a + b| as real);
    }
  }

  /** Swapping the statements does not change the decision. */
  lemma MatchSymmetric(a: set<string>, b: set<string>, threshold: real)
    ensures LemmaSetsMatch(a, b, threshold) == LemmaSetsMatch(b, a, threshold)
  {
    JaccardIndexSymmetric(a, b);
    RatioAgreesWithMatch(a, b, threshold);
    RatioAgreesWithMatch(b, a, threshold);
  }

  /** With no lemma on either side the ratio stays 0: a match only for thresholds up to 0, never at the default. */
  lemma EmptyLemmaSetsMatch(a: set<string>, b: set<string>, threshold: real)
    requires a == {} && b == {}
    ensures LemmaSetsMatch(a, b, threshold) <==> threshold <= 0.0
    ensures !LemmaSetsMatch(a, b, DefaultThreshold)
  {
  }

  /**
   * The worked example at the level of lemma sets: {young, cat, hungry} and
   * {cat, very, hungry} share 2 of 4 lemmas, a ratio of 0.5, which matches at
   * 0.5 and not at 0.51.
   */
  lemma DocumentedExample()
    ensures var a, b := {"young", "cat", "hungry"}, {"cat", "very", "hungry"};
      && |a * b| == 2 && |a + b| == 4
      && JaccardIndex(a, b) == Some(0.5)
      && LemmaSetsMatch(a, b, DefaultThreshold)
      && !LemmaSetsMatch(a, b, 0.51)
  {
    var a: set<string>, b: set<string> := {"young", "cat", "hungry"}, {"cat", "very", "hungry"};
    assert a * b == {"cat", "hungry"};
    assert a + b == {"young", "cat", "very", "hungry"};
  }

  /**
   * `jaccard_similarity`: builds the exclusion list, filters and lemmatizes
   * both statements, computes the ratio with 0 as its value when the union is
   * empty, and reports whether it reaches the threshold.
   */
  method JaccardSimilarity(res: Resources, a: string, b: string, threshold: real := DefaultThreshold)
    returns (matched: bool)
    ensures matched == LemmaSetsMatch(LemmaSet(res, a), LemmaSet(res, b), threshold)
    ensures matched == (JaccardIndex(LemmaSet(res, a), LemmaSet(res, b)).GetOr(0.0) >= threshold)
  {
    var stopwords := ExclusionList(res.stopWords);
    var ratio := 0.0;
    var posA := TagWordnet(res.posTag(res.wordTokenize(a)));
    var posB := TagWordnet(res.posTag(res.wordTokenize(b)));
    var lemmaeA := KeptLemmas(res.lemmatize, posA, stopwords);
    var lemmaeB := KeptLemmas(res.lemmatize, posB, stopwords);
    var setA := set l | l in lemmaeA;
    var setB := set l | l in lemmaeB;
    var union := setA + setB;
    // The division is the only step of the guarded block that can fail.
    if |union| != 0 {
      ratio := |setA * setB| as real / |union| as real;
    }
    matched := ratio >= threshold;
    RatioAgreesWithMatch(setA, setB, threshold);
  }
}
