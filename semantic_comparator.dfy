/**
 * `synset_distance`: the semantic comparator. Both statements become sets of
 * lower-cased tokens without stop words; every pair of tokens from the two
 * sets contributes the best path similarity between any sense of the first
 * and any sense of the second, and the contributions are summed.
 */
module SemanticComparator {
  import opened Wrappers
  import opened Text
  import opened SetSums

  /**
   * The resources `synset_distance` builds on each call: the tagger's
   * tokenizer, the English stop-word list, and WordNet's sense lookup and
   * path similarity between two senses (`None` when WordNet cannot relate
   * them). `S` is the type of a sense.
   */
  datatype Resources<!S> = Resources(
    tokenize: string -> seq<string>,
    stopWords: seq<string>,
    synsets: string -> seq<S>,
    pathSimilarity: (S, S) -> Option<real>)

  /** What `get_tokens` returns: the tokenizer's list, or a set once stop words are removed. */
  datatype Tokens = TokenList(list: seq<string>) | TokenSet(elems: set<string>)

  /**
   * `get_tokens`: tokenizes the lower-cased text; when `excludeStopWords`
   * holds, the result is the set of those tokens that are not stop words.
   */
  function GetTokens<S>(res: Resources<S>, text: string, excludeStopWords: bool := true): (r: Tokens)
    ensures r.TokenSet? <==> excludeStopWords
    ensures r.TokenList? ==> r.list == res.tokenize(Lower(text))
    ensures r.TokenSet? ==>
      forall t :: t in r.elems <==> t in res.tokenize(Lower(text)) && t !in res.stopWords
  {
    var tokens := res.tokenize(Lower(text));
    if excludeStopWords then
      TokenSet((set t | t in tokens) - (set w | w in res.stopWords))
    else
      TokenList(tokens)
  }

  /**
   * The update of the running maximum: a similarity replaces `best` only
   * when it is defined, non-zero and strictly greater.
   */
  function KeepBetter(best: real, similarity: Option<real>): (r: real)
    ensures r >= best
    ensures r == best || similarity == Some(r)
    ensures similarity.Some? && similarity.value != 0.0 ==> r >= similarity.value
  {
    if similarity.Some? && similarity.value != 0.0 && similarity.value > best then
      similarity.value
    else
      best
  }

  /** The running maximum after the senses `ys` were compared, in order, with the sense `a`. */
  function RowBest<S>(sim: (S, S) -> Option<real>, best: real, a: S, ys: seq<S>): (r: real)
    ensures r >= best
    decreases |ys|
  {
    if ys == [] then best
    else KeepBetter(RowBest(sim, best, a, ys[..|ys| - 1]), sim(a, ys[|ys| - 1]))
  }

  /** The running maximum after every pair of `xs` and `ys` was compared, in `itertools.product` order. */
  function GridBest<S>(sim: (S, S) -> Option<real>, best: real, xs: seq<S>, ys: seq<S>): (r: real)
    ensures r >= best
    decreases |xs|
  {
    if xs == [] then best
    else RowBest(sim, GridBest(sim, best, xs[..|xs| - 1], ys), xs[|xs| - 1], ys)
  }

  /** Over one row the running maximum is the largest of `best` and every defined similarity. */
  lemma {:induction false} RowBestIsMaximum<S>(sim: (S, S) -> Option<real>, best: real, a: S, ys: seq<S>)
    requires best >= 0.0
    ensures RowBest(sim, best, a, ys) >= best
    ensures forall j :: 0 <= j < |ys| && sim(a, ys[j]).Some? ==> sim(a, ys[j]).value <= RowBest(sim, best, a, ys)
    ensures RowBest(sim, best, a, ys) == best ||
            exists j :: 0 <= j < |ys| && sim(a, ys[j]) == Some(RowBest(sim, best, a, ys))
    decreases |ys|
  {
    if ys != [] {
      var front := ys[..|ys| - 1];
      RowBestIsMaximum(sim, best, a, front);
      var r := RowBest(sim, best, a, ys);
      forall j | 0 <= j < |ys| && sim(a, ys[j]).Some?
        ensures sim(a, ys[j]).value <= r
      {
        if j < |ys| - 1 {
          assert ys[j] == front[j];
        }
      }
      if r != RowBest(sim, best, a, front) {
        assert sim(a, ys[|ys| - 1]) == Some(r);
      } else if r != best {
        var j :| 0 <= j < |front| && sim(a, front[j]) == Some(r);
        assert ys[j] == front[j];
      }
    }
  }

  /** Over the whole product the running maximum is the largest of `best` and every defined similarity. */
  lemma {:induction false} GridBestIsMaximum<S>(sim: (S, S) -> Option<real>, best: real, xs: seq<S>, ys: seq<S>)
    requires best >= 0.0
    ensures GridBest(sim, best, xs, ys) >= best
    ensures forall i, j :: 0 <= i < |xs| && 0 <= j < |ys| && sim(xs[i], ys[j]).Some? ==>
      sim(xs[i], ys[j]).value <= GridBest(sim, best, xs, ys)
    ensures GridBest(sim, best, xs, ys) == best ||
            exists i, j :: 0 <= i < |xs| && 0 <= j < |ys| && sim(xs[i], ys[j]) == Some(GridBest(sim, best, xs, ys))
    decreases |xs|
  {
    if xs != [] {
      var front := xs[..|xs| - 1];
      var last := xs[|xs| - 1];
      GridBestIsMaximum(sim, best, front, ys);
      var g := GridBest(sim, best, front, ys);
      RowBestIsMaximum(sim, g, last, ys);
      var r := GridBest(sim, best, xs, ys);
      forall i, j | 0 <= i < |xs| && 0 <= j < |ys| && sim(xs[i], ys[j]).Some?
        ensures sim(xs[i], ys[j]).value <= r
      {
        if i < |xs| - 1 {
          assert xs[i] == front[i];
        }
      }
      if r != g {
        var j :| 0 <= j < |ys| && sim(last, ys[j]) == Some(r);
        assert sim(xs[|xs| - 1], ys[j]) == Some(r);
      } else if r != best {
        var i, j :| 0 <= i < |front| && 0 <= j < |ys| && sim(front[i], ys[j]) == Some(r);
        assert xs[i] == front[i];
      }
    }
  }

  /**
   * The inner loop of `synset_distance`: the best path similarity over every
   * pair of senses, 0 when none is defined and positive.
   */
  method BestSenseSimilarity<S>(res: Resources<S>, synsets1: seq<S>, synsets2: seq<S>)
    returns (maxSimilarity: real)
    ensures maxSimilarity == GridBest(res.pathSimilarity, 0.0, synsets1, synsets2)
    ensures maxSimilarity >= 0.0
    ensures forall i, j ::
      (0 <= i < |synsets1| && 0 <= j < |synsets2| && res.pathSimilarity(synsets1[i], synsets2[j]).Some?) ==>
        res.pathSimilarity(synsets1[i], synsets2[j]).value <= maxSimilarity
    ensures maxSimilarity == 0.0 ||
      exists i, j :: 0 <= i < |synsets1| && 0 <= j < |synsets2| &&
        res.pathSimilarity(synsets1[i], synsets2[j]) == Some(maxSimilarity)
  {
    var sim := res.pathSimilarity;
    maxSimilarity := 0.0;
    for i := 0 to |synsets1|
      invariant maxSimilarity == GridBest(sim, 0.0, synsets1[..i], synsets2)
    {
      ghost var rowStart := maxSimilarity;
      for j := 0 to |synsets2|
        invariant maxSimilarity == RowBest(sim, rowStart, synsets1[i], synsets2[..j])
      {
        var similarity := sim(synsets1[i], synsets2[j]);
        if similarity.Some? && similarity.value != 0.0 && similarity.value > maxSimilarity {
          maxSimilarity := similarity.value;
        }
        assert synsets2[..j + 1][..j] == synsets2[..j];
      }
      assert synsets2[..|synsets2|] == synsets2;
      assert synsets1[..i + 1][..i] == synsets1[..i];
    }
    assert synsets1[..|synsets1|] == synsets1;
    GridBestIsMaximum(sim, 0.0, synsets1, synsets2);
  }

  /**
   * What one pair of tokens adds to the total: nothing when either token has
   * no senses, otherwise the best sense similarity.
   */
  function PairSimilarity<S>(res: Resources<S>, token1: string, token2: string): (r: real)
    ensures r >= 0.0
    ensures res.synsets(token1) == [] || res.synsets(token2) == [] ==> r == 0.0
  {
    var synsets1 := res.synsets(token1);
    var synsets2 := res.synsets(token2);
    if synsets1 != [] && synsets2 != [] then GridBest(res.pathSimilarity, 0.0, synsets1, synsets2) else 0.0
  }

  /**
   * A pair's contribution is 0 when either token has no senses; otherwise it
   * is at least 0, at least every defined similarity of their senses, and
   * either 0 or one of those similarities.
   */
  lemma PairSimilarityIsBestSense<S>(res: Resources<S>, token1: string, token2: string)
    ensures var synsets1, synsets2 := res.synsets(token1), res.synsets(token2);
      var c := PairSimilarity(res, token1, token2);
      && c >= 0.0
      && (synsets1 == [] || synsets2 == [] ==> c == 0.0)
      && (forall i, j ::
            (0 <= i < |synsets1| && 0 <= j < |synsets2| && res.pathSimilarity(synsets1[i], synsets2[j]).Some?) ==>
              res.pathSimilarity(synsets1[i], synsets2[j]).value <= c)
      && (c == 0.0 ||
            exists i, j :: 0 <= i < |synsets1| && 0 <= j < |synsets2| &&
              res.pathSimilarity(synsets1[i], synsets2[j]) == Some(c))
  {
    GridBestIsMaximum(res.pathSimilarity, 0.0, res.synsets(token1), res.synsets(token2));
  }

  /** The contribution of every pair of tokens. */
  function PairTerms<S>(res: Resources<S>): (string, string) -> real {
    (token1, token2) => PairSimilarity(res, token1, token2)
  }

  /** The sum of the contributions of `token1` paired with every token of `tokens2`. */
  ghost function RowTotal<S>(res: Resources<S>, token1: string, tokens2: set<string>): real {
    SetSum(tokens2, RowOf(PairTerms(res), token1))
  }

  /** The sum of the contributions of every pair in the product of the two token sets. */
  ghost function ProductTotal<S>(res: Resources<S>, tokens1: set<string>, tokens2: set<string>): real {
    SetSum(tokens1, RowSums(tokens2, PairTerms(res)))
  }

  /** Any token of the row may be the one added first. */
  lemma RowTotalPick<S>(res: Resources<S>, token1: string, tokens2: set<string>, token2: string)
    requires token2 in tokens2
    ensures RowTotal(res, token1, tokens2) == PairSimilarity(res, token1, token2) + RowTotal(res, token1, tokens2 - {token2})
  {
    SetSumPick(tokens2, RowOf(PairTerms(res), token1), token2);
  }

  /** Any token of the first set may be the one whose row is added first. */
  lemma ProductTotalPick<S>(res: Resources<S>, tokens1: set<string>, tokens2: set<string>, token1: string)
    requires token1 in tokens1
    ensures ProductTotal(res, tokens1, tokens2) == RowTotal(res, token1, tokens2) + ProductTotal(res, tokens1 - {token1}, tokens2)
  {
    SetSumPick(tokens1, RowSums(tokens2, PairTerms(res)), token1);
  }

  /** The score `synset_distance` returns for two statements' texts. */
  ghost function SynsetScore<S>(res: Resources<S>, text1: string, text2: string): (r: real)
    ensures r >= 0.0
  {
    var tokens1, tokens2 := GetTokens(res, text1).elems, GetTokens(res, text2).elems;
    ProductTotalNonNegative(res, tokens1, tokens2);
    ProductTotal(res, tokens1, tokens2)
  }

  /** Every pair contributes at least 0, so the total is never negative. */
  lemma ProductTotalNonNegative<S>(res: Resources<S>, tokens1: set<string>, tokens2: set<string>)
    ensures ProductTotal(res, tokens1, tokens2) >= 0.0
  {
    forall token1 | token1 in tokens1
      ensures RowSums(tokens2, PairTerms(res))(token1) >= 0.0
    {
      forall token2 | token2 in tokens2
        ensures RowOf(PairTerms(res), token1)(token2) >= 0.0
      {
        PairSimilarityIsBestSense(res, token1, token2);
      }
      SetSumNonNegative(tokens2, RowOf(PairTerms(res), token1));
    }
    SetSumNonNegative(tokens1, RowSums(tokens2, PairTerms(res)));
  }

  /** An empty token set on either side makes the product empty and the total exactly 0. */
  lemma ProductTotalEmpty<S>(res: Resources<S>, tokens1: set<string>, tokens2: set<string>)
    requires tokens1 == {} || tokens2 == {}
    ensures ProductTotal(res, tokens1, tokens2) == 0.0
  {
    if tokens2 == {} {
      forall token1 | token1 in tokens1
        ensures RowSums(tokens2, PairTerms(res))(token1) == 0.0
      {
      }
      SetSumZero(tokens1, RowSums(tokens2, PairTerms(res)));
    }
  }

  /** WordNet's path similarity does not depend on the order of the two senses. */
  ghost predicate SymmetricSimilarity<S(!new)>(sim: (S, S) -> Option<real>) {
    forall s1, s2 :: sim(s1, s2) == sim(s2, s1)
  }

  /** None of the tokens has a WordNet sense. */
  ghost predicate WithoutSenses<S>(res: Resources<S>, tokens: set<string>) {
    forall t :: t in tokens ==> res.synsets(t) == []
  }

  /**
   * When no token on one side has a sense, every pair adds nothing and the
   * total is exactly 0, even if both token sets are non-empty.
   */
  lemma ProductTotalNoSenses<S>(res: Resources<S>, tokens1: set<string>, tokens2: set<string>)
    requires WithoutSenses(res, tokens1) || WithoutSenses(res, tokens2)
    ensures ProductTotal(res, tokens1, tokens2) == 0.0
  {
    forall token1 | token1 in tokens1
      ensures RowSums(tokens2, PairTerms(res))(token1) == 0.0
    {
      forall token2 | token2 in tokens2
        ensures RowOf(PairTerms(res), token1)(token2) == 0.0
      {
      }
      SetSumZero(tokens2, RowOf(PairTerms(res), token1));
    }
    SetSumZero(tokens1, RowSums(tokens2, PairTerms(res)));
  }

  /** With a symmetric similarity, the best sense similarity does not depend on which token comes first. */
  lemma GridBestSymmetric<S(!new)>(sim: (S, S) -> Option<real>, xs: seq<S>, ys: seq<S>)
    requires SymmetricSimilarity(sim)
    ensures GridBest(sim, 0.0, xs, ys) == GridBest(sim, 0.0, ys, xs)
  {
    var v, w := GridBest(sim, 0.0, xs, ys), GridBest(sim, 0.0, ys, xs);
    GridBestIsMaximum(sim, 0.0, xs, ys);
    GridBestIsMaximum(sim, 0.0, ys, xs);
    if v != 0.0 {
      var i, j :| 0 <= i < |xs| && 0 <= j < |ys| && sim(xs[i], ys[j]) == Some(v);
      assert sim(ys[j], xs[i]) == Some(v);
    }
    if w != 0.0 {
      var j, i :| 0 <= j < |ys| && 0 <= i < |xs| && sim(ys[j], xs[i]) == Some(w);
      assert sim(xs[i], ys[j]) == Some(w);
    }
  }

  /**
   * With a symmetric path similarity, `synset_distance` is symmetric in its
   * two statements: the double sum may be taken in either order, and each
   * pair contributes the same in both orders.
   */
  lemma SynsetScoreSymmetric<S(!new)>(res: Resources<S>, text1: string, text2: string)
    requires SymmetricSimilarity(res.pathSimilarity)
    ensures SynsetScore(res, text1, text2) == SynsetScore(res, text2, text1)
  {
    var tokens1, tokens2 := GetTokens(res, text1).elems, GetTokens(res, text2).elems;
    var f := PairTerms(res);
    SetSumSwap(tokens1, tokens2, f);
    forall token2 | token2 in tokens2
      ensures ColumnSums(tokens1, f)(token2) == RowSums(tokens1, f)(token2)
    {
      forall token1 | token1 in tokens1
        ensures ColumnOf(f, token2)(token1) == RowOf(f, token2)(token1)
      {
        GridBestSymmetric(res.pathSimilarity, res.synsets(token1), res.synsets(token2));
      }
      SetSumCongruent(tokens1, ColumnOf(f, token2), RowOf(f, token2));
    }
    SetSumCongruent(tokens2, ColumnSums(tokens1, f), RowSums(tokens1, f));
  }

  /**
   * `synset_distance`: the sum, over every pair of tokens of the two
   * statements, of the pair's best sense similarity.
   */
  method SynsetDistance<S>(res: Resources<S>, statement: string, otherStatement: string)
    returns (totalSimilarity: real)
    ensures totalSimilarity == SynsetScore(res, statement, otherStatement)
    ensures totalSimilarity >= 0.0
    ensures GetTokens(res, statement).elems == {} || GetTokens(res, otherStatement).elems == {} ==>
      totalSimilarity == 0.0
    ensures WithoutSenses(res, GetTokens(res, statement).elems) || WithoutSenses(res, GetTokens(res, otherStatement).elems) ==>
      totalSimilarity == 0.0
  {
    var tokens1 := GetTokens(res, statement).elems;
    var tokens2 := GetTokens(res, otherStatement).elems;
    totalSimilarity := 0.0;
    var rest1 := tokens1;
    while rest1 != {}
      invariant rest1 <= tokens1
      invariant totalSimilarity + ProductTotal(res, rest1, tokens2) == ProductTotal(res, tokens1, tokens2)
      decreases rest1
    {
      var token1 :| token1 in rest1;
      ghost var rowStart := totalSimilarity;
      var rest2 := tokens2;
      while rest2 != {}
        invariant rest2 <= tokens2
        invariant totalSimilarity - rowStart + RowTotal(res, token1, rest2) == RowTotal(res, token1, tokens2)
        decreases rest2
      {
        var token2 :| token2 in rest2;
        var synset1 := res.synsets(token1);
        var synset2 := res.synsets(token2);
        if synset1 != [] && synset2 != [] {
          var maxSimilarity := BestSenseSimilarity(res, synset1, synset2);
          totalSimilarity := totalSimilarity + maxSimilarity;
        }
        RowTotalPick(res, token1, rest2, token2);
        rest2 := rest2 - {token2};
      }
      ProductTotalPick(res, rest1, tokens2, token1);
      rest1 := rest1 - {token1};
    }
    ProductTotalNonNegative(res, tokens1, tokens2);
    if tokens1 == {} || tokens2 == {} {
      ProductTotalEmpty(res, tokens1, tokens2);
    }
    if WithoutSenses(res, tokens1) || WithoutSenses(res, tokens2) {
      ProductTotalNoSenses(res, tokens1, tokens2);
    }
  }
}
