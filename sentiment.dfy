/**
 * Lexicon-based sentiment: `count_keywords` and `calculate_scores` of
 * main.py. Scores are computed over exact reals; the source's 0.000001
 * guard in each denominator is the exact rational 1/1000000 here.
 */
module Sentiment {
  import opened Counting

  /** The guard added to each denominator in `calculate_scores`. */
  const Epsilon: real := 0.000001

  /** Membership in a keyword list, by exact string equality (no case folding). */
  function IsKeyword(lexicon: seq<string>): string -> bool
  {
    w => w in lexicon
  }

  /** How many tokens, counted with multiplicity, appear in `lexicon`. */
  function KeywordCount(tokens: seq<string>, lexicon: seq<string>): (n: nat)
    ensures n <= |tokens|
  {
    Count(tokens, IsKeyword(lexicon))
  }

  datatype KeywordCounts = KeywordCounts(positive: nat, negative: nat)

  /** `count_keywords`: the positive and the negative count of one token sequence. */
  function CountKeywords(tokens: seq<string>, positiveWords: seq<string>, negativeWords: seq<string>): (c: KeywordCounts)
    ensures c.positive <= |tokens| && c.negative <= |tokens|
  {
    KeywordCounts(KeywordCount(tokens, positiveWords), KeywordCount(tokens, negativeWords))
  }

  /** The count is the number of positions whose token is in the lexicon. */
  lemma KeywordCountIsPositions(tokens: seq<string>, lexicon: seq<string>)
    ensures KeywordCount(tokens, lexicon) == |set i | 0 <= i < |tokens| && tokens[i] in lexicon|
  {
    CountIsPositions(tokens, IsKeyword(lexicon));
    assert Positions(tokens, IsKeyword(lexicon)) == set i | 0 <= i < |tokens| && tokens[i] in lexicon;
  }

  /** The count is zero exactly when no token is in the lexicon. */
  lemma KeywordCountZero(tokens: seq<string>, lexicon: seq<string>)
    ensures KeywordCount(tokens, lexicon) == 0 <==> forall i :: 0 <= i < |tokens| ==> tokens[i] !in lexicon
  {
    CountZero(tokens, IsKeyword(lexicon));
  }

  /** Counting over two pieces of text adds up. */
  lemma KeywordCountAppend(a: seq<string>, b: seq<string>, lexicon: seq<string>)
    ensures KeywordCount(a + b, lexicon) == KeywordCount(a, lexicon) + KeywordCount(b, lexicon)
  {
    CountAppend(a, b, IsKeyword(lexicon));
  }

  /**
   * Only which words a lexicon holds matters: their order and any
   * repeated lines in the keyword file do not change the count.
   */
  lemma {:induction false} KeywordCountSameEntries(tokens: seq<string>, lexicon1: seq<string>, lexicon2: seq<string>)
    requires forall w :: w in lexicon1 <==> w in lexicon2
    ensures KeywordCount(tokens, lexicon1) == KeywordCount(tokens, lexicon2)
  {
    if tokens != [] {
      KeywordCountSameEntries(tokens[..|tokens| - 1], lexicon1, lexicon2);
    }
  }

  /**
   * When no word is in both lexicons, each token is counted at most once,
   * so the two counts together do not exceed the number of tokens. A word
   * listed in both is counted in both.
   */
  lemma {:induction false} KeywordCountsDisjoint(tokens: seq<string>, positiveWords: seq<string>, negativeWords: seq<string>)
    requires forall w :: w in positiveWords ==> w !in negativeWords
    ensures KeywordCount(tokens, positiveWords) + KeywordCount(tokens, negativeWords) <= |tokens|
  {
    if tokens != [] {
      KeywordCountsDisjoint(tokens[..|tokens| - 1], positiveWords, negativeWords);
    }
  }

  /** Polarity: (p - n) / (p + n + 0.000001). */
  function Polarity(positive: nat, negative: nat): (r: real)
    ensures -1.0 < r < 1.0
    ensures r == 0.0 <==> positive == negative
    ensures r > 0.0 <==> positive > negative
  {
    var d := positive as real + negative as real + Epsilon;
    var x := positive as real - negative as real;
    QuotientBounds(x, d);
    x / d
  }

  /** Subjectivity: (p + n) / (total + 0.000001). */
  function Subjectivity(positive: nat, negative: nat, totalWords: nat): (r: real)
    ensures r >= 0.0
    ensures r == 0.0 <==> positive + negative == 0
    ensures positive + negative <= totalWords ==> r < 1.0
    ensures positive <= totalWords && negative <= totalWords ==> r < 2.0
  {
    var d := totalWords as real + Epsilon;
    var x := positive as real + negative as real;
    QuotientBounds(x, d);
    QuotientBounds(x, 2.0 * d);
    assert x / d == 2.0 * (x / (2.0 * d));
    x / d
  }

  lemma QuotientBounds(x: real, d: real)
    requires d > 0.0
    ensures x / d < 1.0 <==> x < d
    ensures x / d > -1.0 <==> x > -d
    ensures x / d == 0.0 <==> x == 0.0
    ensures x / d > 0.0 <==> x > 0.0
  {
    var q := x / d;
    assert q * d == x;
    assert (q + 1.0) * d == x + d;
    assert (1.0 - q) * d == d - x;
    ProductSign(q, d);
    ProductSign(q + 1.0, d);
    ProductSign(1.0 - q, d);
  }

  lemma ProductSign(a: real, d: real)
    requires d > 0.0
    ensures a > 0.0 <==> a * d > 0.0
    ensures a == 0.0 <==> a * d == 0.0
  {
  }

  datatype Scores = Scores(polarity: real, subjectivity: real)

  /** `calculate_scores` for the counts of a token sequence. */
  function CalculateScores(positive: nat, negative: nat, totalWords: nat): (s: Scores)
    ensures -1.0 < s.polarity < 1.0 && s.subjectivity >= 0.0
    ensures positive == 0 && negative == 0 ==> s.polarity == 0.0 && s.subjectivity == 0.0
  {
    Scores(Polarity(positive, negative), Subjectivity(positive, negative, totalWords))
  }

  /**
   * Scores of a token sequence: subjectivity stays below 2 (a token may be
   * counted once per lexicon), and below 1 when the lexicons share no word.
   */
  lemma ScoresOfTokens(tokens: seq<string>, positiveWords: seq<string>, negativeWords: seq<string>)
    ensures var c := CountKeywords(tokens, positiveWords, negativeWords);
            var s := CalculateScores(c.positive, c.negative, |tokens|);
            && s.subjectivity < 2.0
            && ((forall w :: w in positiveWords ==> w !in negativeWords) ==> s.subjectivity < 1.0)
            && (s.polarity == 0.0 <==> c.positive == c.negative)
  {
    if forall w :: w in positiveWords ==> w !in negativeWords {
      KeywordCountsDisjoint(tokens, positiveWords, negativeWords);
    }
  }

  /** The worked example: ["great", "great", "bad"] against {"great"} and {"bad"}. */
  lemma ExampleGreatGreatBad()
    ensures CountKeywords(["great", "great", "bad"], ["great"], ["bad"]) == KeywordCounts(2, 1)
    ensures 0.3333 < Polarity(2, 1) < 0.33334
    ensures 0.9999 < Subjectivity(2, 1, 3) < 1.0
  {
    var t := ["great", "great", "bad"];
    assert t[..2] == ["great", "great"] && t[..2][..1] == ["great"] && t[..2][..1][..0] == [];
    assert "bad" != "great";
    assert KeywordCount(t[..2][..1], ["great"]) == 1;
    assert KeywordCount(t[..2], ["great"]) == 2;
    assert KeywordCount(t[..2][..1], ["bad"]) == 0;
    assert KeywordCount(t[..2], ["bad"]) == 0;
  }
}
