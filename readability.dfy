/**
 * Readability statistics: `calculate_text_metrics` of main.py, with its
 * nested `syllable_count`. The number of sentences comes from a foreign
 * sentence tokenizer and enters here as a parameter.
 */
module Readability {
  import opened Counting

  /** The characters `syllable_count` treats as vowels: lower-case only, no 'y'. */
  const Vowels: string := "aeiou"

  function IsVowel(c: char): bool
  {
    c in Vowels
  }

  /** The crude syllable heuristic: one syllable per vowel character. */
  function SyllableCount(word: string): (n: nat)
    ensures n <= |word|
  {
    Count(word, IsVowel)
  }

  /** A word is complex when it has more than two "syllables". */
  predicate IsComplex(word: string)
  {
    SyllableCount(word) > 2
  }

  /** The complex words of a text, in order, duplicates kept. */
  function ComplexWords(words: seq<string>): (r: seq<string>)
    ensures |r| == Count(words, IsComplex) <= |words|
    ensures forall i :: 0 <= i < |r| ==> IsComplex(r[i]) && r[i] in words
    ensures forall i :: 0 <= i < |words| && IsComplex(words[i]) ==> words[i] in r
  {
    Filter(words, IsComplex)
  }

  /**
   * Each word occurs among the complex words as often as in the text when
   * it is complex, and not at all otherwise.
   */
  lemma ComplexWordsOccurrences(words: seq<string>, w: string)
    ensures multiset(ComplexWords(words))[w] == if IsComplex(w) then multiset(words)[w] else 0
  {
    FilterOccurrences(words, IsComplex, w);
  }

  /** Selecting complex words distributes over concatenation, so their order is the text's. */
  lemma ComplexWordsAppend(a: seq<string>, b: seq<string>)
    ensures ComplexWords(a + b) == ComplexWords(a) + ComplexWords(b)
  {
    FilterAppend(a, b, IsComplex);
  }

  /** The syllable count is the number of vowel positions in the word. */
  lemma SyllableCountIsVowelPositions(word: string)
    ensures SyllableCount(word) == |set i | 0 <= i < |word| && word[i] in "aeiou"|
  {
    CountIsPositions(word, IsVowel);
    assert Positions(word, IsVowel) == set i | 0 <= i < |word| && word[i] in "aeiou";
  }

  /** Upper-case vowels do not count: the heuristic expects lower-cased text. */
  lemma UpperCaseHasNoSyllables()
    ensures SyllableCount("AEIOU") == 0
  {
    CountZero("AEIOU", IsVowel);
  }

  /** "beautiful" has the vowels e, a, u, i, u: five syllables, so it is complex. */
  lemma BeautifulIsComplex()
    ensures SyllableCount("beautiful") == 5
    ensures IsComplex("beautiful")
  {
    var w := "beautiful";
    SyllableCountIsVowelPositions(w);
    assert (set i | 0 <= i < |w| && w[i] in "aeiou") == {1, 2, 3, 5, 7};
  }

  /** The four statistics `calculate_text_metrics` returns. */
  datatype TextMetrics = TextMetrics(
    avgSentenceLength: real,
    percentageComplexWords: real,
    fogIndex: real,
    avgWordsPerSentence: real)

  /** Words per sentence, 0 when there is no sentence. */
  function WordsPerSentence(numWords: nat, numSentences: nat): (r: real)
    ensures r >= 0.0
    ensures numSentences == 0 ==> r == 0.0
    ensures numSentences > 0 ==> r * numSentences as real == numWords as real
  {
    if numSentences > 0 then numWords as real / numSentences as real else 0.0
  }

  /** Fraction of complex words, 0 for an empty text. */
  function ComplexFraction(words: seq<string>): (r: real)
    ensures 0.0 <= r <= 1.0
    ensures |words| == 0 ==> r == 0.0
    ensures |words| > 0 ==> r * |words| as real == |ComplexWords(words)| as real
  {
    var n := |words| as real;
    var c := |ComplexWords(words)| as real;
    if |words| > 0 then
      assert c / n * n == c;
      FractionAtMostOne(c, n);
      c / n
    else 0.0
  }

  lemma FractionAtMostOne(c: real, n: real)
    requires 0.0 <= c <= n && n > 0.0
    ensures 0.0 <= c / n <= 1.0
  {
    var q := c / n;
    assert q * n == c;
    assert (1.0 - q) * n == n - c;
  }

  /** `calculate_text_metrics` for a cleaned token sequence and its sentence count. */
  function CalculateTextMetrics(words: seq<string>, numSentences: nat): (m: TextMetrics)
    ensures m.avgSentenceLength == m.avgWordsPerSentence
    ensures numSentences == 0 ==> m.avgSentenceLength == 0.0
    ensures numSentences > 0 ==> m.avgSentenceLength * numSentences as real == |words| as real
    ensures 0.0 <= m.percentageComplexWords <= 1.0
    ensures |words| == 0 ==> m.percentageComplexWords == 0.0
    ensures m.fogIndex == 0.4 * (m.avgSentenceLength + m.percentageComplexWords)
    ensures 0.4 * m.avgSentenceLength <= m.fogIndex <= 0.4 * m.avgSentenceLength + 0.4
  {
    var avgSentenceLength := WordsPerSentence(|words|, numSentences);
    var percentageComplexWords := ComplexFraction(words);
    var fogIndex := 0.4 * (avgSentenceLength + percentageComplexWords);
    var avgWordsPerSentence := WordsPerSentence(|words|, numSentences);
    TextMetrics(avgSentenceLength, percentageComplexWords, fogIndex, avgWordsPerSentence)
  }

  /** The complex-word percentage is 1 exactly when every word of a non-empty text is complex. */
  lemma AllComplex(words: seq<string>, numSentences: nat)
    requires |words| > 0
    ensures CalculateTextMetrics(words, numSentences).percentageComplexWords == 1.0 <==> forall i :: 0 <= i < |words| ==> IsComplex(words[i])
  {
    CountFull(words, IsComplex);
    QuotientOneZero(|ComplexWords(words)| as real, |words| as real);
  }

  /** The complex-word percentage is 0 exactly when no word is complex. */
  lemma NoneComplex(words: seq<string>, numSentences: nat)
    ensures CalculateTextMetrics(words, numSentences).percentageComplexWords == 0.0 <==> forall i :: 0 <= i < |words| ==> !IsComplex(words[i])
  {
    CountZero(words, IsComplex);
    if |words| > 0 {
      QuotientOneZero(|ComplexWords(words)| as real, |words| as real);
    }
  }

  lemma QuotientOneZero(c: real, n: real)
    requires n > 0.0
    ensures c / n == 1.0 <==> c == n
    ensures c / n == 0.0 <==> c == 0.0
  {
    var q := c / n;
    assert q * n == c;
    assert (q - 1.0) * n == c - n;
    ScaledZero(q - 1.0, n);
    ScaledZero(q, n);
  }

  lemma ScaledZero(a: real, n: real)
    requires n > 0.0
    ensures a * n == 0.0 <==> a == 0.0
  {
  }
}
