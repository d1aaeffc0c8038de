/**
 * The stopword step of `clean_text` (main.py): the comprehension that
 * keeps, in order, the tokens that are not English stopwords. Tag
 * stripping, punctuation removal and word tokenization before it are
 * foreign code; this module starts from their token sequence.
 */
module TextCleaning {
  import opened Counting

  function IsContentWord(stopWords: set<string>): string -> bool
  {
    w => w !in stopWords
  }

  /** The tokens that are not stopwords, in their original order, duplicates kept. */
  function RemoveStopwords(tokens: seq<string>, stopWords: set<string>): (r: seq<string>)
    ensures |r| <= |tokens|
    ensures forall i :: 0 <= i < |r| ==> r[i] !in stopWords && r[i] in tokens
    ensures forall i :: 0 <= i < |tokens| && tokens[i] !in stopWords ==> tokens[i] in r
  {
    Filter(tokens, IsContentWord(stopWords))
  }

  /**
   * Each word occurs in the output as often as in the input, unless it is
   * a stopword, in which case it does not occur at all.
   */
  lemma RemoveStopwordsOccurrences(tokens: seq<string>, stopWords: set<string>, w: string)
    ensures multiset(RemoveStopwords(tokens, stopWords))[w] == if w in stopWords then 0 else multiset(tokens)[w]
  {
    FilterOccurrences(tokens, IsContentWord(stopWords), w);
  }

  /**
   * The filter works token by token: cleaning two pieces of text and
   * joining the results is cleaning their concatenation, so the relative
   * order of the kept tokens is the input's.
   */
  lemma RemoveStopwordsAppend(a: seq<string>, b: seq<string>, stopWords: set<string>)
    ensures RemoveStopwords(a + b, stopWords) == RemoveStopwords(a, stopWords) + RemoveStopwords(b, stopWords)
  {
    FilterAppend(a, b, IsContentWord(stopWords));
  }

  /** A single token is kept exactly when it is not a stopword. */
  lemma RemoveStopwordsSingle(w: string, stopWords: set<string>)
    ensures RemoveStopwords([w], stopWords) == if w in stopWords then [] else [w]
  {
  }

  /** The output is as long as the input exactly when no token is a stopword, and then equals it. */
  lemma RemoveStopwordsNone(tokens: seq<string>, stopWords: set<string>)
    ensures |RemoveStopwords(tokens, stopWords)| == |tokens| <==> forall i :: 0 <= i < |tokens| ==> tokens[i] !in stopWords
    ensures (forall i :: 0 <= i < |tokens| ==> tokens[i] !in stopWords) ==> RemoveStopwords(tokens, stopWords) == tokens
  {
    CountFull(tokens, IsContentWord(stopWords));
    if forall i :: 0 <= i < |tokens| ==> tokens[i] !in stopWords {
      FilterAll(tokens, IsContentWord(stopWords));
    }
  }

  /** Cleaning twice is cleaning once. */
  lemma RemoveStopwordsIdempotent(tokens: seq<string>, stopWords: set<string>)
    ensures RemoveStopwords(RemoveStopwords(tokens, stopWords), stopWords) == RemoveStopwords(tokens, stopWords)
  {
    RemoveStopwordsNone(RemoveStopwords(tokens, stopWords), stopWords);
  }
}
