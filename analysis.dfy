/**
 * The driver `analyze_urls` of main.py: walk the URL rows in order, skip
 * each row whose page could not be fetched, and append one result record
 * per remaining row.
 *
 * The foreign collaborators are parameters: the page fetch (an abstract
 * map from URL to text, where "" is a failed request or a non-200 status),
 * the markup stripping and word tokenization that precede the stopword
 * filter, and the sentence tokenizer. Input files that could not be read
 * arrive as `None`.
 */
module UrlAnalysis {
  import opened Counting
  import opened Sentiment
  import opened Readability
  import opened TextCleaning

  datatype Option<T> = None | Some(value: T)

  /** One row of the URL spreadsheet: its `URL_ID` and `URL` columns. */
  datatype UrlRecord = UrlRecord(id: string, url: string)

  /** One row of the report, with the report's ten columns. */
  datatype AnalysisResult = AnalysisResult(
    urlId: string,
    url: string,
    positiveScore: nat,
    negativeScore: nat,
    polarityScore: real,
    subjectivityScore: real,
    avgSentenceLength: real,
    percentageComplexWords: real,
    fogIndex: real,
    avgWordsPerSentence: real)

  /** The code the pipeline calls but does not define. */
  datatype Environment = Environment(
    fetch: string -> string,
    tokenize: string -> seq<string>,
    stopWords: set<string>,
    countSentences: seq<string> -> nat)

  /** `clean_text`: foreign tokenization followed by the stopword filter. */
  function CleanText(env: Environment, content: string): (tokens: seq<string>)
    ensures forall i :: 0 <= i < |tokens| ==> tokens[i] !in env.stopWords
  {
    RemoveStopwords(env.tokenize(content), env.stopWords)
  }

  /** What every report row satisfies, whatever the page said. */
  ghost predicate Consistent(r: AnalysisResult)
  {
    && -1.0 < r.polarityScore < 1.0
    && (r.polarityScore == 0.0 <==> r.positiveScore == r.negativeScore)
    && 0.0 <= r.subjectivityScore < 2.0
    && (r.subjectivityScore == 0.0 <==> r.positiveScore + r.negativeScore == 0)
    && r.avgSentenceLength >= 0.0
    && r.avgSentenceLength == r.avgWordsPerSentence
    && 0.0 <= r.percentageComplexWords <= 1.0
    && r.fogIndex == 0.4 * (r.avgSentenceLength + r.percentageComplexWords)
    && r.fogIndex >= 0.0
  }

  /** The report row for one record whose page text is `content`. */
  function AnalyzeContent(record: UrlRecord, content: string, env: Environment,
                          positiveWords: seq<string>, negativeWords: seq<string>): (r: AnalysisResult)
    ensures r.urlId == record.id && r.url == record.url
    ensures r.positiveScore <= |CleanText(env, content)| && r.negativeScore <= |CleanText(env, content)|
    ensures RowFromTokens(r, CleanText(env, content), env, positiveWords, negativeWords)
    ensures Consistent(r)
  {
    var tokens := CleanText(env, content);
    var counts := CountKeywords(tokens, positiveWords, negativeWords);
    var scores := CalculateScores(counts.positive, counts.negative, |tokens|);
    var metrics := CalculateTextMetrics(tokens, env.countSentences(tokens));
    AnalysisResult(record.id, record.url, counts.positive, counts.negative,
                   scores.polarity, scores.subjectivity,
                   metrics.avgSentenceLength, metrics.percentageComplexWords,
                   metrics.fogIndex, metrics.avgWordsPerSentence)
  }

  /** A row reaches the report when its fetch returned some text. */
  function Fetched(env: Environment): UrlRecord -> bool
  {
    (row: UrlRecord) => env.fetch(row.url) != ""
  }

  /** The report row for a record, computed from its own fetched page. */
  function AnalyzeRow(env: Environment, positiveWords: seq<string>, negativeWords: seq<string>): UrlRecord -> AnalysisResult
  {
    (row: UrlRecord) => AnalyzeContent(row, env.fetch(row.url), env, positiveWords, negativeWords)
  }

  /** The report the loop builds over `rows`, one row at a time. */
  function Report(rows: seq<UrlRecord>, env: Environment,
                  positiveWords: seq<string>, negativeWords: seq<string>): (report: seq<AnalysisResult>)
    ensures |report| <= |rows|
  {
    if rows == [] then []
    else
      var last := rows[|rows| - 1];
      Report(rows[..|rows| - 1], env, positiveWords, negativeWords)
        + (if Fetched(env)(last) then [AnalyzeRow(env, positiveWords, negativeWords)(last)] else [])
  }

  /**
   * `analyze_urls`: no rows at all when an input is missing; otherwise the
   * report over the rows in input order.
   */
  method AnalyzeUrls(urls: Option<seq<UrlRecord>>, positiveWords: Option<seq<string>>,
                     negativeWords: Option<seq<string>>, env: Environment)
    returns (results: seq<AnalysisResult>)
    ensures urls.None? || positiveWords.None? || negativeWords.None? ==> results == []
    ensures urls.Some? && positiveWords.Some? && negativeWords.Some? ==>
              results == Report(urls.value, env, positiveWords.value, negativeWords.value)
  {
    results := [];
    if urls.None? || positiveWords.None? || negativeWords.None? {
      return;
    }
    var rows, positive, negative := urls.value, positiveWords.value, negativeWords.value;
    for i := 0 to |rows|
      invariant results == Report(rows[..i], env, positive, negative)
    {
      assert rows[..i + 1][..i] == rows[..i];
      var row := rows[i];
      var content := env.fetch(row.url);
      if content == "" {
        continue;
      }
      var cleanedText := CleanText(env, content);
      var counts := CountKeywords(cleanedText, positive, negative);
      var scores := CalculateScores(counts.positive, counts.negative, |cleanedText|);
      var metrics := CalculateTextMetrics(cleanedText, env.countSentences(cleanedText));
      results := results + [AnalysisResult(row.id, row.url, counts.positive, counts.negative,
                                           scores.polarity, scores.subjectivity,
                                           metrics.avgSentenceLength, metrics.percentageComplexWords,
                                           metrics.fogIndex, metrics.avgWordsPerSentence)];
    }
    assert rows[..|rows|] == rows;
  }

  /**
   * The report is the fetched rows, in input order, each analysed on its
   * own: one report row per row whose fetch returned text.
   */
  lemma {:induction false} ReportIsFetchedRows(rows: seq<UrlRecord>, env: Environment,
                                               positiveWords: seq<string>, negativeWords: seq<string>)
    ensures var report := Report(rows, env, positiveWords, negativeWords);
            var fetched := Filter(rows, Fetched(env));
            && |report| == |fetched| == Count(rows, Fetched(env))
            && forall k :: 0 <= k < |report| ==> report[k] == AnalyzeRow(env, positiveWords, negativeWords)(fetched[k])
  {
    if rows != [] {
      ReportIsFetchedRows(rows[..|rows| - 1], env, positiveWords, negativeWords);
    }
  }

  /**
   * Each report row comes from an input row whose fetch succeeded, and
   * carries that row's id and URL and the counts, scores and metrics of
   * that row's own cleaned text.
   */
  lemma {:induction false} ReportRowOrigin(rows: seq<UrlRecord>, env: Environment,
                        positiveWords: seq<string>, negativeWords: seq<string>, k: nat)
    requires k < |Report(rows, env, positiveWords, negativeWords)|
    ensures var r := Report(rows, env, positiveWords, negativeWords)[k];
            exists j :: 0 <= j < |rows| && env.fetch(rows[j].url) != ""
              && r.urlId == rows[j].id && r.url == rows[j].url
              && RowFromTokens(r, CleanText(env, env.fetch(rows[j].url)), env, positiveWords, negativeWords)
              && Consistent(r)
  {
    ReportIsFetchedRows(rows, env, positiveWords, negativeWords);
    var fetched := Filter(rows, Fetched(env));
    var row := fetched[k];
    assert row in rows;
    var j :| 0 <= j < |rows| && rows[j] == row;
    assert RowFromTokens(Report(rows, env, positiveWords, negativeWords)[k],
                         CleanText(env, env.fetch(rows[j].url)), env, positiveWords, negativeWords);
  }

  /** The counts, scores and metrics of a report row are those of `tokens`. */
  ghost predicate RowFromTokens(r: AnalysisResult, tokens: seq<string>, env: Environment,
                                positiveWords: seq<string>, negativeWords: seq<string>)
  {
    var metrics := CalculateTextMetrics(tokens, env.countSentences(tokens));
    && r.positiveScore == KeywordCount(tokens, positiveWords)
    && r.negativeScore == KeywordCount(tokens, negativeWords)
    && r.polarityScore == Polarity(r.positiveScore, r.negativeScore)
    && r.subjectivityScore == Subjectivity(r.positiveScore, r.negativeScore, |tokens|)
    && r.avgSentenceLength == metrics.avgSentenceLength
    && r.percentageComplexWords == metrics.percentageComplexWords
    && r.fogIndex == metrics.fogIndex
    && r.avgWordsPerSentence == metrics.avgWordsPerSentence
  }

  /** Reports over consecutive stretches of rows join up: rows are processed independently. */
  lemma {:induction false} ReportAppend(a: seq<UrlRecord>, b: seq<UrlRecord>, env: Environment,
                                        positiveWords: seq<string>, negativeWords: seq<string>)
    ensures Report(a + b, env, positiveWords, negativeWords)
         == Report(a, env, positiveWords, negativeWords) + Report(b, env, positiveWords, negativeWords)
  {
    if b != [] {
      var n := |b| - 1;
      assert (a + b)[..|a + b| - 1] == a + b[..n];
      ReportAppend(a, b[..n], env, positiveWords, negativeWords);
    } else {
      assert a + b == a;
    }
  }

  /** A row whose fetch failed is skipped, and the rows after it are still reported. */
  lemma FailedFetchIsSkipped(rows: seq<UrlRecord>, j: nat, env: Environment,
                             positiveWords: seq<string>, negativeWords: seq<string>)
    requires j < |rows| && env.fetch(rows[j].url) == ""
    ensures Report(rows, env, positiveWords, negativeWords)
         == Report(rows[..j], env, positiveWords, negativeWords) + Report(rows[j + 1..], env, positiveWords, negativeWords)
  {
    assert rows == rows[..j] + [rows[j]] + rows[j + 1..];
    ReportAppend(rows[..j] + [rows[j]], rows[j + 1..], env, positiveWords, negativeWords);
    ReportAppend(rows[..j], [rows[j]], env, positiveWords, negativeWords);
    assert [rows[j]][..0] == [];
  }

  /** When every fetch fails the report is empty; when every fetch succeeds it has one row per input row. */
  lemma {:induction false} ReportSize(rows: seq<UrlRecord>, env: Environment,
                   positiveWords: seq<string>, negativeWords: seq<string>)
    ensures (forall j :: 0 <= j < |rows| ==> env.fetch(rows[j].url) == "") ==> Report(rows, env, positiveWords, negativeWords) == []
    ensures (forall j :: 0 <= j < |rows| ==> env.fetch(rows[j].url) != "") ==> |Report(rows, env, positiveWords, negativeWords)| == |rows|
  {
    ReportIsFetchedRows(rows, env, positiveWords, negativeWords);
    CountZero(rows, Fetched(env));
    CountFull(rows, Fetched(env));
  }

  /** The row built for a page whose cleaned text is empty has every count, score and metric 0. */
  lemma EmptyTextScoresZero(record: UrlRecord, content: string, env: Environment,
                            positiveWords: seq<string>, negativeWords: seq<string>)
    requires CleanText(env, content) == []
    ensures var r := AnalyzeContent(record, content, env, positiveWords, negativeWords);
            && r.positiveScore == 0 && r.negativeScore == 0
            && r.polarityScore == 0.0 && r.subjectivityScore == 0.0
            && r.avgSentenceLength == 0.0 && r.percentageComplexWords == 0.0 && r.fogIndex == 0.0
  {
  }
}
