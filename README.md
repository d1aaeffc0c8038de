# URL sentiment and readability report — Dafny model

This project models the scoring core of a small Python pipeline
(`main.py`). The pipeline reads a spreadsheet of `URL_ID`/`URL` rows and two
keyword lists. It fetches each page, turns it into a list of lower-case word
tokens without stopwords, and reports per page:

- the positive and negative keyword counts;
- polarity and subjectivity;
- average sentence length, percentage of complex words and the Fog index;
- average words per sentence.

The model is in five modules:

- `Counting` (`counting.dfy`): generic `Count` and `Filter` over sequences,
  the shape of the source's generator sums and list comprehensions. It also
  holds their lemmas: positions, zero and full counts, concatenation and
  occurrence counts.
- `TextCleaning` (`cleaning.dfy`): the stopword comprehension of `clean_text`.
- `Sentiment` (`sentiment.dfy`): `count_keywords` and `calculate_scores`.
  Scores are exact `real`s, and the `0.000001` guard is the exact rational
  1/1000000.
- `Readability` (`readability.dfy`): `calculate_text_metrics` with its nested
  `syllable_count`. The sentence count is a parameter.
- `UrlAnalysis` (`analysis.dfy`): the driver `analyze_urls`. It is a method
  with a loop that grows the result sequence. The method is proved equal to
  the recursive specification `Report`, and lemmas then characterise
  `Report`: the fetched rows in input order, each analysed on its own.

The foreign collaborators are fields of `UrlAnalysis.Environment`:

- the page fetch, as a function from URL to text where `""` means failure;
- markup stripping, punctuation removal, lower-casing and word tokenization,
  as one function from page text to tokens;
- the stopword set;
- the sentence tokenizer, as a function from the cleaned tokens to a count.

A keyword or spreadsheet file that could not be read reaches the driver as
`None`. An empty list is not missing: the source tests `is None`.

`syllable_count` counts the characters of a word that are in `"aeiou"`, so
"beautiful" has 5 (e, a, u, i, u). `Readability.BeautifulIsComplex` proves the
count is 5 and that the word is complex.

## Model

| member | source | states |
|---|---|---|
| `Sentiment.KeywordCountIsPositions` | main.py:62-65 | a keyword count is the number of positions of the token list whose token is in the lexicon (multiplicity kept, exact string match) |
| `Sentiment.CountKeywords` | main.py:62-65 | both counts lie between 0 and the number of tokens |
| `Sentiment.KeywordCountZero` | main.py:63-64 | a count is 0 exactly when no token is in that lexicon |
| `Sentiment.KeywordCountAppend` | main.py:63-64 | counting over two concatenated token lists adds the two counts |
| `Sentiment.KeywordCountSameEntries` | main.py:63-64 | only the set of words in a keyword list matters; order and repeated lines do not change the count |
| `Sentiment.KeywordCountsDisjoint` | main.py:63-64 | when no word is in both lists, positive + negative count is at most the number of tokens |
| `Sentiment.Polarity` | main.py:68 | polarity lies strictly between -1 and 1; it is 0 exactly when the two counts are equal (so 0 when both are 0); it is positive exactly when positive > negative |
| `Sentiment.Subjectivity` | main.py:69 | subjectivity is at least 0 and is 0 exactly when both counts are 0, for any total; it is below 1 when the counts add up to at most the total, and below 2 when each count is at most the total |
| `Sentiment.CalculateScores` | main.py:67-70 | polarity lies in (-1, 1) and subjectivity is at least 0; both are 0 when both counts are 0 |
| `Sentiment.ScoresOfTokens` | main.py:62-70 | for the counts of a real token list, subjectivity is below 2 and, for lexicons without a shared word, below 1; polarity is 0 exactly when the counts are equal |
| `Sentiment.ExampleGreatGreatBad` | main.py:62-70 | ["great","great","bad"] against ["great"] and ["bad"] gives counts 2 and 1, polarity in (0.3333, 0.33334) and subjectivity in (0.9999, 1) |
| `TextCleaning.RemoveStopwords` | main.py:58 | the output contains no stopword, every kept token is from the input, every non-stopword of the input is kept, and the output is no longer than the input |
| `TextCleaning.RemoveStopwordsOccurrences` | main.py:58 | each word occurs in the output as often as in the input if it is not a stopword, and not at all if it is (duplicates kept) |
| `TextCleaning.RemoveStopwordsAppend` | main.py:58 | filtering a concatenation is concatenating the filtered parts (order preserved) |
| `TextCleaning.RemoveStopwordsSingle` | main.py:58 | a single token is kept exactly when it is not a stopword |
| `TextCleaning.RemoveStopwordsNone` | main.py:58 | the output is as long as the input exactly when no token is a stopword, and then equals the input |
| `TextCleaning.RemoveStopwordsIdempotent` | main.py:58 | filtering twice is filtering once |
| `Readability.SyllableCount` | main.py:80-82 | the syllable count is at most the word's length |
| `Readability.SyllableCountIsVowelPositions` | main.py:80-82 | the syllable count is the number of positions of the word holding one of a, e, i, o, u |
| `Readability.UpperCaseHasNoSyllables` | main.py:81-82 | upper-case vowels are not counted ("AEIOU" has 0) |
| `Readability.BeautifulIsComplex` | main.py:80-84 | "beautiful" has 5 vowel characters and is complex |
| `Readability.ComplexWords` | main.py:84 | there is one complex word per position of the text holding a complex word (duplicates kept), so no more than there are words; each one is complex and from the input, and every complex input word is among them |
| `Readability.ComplexWordsOccurrences` | main.py:84 | each word occurs among the complex words as often as in the text if it is complex, and not at all otherwise |
| `Readability.ComplexWordsAppend` | main.py:84 | selecting the complex words of a concatenation is concatenating the two selections, so the text's order is kept |
| `Readability.WordsPerSentence` | main.py:78 | the average is at least 0, is 0 when there is no sentence, and otherwise multiplied by the sentence count gives the word count |
| `Readability.ComplexFraction` | main.py:85 | the fraction lies in [0, 1], is 0 for no words, and otherwise multiplied by the word count gives the number of complex words |
| `Readability.CalculateTextMetrics` | main.py:72-91 | average sentence length equals average words per sentence; both are 0 with no sentences; percentage of complex words is in [0, 1] and 0 with no words; Fog index is 0.4 x (average sentence length + percentage), between 0.4 x average and 0.4 x average + 0.4 |
| `Readability.AllComplex` | main.py:84-85 | for a non-empty text the percentage is 1 exactly when every word is complex |
| `Readability.NoneComplex` | main.py:84-85 | the percentage is 0 exactly when no word is complex |
| `UrlAnalysis.CleanText` | main.py:51-60 | the cleaned tokens contain no stopword |
| `UrlAnalysis.AnalyzeContent` | main.py:108-126 | a report row carries its record's id and URL; its counts, polarity, subjectivity and four text metrics are those of the record's own cleaned tokens; its counts are at most the number of those tokens; polarity is in (-1, 1) and 0 exactly when the counts are equal; subjectivity is in [0, 2) and 0 exactly when both counts are 0; the average sentence length is at least 0 and equals the average words per sentence; the percentage is in [0, 1]; the Fog index is 0.4 x (average + percentage) and at least 0 |
| `UrlAnalysis.Report` | main.py:100-126 | the report has at most one row per input row |
| `UrlAnalysis.AnalyzeUrls` | main.py:93-128 | no rows when any input is missing; otherwise exactly `Report` of the rows, built by the loop that skips empty fetches and appends one record per remaining row |
| `UrlAnalysis.ReportIsFetchedRows` | main.py:100-126 | the report is, in input order, the analysis of each row whose fetch returned text; it has one row per such input row |
| `UrlAnalysis.ReportRowOrigin` | main.py:100-126 | every report row comes from an input row whose fetch succeeded and carries that row's URL_ID and URL; its counts, polarity, subjectivity and the four text metrics are those of that row's own cleaned text |
| `UrlAnalysis.ReportAppend` | main.py:100-106 | the report over two consecutive stretches of rows is the two reports joined: rows are processed independently and in order |
| `UrlAnalysis.FailedFetchIsSkipped` | main.py:104-106 | a row whose fetch returned "" adds nothing, and the rows after it are still reported |
| `UrlAnalysis.ReportSize` | main.py:100-126 | if every fetch fails the report is empty; if every fetch succeeds it has one row per input row |
| `UrlAnalysis.EmptyTextScoresZero` | main.py:108-113 | the row built for a page whose cleaned text is empty has both counts, both scores, the average, the percentage and the Fog index all 0 |

## Left out

- `read_input_data` (main.py:14-38): reading the spreadsheet and the keyword files is I/O. The driver only sees its result, each part possibly `None`. The `URL_ID` cell is modelled as a string.
- Rows are assumed to have both `URL_ID` and `URL` columns. A missing column makes main.py:101-102 raise `KeyError`, which ends the run; that path is not modelled.
- `fetch_webpage_content` (main.py:40-49): the HTTP request and the status-200 check. It is an abstract function from URL to text, and `""` stands for any failure.
- Tag stripping, the `\w` regular expression, lower-casing and `word_tokenize` in `clean_text` (main.py:52-57): foreign library code. They are one abstract function from page text to tokens. Only the stopword step (main.py:58) is modelled.
- `sent_tokenize` on the joined tokens (main.py:73), and the downloads of the tokenizer and stopword data (main.py:9-12): foreign code and data. The sentence count is an abstract function of the cleaned tokens.
- Floating-point rounding: all scores and metrics are exact reals. The source divides Python ints, producing floats, and uses the int `0` in the guarded branches. Both become the real value here.
- The error messages printed on missing input and fetch failures (main.py:19, 27, 35, 48, 97): console output.
- Building the pandas `DataFrame` (main.py:98, 128) and the module-level script (main.py:130-138): output plumbing. The report is a sequence of records with the same ten columns.
