# EduRAG evaluation metrics in Dafny

This project models the metric layer of EduRAG's evaluation harness. The harness scores a
retrieval-augmented question-answering system for school physics. The model covers:

- **Retrieval metrics.** Mean Reciprocal Rank, Hit@k and Precision@k over a ranked list of
  retrieved records. A record is a dictionary, and its relevance flag is read with
  `record.get(key, False)` and Python truthiness.
- **Heuristic generation metrics.**
  - Faithfulness: the share of significant response words found in the joined, lower-cased
    context.
  - Relevancy: the share of query key terms found in the response, scaled by a length
    penalty.
  - The whitespace word count of the response.
- **Evaluation report.** The per-query record of metric values, and the averages of the
  strictly positive values across records.
- **Test data.** The fifteen test queries, with lookup by identifier and filtering by
  category, and the table of reference answers with its two accessors.

Modules, one per file:

- `Wrappers`: `Option`.
- `Text`: Python's `lower`, `re.findall(r'\b\w+\b')`, `split()`, `" ".join` and substring
  `in`.
- `Retrieval`, `Generation`, `Report`: `tests/evaluation_metrics.py`.
- `Queries`: `tests/test_queries.py`.
- `References`: `tests/reference_answers.py`.

Metric values are exact rationals (`real`). The four loops of the source are methods proved
against specification functions: `CalculateMrr`, `CalculateHitAtK` and `GetQueryById`
scan with early return, and `AggregateResults` fills its dictionary metric by metric.

Points of the code that are easy to misread:

- Precision@k divides by the number of records actually inspected, `len(results[:k])`,
  not by k.
- A negative k slices from the end of the list. When the slice is empty but the list is not,
  the division raises `ZeroDivisionError`; the model returns that error value.
- The relevancy stop words are a separate set, not the faithfulness stop words plus question
  words. The relevancy set lacks `have`, `do`, `will`, `this` and the other auxiliaries and
  demonstratives of the faithfulness set.

## Model

| member | source | states |
|---|---|---|
| Text.IsWordChar | tests/evaluation_metrics.py:221 | plain definition of `\w` on ASCII: letters, digits and the underscore |
| Text.IsSpace | tests/evaluation_metrics.py:286 | plain definition of the characters `str.split()` separates on, Python's `str.isspace()` set |
| Text.Lower | tests/evaluation_metrics.py:211 | `str.lower()` on one character: capitals become small letters, everything else is unchanged, and word characters stay word characters |
| Text.LowerString | tests/evaluation_metrics.py:211-212 | lower-casing keeps the length and maps each character on its own |
| Text.LowerStringAppend | tests/evaluation_metrics.py:212 | lower-casing a concatenation is concatenating the lower-cased parts |
| Text.Join | tests/evaluation_metrics.py:212 | `" ".join(parts)`: plain definition, empty for no parts; its behaviour is stated by Text.JoinSnoc |
| Text.JoinSnoc | tests/evaluation_metrics.py:212 | joining one more passage appends a single space and the passage |
| Text.JoinAppend | tests/evaluation_metrics.py:212 | joining two non-empty lists of parts is joining each and putting one space between |
| Text.Contains | tests/evaluation_metrics.py:228 | substring `in`: plain definition, characterised by Text.ContainsAt |
| Text.ContainsAt | tests/evaluation_metrics.py:228 | the substring test holds exactly when the word occurs at some offset |
| Text.ContainsAppend | tests/evaluation_metrics.py:228 | an occurrence survives text appended after it |
| Text.ContainsPrepend | tests/evaluation_metrics.py:228 | an occurrence survives text prepended before it |
| Text.RunLength | tests/evaluation_metrics.py:221 | the leading run has only characters of the class and stops at the first character outside it |
| Text.Runs | tests/evaluation_metrics.py:221 | every token is a non-empty run of characters of the class, and there are no more tokens than characters |
| Text.FindWords | tests/evaluation_metrics.py:221 | `re.findall(r'\b\w+\b', s)`: every token is a non-empty run of word characters |
| Text.SplitWhitespace | tests/evaluation_metrics.py:286 | `s.split()`: every field is non-empty and free of whitespace |
| Text.RunsSplit | tests/evaluation_metrics.py:286 | a separator character splits the tokens into the tokens before it followed by those after it |
| Text.RunsNone | tests/evaluation_metrics.py:286 | a text without characters of the class has no tokens |
| Text.RunsAll | tests/evaluation_metrics.py:286 | a non-empty text made only of characters of the class is one token |
| Text.LowerAll | tests/evaluation_metrics.py:254 | lower-cases each part and keeps their number |
| Text.FindWordsLowerJoin | tests/evaluation_metrics.py:254-264 | words of word characters joined by single spaces are tokenised back into exactly those words, lower-cased, in order |
| Text.FindWordsLowerJoinThen | tests/evaluation_metrics.py:254-264 | a trailing punctuation mark adds no token |
| Retrieval.Truthy | tests/evaluation_metrics.py:31 | plain definition of Python truthiness of a record value: `False`, zero, `""` and `None` are false |
| Retrieval.IsRelevant | tests/evaluation_metrics.py:31 | `result.get(relevant_key, False)` as used at lines 31, 51 and 73: a missing key means not relevant, `True` means relevant, and a falsy stored value means not relevant |
| Retrieval.FirstRelevant | tests/evaluation_metrics.py:30-31 | the found position holds a relevant record and none before it does; None means no record is relevant |
| Retrieval.ReciprocalRank | tests/evaluation_metrics.py:30-33 | plain definition of the value `calculate_mrr` returns, specifying Retrieval.CalculateMrr; its properties are the lemmas below |
| Retrieval.CalculateMrr | tests/evaluation_metrics.py:30-33 | the loop returns 1/rank of the first relevant record, or 0.0 when none is relevant |
| Retrieval.ReciprocalRankOfFirstHit | tests/evaluation_metrics.py:30-32 | when the first relevant record has rank r, the reciprocal rank is exactly 1/r |
| Retrieval.ReciprocalRankZero | tests/evaluation_metrics.py:33 | the reciprocal rank is 0 if and only if no record is relevant |
| Retrieval.ReciprocalRankRange | tests/evaluation_metrics.py:30-33 | the reciprocal rank is 0 or 1/r for a rank r within the list, so it lies in [0, 1] |
| Retrieval.MrrSecondOfThree | tests/test_retrieval.py:57-67 | [not relevant, relevant, not relevant] has reciprocal rank 0.5 |
| Retrieval.SliceEnd | tests/evaluation_metrics.py:49 | the length of `results[:k]`: never more than the list; k itself for 0 <= k <= n; the whole list for k >= n; a negative k always drops a record of a non-empty list; and empty exactly when the list is empty, k is 0, or a negative k reaches past the start |
| Retrieval.SliceEndMonotone | tests/evaluation_metrics.py:49 | for 0 <= k1 <= k2 the slice `results[:k1]` is no longer than `results[:k2]` |
| Retrieval.SliceEndNegative | tests/evaluation_metrics.py:49 | a negative k drops exactly -k records from the end when the list has that many |
| Retrieval.HitAtK | tests/evaluation_metrics.py:49-53 | plain definition of the value `calculate_hit_at_k` returns, specifying Retrieval.CalculateHitAtK |
| Retrieval.CalculateHitAtK | tests/evaluation_metrics.py:49-53 | the loop returns 1.0 exactly when a record of `results[:k]` is relevant |
| Retrieval.HitIffFirstRelevantWithin | tests/evaluation_metrics.py:49-53 | a hit in the top k is the same as the first relevant record lying within `results[:k]` |
| Retrieval.HitAtKMonotone | tests/evaluation_metrics.py:49-53 | for 0 <= k1 <= k2, Hit@k1 <= Hit@k2 |
| Retrieval.HitAtKBeyondLength | tests/evaluation_metrics.py:49 | with k at or past the list length, Hit@k is 1.0 if and only if some record is relevant |
| Retrieval.HitAtKIffReciprocalRank | tests/evaluation_metrics.py:30-33 | for k >= 1, Hit@k is 1.0 if and only if the reciprocal rank is at least 1/k |
| Retrieval.HitAtKThirdOfFour | tests/test_retrieval.py:79-92 | with the only relevant record third of four, Hit@5 is 1.0 and Hit@2 is 0.0 |
| Retrieval.CountRelevant | tests/evaluation_metrics.py:73 | the count is at most the length; it is 0 if and only if nothing is relevant, and the full length if and only if everything is |
| Retrieval.PrecisionAtK | tests/evaluation_metrics.py:69-74 | 0.0 for an empty list or k = 0; otherwise relevant count / records inspected, which lies in [0, 1]; division by zero exactly when a negative k empties the slice of a non-empty list |
| Retrieval.PrecisionPositiveIffHit | tests/evaluation_metrics.py:69-74 | for k >= 0 Precision@k never fails, and it is positive if and only if Hit@k is 1.0 |
| Retrieval.PrecisionAllRelevant | tests/evaluation_metrics.py:72-74 | with every inspected record relevant, Precision@k is 1.0 |
| Retrieval.PrecisionThreeOfFive | tests/test_retrieval.py:94-105 | three relevant records out of five give 0.6 |
| Generation.IsContentWord | tests/evaluation_metrics.py:221-222 | plain definition of the filter condition of lines 222 and 264: not a stop word and longer than three characters |
| Generation.ContentWords | tests/evaluation_metrics.py:221-222 | keeps exactly the words that are neither stop words nor three characters or shorter |
| Generation.ContentWordsAppend | tests/evaluation_metrics.py:221-222 | the filter keeps order and repeated words: filtering a concatenation is concatenating the filtered parts |
| Generation.CountContained | tests/evaluation_metrics.py:228 | counts at most every word, and counts them all if and only if every word occurs in the text |
| Generation.CountContainedAppend | tests/evaluation_metrics.py:228 | repeated words are each counted: counts add up over a concatenation |
| Generation.CountContainedMonotone | tests/evaluation_metrics.py:228 | a text containing every word the other contains counts at least as many |
| Generation.AtMostOne | tests/evaluation_metrics.py:231 | `min(x, 1.0)`: at most 1.0 and at most x, and equal to one of them |
| Generation.ResponseContentWords | tests/evaluation_metrics.py:211-222 | plain definition: the significant words (lines 221-222) of the lower-cased response (line 211) |
| Generation.GroundingText | tests/evaluation_metrics.py:212 | plain definition: the lower-cased, space-joined context |
| Generation.Faithfulness | tests/evaluation_metrics.py:207-231 | the score lies in [0, 1], and it is 0.0 for an empty response or an empty context |
| Generation.FaithfulnessNeutral | tests/evaluation_metrics.py:224-225 | a response without significant words scores 0.5 |
| Generation.FaithfulnessIsGroundedFraction | tests/evaluation_metrics.py:228-231 | otherwise the score is exactly grounded words / significant words, because the clamp never bites |
| Generation.FaithfulnessFullyGrounded | tests/evaluation_metrics.py:228-231 | when every significant word occurs in the joined context, the score is 1.0 |
| Generation.GroundingTextGrows | tests/evaluation_metrics.py:212 | a word found in the joined context is still found after a passage is appended |
| Generation.FaithfulnessContextMonotone | tests/evaluation_metrics.py:207-231 | appending a context passage never lowers the faithfulness score |
| Generation.QueryTerms | tests/evaluation_metrics.py:254-264 | plain definition: the key terms (lines 263-264) of the lower-cased query (line 254) |
| Generation.LengthPenalty | tests/evaluation_metrics.py:274-278 | the penalty is 0.7 exactly below 50 characters, 0.9 exactly above 1000, and 1.0 exactly from 50 to 1000 |
| Generation.Relevancy | tests/evaluation_metrics.py:251-281 | the score lies in [0, 1]; it is 0.0 for an empty query or response, and at most 0.7 for a response under 50 characters |
| Generation.RelevancyNeutral | tests/evaluation_metrics.py:266-267 | a query without key terms scores 0.5 |
| Generation.RelevancyIsPenalisedFraction | tests/evaluation_metrics.py:270-281 | otherwise the score is exactly matched terms / key terms times the length penalty |
| Generation.RelevancyAllTermsMatched | tests/evaluation_metrics.py:270-281 | a response containing every key term scores exactly its length penalty |
| Generation.CapitalQueryTerms | tests/test_generation.py:69-72 | the query's words joined by spaces and followed by "?", which Generation.CapitalQuerySentence shows is the literal query, have the key terms capital and france |
| Generation.CapitalQueryLowered | tests/test_generation.py:71 | the query's words lower-case to what, is, the, capital, of, france |
| Generation.CapitalContentWords | tests/evaluation_metrics.py:257-264 | of those words only capital and france survive the relevancy filter |
| Generation.CapitalResponseMatches | tests/test_generation.py:72 | the lower-cased response "The capital of France is Paris." contains both key terms |
| Generation.CapitalQuerySentence | tests/test_generation.py:71 | the query's six words joined by spaces, followed by "?", are the test's literal query |
| Generation.RelevancyCapitalOfFrance | tests/test_generation.py:69-76 | the unit test's query and response score exactly 0.7: every term matched, with the penalty for a response under 50 characters |
| Generation.ResponseLength | tests/evaluation_metrics.py:284-286 | the word count is at most the number of characters |
| Generation.ResponseLengthBlank | tests/evaluation_metrics.py:286 | empty or whitespace-only text has 0 words |
| Generation.ResponseLengthSplit | tests/evaluation_metrics.py:286 | the word counts of two texts joined by a whitespace character add up |
| Generation.ResponseLengthOneWord | tests/evaluation_metrics.py:286 | a non-empty run without whitespace is one word |
| Generation.ResponseLengthJoin | tests/evaluation_metrics.py:286 | non-empty, whitespace-free words joined by spaces count one word each |
| Generation.ResponseLengthTenWords | tests/test_generation.py:89-95 | the unit test's sentence, as written in the test, has 10 words |
| Generation.TenWordsSentence | tests/test_generation.py:91 | the ten words joined by spaces are the test's literal sentence |
| Report.Name | tests/evaluation_metrics.py:310-329 | plain definition of the dictionary key each metric is stored under |
| Report.NameInjective | tests/evaluation_metrics.py:310-330 | distinct metrics are stored under distinct dictionary keys |
| Report.SingleQueryRecord | tests/evaluation_metrics.py:310-331 | plain definition of the record `evaluate_single_query` returns, specifying Report.EvaluateSingleQuery; its properties are the SingleQueryRecord lemmas |
| Report.ScoreOrZero | tests/evaluation_metrics.py:320-329 | plain definition of the scorers' zero fallback: the adapters return 0.0 on a failure (lines 104-117, 143-156, 182-187), and `.get(..., 0.0)` reads it |
| Report.HasReference | tests/evaluation_metrics.py:320 | plain definition of the truthiness of `reference`: given and non-empty |
| Report.CoreRecord | tests/evaluation_metrics.py:310-317 | the core record has exactly the six core keys, holding the given values |
| Report.WithAdvanced | tests/evaluation_metrics.py:320-329 | merging adds exactly the three advanced keys, with failed scorers recorded as 0.0, and keeps the core entries |
| Report.EvaluateSingleQuery | tests/evaluation_metrics.py:310-331 | the method builds the record of the specification function `SingleQueryRecord` |
| Report.SingleQueryRecordKeys | tests/evaluation_metrics.py:310-331 | the keys are the six core ones, plus the three advanced ones exactly when they were requested and the reference is non-empty |
| Report.SingleQueryRecordCore | tests/evaluation_metrics.py:310-317 | the core entries are MRR, Hit@10, Hit@5, faithfulness, relevancy and word count of the inputs, whatever the advanced options |
| Report.SingleQueryRecordBounds | tests/evaluation_metrics.py:310-317 | the ratio metrics lie in [0, 1], hit@5 <= hit@10, and the word count is non-negative |
| Report.SingleQueryRecordFailedScorer | tests/evaluation_metrics.py:320-329 | with a non-empty reference and advanced metrics requested, each of BERTScore, ROUGE-L and BLEU records 0.0 when its scorer failed and the delivered value otherwise |
| Report.PositiveValues | tests/evaluation_metrics.py:354 | the kept values are all strictly positive, and there are no more of them than records |
| Report.PositiveValuesAppend | tests/evaluation_metrics.py:354 | values are collected record by record, in order and with repetitions: collecting over a concatenation concatenates the collected parts |
| Report.PositiveValuesMembers | tests/evaluation_metrics.py:354 | every strictly positive recorded value is kept, and every kept value is one recorded for the metric |
| Report.TrackedMetrics | tests/evaluation_metrics.py:345-349 | plain definition: the six core metrics, then the three advanced ones when the first record has bertscore_f1 |
| Report.Mean | tests/evaluation_metrics.py:356 | `np.mean` over exact reals: the mean times the number of values is their sum |
| Report.AggregateResults | tests/evaluation_metrics.py:341-359 | {} for no records; an average exactly for the tracked metrics that have a strictly positive value, each the mean of exactly those values; advanced metrics are tracked only when the first record has bertscore_f1 |
| Report.Sum | tests/evaluation_metrics.py:356 | plain definition of the sum inside `np.mean`; Report.Mean, Report.SumBounds and Report.SumPositive state its properties |
| Report.SumBounds | tests/evaluation_metrics.py:356 | n values within [lo, hi] sum to a value within [n * lo, n * hi] |
| Report.MeanWithinBounds | tests/evaluation_metrics.py:356 | a mean lies between any lower and upper bound of the values |
| Report.SumPositive | tests/evaluation_metrics.py:356 | strictly positive values have a strictly positive sum |
| Report.AverageOfPositiveValues | tests/evaluation_metrics.py:354-356 | each reported average is strictly positive and lies between the smallest and largest positive value of the metric |
| Report.PositiveValuesSkipNonPositive | tests/evaluation_metrics.py:354 | a record with the metric missing, zero or negative does not change what is averaged |
| Queries.Ids | tests/test_queries.py:7-98 | lists the identifiers of the entries, in order |
| Queries.TestQueryIds | tests/test_queries.py:7-98 | the dataset's identifiers are Q1 to Q15, in order |
| Queries.QueryIdNumbers | tests/test_queries.py:7-98 | identifier i reads as the number i + 1 |
| Queries.TestQueryNumbers | tests/test_queries.py:7-98 | entry i of the dataset has the number i + 1 |
| Queries.TestQueryIdsDistinct | tests/test_queries.py:7-98 | no two test queries share an identifier |
| Queries.GetTestQueries | tests/test_queries.py:100-102 | the table has 15 entries with distinct identifiers |
| Queries.FirstWithId | tests/test_queries.py:104-109 | None if and only if no entry has the identifier; otherwise an entry with that identifier that no earlier entry shares |
| Queries.GetQueryById | tests/test_queries.py:104-109 | the loop returns the first entry with the identifier, or None |
| Queries.FirstWithIdFindsEntry | tests/test_queries.py:104-109 | with distinct identifiers, looking up an entry's identifier finds that entry |
| Queries.QueryByIdRoundTrip | tests/test_queries.py:7-109 | every test query is found by its own identifier |
| Queries.InCategory | tests/test_queries.py:113 | keeps exactly the entries of the category, each taken from the list |
| Queries.InCategoryAppend | tests/test_queries.py:113 | filtering keeps list order: filtering a concatenation concatenates the filtered parts |
| Queries.GetQueriesByCategory | tests/test_queries.py:111-113 | exactly the test queries of the category |
| Queries.InCategoryNone | tests/test_queries.py:113 | filtering on a category no entry has selects nothing |
| Queries.UnknownCategoryIsEmpty | tests/test_queries.py:111-113 | a category no test query has gives the empty list |
| References.AnswerText | tests/reference_answers.py:6-107 | every stored answer is non-empty |
| References.AnswersQ1ToQ5 | tests/reference_answers.py:7-39 | the answers to Q1 to Q5 are non-empty |
| References.AnswersQ6ToQ10 | tests/reference_answers.py:40-74 | the answers to Q6 to Q10 are non-empty |
| References.AnswersQ11ToQ15 | tests/reference_answers.py:75-106 | the answers to Q11 to Q15 are non-empty |
| References.StoredAnswer | tests/reference_answers.py:6-107 | a key of the table is one of the fifteen identifiers, and its value is its non-empty answer |
| References.HasReferenceAnswer | tests/reference_answers.py:113-115 | an identifier is a key of the table if and only if it is one of the fifteen stored identifiers |
| References.GetReferenceAnswer | tests/reference_answers.py:109-111 | the stored answer for a present key and "" for an absent one, so the result is non-empty if and only if the key has an answer |
| References.HasReferenceAnswerIds | tests/reference_answers.py:113-115 | an identifier has a reference answer if and only if it is one of Q1 to Q15 |
| References.EveryTestQueryHasReference | tests/reference_answers.py:113-115 | every test query has a reference answer |
| References.TestQueryRecordHasAllMetrics | run_evaluation.py:77-87 | evaluating a test query with advanced metrics and its reference answer gives a record with all nine metrics |

## Left out

- `calculate_bertscore`, `calculate_rouge_l` and `calculate_bleu_score` wrap third-party
  libraries that are not part of this model. Their results enter `Report.SingleQueryRecord`
  as parameters (`AdvancedScores`). A failed scorer is `Unavailable` and is recorded as
  0.0, as the adapters do.
- Report.AggregateResults: does not produce the `std_<metric>` entries. The standard
  deviation needs a square root over floats.
- Report.AggregateResults: keys the averages by `Metric` rather than by the string
  `"avg_" + name`. `Report.NameInjective` shows that the two keyings correspond one to one.
- Report.EvaluateSingleQuery: stores `response_length` as the equal `real` instead of an
  `int`. Its records also range over the nine known metrics, not over arbitrary string keys.
- Text.Lower and Text.IsWordChar: cover ASCII only. Python's Unicode case mapping and
  Unicode `\w` also affect non-ASCII letters, and are not modelled.
- Floating-point rounding is not modelled: all ratios and means are exact rationals.
  `np.mean` is modelled as the exact mean.
- Generation.Relevancy: its bounds and values hold for exact arithmetic only. In floats,
  `relevancy_score * length_penalty` is rounded again, and 0.7 is not a double: 3 of 4
  terms matched in a short response gives 0.5249999999999999, not 21/40.
- Report.AverageOfPositiveValues: the bounds hold for the exact mean only. A float mean can
  leave them: the float mean of `[0.1, 0.1, 0.1]`, summed left to right, is
  0.10000000000000002, above the largest value.
- `print_evaluation_table` and `print_advanced_metrics_table` are console output.
- `run_evaluation.py` and the model-backed tests call an external retrieval and language-model
  backend, which is not part of this model. Only the record-shape consequence of how
  `run_evaluation.py` passes the reference answer is stated, in
  `References.TestQueryRecordHasAllMetrics`.
- The query and answer texts are written as concatenations of short pieces. The pieces join
  to exactly the texts of the tables.
- The faithfulness unit tests only bound their scores loosely (above or below 0.5) and have no
  lemma of their own; Generation.FaithfulnessIsGroundedFraction and
  Generation.FaithfulnessFullyGrounded state the general facts.
