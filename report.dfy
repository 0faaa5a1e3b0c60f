/**
 * EvaluationReport (tests/evaluation_metrics.py), non-printing part: the
 * per-query evaluation record and the aggregation of records into averages.
 * A record is a map from metric name to value; `response_length`, an int in
 * Python, is stored as the equal real.
 */
module Report {
  import opened Wrappers
  import opened Retrieval
  import opened Generation
  import opened Ratios

  /** The metric names a record can hold. */
  datatype Metric =
    | Mrr | HitAt10 | HitAt5 | FaithfulnessScore | RelevancyScore | ResponseLengthWords
    | BertscoreF1 | RougeLF1 | Bleu

  /** The dictionary key each metric is stored under. */
  function Name(m: Metric): string {
    match m
    case Mrr => "mrr"
    case HitAt10 => "hit@10"
    case HitAt5 => "hit@5"
    case FaithfulnessScore => "faithfulness"
    case RelevancyScore => "relevancy"
    case ResponseLengthWords => "response_length"
    case BertscoreF1 => "bertscore_f1"
    case RougeLF1 => "rouge_l_f1"
    case Bleu => "bleu"
  }

  /** Distinct metrics are stored under distinct keys, so a record keyed by `Metric`
      is the Python dictionary keyed by `Name`. */
  lemma NameInjective(m1: Metric, m2: Metric)
    requires Name(m1) == Name(m2)
    ensures m1 == m2
  {
  }

  /** One evaluation record: metric to value. */
  type EvaluationRecord = map<Metric, real>

  /** What one optional external scorer (BERTScore, ROUGE-L, BLEU) delivered: a score,
      or the missing library or runtime failure that its adapter catches. */
  datatype ExternalScore = Scored(value: real) | Unavailable

  /** The adapters turn every failure into 0.0. */
  function ScoreOrZero(s: ExternalScore): real {
    match s
    case Scored(v) => v
    case Unavailable => 0.0
  }

  /** The F1 values the three external scorers give for this response and reference. */
  datatype AdvancedScores = AdvancedScores(bertscoreF1: ExternalScore, rougeLF1: ExternalScore, bleu: ExternalScore)

  const CoreMetrics: seq<Metric> := [Mrr, HitAt10, HitAt5, FaithfulnessScore, RelevancyScore, ResponseLengthWords]
  const AdvancedMetrics: seq<Metric> := [BertscoreF1, RougeLF1, Bleu]

  /** The metrics of a record that are ratios in [0, 1]. */
  const RatioMetrics: set<Metric> := {Mrr, HitAt10, HitAt5, FaithfulnessScore, RelevancyScore}

  /** Python truthiness of the optional `reference` argument: given and non-empty. */
  predicate HasReference(reference: Option<string>) {
    reference.Some? && reference.value != ""
  }

  /** The key set of a record, with or without the advanced metrics. */
  function RecordKeys(advanced: bool): set<Metric> {
    {Mrr, HitAt10, HitAt5, FaithfulnessScore, RelevancyScore, ResponseLengthWords}
      + (if advanced then {BertscoreF1, RougeLF1, Bleu} else {})
  }

  /** The six core entries of a record. */
  function CoreRecord(mrr: real, hit10: real, hit5: real, faithfulness: real, relevancy: real,
                      length: real): (r: EvaluationRecord)
    ensures r.Keys == RecordKeys(false)
    ensures r[Mrr] == mrr && r[HitAt10] == hit10 && r[HitAt5] == hit5
    ensures r[FaithfulnessScore] == faithfulness && r[RelevancyScore] == relevancy
    ensures r[ResponseLengthWords] == length
  {
    map[Mrr := mrr, HitAt10 := hit10, HitAt5 := hit5, FaithfulnessScore := faithfulness,
        RelevancyScore := relevancy, ResponseLengthWords := length]
  }

  /** A core record with the three advanced entries merged in. */
  function WithAdvanced(core: EvaluationRecord, scores: AdvancedScores): (r: EvaluationRecord)
    ensures r.Keys == core.Keys + {BertscoreF1, RougeLF1, Bleu}
    ensures forall m | m in core && m !in {BertscoreF1, RougeLF1, Bleu} :: r[m] == core[m]
    ensures r[BertscoreF1] == ScoreOrZero(scores.bertscoreF1)
    ensures r[RougeLF1] == ScoreOrZero(scores.rougeLF1)
    ensures r[Bleu] == ScoreOrZero(scores.bleu)
  {
    core[BertscoreF1 := ScoreOrZero(scores.bertscoreF1)]
        [RougeLF1 := ScoreOrZero(scores.rougeLF1)]
        [Bleu := ScoreOrZero(scores.bleu)]
  }

  /** The record `evaluate_single_query` returns: the six core metrics, the retrieval ones
      read from the default `is_relevant` field, and the three advanced ones only when asked
      for and a non-empty reference is given. */
  function SingleQueryRecord(query: string, response: string, context: seq<string>,
                             retrievedDocs: seq<Record>, reference: Option<string>,
                             includeAdvanced: bool, scores: AdvancedScores): EvaluationRecord
  {
    var core := CoreRecord(
      ReciprocalRank(retrievedDocs, DefaultRelevantKey),
      HitAtK(retrievedDocs, 10, DefaultRelevantKey),
      HitAtK(retrievedDocs, 5, DefaultRelevantKey),
      Faithfulness(response, context),
      Relevancy(query, response),
      ResponseLength(response) as real);
    if includeAdvanced && HasReference(reference) then WithAdvanced(core, scores) else core
  }

  /** `evaluate_single_query`: compute the core metrics, then merge in the advanced ones. */
  method EvaluateSingleQuery(query: string, response: string, context: seq<string>,
                             retrievedDocs: seq<Record>, reference: Option<string>,
                             includeAdvanced: bool, scores: AdvancedScores)
    returns (results: EvaluationRecord)
    ensures results == SingleQueryRecord(query, response, context, retrievedDocs, reference, includeAdvanced, scores)
  {
    var mrr := CalculateMrr(retrievedDocs, DefaultRelevantKey);
    var hit10 := CalculateHitAtK(retrievedDocs, 10, DefaultRelevantKey);
    var hit5 := CalculateHitAtK(retrievedDocs, 5, DefaultRelevantKey);
    results := map[
      Mrr := mrr,
      HitAt10 := hit10,
      HitAt5 := hit5,
      FaithfulnessScore := Faithfulness(response, context),
      RelevancyScore := Relevancy(query, response),
      ResponseLengthWords := ResponseLength(response) as real];
    if includeAdvanced && HasReference(reference) {
      results := results[BertscoreF1 := ScoreOrZero(scores.bertscoreF1)];
      results := results[RougeLF1 := ScoreOrZero(scores.rougeLF1)];
      results := results[Bleu := ScoreOrZero(scores.bleu)];
    }
  }

  /** Every record has exactly the six core keys, plus the three advanced keys exactly when
      advanced metrics were requested and a non-empty reference was given. */
  lemma SingleQueryRecordKeys(query: string, response: string, context: seq<string>,
                              retrievedDocs: seq<Record>, reference: Option<string>,
                              includeAdvanced: bool, scores: AdvancedScores)
    ensures SingleQueryRecord(query, response, context, retrievedDocs, reference, includeAdvanced, scores).Keys
      == RecordKeys(includeAdvanced && HasReference(reference))
  {
  }

  /** The core entries of a record are the metric functions of the query, response,
      context and retrieved documents, whatever the advanced options. */
  lemma SingleQueryRecordCore(query: string, response: string, context: seq<string>,
                              retrievedDocs: seq<Record>, reference: Option<string>,
                              includeAdvanced: bool, scores: AdvancedScores)
    ensures var r := SingleQueryRecord(query, response, context, retrievedDocs, reference, includeAdvanced, scores);
      && r[Mrr] == ReciprocalRank(retrievedDocs, DefaultRelevantKey)
      && r[HitAt10] == HitAtK(retrievedDocs, 10, DefaultRelevantKey)
      && r[HitAt5] == HitAtK(retrievedDocs, 5, DefaultRelevantKey)
      && r[FaithfulnessScore] == Faithfulness(response, context)
      && r[RelevancyScore] == Relevancy(query, response)
      && r[ResponseLengthWords] == ResponseLength(response) as real
  {
  }

  /** The ratio metrics of a record lie in [0, 1], the word count is non-negative, and
      hit@5 never exceeds hit@10. */
  lemma SingleQueryRecordBounds(query: string, response: string, context: seq<string>,
                                retrievedDocs: seq<Record>, reference: Option<string>,
                                includeAdvanced: bool, scores: AdvancedScores)
    ensures var r := SingleQueryRecord(query, response, context, retrievedDocs, reference, includeAdvanced, scores);
      && (forall m | m in RatioMetrics :: 0.0 <= r[m] <= 1.0)
      && r[HitAt5] <= r[HitAt10]
      && r[ResponseLengthWords] >= 0.0
  {
    var r := SingleQueryRecord(query, response, context, retrievedDocs, reference, includeAdvanced, scores);
    SingleQueryRecordCore(query, response, context, retrievedDocs, reference, includeAdvanced, scores);
    assert 0.0 <= r[Mrr] <= 1.0 by {
      ReciprocalRankRange(retrievedDocs, DefaultRelevantKey);
    }
    assert r[HitAt5] <= r[HitAt10] by {
      HitAtKMonotone(retrievedDocs, 5, 10, DefaultRelevantKey);
    }
    forall m | m in RatioMetrics ensures 0.0 <= r[m] <= 1.0 {
      assert m == Mrr || m == HitAt10 || m == HitAt5 || m == FaithfulnessScore || m == RelevancyScore;
    }
  }

  /** An advanced metric whose scorer failed is recorded as 0.0, indistinguishable from a
      genuine zero score; a scorer that delivered records its value. */
  lemma SingleQueryRecordFailedScorer(query: string, response: string, context: seq<string>,
                                      retrievedDocs: seq<Record>, reference: Option<string>,
                                      scores: AdvancedScores)
    requires HasReference(reference)
    ensures var r := SingleQueryRecord(query, response, context, retrievedDocs, reference, true, scores);
      && (scores.bertscoreF1 == Unavailable ==> r[BertscoreF1] == 0.0)
      && (scores.rougeLF1 == Unavailable ==> r[RougeLF1] == 0.0)
      && (scores.bleu == Unavailable ==> r[Bleu] == 0.0)
      && (scores.bertscoreF1.Scored? ==> r[BertscoreF1] == scores.bertscoreF1.value)
      && (scores.rougeLF1.Scored? ==> r[RougeLF1] == scores.rougeLF1.value)
      && (scores.bleu.Scored? ==> r[Bleu] == scores.bleu.value)
  {
  }

  // ---------------------------------------------------------------------------
  // Aggregation

  /** `[r[metric] for r in results if metric in r and r[metric] > 0]`. */
  function PositiveValues(results: seq<EvaluationRecord>, metric: Metric): (values: seq<real>)
    ensures |values| <= |results|
    ensures forall i | 0 <= i < |values| :: values[i] > 0.0
  {
    if results == [] then []
    else
      var rest := PositiveValues(results[1..], metric);
      if metric in results[0] && results[0][metric] > 0.0 then [results[0][metric]] + rest else rest
  }

  /** The values kept are exactly the strictly positive values recorded for the metric. */
  lemma {:induction false} PositiveValuesMembers(results: seq<EvaluationRecord>, metric: Metric)
    ensures forall i | 0 <= i < |results| && metric in results[i] && results[i][metric] > 0.0 ::
      results[i][metric] in PositiveValues(results, metric)
    ensures forall v | v in PositiveValues(results, metric) ::
      exists j | 0 <= j < |results| :: metric in results[j] && results[j][metric] == v
  {
    if results != [] {
      PositiveValuesMembers(results[1..], metric);
      forall v | v in PositiveValues(results[1..], metric)
        ensures exists j | 0 <= j < |results| :: metric in results[j] && results[j][metric] == v
      {
        var j :| 0 <= j < |results[1..]| && metric in results[1..][j] && results[1..][j][metric] == v;
        assert results[j + 1] == results[1..][j];
      }
      forall i | 1 <= i < |results| && metric in results[i] && results[i][metric] > 0.0
        ensures results[i][metric] in PositiveValues(results, metric)
      {
        assert results[i] == results[1..][i - 1];
      }
    }
  }

  /** The values are collected record by record, in order and with repetitions:
      collecting over a concatenation is concatenating the collected parts. */
  lemma {:induction false} PositiveValuesAppend(a: seq<EvaluationRecord>, b: seq<EvaluationRecord>, metric: Metric)
    ensures PositiveValues(a + b, metric) == PositiveValues(a, metric) + PositiveValues(b, metric)
  {
    if a == [] {
      assert a + b == b;
    } else {
      assert (a + b)[0] == a[0];
      assert (a + b)[1..] == a[1..] + b;
      PositiveValuesAppend(a[1..], b, metric);
    }
  }

  function Sum(values: seq<real>): real {
    if values == [] then 0.0 else values[0] + Sum(values[1..])
  }

  /** `np.mean(values)`, exactly. */
  function Mean(values: seq<real>): (mean: real)
    requires values != []
    ensures mean * |values| as real == Sum(values)
  {
    Sum(values) / |values| as real
  }

  /** The metrics `aggregate_results` reports: the core six, and the advanced three when
      the first record has `bertscore_f1`. */
  function TrackedMetrics(results: seq<EvaluationRecord>): seq<Metric> {
    CoreMetrics + (if results != [] && BertscoreF1 in results[0] then AdvancedMetrics else [])
  }

  /** `aggregate_results`, mean only: for each tracked metric with at least one strictly
      positive value, the entry for the metric (Python key `avg_<name>`) is the mean of
      exactly those values; no entry is made for the other metrics. */
  method AggregateResults(results: seq<EvaluationRecord>) returns (averages: map<Metric, real>)
    ensures results == [] ==> averages == map[]
    ensures forall m :: m in averages <==> m in TrackedMetrics(results) && PositiveValues(results, m) != []
    ensures forall m | m in averages :: averages[m] == Mean(PositiveValues(results, m))
  {
    if results == [] {
      return map[];
    }
    var metrics := CoreMetrics;
    if BertscoreF1 in results[0] {
      metrics := metrics + AdvancedMetrics;
    }
    averages := map[];
    for i := 0 to |metrics|
      invariant forall m :: m in averages <==> m in metrics[..i] && PositiveValues(results, m) != []
      invariant forall m | m in averages :: averages[m] == Mean(PositiveValues(results, m))
    {
      var values := PositiveValues(results, metrics[i]);
      if values != [] {
        averages := averages[metrics[i] := Mean(values)];
      }
      assert metrics[..i + 1] == metrics[..i] + [metrics[i]];
    }
    assert metrics[..|metrics|] == TrackedMetrics(results);
  }

  /** The sum of values within [lo, hi] lies within [n * lo, n * hi]. */
  lemma {:induction false} SumBounds(values: seq<real>, lo: real, hi: real)
    requires forall i | 0 <= i < |values| :: lo <= values[i] <= hi
    ensures |values| as real * lo <= Sum(values) <= |values| as real * hi
  {
    if values != [] {
      SumBounds(values[1..], lo, hi);
    }
  }

  /** The average lies between any lower and upper bound of the values averaged,
      in particular between their minimum and maximum. */
  lemma MeanWithinBounds(values: seq<real>, lo: real, hi: real)
    requires values != []
    requires forall i | 0 <= i < |values| :: lo <= values[i] <= hi
    ensures lo <= Mean(values) <= hi
  {
    SumBounds(values, lo, hi);
    var n := |values| as real;
    assert Sum(values) / n >= lo by {
      assert Sum(values) >= n * lo;
    }
    assert Sum(values) / n <= hi by {
      assert Sum(values) <= n * hi;
    }
  }

  /** The sum of strictly positive values is strictly positive. */
  lemma {:induction false} SumPositive(values: seq<real>)
    requires values != []
    requires forall i | 0 <= i < |values| :: values[i] > 0.0
    ensures Sum(values) > 0.0
  {
    if |values| > 1 {
      SumPositive(values[1..]);
    } else {
      assert values[1..] == [];
    }
  }

  /** Each reported average is strictly positive and lies between the smallest and the
      largest strictly positive value of that metric. */
  lemma AverageOfPositiveValues(results: seq<EvaluationRecord>, metric: Metric, lo: real, hi: real)
    requires PositiveValues(results, metric) != []
    requires forall i | 0 <= i < |results| && metric in results[i] && results[i][metric] > 0.0 ::
      lo <= results[i][metric] <= hi
    ensures Mean(PositiveValues(results, metric)) > 0.0
    ensures lo <= Mean(PositiveValues(results, metric)) <= hi
  {
    var values := PositiveValues(results, metric);
    SumPositive(values);
    QuotientPositive(Sum(values), |values|);
    PositiveValuesMembers(results, metric);
    forall i | 0 <= i < |values| ensures lo <= values[i] <= hi {
      assert values[i] in values;
    }
    MeanWithinBounds(values, lo, hi);
  }


  /** A record whose value for the metric is missing, zero or negative does not change
      what is averaged: zero scores and unavailable placeholders are dropped alike. */
  lemma {:induction false} PositiveValuesSkipNonPositive(results: seq<EvaluationRecord>, r: EvaluationRecord, metric: Metric)
    requires !(metric in r && r[metric] > 0.0)
    ensures PositiveValues(results + [r], metric) == PositiveValues(results, metric)
  {
    if results == [] {
      assert ([] + [r])[1..] == [];
    } else {
      assert (results + [r])[1..] == results[1..] + [r];
      PositiveValuesSkipNonPositive(results[1..], r, metric);
    }
  }
}
