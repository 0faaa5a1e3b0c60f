/**
 * RetrievalMetrics (tests/evaluation_metrics.py): Mean Reciprocal Rank,
 * Hit@k and Precision@k over a ranked list of retrieved records. A record is
 * a Python dict; the metrics only ever ask `record.get(key, False)` and test
 * the answer for truthiness.
 */
module Retrieval {
  import opened Wrappers
  import opened Ratios

  /** A value stored in a retrieval record, as far as truthiness can tell. */
  datatype Value = Flag(b: bool) | Number(x: real) | Str(s: string) | Null

  /** Python truthiness of a record value. */
  predicate Truthy(v: Value) {
    match v
    case Flag(b) => b
    case Number(x) => x != 0.0
    case Str(s) => s != ""
    case Null => false
  }

  /** One retrieved record: field name to value. */
  type Record = map<string, Value>

  /** The default name of the relevance field. */
  const DefaultRelevantKey: string := "is_relevant"

  /** `record.get(key, False)` is truthy: a missing key counts as not relevant. */
  predicate IsRelevant(record: Record, key: string): (relevant: bool)
    ensures key !in record ==> !relevant
    ensures key in record && record[key] == Flag(true) ==> relevant
    ensures key in record && record[key] in {Flag(false), Number(0.0), Str(""), Null} ==> !relevant
  {
    key in record && Truthy(record[key])
  }

  // ---------------------------------------------------------------------------
  // Mean Reciprocal Rank

  /** The 0-based position of the first relevant record, if there is one. */
  function FirstRelevant(results: seq<Record>, key: string): (pos: Option<nat>)
    ensures pos.Some? ==> pos.value < |results| && IsRelevant(results[pos.value], key)
    ensures pos.Some? ==> forall j | 0 <= j < pos.value :: !IsRelevant(results[j], key)
    ensures pos.None? ==> forall j | 0 <= j < |results| :: !IsRelevant(results[j], key)
  {
    if results == [] then None
    else if IsRelevant(results[0], key) then Some(0)
    else match FirstRelevant(results[1..], key)
      case None => None
      case Some(i) => Some(i + 1)
  }

  /** The reciprocal rank: 1/r for the 1-based rank r of the first relevant record, else 0. */
  function ReciprocalRank(results: seq<Record>, key: string): real {
    match FirstRelevant(results, key)
    case None => 0.0
    case Some(i) => 1.0 / (i + 1) as real
  }

  /** `calculate_mrr`: scan in rank order and stop at the first relevant record. */
  method CalculateMrr(results: seq<Record>, relevantKey: string) returns (mrr: real)
    ensures mrr == ReciprocalRank(results, relevantKey)
  {
    var rank := 1;
    while rank <= |results|
      invariant 1 <= rank <= |results| + 1
      invariant forall j | 0 <= j < rank - 1 :: !IsRelevant(results[j], relevantKey)
    {
      if IsRelevant(results[rank - 1], relevantKey) {
        return 1.0 / rank as real;
      }
      rank := rank + 1;
    }
    return 0.0;
  }

  /** The reciprocal rank is 1/r exactly when r is the rank of the first relevant record. */
  lemma ReciprocalRankOfFirstHit(results: seq<Record>, key: string, r: nat)
    requires 1 <= r <= |results|
    requires IsRelevant(results[r - 1], key)
    requires forall j | 0 <= j < r - 1 :: !IsRelevant(results[j], key)
    ensures ReciprocalRank(results, key) == 1.0 / r as real
  {
    var pos := FirstRelevant(results, key);
    assert pos == Some(r - 1);
  }

  /** The reciprocal rank is 0 exactly when no record is relevant. */
  lemma ReciprocalRankZero(results: seq<Record>, key: string)
    ensures ReciprocalRank(results, key) == 0.0 <==> forall j | 0 <= j < |results| :: !IsRelevant(results[j], key)
  {
    match FirstRelevant(results, key)
    case None =>
    case Some(i) =>
      assert 1.0 / (i + 1) as real > 0.0;
  }

  /** x is 1/r for a rank r >= 1. */
  predicate IsReciprocalOfRank(x: real, r: nat) {
    r >= 1 && x == 1.0 / r as real
  }

  /** The reciprocal rank lies in {0} and {1/r | 1 <= r <= len(results)}, hence in [0, 1]. */
  lemma ReciprocalRankRange(results: seq<Record>, key: string)
    ensures var mrr := ReciprocalRank(results, key);
      mrr == 0.0 || exists r: nat | r <= |results| :: IsReciprocalOfRank(mrr, r)
    ensures 0.0 <= ReciprocalRank(results, key) <= 1.0
  {
    match FirstRelevant(results, key)
    case None =>
    case Some(i) =>
      var r: nat := i + 1;
      assert IsReciprocalOfRank(ReciprocalRank(results, key), r);
      assert 1.0 / r as real <= 1.0;
  }

  // ---------------------------------------------------------------------------
  // Hit@k

  /** Length of Python's slice `results[:k]` for a list of length n, negative k included. */
  function SliceEnd(n: nat, k: int): (end: nat)
    ensures end <= n
    ensures 0 <= k <= n ==> end == k
    ensures k >= n ==> end == n
    ensures k < 0 && n > 0 ==> end < n
    ensures end == 0 <==> n == 0 || k == 0 || (k < 0 && n + k <= 0)
  {
    if k >= 0 then (if k <= n then k else n)
    else if n + k >= 0 then n + k else 0
  }

  /** For k >= 0 the slice `results[:k]` only grows with k. */
  lemma SliceEndMonotone(n: nat, k1: int, k2: int)
    requires 0 <= k1 <= k2
    ensures SliceEnd(n, k1) <= SliceEnd(n, k2)
  {
  }

  /** A negative k drops exactly -k records from the end, as long as there are that many. */
  lemma SliceEndNegative(n: nat, k: int)
    requires k < 0 && -k <= n
    ensures SliceEnd(n, k) + -k == n
  {
  }

  /** Some record among the first k (Python slice semantics) is relevant. */
  predicate HitInTop(results: seq<Record>, k: int, key: string) {
    exists j | 0 <= j < SliceEnd(|results|, k) :: IsRelevant(results[j], key)
  }

  /** Hit@k as a number: 1.0 on a hit, 0.0 otherwise. */
  function HitAtK(results: seq<Record>, k: int, key: string): real {
    if HitInTop(results, k, key) then 1.0 else 0.0
  }

  /** `calculate_hit_at_k`: scan `results[:k]` and stop at the first relevant record. */
  method CalculateHitAtK(results: seq<Record>, k: int, relevantKey: string) returns (hit: real)
    ensures hit == HitAtK(results, k, relevantKey)
  {
    var topK := results[..SliceEnd(|results|, k)];
    var i := 0;
    while i < |topK|
      invariant 0 <= i <= |topK|
      invariant forall j | 0 <= j < i :: !IsRelevant(topK[j], relevantKey)
    {
      if IsRelevant(topK[i], relevantKey) {
        return 1.0;
      }
      i := i + 1;
    }
    return 0.0;
  }

  /** A hit within the top k is the first relevant record having rank at most k. */
  lemma HitIffFirstRelevantWithin(results: seq<Record>, k: int, key: string)
    ensures HitInTop(results, k, key) <==>
      FirstRelevant(results, key).Some? && FirstRelevant(results, key).value < SliceEnd(|results|, k)
  {
    var pos := FirstRelevant(results, key);
    if HitInTop(results, k, key) {
      var j :| 0 <= j < SliceEnd(|results|, k) && IsRelevant(results[j], key);
      assert pos.Some? && pos.value <= j;
    }
  }

  /** Hit@k never decreases as k grows (k >= 0). */
  lemma HitAtKMonotone(results: seq<Record>, k1: int, k2: int, key: string)
    requires 0 <= k1 <= k2
    ensures HitAtK(results, k1, key) <= HitAtK(results, k2, key)
  {
    if HitInTop(results, k1, key) {
      var j :| 0 <= j < SliceEnd(|results|, k1) && IsRelevant(results[j], key);
      assert j < SliceEnd(|results|, k2);
    }
  }

  /** A k at or beyond the length inspects the whole list: Hit@k is 1.0 iff some record is relevant. */
  lemma HitAtKBeyondLength(results: seq<Record>, k: int, key: string)
    requires k >= |results|
    ensures HitAtK(results, k, key) == 1.0 <==> exists j | 0 <= j < |results| :: IsRelevant(results[j], key)
  {
  }

  /** For k >= 1, Hit@k is 1.0 exactly when the reciprocal rank is at least 1/k. */
  lemma HitAtKIffReciprocalRank(results: seq<Record>, k: nat, key: string)
    requires k >= 1
    ensures HitAtK(results, k, key) == 1.0 <==> ReciprocalRank(results, key) >= 1.0 / k as real
  {
    HitIffFirstRelevantWithin(results, k, key);
    match FirstRelevant(results, key)
    case None =>
      assert 1.0 / k as real > 0.0;
    case Some(i) =>
      var r := (i + 1) as real;
      assert ReciprocalRank(results, key) == 1.0 / r;
      if i < SliceEnd(|results|, k) {
        assert r <= k as real;
        ReciprocalAntitone(r, k as real);
      } else {
        assert i + 1 > k;
        ReciprocalStrictlyAntitone(k as real, r);
      }
  }

  lemma ReciprocalAntitone(a: real, b: real)
    requires 0.0 < a <= b
    ensures 1.0 / b <= 1.0 / a
  {
    assert 1.0 / b * b == 1.0 && 1.0 / a * a == 1.0;
    assert (1.0 / a) * b >= (1.0 / a) * a;
  }

  lemma ReciprocalStrictlyAntitone(a: real, b: real)
    requires 0.0 < a < b
    ensures 1.0 / b < 1.0 / a
  {
    assert 1.0 / b * b == 1.0 && 1.0 / a * a == 1.0;
    assert (1.0 / a) * b > (1.0 / a) * a;
  }

  // ---------------------------------------------------------------------------
  // Precision@k

  /** `sum(1 for r in records if r.get(key, False))`. */
  function CountRelevant(records: seq<Record>, key: string): (count: nat)
    ensures count <= |records|
    ensures count == 0 <==> forall j | 0 <= j < |records| :: !IsRelevant(records[j], key)
    ensures count == |records| <==> forall j | 0 <= j < |records| :: IsRelevant(records[j], key)
  {
    if records == [] then 0
    else (if IsRelevant(records[0], key) then 1 else 0) + CountRelevant(records[1..], key)
  }

  /** Outcome of `calculate_precision_at_k`: a ratio, or the ZeroDivisionError raised
      when a negative k slices the whole list away. */
  datatype Precision = Ratio(value: real) | ZeroDivisionError

  /** `calculate_precision_at_k`: the fraction of `results[:k]` that is relevant,
      dividing by the number of records inspected rather than by k. */
  function PrecisionAtK(results: seq<Record>, k: int, key: string): (p: Precision)
    ensures p.ZeroDivisionError? <==> results != [] && k < 0 && |results| + k <= 0
    ensures results == [] || k == 0 ==> p == Ratio(0.0)
    ensures p.Ratio? ==> 0.0 <= p.value <= 1.0
    ensures p.Ratio? && results != [] && k != 0 ==>
      p.value == CountRelevant(results[..SliceEnd(|results|, k)], key) as real / SliceEnd(|results|, k) as real
  {
    if results == [] || k == 0 then Ratio(0.0)
    else
      var inspected := SliceEnd(|results|, k);
      if inspected == 0 then ZeroDivisionError
      else
        var relevant := CountRelevant(results[..inspected], key);
        FractionInUnitInterval(relevant, inspected);
        Ratio(relevant as real / inspected as real)
  }


  /** For k >= 0 Precision@k never fails, and it is positive exactly when Hit@k is 1.0. */
  lemma PrecisionPositiveIffHit(results: seq<Record>, k: nat, key: string)
    ensures PrecisionAtK(results, k, key).Ratio?
    ensures PrecisionAtK(results, k, key).value > 0.0 <==> HitAtK(results, k, key) == 1.0
  {
    if results != [] && k != 0 {
      var n := SliceEnd(|results|, k);
      var top := results[..n];
      var c := CountRelevant(top, key);
      if c > 0 {
        var j :| 0 <= j < |top| && IsRelevant(top[j], key);
        assert IsRelevant(results[j], key);
        assert c as real / n as real > 0.0;
      } else {
        forall j | 0 <= j < n ensures !IsRelevant(results[j], key) {
          assert results[j] == top[j];
        }
      }
    }
  }

  /** Every inspected record relevant gives Precision@k of exactly 1.0. */
  lemma PrecisionAllRelevant(results: seq<Record>, k: nat, key: string)
    requires results != [] && k != 0
    requires forall j | 0 <= j < SliceEnd(|results|, k) :: IsRelevant(results[j], key)
    ensures PrecisionAtK(results, k, key) == Ratio(1.0)
  {
    var n := SliceEnd(|results|, k);
    var top := results[..n];
    forall j | 0 <= j < |top| ensures IsRelevant(top[j], key) {
      assert top[j] == results[j];
    }
    assert CountRelevant(top, key) == n;
    WholeFraction(n);
  }


  // ---------------------------------------------------------------------------
  // The retrieval scenarios of tests/test_retrieval.py

  function Doc(content: string, relevant: bool): Record {
    map["content" := Str(content), "is_relevant" := Flag(relevant)]
  }

  lemma MrrSecondOfThree()
    ensures ReciprocalRank([Doc("doc1", false), Doc("doc2", true), Doc("doc3", false)], DefaultRelevantKey) == 0.5
  {
    var docs := [Doc("doc1", false), Doc("doc2", true), Doc("doc3", false)];
    assert !IsRelevant(docs[0], DefaultRelevantKey) && IsRelevant(docs[1], DefaultRelevantKey);
    ReciprocalRankOfFirstHit(docs, DefaultRelevantKey, 2);
  }

  lemma HitAtKThirdOfFour()
    ensures var docs := [Doc("doc1", false), Doc("doc2", false), Doc("doc3", true), Doc("doc4", false)];
      HitAtK(docs, 5, DefaultRelevantKey) == 1.0 && HitAtK(docs, 2, DefaultRelevantKey) == 0.0
  {
    var docs := [Doc("doc1", false), Doc("doc2", false), Doc("doc3", true), Doc("doc4", false)];
    assert IsRelevant(docs[2], DefaultRelevantKey);
    assert !IsRelevant(docs[0], DefaultRelevantKey) && !IsRelevant(docs[1], DefaultRelevantKey);
  }

  lemma PrecisionThreeOfFive()
    ensures PrecisionAtK([Doc("doc1", true), Doc("doc2", false), Doc("doc3", true), Doc("doc4", false), Doc("doc5", true)],
                         5, DefaultRelevantKey) == Ratio(0.6)
  {
    var docs := [Doc("doc1", true), Doc("doc2", false), Doc("doc3", true), Doc("doc4", false), Doc("doc5", true)];
    assert docs[..5] == docs;
    assert CountRelevant(docs[4..], DefaultRelevantKey) == 1 by {
      assert IsRelevant(docs[4], DefaultRelevantKey) && docs[4..][1..] == [];
    }
    assert CountRelevant(docs[3..], DefaultRelevantKey) == 1 by {
      assert !IsRelevant(docs[3], DefaultRelevantKey) && docs[3..][1..] == docs[4..];
    }
    assert CountRelevant(docs[2..], DefaultRelevantKey) == 2 by {
      assert IsRelevant(docs[2], DefaultRelevantKey) && docs[2..][1..] == docs[3..];
    }
    assert CountRelevant(docs[1..], DefaultRelevantKey) == 2 by {
      assert !IsRelevant(docs[1], DefaultRelevantKey) && docs[1..][1..] == docs[2..];
    }
    assert CountRelevant(docs, DefaultRelevantKey) == 3 by {
      assert IsRelevant(docs[0], DefaultRelevantKey);
    }
  }
}
