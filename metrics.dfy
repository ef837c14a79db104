/**
 * The benchmark evaluation: each query is answered by the request path, the names
 * of its first three recommendations are scored against the query's ground-truth
 * list by Recall@3 and AP@3, and both scores are averaged over the queries.
 */
module Metrics {
  import opened Catalog
  import opened Ranking

  /** The cut-off of both metrics. */
  const K := 3

  function Min(a: int, b: int): int {
    if a < b then a else b
  }

  /** The names of the first three recommendations (fewer when there are fewer), in rank order. */
  function RecNames(recs: seq<Recommendation>): seq<string> {
    seq(Min(K, |recs|), k requires 0 <= k < Min(K, |recs|) => recs[k].name)
  }

  /** No name is listed twice. */
  predicate DistinctStrings(names: seq<string>) {
    forall i, j :: 0 <= i < j < |names| ==> names[i] != names[j]
  }

  // ---------------------------------------------------------------------------
  // Recall@3 and AP@3 of one query

  /**
   * How many listed names are relevant,
   * a name listed twice counted twice. It is zero exactly when no listed name is relevant.
   */
  function RelevantCount(names: seq<string>, gt: seq<string>): (c: nat)
    ensures c <= |names|
    ensures c == 0 <==> forall k :: 0 <= k < |names| ==> names[k] !in gt
  {
    if |names| == 0 then 0
    else
      var prefix := names[..|names| - 1];
      assert forall k :: 0 <= k < |prefix| ==> prefix[k] == names[k];
      RelevantCount(prefix, gt) + (if names[|names| - 1] in gt then 1 else 0)
  }

  /** Recall@3: the relevant count over the size of the ground truth, 0 for an empty ground truth. */
  function Recall(names: seq<string>, gt: seq<string>): real {
    if |gt| == 0 then 0.0 else RelevantCount(names, gt) as real / |gt| as real
  }

  /**
   * What the AP loop accumulates: at each relevant position j, the number of relevant
   * names among the first j + 1 over j + 1.
   */
  function PrecisionSum(names: seq<string>, gt: seq<string>): real {
    if |names| == 0 then 0.0
    else
      PrecisionSum(names[..|names| - 1], gt)
      + (if names[|names| - 1] in gt then RelevantCount(names, gt) as real / |names| as real else 0.0)
  }

  /** AP@3: the precision sum over min(3, |gt|) when anything was relevant, otherwise 0. */
  function AveragePrecision(names: seq<string>, gt: seq<string>): real {
    var hits := RelevantCount(names, gt);
    if hits > 0 then
      assert |gt| > 0 by {
        var k :| 0 <= k < |names| && names[k] in gt;
      }
      PrecisionSum(names, gt) / Min(K, |gt|) as real
    else 0.0
  }

  // ---------------------------------------------------------------------------
  // The whole benchmark

  /** The total of a score list, added left to right. */
  function Sum(xs: seq<real>): real {
    if |xs| == 0 then 0.0 else Sum(xs[..|xs| - 1]) + xs[|xs| - 1]
  }

  /** The average of a score list, 0 when it is empty. */
  function Mean(xs: seq<real>): real {
    if |xs| == 0 then 0.0 else Sum(xs) / |xs| as real
  }

  /** One entry of `individual_scores`. */
  datatype QueryScore = QueryScore(query: string, recall: real, ap: real)

  /** The evaluation response. */
  datatype Evaluation = Evaluation(meanRecallAt3: real, mapAt3: real, individualScores: seq<QueryScore>)

  /** One score vector per query, each as long as the catalog. */
  predicate ScoresFit(catalog: seq<Row>, scores: seq<seq<real>>, queries: seq<string>) {
    && |scores| == |queries|
    && forall i :: 0 <= i < |scores| ==> |scores[i]| == |catalog|
  }

  /** The inputs fit together, and every query has a ground-truth list (`ground_truth[i]` exists). */
  predicate WellFormedBenchmark(catalog: seq<Row>, scores: seq<seq<real>>, queries: seq<string>,
                                groundTruth: seq<seq<string>>) {
    ScoresFit(catalog, scores, queries) && |queries| <= |groundTruth|
  }

  /** The names scored for one query: the first three recommended names. */
  function QueryNames(catalog: seq<Row>, scores: seq<real>, query: string): seq<string>
    requires |scores| == |catalog|
  {
    RecNames(Recommend(catalog, scores, query))
  }

  /** The names scored for each of the first `n` queries, in query order. */
  function AnsweredNames(catalog: seq<Row>, scores: seq<seq<real>>, queries: seq<string>, n: nat)
    : (answered: seq<seq<string>>)
    requires ScoresFit(catalog, scores, queries) && n <= |queries|
    ensures |answered| == n
  {
    if n == 0 then []
    else AnsweredNames(catalog, scores, queries, n - 1) + [QueryNames(catalog, scores[n - 1], queries[n - 1])]
  }

  /** `recall_scores` for the scored lists: one Recall@3 appended per query, in query order. */
  function RecallsOf(answered: seq<seq<string>>, groundTruth: seq<seq<string>>): (recalls: seq<real>)
    requires |answered| <= |groundTruth|
    ensures |recalls| == |answered|
  {
    if |answered| == 0 then []
    else RecallsOf(answered[..|answered| - 1], groundTruth)
         + [Recall(answered[|answered| - 1], groundTruth[|answered| - 1])]
  }

  /** `ap_scores` for the scored lists: one AP@3 appended per query, in query order. */
  function ApsOf(answered: seq<seq<string>>, groundTruth: seq<seq<string>>): (aps: seq<real>)
    requires |answered| <= |groundTruth|
    ensures |aps| == |answered|
  {
    if |answered| == 0 then []
    else ApsOf(answered[..|answered| - 1], groundTruth)
         + [AveragePrecision(answered[|answered| - 1], groundTruth[|answered| - 1])]
  }

  /** The response for the names scored per query: the per-query scores in query order and their means. */
  function EvaluationFor(answered: seq<seq<string>>, queries: seq<string>, groundTruth: seq<seq<string>>)
    : Evaluation
    requires |answered| == |queries| <= |groundTruth|
  {
    var recalls := RecallsOf(answered, groundTruth);
    var aps := ApsOf(answered, groundTruth);
    Evaluation(Mean(recalls), Mean(aps),
               seq(|queries|, k requires 0 <= k < |queries| => QueryScore(queries[k], recalls[k], aps[k])))
  }

  /** The evaluation response for a benchmark. */
  function EvaluationOf(catalog: seq<Row>, scores: seq<seq<real>>, queries: seq<string>,
                        groundTruth: seq<seq<string>>): Evaluation
    requires WellFormedBenchmark(catalog, scores, queries, groundTruth)
  {
    EvaluationFor(AnsweredNames(catalog, scores, queries, |queries|), queries, groundTruth)
  }

  // ---------------------------------------------------------------------------
  // The evaluation loops

  /** The AP@3 loop over the scored names of one query. */
  method AveragePrecisionAt3(recNames: seq<string>, gt: seq<string>) returns (ap: real)
    ensures ap == AveragePrecision(recNames, gt)
  {
    ap := 0.0;
    var relCount := 0;
    for j := 0 to |recNames|
      invariant relCount == RelevantCount(recNames[..j], gt)
      invariant ap == PrecisionSum(recNames[..j], gt)
    {
      assert recNames[..j + 1][..j] == recNames[..j];
      if recNames[j] in gt {
        relCount := relCount + 1;
        var precision := relCount as real / (j + 1) as real;
        ap := ap + precision;
      }
    }
    assert recNames[..|recNames|] == recNames;
    assert relCount == RelevantCount(recNames, gt) && ap == PrecisionSum(recNames, gt);
    if relCount > 0 {
      ap := ap / Min(3, |gt|) as real;
    } else {
      PrecisionSumAtMostHits(recNames, gt);
    }
  }

  /** The body of the evaluation loop: answer one query and score its first three names. */
  method ScoreQuery(catalog: seq<Row>, scores: seq<real>, query: string, gt: seq<string>)
    returns (recNames: seq<string>, recall: real, ap: real)
    requires |scores| == |catalog|
    ensures recNames == QueryNames(catalog, scores, query)
    ensures recall == Recall(recNames, gt)
    ensures ap == AveragePrecision(recNames, gt)
  {
    var recommendations := FindRelevantAssessments(catalog, scores, query);
    recNames := RecNames(recommendations);
    var relevantCount := RelevantCount(recNames, gt);
    recall := if |gt| > 0 then relevantCount as real / |gt| as real else 0.0;
    ap := AveragePrecisionAt3(recNames, gt);
  }

  /**
   * The evaluation endpoint: answer every query, score its first three names and
   * average the scores.
   */
  method Evaluate(catalog: seq<Row>, scores: seq<seq<real>>, testQueries: seq<string>,
                  groundTruth: seq<seq<string>>) returns (result: Evaluation)
    requires WellFormedBenchmark(catalog, scores, testQueries, groundTruth)
    ensures result == EvaluationOf(catalog, scores, testQueries, groundTruth)
  {
    var recallScores: seq<real> := [];
    var apScores: seq<real> := [];
    ghost var answered: seq<seq<string>> := [];
    for i := 0 to |testQueries|
      invariant answered == AnsweredNames(catalog, scores, testQueries, i)
      invariant recallScores == RecallsOf(answered, groundTruth)
      invariant apScores == ApsOf(answered, groundTruth)
    {
      var recNames, recall, ap := ScoreQuery(catalog, scores[i], testQueries[i], groundTruth[i]);
      assert (answered + [recNames])[..i] == answered;
      answered := answered + [recNames];
      recallScores := recallScores + [recall];
      apScores := apScores + [ap];
    }
    var meanRecall := if |recallScores| > 0 then Sum(recallScores) / |recallScores| as real else 0.0;
    var meanAp := if |apScores| > 0 then Sum(apScores) / |apScores| as real else 0.0;
    var individualScores := seq(|testQueries|, i requires 0 <= i < |testQueries| =>
      QueryScore(testQueries[i], recallScores[i], apScores[i]));
    result := Evaluation(meanRecall, meanAp, individualScores);
  }

  // ---------------------------------------------------------------------------
  // Bounds

  /** Only membership in the ground truth matters to the count. */
  lemma {:induction false} RelevantCountCongruent(names: seq<string>, gt: seq<string>, gt': seq<string>)
    requires forall k :: 0 <= k < |names| ==> (names[k] in gt <==> names[k] in gt')
    ensures RelevantCount(names, gt) == RelevantCount(names, gt')
  {
    if |names| > 0 {
      var prefix := names[..|names| - 1];
      assert forall k :: 0 <= k < |prefix| ==> prefix[k] == names[k];
      RelevantCountCongruent(prefix, gt, gt');
    }
  }

  /** The ground truth with the first occurrence of `x` removed. */
  function RemoveFirst(gt: seq<string>, x: string): (r: seq<string>)
    requires x in gt
    ensures |r| == |gt| - 1
    ensures forall y :: y != x ==> (y in r <==> y in gt)
  {
    if gt[0] == x then gt[1..]
    else
      var rest := RemoveFirst(gt[1..], x);
      assert forall y :: y in gt <==> y == gt[0] || y in gt[1..];
      [gt[0]] + rest
  }

  /** Distinct names cannot hit more ground-truth entries than there are. */
  lemma {:induction false} RelevantCountAtMostTruth(names: seq<string>, gt: seq<string>)
    requires DistinctStrings(names)
    ensures RelevantCount(names, gt) <= |gt|
  {
    if |names| > 0 {
      var prefix := names[..|names| - 1];
      var x := names[|names| - 1];
      assert forall k :: 0 <= k < |prefix| ==> prefix[k] == names[k];
      if x in gt {
        var gt' := RemoveFirst(gt, x);
        RelevantCountCongruent(prefix, gt, gt');
        RelevantCountAtMostTruth(prefix, gt');
      } else {
        RelevantCountAtMostTruth(prefix, gt);
      }
    }
  }

  /** With distinct names, Recall@3 lies in [0, 1]. */
  lemma RecallBounds(names: seq<string>, gt: seq<string>)
    requires DistinctStrings(names)
    ensures 0.0 <= Recall(names, gt) <= 1.0
  {
    if |gt| > 0 {
      RelevantCountAtMostTruth(names, gt);
      QuotientAtMostOne(RelevantCount(names, gt) as real, |gt| as real);
    }
  }

  lemma QuotientAtMostOne(x: real, m: real)
    requires 0.0 <= x <= m && m > 0.0
    ensures 0.0 <= x / m <= 1.0
  {
    assert x / m * m == x;
  }

  /** Every term of the precision sum is at most 1, one term per hit. */
  lemma {:induction false} PrecisionSumAtMostHits(names: seq<string>, gt: seq<string>)
    ensures 0.0 <= PrecisionSum(names, gt) <= RelevantCount(names, gt) as real
  {
    if |names| > 0 {
      var prefix := names[..|names| - 1];
      assert forall k :: 0 <= k < |prefix| ==> prefix[k] == names[k];
      PrecisionSumAtMostHits(prefix, gt);
      if names[|names| - 1] in gt {
        QuotientAtMostOne(RelevantCount(names, gt) as real, |names| as real);
      }
    }
  }

  /** With at most three distinct names, AP@3 lies in [0, 1]. */
  lemma AveragePrecisionBounds(names: seq<string>, gt: seq<string>)
    requires DistinctStrings(names) && |names| <= K
    ensures 0.0 <= AveragePrecision(names, gt) <= 1.0
  {
    var hits := RelevantCount(names, gt);
    if hits > 0 {
      assert |gt| > 0 by {
        var k :| 0 <= k < |names| && names[k] in gt;
      }
      RelevantCountAtMostTruth(names, gt);
      PrecisionSumAtMostHits(names, gt);
      QuotientAtMostOne(PrecisionSum(names, gt), Min(K, |gt|) as real);
    }
  }

  /** When every listed name is relevant, every name is counted. */
  lemma {:induction false} AllRelevantCount(names: seq<string>, gt: seq<string>)
    requires forall k :: 0 <= k < |names| ==> names[k] in gt
    ensures RelevantCount(names, gt) == |names|
  {
    if |names| > 0 {
      var prefix := names[..|names| - 1];
      assert forall k :: 0 <= k < |prefix| ==> prefix[k] == names[k];
      AllRelevantCount(prefix, gt);
    }
  }

  /** When every listed name is relevant, every term of the precision sum is 1. */
  lemma {:induction false} AllRelevantPrecisionSum(names: seq<string>, gt: seq<string>)
    requires forall k :: 0 <= k < |names| ==> names[k] in gt
    ensures PrecisionSum(names, gt) == |names| as real
  {
    if |names| > 0 {
      var n := |names|;
      var prefix := names[..n - 1];
      assert forall k :: 0 <= k < |prefix| ==> prefix[k] == names[k];
      AllRelevantPrecisionSum(prefix, gt);
      AllRelevantCount(names, gt);
      assert names[n - 1] in gt;
      assert RelevantCount(names, gt) as real / n as real == 1.0;
    }
  }

  /** A list of min(3, |gt|) names that are all relevant scores AP@3 = 1. */
  lemma AllRelevantIsPerfect(names: seq<string>, gt: seq<string>)
    requires |gt| > 0 && |names| == Min(K, |gt|)
    requires forall k :: 0 <= k < |names| ==> names[k] in gt
    ensures AveragePrecision(names, gt) == 1.0
    ensures Recall(names, gt) == |names| as real / |gt| as real
  {
    AllRelevantCount(names, gt);
    AllRelevantPrecisionSum(names, gt);
  }

  /** A hit at ranks 1 and 3 of a two-entry ground truth: Recall@3 = 1 and AP@3 = (1 + 2/3) / 2. */
  lemma ExampleScores()
    ensures Recall(["A", "X", "C"], ["A", "C"]) == 1.0
    ensures AveragePrecision(["A", "X", "C"], ["A", "C"]) == 5.0 / 6.0
  {
    var names := ["A", "X", "C"];
    var gt := ["A", "C"];
    assert names[..2] == ["A", "X"] && names[..2][..1] == ["A"] && names[..1] == ["A"];
    assert "X" !in gt;
    assert RelevantCount(["A"], gt) == 1;
    assert RelevantCount(["A", "X"], gt) == 1;
    assert RelevantCount(names, gt) == 2;
    assert PrecisionSum(["A"], gt) == 1.0;
    assert PrecisionSum(["A", "X"], gt) == 1.0;
    assert PrecisionSum(names, gt) == 1.0 + 2.0 / 3.0;
  }

  /** The count does not collapse duplicates: a name listed three times scores 3 on both metrics. */
  lemma DuplicateNamesExceedOne()
    ensures Recall(["A", "A", "A"], ["A"]) == 3.0
    ensures AveragePrecision(["A", "A", "A"], ["A"]) == 3.0
  {
    AllRelevantCount(["A", "A", "A"], ["A"]);
    AllRelevantPrecisionSum(["A", "A", "A"], ["A"]);
  }

  /** The mean of scores in [0, 1] is in [0, 1]. */
  lemma MeanBounds(xs: seq<real>)
    requires InUnitRange(xs)
    ensures 0.0 <= Mean(xs) <= 1.0
  {
    if |xs| > 0 {
      SumBounds(xs);
      QuotientAtMostOne(Sum(xs), |xs| as real);
    }
  }

  lemma {:induction false} SumBounds(xs: seq<real>)
    requires InUnitRange(xs)
    ensures 0.0 <= Sum(xs) <= |xs| as real
  {
    if |xs| > 0 {
      var prefix := xs[..|xs| - 1];
      assert forall k :: 0 <= k < |prefix| ==> prefix[k] == xs[k];
      SumBounds(prefix);
    }
  }

  /** Every scored list has at most three names and no name twice. */
  predicate AnswersFit(answered: seq<seq<string>>) {
    forall k :: 0 <= k < |answered| ==> DistinctStrings(answered[k]) && |answered[k]| <= K
  }

  /** Over a catalog with distinct names, every scored list has at most three distinct names. */
  lemma {:induction false} AnsweredNamesDistinct(catalog: seq<Row>, scores: seq<seq<real>>, queries: seq<string>,
                                                 n: nat)
    requires ScoresFit(catalog, scores, queries) && n <= |queries|
    requires DistinctNames(catalog)
    ensures AnswersFit(AnsweredNames(catalog, scores, queries, n))
  {
    if n > 0 {
      AnsweredNamesDistinct(catalog, scores, queries, n - 1);
      QueryNamesDistinct(catalog, scores[n - 1], queries[n - 1]);
      var prev := AnsweredNames(catalog, scores, queries, n - 1);
      var last := QueryNames(catalog, scores[n - 1], queries[n - 1]);
      var answered := AnsweredNames(catalog, scores, queries, n);
      assert answered == prev + [last];
      forall k | 0 <= k < n ensures DistinctStrings(answered[k]) && |answered[k]| <= K {
        if k < n - 1 {
          assert answered[k] == prev[k];
        }
      }
    }
  }

  /**
   * Over a catalog whose names are distinct, every query's Recall@3 and AP@3 and both
   * means lie in [0, 1].
   */
  lemma EvaluationBounds(catalog: seq<Row>, scores: seq<seq<real>>, queries: seq<string>,
                         groundTruth: seq<seq<string>>)
    requires WellFormedBenchmark(catalog, scores, queries, groundTruth)
    requires DistinctNames(catalog)
    ensures var e := EvaluationOf(catalog, scores, queries, groundTruth);
      && |e.individualScores| == |queries|
      && (forall i :: 0 <= i < |queries| ==>
            && e.individualScores[i].query == queries[i]
            && 0.0 <= e.individualScores[i].recall <= 1.0
            && 0.0 <= e.individualScores[i].ap <= 1.0)
      && 0.0 <= e.meanRecallAt3 <= 1.0
      && 0.0 <= e.mapAt3 <= 1.0
  {
    var answered := AnsweredNames(catalog, scores, queries, |queries|);
    AnsweredNamesDistinct(catalog, scores, queries, |queries|);
    EvaluationForBounds(answered, queries, groundTruth);
  }

  /** Every score of the list lies in [0, 1]. */
  predicate InUnitRange(xs: seq<real>) {
    forall k :: 0 <= k < |xs| ==> 0.0 <= xs[k] <= 1.0
  }

  /** When every scored list has at most three distinct names, every Recall@3 lies in [0, 1]. */
  lemma {:induction false} RecallsBounded(answered: seq<seq<string>>, groundTruth: seq<seq<string>>)
    requires |answered| <= |groundTruth|
    requires AnswersFit(answered)
    ensures InUnitRange(RecallsOf(answered, groundTruth))
  {
    if |answered| > 0 {
      var n := |answered| - 1;
      var prefix := answered[..n];
      assert AnswersFit(prefix) by {
        assert forall k :: 0 <= k < n ==> prefix[k] == answered[k];
      }
      RecallsBounded(prefix, groundTruth);
      RecallBounds(answered[n], groundTruth[n]);
      var prev := RecallsOf(prefix, groundTruth);
      var last := Recall(answered[n], groundTruth[n]);
      assert RecallsOf(answered, groundTruth) == prev + [last];
      forall k | 0 <= k < n + 1 ensures 0.0 <= (prev + [last])[k] <= 1.0 {
        if k < n {
          assert (prev + [last])[k] == prev[k];
        }
      }
    }
  }

  /** When every scored list has at most three distinct names, every AP@3 lies in [0, 1]. */
  lemma {:induction false} ApsBounded(answered: seq<seq<string>>, groundTruth: seq<seq<string>>)
    requires |answered| <= |groundTruth|
    requires AnswersFit(answered)
    ensures InUnitRange(ApsOf(answered, groundTruth))
  {
    if |answered| > 0 {
      var n := |answered| - 1;
      var prefix := answered[..n];
      assert AnswersFit(prefix) by {
        assert forall k :: 0 <= k < n ==> prefix[k] == answered[k];
      }
      ApsBounded(prefix, groundTruth);
      AveragePrecisionBounds(answered[n], groundTruth[n]);
      var prev := ApsOf(prefix, groundTruth);
      var last := AveragePrecision(answered[n], groundTruth[n]);
      assert ApsOf(answered, groundTruth) == prev + [last];
      forall k | 0 <= k < n + 1 ensures 0.0 <= (prev + [last])[k] <= 1.0 {
        if k < n {
          assert (prev + [last])[k] == prev[k];
        }
      }
    }
  }

  /** When every scored list has at most three distinct names, all scores lie in [0, 1]. */
  lemma EvaluationForBounds(answered: seq<seq<string>>, queries: seq<string>, groundTruth: seq<seq<string>>)
    requires |answered| == |queries| <= |groundTruth|
    requires AnswersFit(answered)
    ensures var e := EvaluationFor(answered, queries, groundTruth);
      && |e.individualScores| == |queries|
      && (forall i :: 0 <= i < |queries| ==>
            && e.individualScores[i].query == queries[i]
            && 0.0 <= e.individualScores[i].recall <= 1.0
            && 0.0 <= e.individualScores[i].ap <= 1.0)
      && 0.0 <= e.meanRecallAt3 <= 1.0
      && 0.0 <= e.mapAt3 <= 1.0
  {
    RecallsBounded(answered, groundTruth);
    ApsBounded(answered, groundTruth);
    MeanBounds(RecallsOf(answered, groundTruth));
    MeanBounds(ApsOf(answered, groundTruth));
  }

  lemma QueryNamesDistinct(catalog: seq<Row>, scores: seq<real>, query: string)
    requires |scores| == |catalog|
    requires DistinctNames(catalog)
    ensures DistinctStrings(QueryNames(catalog, scores, query))
    ensures |QueryNames(catalog, scores, query)| <= K
  {
    RecommendedNamesDistinct(catalog, scores, query, DefaultMaxResults);
  }
}
