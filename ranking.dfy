/**
 * The ranking engine: attach one similarity score to every catalog row, drop
 * rows that break the query's duration or type constraint, sort by score
 * (highest first), keep the first `maxResults` and format them.
 */
module Ranking {
  import opened Wrappers
  import opened Text
  import opened Catalog
  import opened Constraints

  const DefaultMaxResults := 10

  /** The duration a row whose duration is not a number is filtered as. */
  const UnknownDurationValue := 999

  /** A row of the scored table: its index label, its columns and its similarity score. */
  datatype Candidate = Candidate(pos: nat, row: Row, score: real)

  /** One entry of the response. */
  datatype Recommendation = Recommendation(
    name: string,
    url: string,
    remoteTesting: string,
    adaptiveIrt: string,
    duration: string,
    testType: string)

  /** The catalog with its similarity scores attached, index labels 0, 1, 2, ... */
  function Tabulate(catalog: seq<Row>, scores: seq<real>): (t: seq<Candidate>)
    requires |scores| == |catalog|
  {
    seq(|catalog|, i requires 0 <= i < |catalog| => Candidate(i, catalog[i], scores[i]))
  }

  /** The numeric duration the filter compares: the value of a digit string, 999 for anything else. */
  function DurationNum(duration: string): nat {
    if IsDigitString(duration) then DigitsValue(duration) else UnknownDurationValue
  }

  /** The duration filter keeps a row: no constraint, a zero (falsy) constraint, or a duration within it. */
  predicate DurationAdmits(limit: Option<nat>, duration: string) {
    match limit
    case None => true
    case Some(d) => d == 0 || DurationNum(duration) <= d
  }

  /** The type filter keeps a row: no requested type, or the row's type is one of them. */
  predicate TypeAdmits(types: seq<string>, testType: string) {
    |types| == 0 || testType in types
  }

  /** No two candidates share an index label, so no catalog row is listed twice. */
  predicate DistinctPos(cs: seq<Candidate>) {
    forall i, j :: 0 <= i < j < |cs| ==> cs[i].pos != cs[j].pos
  }

  /** A boolean-mask selection `df[mask]`: the rows that pass, in their order. */
  function Select(cs: seq<Candidate>, keep: Candidate -> bool): seq<Candidate> {
    if |cs| == 0 then []
    else if keep(cs[0]) then [cs[0]] + Select(cs[1..], keep)
    else Select(cs[1..], keep)
  }

  /** A selection keeps exactly the rows that pass the mask. */
  lemma {:induction false} SelectMembers(cs: seq<Candidate>, keep: Candidate -> bool)
    ensures forall c :: c in Select(cs, keep) <==> c in cs && keep(c)
  {
    if |cs| > 0 {
      SelectMembers(cs[1..], keep);
      assert forall c :: c in cs <==> c == cs[0] || c in cs[1..];
    }
  }

  /** A selection lists no row twice when its input does not. */
  lemma {:induction false} SelectKeepsDistinct(cs: seq<Candidate>, keep: Candidate -> bool)
    requires DistinctPos(cs)
    ensures DistinctPos(Select(cs, keep))
  {
    if |cs| > 0 {
      SelectKeepsDistinct(cs[1..], keep);
      SelectMembers(cs[1..], keep);
      var rest := Select(cs[1..], keep);
      if keep(cs[0]) {
        forall c | c in rest ensures c.pos != cs[0].pos {
          var k :| 0 <= k < |cs[1..]| && cs[1..][k] == c;
          assert cs[k + 1] == c;
        }
        assert Select(cs, keep) == [cs[0]] + rest;
      }
    }
  }

  function FilterByDuration(cs: seq<Candidate>, limit: nat): seq<Candidate> {
    Select(cs, (c: Candidate) => DurationNum(c.row.duration) <= limit)
  }

  function FilterByType(cs: seq<Candidate>, types: seq<string>): seq<Candidate> {
    Select(cs, (c: Candidate) => c.row.testType in types)
  }

  /** The two filters in the source's order; each is skipped when its constraint is falsy. */
  function ApplyFilters(cs: seq<Candidate>, limit: Option<nat>, types: seq<string>): seq<Candidate> {
    var afterDuration := if limit.Some? && limit.value != 0 then FilterByDuration(cs, limit.value) else cs;
    if |types| > 0 then FilterByType(afterDuration, types) else afterDuration
  }

  /** A row survives both filters exactly when it passes the duration test and the type test. */
  lemma ApplyFiltersMembers(cs: seq<Candidate>, limit: Option<nat>, types: seq<string>)
    ensures forall c :: c in ApplyFilters(cs, limit, types) <==>
      c in cs && DurationAdmits(limit, c.row.duration) && TypeAdmits(types, c.row.testType)
  {
    var afterDuration := if limit.Some? && limit.value != 0 then FilterByDuration(cs, limit.value) else cs;
    if limit.Some? && limit.value != 0 {
      SelectMembers(cs, (c: Candidate) => DurationNum(c.row.duration) <= limit.value);
    }
    if |types| > 0 {
      SelectMembers(afterDuration, (c: Candidate) => c.row.testType in types);
    }
  }

  lemma ApplyFiltersKeepsDistinct(cs: seq<Candidate>, limit: Option<nat>, types: seq<string>)
    requires DistinctPos(cs)
    ensures DistinctPos(ApplyFilters(cs, limit, types))
  {
    var afterDuration := if limit.Some? && limit.value != 0 then FilterByDuration(cs, limit.value) else cs;
    if limit.Some? && limit.value != 0 {
      SelectKeepsDistinct(cs, (c: Candidate) => DurationNum(c.row.duration) <= limit.value);
    }
    if |types| > 0 {
      SelectKeepsDistinct(afterDuration, (c: Candidate) => c.row.testType in types);
    }
  }

  // ---------------------------------------------------------------------------
  // Sorting by score, highest first

  predicate NonIncreasing(cs: seq<Candidate>) {
    forall i, j :: 0 <= i < j < |cs| ==> cs[i].score >= cs[j].score
  }

  /** Insert `c` before the first entry with a lower score. */
  function Insert(c: Candidate, s: seq<Candidate>): seq<Candidate> {
    if |s| == 0 || c.score >= s[0].score then [c] + s
    else [s[0]] + Insert(c, s[1..])
  }

  /**
   * One order that sorting by descending similarity score may produce: rows with
   * equal scores keep their table order. The source's sort is not stable, so what it
   * promises for every order of ties is proved separately below: the order is
   * non-increasing and the rows are the same rows.
   */
  function SortByScore(cs: seq<Candidate>): seq<Candidate> {
    if |cs| == 0 then [] else Insert(cs[0], SortByScore(cs[1..]))
  }

  /** Inserting adds exactly the one row. */
  lemma {:induction false} InsertPermutes(c: Candidate, s: seq<Candidate>)
    ensures multiset(Insert(c, s)) == multiset(s) + multiset{c}
  {
    if |s| > 0 && c.score < s[0].score {
      InsertPermutes(c, s[1..]);
      assert s == [s[0]] + s[1..];
    }
  }

  /** Inserting into a non-increasing list keeps it non-increasing. */
  lemma {:induction false} InsertSorted(c: Candidate, s: seq<Candidate>)
    requires NonIncreasing(s)
    ensures NonIncreasing(Insert(c, s))
  {
    if |s| > 0 && c.score < s[0].score {
      InsertSorted(c, s[1..]);
      InsertPermutes(c, s[1..]);
      var rest := Insert(c, s[1..]);
      forall k | 0 <= k < |rest| ensures s[0].score >= rest[k].score {
        assert rest[k] in multiset(s[1..]) + multiset{c};
        if rest[k] != c {
          assert rest[k] in s[1..];
        }
      }
    }
  }

  /** The sort returns the same rows. */
  lemma {:induction false} SortPermutes(cs: seq<Candidate>)
    ensures multiset(SortByScore(cs)) == multiset(cs)
  {
    if |cs| > 0 {
      SortPermutes(cs[1..]);
      InsertPermutes(cs[0], SortByScore(cs[1..]));
      assert cs == [cs[0]] + cs[1..];
    }
  }

  /** The sort's scores never increase. */
  lemma {:induction false} SortSorted(cs: seq<Candidate>)
    ensures NonIncreasing(SortByScore(cs))
  {
    if |cs| > 0 {
      SortSorted(cs[1..]);
      InsertSorted(cs[0], SortByScore(cs[1..]));
    }
  }

  lemma {:induction false} InsertKeepsDistinct(c: Candidate, s: seq<Candidate>)
    requires DistinctPos(s)
    requires forall x :: x in s ==> x.pos != c.pos
    ensures DistinctPos(Insert(c, s))
  {
    if |s| == 0 || c.score >= s[0].score {
    } else {
      InsertKeepsDistinct(c, s[1..]);
      InsertPermutes(c, s[1..]);
      var rest := Insert(c, s[1..]);
      assert s == [s[0]] + s[1..];
      forall k | 0 <= k < |rest| ensures rest[k].pos != s[0].pos {
        assert rest[k] in multiset(s[1..]) + multiset{c};
      }
    }
  }

  lemma {:induction false} SortKeepsDistinct(cs: seq<Candidate>)
    requires DistinctPos(cs)
    ensures DistinctPos(SortByScore(cs))
  {
    if |cs| > 0 {
      SortKeepsDistinct(cs[1..]);
      SortPermutes(cs[1..]);
      var sortedRest := SortByScore(cs[1..]);
      forall x | x in sortedRest ensures x.pos != cs[0].pos {
        assert x in multiset(cs[1..]);
      }
      InsertKeepsDistinct(cs[0], sortedRest);
    }
  }

  // ---------------------------------------------------------------------------
  // head(maxResults) and formatting

  /** The number of rows `df.head(count)` keeps out of `n`; a negative count drops rows from the end. */
  function HeadLen(n: nat, count: int): nat {
    if count >= 0 then (if count < n then count else n)
    else if n + count > 0 then n + count
    else 0
  }

  function Head(cs: seq<Candidate>, count: int): seq<Candidate> {
    cs[..HeadLen(|cs|, count)]
  }

  /** The scored catalog after both filters. */
  function Survivors(catalog: seq<Row>, scores: seq<real>, query: string): seq<Candidate>
    requires |scores| == |catalog|
  {
    ApplyFilters(Tabulate(catalog, scores), DurationConstraint(query), TestTypes(query))
  }

  /** The ranked, truncated survivors before formatting. */
  function TopResults(catalog: seq<Row>, scores: seq<real>, query: string, maxResults: int): seq<Candidate>
    requires |scores| == |catalog|
  {
    Head(SortByScore(Survivors(catalog, scores, query)), maxResults)
  }

  /** The response entry for a row; the duration gets the " minutes" suffix. */
  function Format(c: Candidate): Recommendation {
    Recommendation(c.row.name, c.row.url, c.row.remoteTesting, c.row.adaptiveIrt,
                   c.row.duration + " minutes", c.row.testType)
  }

  /** The recommendations for a query, given the similarity score of every catalog row. */
  function Recommend(catalog: seq<Row>, scores: seq<real>, query: string,
                     maxResults: int := DefaultMaxResults): seq<Recommendation>
    requires |scores| == |catalog|
  {
    var top := TopResults(catalog, scores, query, maxResults);
    seq(|top|, i requires 0 <= i < |top| => Format(top[i]))
  }

  /** The two constraints the request path reads off the query: the duration limit and the type list. */
  method ExtractConstraints(query: string) returns (durationConstraint: Option<nat>, testTypes: seq<string>)
    ensures durationConstraint == DurationConstraint(query)
    ensures testTypes == TestTypes(query)
  {
    durationConstraint := None;
    var durationMatch := SearchNumberBefore(query, QueryDurationKeyword);
    if durationMatch.Some? {
      durationConstraint := Some(DigitsValue(durationMatch.value));
    }

    var lower := Lower(query);
    testTypes := [];
    if Contains(lower, "cognitive") {
      testTypes := testTypes + ["Cognitive"];
    }
    if Contains(lower, "personality") {
      testTypes := testTypes + ["Personality"];
    }
    if MentionsSkill(lower) {
      testTypes := testTypes + ["Skills"];
    }
  }

  /** The loop that turns each kept row into its response entry, in order. */
  method FormatAll(topResults: seq<Candidate>) returns (recommendations: seq<Recommendation>)
    ensures |recommendations| == |topResults|
    ensures forall k :: 0 <= k < |topResults| ==> recommendations[k] == Format(topResults[k])
  {
    recommendations := [];
    for i := 0 to |topResults|
      invariant |recommendations| == i
      invariant forall k :: 0 <= k < i ==> recommendations[k] == Format(topResults[k])
    {
      recommendations := recommendations + [Format(topResults[i])];
    }
  }

  /** The masks of the request path, each applied only when its constraint is truthy. */
  method FilterTable(table: seq<Candidate>, durationConstraint: Option<nat>, testTypes: seq<string>)
    returns (resultDf: seq<Candidate>)
    ensures resultDf == ApplyFilters(table, durationConstraint, testTypes)
  {
    resultDf := table;
    if durationConstraint.Some? && durationConstraint.value != 0 {
      resultDf := FilterByDuration(resultDf, durationConstraint.value);
    }
    if |testTypes| > 0 {
      resultDf := FilterByType(resultDf, testTypes);
    }
  }

  /**
   * The request path: extract the duration constraint and the type list, build the
   * scored table, filter it, sort it, take the head and format each row. Its result is
   * the specified one for the tie order `SortByScore` chooses.
   */
  method FindRelevantAssessments(catalog: seq<Row>, scores: seq<real>, query: string,
                                 maxResults: int := DefaultMaxResults)
    returns (recommendations: seq<Recommendation>)
    requires |scores| == |catalog|
    ensures recommendations == Recommend(catalog, scores, query, maxResults)
  {
    var durationConstraint, testTypes := ExtractConstraints(query);
    var resultDf := FilterTable(Tabulate(catalog, scores), durationConstraint, testTypes);
    resultDf := SortByScore(resultDf);
    var topResults := Head(resultDf, maxResults);
    assert topResults == TopResults(catalog, scores, query, maxResults);
    recommendations := FormatAll(topResults);
  }

  // ---------------------------------------------------------------------------
  // Properties of the pipeline

  /** A candidate survives exactly when it is a scored catalog row that passes both filters. */
  lemma SurvivorIff(catalog: seq<Row>, scores: seq<real>, query: string, c: Candidate)
    requires |scores| == |catalog|
    ensures c in Survivors(catalog, scores, query) <==>
      && c.pos < |catalog|
      && c.row == catalog[c.pos]
      && c.score == scores[c.pos]
      && DurationAdmits(DurationConstraint(query), c.row.duration)
      && TypeAdmits(TestTypes(query), c.row.testType)
  {
    var t := Tabulate(catalog, scores);
    ApplyFiltersMembers(t, DurationConstraint(query), TestTypes(query));
    if c.pos < |catalog| && c.row == catalog[c.pos] && c.score == scores[c.pos] {
      assert t[c.pos] == c;
    }
  }

  /**
   * With a non-zero constraint D, every survivor's duration is at most D; a row whose
   * duration is not a number counts as 999, so it survives only when D is at least 999.
   */
  lemma DurationFilterSound(catalog: seq<Row>, scores: seq<real>, query: string, c: Candidate)
    requires |scores| == |catalog|
    requires DurationConstraint(query).Some? && DurationConstraint(query).value != 0
    requires c in Survivors(catalog, scores, query)
    ensures IsDigitString(c.row.duration) ==> DigitsValue(c.row.duration) <= DurationConstraint(query).value
    ensures !IsDigitString(c.row.duration) ==> DurationConstraint(query).value >= UnknownDurationValue
  {
    SurvivorIff(catalog, scores, query, c);
  }

  /** A row dropped while it passes the type filter was dropped for its duration. */
  lemma DurationFilterComplete(catalog: seq<Row>, scores: seq<real>, query: string, i: nat)
    requires |scores| == |catalog| && i < |catalog|
    requires TypeAdmits(TestTypes(query), catalog[i].testType)
    requires Candidate(i, catalog[i], scores[i]) !in Survivors(catalog, scores, query)
    ensures DurationConstraint(query).Some? && DurationConstraint(query).value != 0
    ensures DurationNum(catalog[i].duration) > DurationConstraint(query).value
  {
    SurvivorIff(catalog, scores, query, Candidate(i, catalog[i], scores[i]));
  }

  /** A constraint of 0 (or none) keeps every row that passes the type filter. */
  lemma FalsyConstraintKeepsAll(catalog: seq<Row>, scores: seq<real>, query: string, i: nat)
    requires |scores| == |catalog| && i < |catalog|
    requires DurationConstraint(query).None? || DurationConstraint(query).value == 0
    ensures Candidate(i, catalog[i], scores[i]) in Survivors(catalog, scores, query) <==>
      TypeAdmits(TestTypes(query), catalog[i].testType)
  {
    SurvivorIff(catalog, scores, query, Candidate(i, catalog[i], scores[i]));
  }

  /** When the query names a type, every survivor has one of the named types. */
  lemma TypeFilterSound(catalog: seq<Row>, scores: seq<real>, query: string, c: Candidate)
    requires |scores| == |catalog|
    requires |TestTypes(query)| > 0
    requires c in Survivors(catalog, scores, query)
    ensures c.row.testType in TestTypes(query)
  {
    SurvivorIff(catalog, scores, query, c);
  }

  lemma TabulateDistinct(catalog: seq<Row>, scores: seq<real>)
    requires |scores| == |catalog|
    ensures DistinctPos(Tabulate(catalog, scores))
  {
  }

  /**
   * The length of the ranked result is what `head` keeps of the survivors: the smaller
   * of `maxResults` and the number of survivors when `maxResults` is not negative.
   */
  lemma TopResultsLength(catalog: seq<Row>, scores: seq<real>, query: string, maxResults: int)
    requires |scores| == |catalog|
    ensures var n := |Survivors(catalog, scores, query)|;
      && |TopResults(catalog, scores, query, maxResults)| == HeadLen(n, maxResults)
      && (maxResults >= 0 ==>
            |TopResults(catalog, scores, query, maxResults)| == if maxResults < n then maxResults else n)
  {
    var survivors := Survivors(catalog, scores, query);
    assert |SortByScore(survivors)| == |survivors| by {
      SortPermutes(survivors);
      assert |multiset(SortByScore(survivors))| == |multiset(survivors)|;
    }
  }

  /** Scores never increase along the ranked result. */
  lemma TopResultsSorted(catalog: seq<Row>, scores: seq<real>, query: string, maxResults: int)
    requires |scores| == |catalog|
    ensures NonIncreasing(TopResults(catalog, scores, query, maxResults))
  {
    var sorted := SortByScore(Survivors(catalog, scores, query));
    SortSorted(Survivors(catalog, scores, query));
    assert TopResults(catalog, scores, query, maxResults) == sorted[..HeadLen(|sorted|, maxResults)];
  }

  /** The ranked result lists survivors only, each catalog row at most once. */
  lemma TopResultsFromSurvivors(catalog: seq<Row>, scores: seq<real>, query: string, maxResults: int)
    requires |scores| == |catalog|
    ensures var top := TopResults(catalog, scores, query, maxResults);
            var survivors := Survivors(catalog, scores, query);
      && DistinctPos(top)
      && multiset(top) <= multiset(survivors)
      && (forall c :: c in top ==> c in survivors)
  {
    var survivors := Survivors(catalog, scores, query);
    var sorted := SortByScore(survivors);
    var m := HeadLen(|sorted|, maxResults);
    var top := sorted[..m];
    assert top == TopResults(catalog, scores, query, maxResults);
    TabulateDistinct(catalog, scores);
    ApplyFiltersKeepsDistinct(Tabulate(catalog, scores), DurationConstraint(query), TestTypes(query));
    SortKeepsDistinct(survivors);
    SortPermutes(survivors);
    assert sorted == top + sorted[m..];
    assert multiset(sorted) == multiset(top) + multiset(sorted[m..]);
    forall c | c in top ensures c in survivors {
      assert c in multiset(sorted);
    }
  }

  /** Every survivor the cut leaves out scores no higher than anything kept. */
  lemma TopResultsAreBest(catalog: seq<Row>, scores: seq<real>, query: string, maxResults: int)
    requires |scores| == |catalog|
    ensures var top := TopResults(catalog, scores, query, maxResults);
      forall c, t :: c in Survivors(catalog, scores, query) && c !in top && t in top ==> t.score >= c.score
  {
    var survivors := Survivors(catalog, scores, query);
    var sorted := SortByScore(survivors);
    var m := HeadLen(|sorted|, maxResults);
    var top := sorted[..m];
    assert top == TopResults(catalog, scores, query, maxResults);
    SortPermutes(survivors);
    SortSorted(survivors);
    forall c, t | c in survivors && c !in top && t in top ensures t.score >= c.score {
      assert c in multiset(sorted);
      var p :| 0 <= p < |sorted| && sorted[p] == c;
      var q :| 0 <= q < |top| && top[q] == t;
      assert p >= m;
    }
  }

  /**
   * Every recommendation is a formatted catalog row; when the catalog's names are
   * distinct, so are the recommended names.
   */
  lemma RecommendedNamesDistinct(catalog: seq<Row>, scores: seq<real>, query: string, maxResults: int)
    requires |scores| == |catalog|
    requires DistinctNames(catalog)
    ensures var recs := Recommend(catalog, scores, query, maxResults);
      forall i, j :: 0 <= i < j < |recs| ==> recs[i].name != recs[j].name
  {
    var top := TopResults(catalog, scores, query, maxResults);
    var recs := Recommend(catalog, scores, query, maxResults);
    TopResultsFromSurvivors(catalog, scores, query, maxResults);
    forall i, j | 0 <= i < j < |recs| ensures recs[i].name != recs[j].name {
      SurvivorIff(catalog, scores, query, top[i]);
      SurvivorIff(catalog, scores, query, top[j]);
      assert top[i].pos != top[j].pos;
    }
  }

  /**
   * The response has one entry per kept row, at most `maxResults` of them (for a
   * non-negative `maxResults`); entry k is the formatted catalog row of the k-th kept
   * candidate, and that row passes both filters.
   */
  lemma RecommendationShape(catalog: seq<Row>, scores: seq<real>, query: string, maxResults: int)
    requires |scores| == |catalog|
    ensures |Recommend(catalog, scores, query, maxResults)| == HeadLen(|Survivors(catalog, scores, query)|, maxResults)
    ensures maxResults >= 0 ==> |Recommend(catalog, scores, query, maxResults)| <= maxResults
    ensures var recs := Recommend(catalog, scores, query, maxResults);
            var top := TopResults(catalog, scores, query, maxResults);
      && |top| == |recs|
      && forall k :: 0 <= k < |recs| ==> top[k].pos < |catalog| && RowBehind(catalog, query, recs[k], top[k].pos)
  {
    var top := TopResults(catalog, scores, query, maxResults);
    var recs := Recommend(catalog, scores, query, maxResults);
    TopResultsLength(catalog, scores, query, maxResults);
    TopResultsFromSurvivors(catalog, scores, query, maxResults);
    forall k | 0 <= k < |recs| ensures top[k].pos < |catalog| && RowBehind(catalog, query, recs[k], top[k].pos) {
      assert top[k] in top;
      SurvivorIff(catalog, scores, query, top[k]);
    }
  }

  /** Entry `r` is the formatted catalog row `p`, and that row passes both filters of the query. */
  predicate RowBehind(catalog: seq<Row>, query: string, r: Recommendation, p: nat)
    requires p < |catalog|
  {
    var row := catalog[p];
    && r.name == row.name
    && r.url == row.url
    && r.remoteTesting == row.remoteTesting
    && r.adaptiveIrt == row.adaptiveIrt
    && r.duration == row.duration + " minutes"
    && r.testType == row.testType
    && DurationAdmits(DurationConstraint(query), row.duration)
    && TypeAdmits(TestTypes(query), row.testType)
  }
}
