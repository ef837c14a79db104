/**
 * The hard constraints read off a query: a maximum duration and the list of
 * requested test types.
 */
module Constraints {
  import opened Wrappers
  import opened Text

  /** `(\d+)\s*min`, searched case-insensitively; it also matches inside "mins" and "minutes". */
  const QueryDurationKeyword := "min"

  /** A query mentioning any of these asks for the "Skills" type. */
  const SkillKeywords: seq<string> := ["java", "python", "sql", "javascript", "coding"]

  /**
   * The integer value of the digit group of the first duration match in the query, or None.
   * Zero is a possible result ("0 min"); the caller treats it as no constraint.
   */
  function DurationConstraint(query: string): Option<nat> {
    match SearchNumberBefore(query, QueryDurationKeyword)
    case None => None
    case Some(digits) => Some(DigitsValue(digits))
  }

  /**
   * The constraint is None exactly when nothing matches, and otherwise the value of the
   * digit run at the leftmost match.
   */
  lemma DurationConstraintSpec(query: string)
    ensures var d := DurationConstraint(query);
      && (d.None? <==> forall k :: 0 <= k < |query| ==> !MatchAt(query, k, QueryDurationKeyword))
      && (d.Some? ==> exists j: nat :: && FirstMatch(query, j, QueryDurationKeyword)
                                       && IsDigitString(query[j..j + DigitRunLen(query, j)])
                                       && d.value == DigitsValue(query[j..j + DigitRunLen(query, j)]))
  {
    SearchNumberBeforeSpec(query, QueryDurationKeyword);
  }

  /** The lower-cased query contains at least one of the skill keywords. */
  predicate MentionsSkill(lower: string) {
    exists k :: 0 <= k < |SkillKeywords| && Contains(lower, SkillKeywords[k])
  }

  /**
   * The test types the query asks for, in the order Cognitive, Personality, Skills.
   * An empty list means no type restriction.
   */
  function TestTypes(query: string): seq<string> {
    var lower := Lower(query);
    (if Contains(lower, "cognitive") then ["Cognitive"] else [])
    + (if Contains(lower, "personality") then ["Personality"] else [])
    + (if MentionsSkill(lower) then ["Skills"] else [])
  }

  /**
   * Each type is requested exactly when its keyword test on the lower-cased query
   * succeeds; nothing else is ever requested and no type is listed twice.
   */
  lemma TestTypesSpec(query: string)
    ensures var types := TestTypes(query);
            var lower := Lower(query);
      && ("Cognitive" in types <==> Contains(lower, "cognitive"))
      && ("Personality" in types <==> Contains(lower, "personality"))
      && ("Skills" in types <==> MentionsSkill(lower))
      && (forall t :: t in types ==> t == "Cognitive" || t == "Personality" || t == "Skills")
      && (forall i, j :: 0 <= i < j < |types| ==> types[i] != types[j])
  {
  }

  /** Containment is by substring, so a query that says "javascript" also says "java". */
  lemma JavaScriptMentionsJava(query: string)
    requires Contains(Lower(query), "javascript")
    ensures Contains(Lower(query), "java")
  {
    assert OccursAt("javascript", "java", 0);
    ContainsTransitive(Lower(query), "javascript", "java");
  }

  /** "min" is a prefix of "minutes": wherever `<digits><spaces>minutes` matches, the query pattern matches too. */
  lemma MinutesMatchIsMinMatch(s: string, i: nat)
    requires MatchAt(s, i, "minutes")
    ensures MatchAt(s, i, QueryDurationKeyword)
  {
    var p := i + DigitRunLen(s, i) + SpaceRunLen(s, i + DigitRunLen(s, i));
    forall k | 0 <= k < |QueryDurationKeyword| ensures LowerChar(s[p + k]) == QueryDurationKeyword[k] {
      assert QueryDurationKeyword[k] == "minutes"[k];
    }
  }

  /** The constraint is the value of the digit run at the leftmost match. */
  lemma ConstraintAtFirstMatch(query: string, j: nat)
    requires FirstMatch(query, j, QueryDurationKeyword)
    ensures AllDigits(query[j..j + DigitRunLen(query, j)])
    ensures DurationConstraint(query) == Some(DigitsValue(query[j..j + DigitRunLen(query, j)]))
  {
    FirstMatchUnique(query, j, SearchFrom(query, 0, QueryDurationKeyword).value, QueryDurationKeyword);
    DigitRunLenCovers(query, j);
    assert SearchNumberBefore(query, QueryDurationKeyword) == Some(query[j..j + DigitRunLen(query, j)]);
  }

  /** The zero value of a constraint is exactly a digit run of zeros ("0 min", "00 minutes"). */
  lemma ZeroConstraintIsAllZeros(query: string, j: nat)
    requires FirstMatch(query, j, QueryDurationKeyword)
    ensures DurationConstraint(query).Some?
    ensures DurationConstraint(query).value == 0 <==>
      forall k :: j <= k < j + DigitRunLen(query, j) ==> query[k] == '0'
  {
    ConstraintAtFirstMatch(query, j);
    var n := DigitRunLen(query, j);
    var g := query[j..j + n];
    DigitsValueZero(g);
    assert forall k :: j <= k < j + n ==> query[k] == g[k - j];
  }

  /** "SQL 9min": the whitespace before "min" is optional, so the query asks for at most 9 minutes. */
  lemma DurationExample()
    ensures DurationConstraint("SQL 9min") == Some(9)
  {
    DurationExampleMatch();
    ConstraintAtFirstMatch("SQL 9min", 4);
    assert "SQL 9min"[4..5] == "9";
  }

  /** The leftmost match in "SQL 9min" is the digit at position 4. */
  lemma DurationExampleMatch()
    ensures FirstMatch("SQL 9min", 4, QueryDurationKeyword)
  {
    DigitRunExact("SQL 9min", 4, 1);
    SpaceRunExact("SQL 9min", 5, 0);
    assert StartsWithIgnoreCase("SQL 9min", 5, QueryDurationKeyword);
  }

  /** The same query asks for the Skills type only; "SQL" is matched after lower-casing. */
  lemma TypesExample()
    ensures TestTypes("SQL 9min") == ["Skills"]
  {
    assert Lower("SQL 9min") == "sql 9min";
    assert OccursAt("sql 9min", "sql", 0);
    assert Contains("sql 9min", SkillKeywords[2]);
  }
}
