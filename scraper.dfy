/**
 * The attribute derivation the catalog scraper applies to each product card's
 * description text (remote flag, adaptive flag, duration, test type).
 */
module Scraper {
  import opened Wrappers
  import opened Text
  import opened Catalog

  /** The four columns the scraper derives from a description. */
  datatype Attributes = Attributes(
    remoteTesting: string,
    adaptiveIrt: string,
    duration: string,
    testType: string)

  /** `(\d+)\s*minutes`, searched case-insensitively. */
  const ScrapeDurationKeyword := "minutes"

  /**
   * Derive the attributes of a description. The flags are "Yes" or "No" by
   * keyword containment in the lower-cased text; the duration is the digit run
   * of the first `<digits><spaces>minutes`, or "Unknown"; the test type is the
   * first of cognitive, personality, skills that the text mentions, or "Unknown".
   */
  function DeriveAttributes(description: string): (a: Attributes)
    ensures var lower := Lower(description);
      && (a.remoteTesting == "Yes" <==> Contains(lower, "remote"))
      && (a.remoteTesting == "Yes" || a.remoteTesting == "No")
      && (a.adaptiveIrt == "Yes" <==> Contains(lower, "adaptive") || Contains(lower, "irt"))
      && (a.adaptiveIrt == "Yes" || a.adaptiveIrt == "No")
    ensures a.duration == ScrapedDuration(description)
    ensures var lower := Lower(description);
      && (a.testType == "Cognitive" <==> Contains(lower, "cognitive"))
      && (a.testType == "Personality" <==> !Contains(lower, "cognitive") && Contains(lower, "personality"))
      && (a.testType == "Skills" <==>
            !Contains(lower, "cognitive") && !Contains(lower, "personality") && Contains(lower, "skills"))
      && (a.testType == "Unknown" <==>
            !Contains(lower, "cognitive") && !Contains(lower, "personality") && !Contains(lower, "skills"))
  {
    var lower := Lower(description);
    var remote := if Contains(lower, "remote") then "Yes" else "No";
    var adaptive := if Contains(lower, "adaptive") || Contains(lower, "irt") then "Yes" else "No";
    var testType :=
      if Contains(lower, "cognitive") then "Cognitive"
      else if Contains(lower, "personality") then "Personality"
      else if Contains(lower, "skills") then "Skills"
      else "Unknown";
    Attributes(remote, adaptive, ScrapedDuration(description), testType)
  }

  /** The digit group of the first duration match, or "Unknown" when the description has none. */
  function ScrapedDuration(description: string): (d: string)
    ensures d == "Unknown" || IsDigitString(d)
  {
    match SearchNumberBefore(description, ScrapeDurationKeyword)
    case Some(digits) => digits
    case None => "Unknown"
  }

  /**
   * The duration is "Unknown" exactly when no `<digits><spaces>minutes` occurs; otherwise
   * it is the digit run of the leftmost occurrence.
   */
  lemma DeriveDuration(description: string)
    ensures var d := ScrapedDuration(description);
      && (d == "Unknown" <==>
            forall k :: 0 <= k < |description| ==> !MatchAt(description, k, ScrapeDurationKeyword))
      && (d != "Unknown" ==>
            exists j: nat :: FirstMatch(description, j, ScrapeDurationKeyword) &&
                             d == description[j..j + DigitRunLen(description, j)])
  {
    var r := SearchNumberBefore(description, ScrapeDurationKeyword);
    if r.Some? {
      assert r.value[0] != "Unknown"[0];
    }
    SearchNumberBeforeSpec(description, ScrapeDurationKeyword);
  }

  /** The record the scraper appends for one card, from the card's name, link and description text. */
  function ScrapedRow(name: string, url: string, description: string): (r: Row)
    ensures r.name == name && r.url == url && r.description == description
    ensures var a := DeriveAttributes(description);
      && r.remoteTesting == a.remoteTesting
      && r.adaptiveIrt == a.adaptiveIrt
      && r.duration == a.duration
      && r.testType == a.testType
    ensures IsDigitString(r.duration) || r.duration == "Unknown"
  {
    var a := DeriveAttributes(description);
    Row(name, url, description, a.remoteTesting, a.adaptiveIrt, a.duration, a.testType)
  }

  /** "irt" is tested as a substring, so any word containing it ("virtual") sets the adaptive flag. */
  lemma IrtMatchesInsideWords()
    ensures DeriveAttributes("Virtual interview").adaptiveIrt == "Yes"
  {
    assert Lower("Virtual interview") == "virtual interview";
    assert OccursAt("virtual interview", "irt", 1);
  }

  /** One description through the derivation: the remote flag and the type that wins. */
  lemma DeriveExample()
    ensures var a := DeriveAttributes("Remote cognitive");
      a.remoteTesting == "Yes" && a.testType == "Cognitive"
  {
    var lower := "remote cognitive";
    assert Lower("Remote cognitive") == lower;
    assert OccursAt(lower, "remote", 0);
    OccursInMiddle("remote ", "cognitive", "");
    assert "remote " + "cognitive" + "" == lower;
  }

}
