/** A catalog row of the assessment table (one row of the pandas DataFrame). */
module Catalog {

  /**
   * One assessment product. Every column is a string, as the scraper and the
   * built-in fixture produce them: the two flags are "Yes" or "No", the duration
   * is a digit string or "Unknown", the test type is "Cognitive", "Personality",
   * "Skills" or "Unknown".
   */
  datatype Row = Row(
    name: string,
    url: string,
    description: string,
    remoteTesting: string,
    adaptiveIrt: string,
    duration: string,
    testType: string)

  /** The fixed twelve-row development catalog used when no scraped data is available. */
  function MockCatalog(): seq<Row> {
    [
      Row(
        "Java Coding Assessment",
        "https://www.shl.com/solutions/products/coding-assessment/",
        "Evaluates Java programming skills with practical coding challenges. Duration: 40 minutes. Suitable for all development roles.",
        "Yes",
        "Yes",
        "40",
        "Skills"),
      Row(
        "Python Programming Test",
        "https://www.shl.com/solutions/products/python-test/",
        "Comprehensive assessment of Python skills including data structures and algorithms. Duration: 45 minutes.",
        "Yes",
        "No",
        "45",
        "Skills"),
      Row(
        "SQL Database Skills",
        "https://www.shl.com/solutions/products/sql-assessment/",
        "Tests SQL query writing and database knowledge. Duration: 30 minutes.",
        "Yes",
        "No",
        "30",
        "Skills"),
      Row(
        "JavaScript Proficiency",
        "https://www.shl.com/solutions/products/javascript-test/",
        "Evaluates JavaScript programming skills including DOM manipulation and async programming. Duration: 35 minutes.",
        "Yes",
        "No",
        "35",
        "Skills"),
      Row(
        "Full Stack Developer Assessment",
        "https://www.shl.com/solutions/products/fullstack-assessment/",
        "Comprehensive test covering front-end, back-end, and database skills. Includes JavaScript, Python, SQL components. Duration: 60 minutes.",
        "Yes",
        "Yes",
        "60",
        "Skills"),
      Row(
        "Cognitive Ability Test",
        "https://www.shl.com/solutions/products/cognitive-test/",
        "Measures reasoning abilities, problem-solving, and learning aptitude. Duration: 25 minutes.",
        "Yes",
        "Yes",
        "25",
        "Cognitive"),
      Row(
        "Personality Profile",
        "https://www.shl.com/solutions/products/personality-assessment/",
        "Evaluates work style, team fit, and behavioral tendencies. Duration: 20 minutes.",
        "Yes",
        "No",
        "20",
        "Personality"),
      Row(
        "Communication Skills Assessment",
        "https://www.shl.com/solutions/products/communication-assessment/",
        "Evaluates written and verbal communication abilities. Duration: 30 minutes. Good for client-facing roles.",
        "Yes",
        "No",
        "30",
        "Skills"),
      Row(
        "Data Analyst Assessment",
        "https://www.shl.com/solutions/products/data-analyst-test/",
        "Evaluates data manipulation, visualization, and statistical analysis skills. Includes SQL and Python components. Duration: 45 minutes.",
        "Yes",
        "Yes",
        "45",
        "Skills"),
      Row(
        "Leadership Potential Assessment",
        "https://www.shl.com/solutions/products/leadership-assessment/",
        "Identifies leadership qualities, decision-making styles, and management potential. Duration: 35 minutes.",
        "Yes",
        "Yes",
        "35",
        "Personality"),
      Row(
        "Business Collaboration Assessment",
        "https://www.shl.com/solutions/products/business-collaboration/",
        "Measures ability to work effectively with business teams, communicate technical concepts, and understand business requirements. Duration: 30 minutes.",
        "Yes",
        "No",
        "30",
        "Skills"),
      Row(
        "Programming Logic Test",
        "https://www.shl.com/solutions/products/programming-logic/",
        "Language-agnostic test of programming logic and algorithm design. Duration: 25 minutes.",
        "Yes",
        "Yes",
        "25",
        "Cognitive")
    ]
  }

  /** No two rows share a name. */
  predicate DistinctNames(catalog: seq<Row>) {
    forall i, j :: 0 <= i < j < |catalog| ==> catalog[i].name != catalog[j].name
  }
}
