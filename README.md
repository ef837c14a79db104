# SHL assessment recommender: a Dafny model of its ranking core

The recommender answers a free-text hiring query with catalog assessments. Its core is in `app.py`:

- **Constraint extraction.** It reads two hard constraints off the query. The first is a duration limit, from the first `(\d+)\s*min` match, case-insensitive. The second is a list of requested test types, found by keyword containment in the lower-cased query.
- **Ranking.** It scores every catalog row by similarity to the query. It drops the rows that break a constraint and sorts the survivors by score, highest first. It keeps the first `max_results` (default 10) and formats each kept row as a response entry.
- **Evaluation.** The evaluation endpoint runs this for every benchmark query. It scores the first three recommended names against the query's ground-truth list by Recall@3 and AP@3, then averages both scores over the queries.
- **Scraper.** The scraper derives a catalog row's remote flag, adaptive flag, duration and test type from the row's description text.

The model has seven modules:

- `Wrappers` (`wrappers.dfy`): `Option`.
- `Text` (`text.dfy`): the Python string semantics the code relies on. This covers `str.lower()`, `needle in hay`, `int()` of a digit string, and `re.search(r'(\d+)\s*kw', s, re.IGNORECASE)`. A match is modelled as the leftmost position where a greedy digit run, then a greedy whitespace run, then the keyword occur. Lemmas show that the greedy split is the only way the pattern can match there, so `group(1)` is exactly the maximal digit run.
- `Catalog` (`catalog.dfy`): the catalog row record and the twelve rows of `create_mock_data`.
- `Scraper` (`scraper.dfy`): the description-to-attributes derivation of `scrape_shl_catalog`.
- `Constraints` (`constraints.dfy`): the duration constraint and the test-type list of a query.
- `Ranking` (`ranking.dfy`): the filter / sort / head / format pipeline of `find_relevant_assessments`. It is written twice:
  - as specification functions (`Survivors`, `TopResults`, `Recommend`);
  - as the method `FindRelevantAssessments`, which builds the lists step by step as the code does and is proved equal to `Recommend`.
- `Metrics` (`metrics.dfy`): Recall@3, AP@3 and their means. They are pure functions. The accumulator loops of `evaluate` are methods proved equal to these functions.

Similarity scores are an input: one `real` per catalog row, in catalog order. A candidate row carries its DataFrame index (`pos`), so "distinct catalog rows" means distinct positions.

### Where the specification and the code disagree (the model follows the code)

- **`top_k` validation.** The specification rejects a non-positive `top_k` with `InvalidTopK`. The code has no such check; it calls `DataFrame.head(max_results)`. `HeadLen` models pandas' `head` for every integer, including negative ones, which drop rows from the end.
- **Tie order.** The specification calls the sort stable. The code uses pandas' default `sort_values`, which is quicksort and not stable. `SortByScore` is one concrete order: a stable insertion sort, which keeps tied rows in table order. That order is built into `Ranking.TopResults`, `Ranking.Recommend` and `Metrics.EvaluationOf` with its parts `QueryNames` and `AnsweredNames`, and so into the equalities proved for the methods `Ranking.FindRelevantAssessments` and `Metrics.Evaluate`. They are exact for the stable tie order only. When pandas orders tied rows differently, the program's first three names, and so its Recall@3 and AP@3, can differ from them. Every other property of the ranking holds for every order of equal scores: the result is non-increasing, it is a sub-multiset of the survivors, it keeps the best rows, and its length, fields and bounds are as stated. These lemmas are proved about `TopResults`, but their proofs use the sort only through `SortPermutes` (the same rows), `SortSorted` (non-increasing scores) and `SortKeepsDistinct` (no row twice). Every non-increasing permutation of the survivors has these three properties, so the lemmas' proofs carry over to it unchanged.
- **Ground truth as a list.** The specification describes the ground truth as a set, and intersects it with the top names. The code counts every listed name that is in the ground-truth list, so a repeated name counts each time. `Metrics.DuplicateNamesExceedOne` shows Recall@3 and AP@3 of 3 in that case. The [0, 1] bounds are therefore proved for distinct names, which a catalog with distinct names guarantees (`Metrics.EvaluationBounds`).
- **Unknown durations.** The specification treats a non-numeric duration as infinitely long, so such a row is always dropped when a limit is set. The code counts it as 999 minutes, so it survives a limit of 999 or more (`Ranking.DurationFilterSound`).
- **Skill keywords.** The specification allows further generic skill keywords besides java, python, sql, javascript and coding. The code has exactly those five (`Constraints.SkillKeywords`).
- **Flags and durations are strings.** The specification types them as booleans and integers. The code stores the flags as `"Yes"`/`"No"` and the duration as a digit string or `"Unknown"`, and the model does the same.

## Model

| member | source | states |
|---|---|---|
| Text.Contains | app.py:62-63 | `needle in hay` is true exactly when the needle occurs at some position of the haystack |
| Text.ContainsTransitive | app.py:263 | a haystack containing a word contains every substring of that word |
| Text.MatchAt | app.py:253 | definition of the match the engine reports at one position (greedy digits, greedy whitespace, then the keyword); its meaning is stated by GreedySplitIsOnlySplit, SplitIsGreedy and MatchExtendsLeft |
| Text.GreedySplitIsOnlySplit | app.py:253 | `\d+\s*kw` can match at a position exactly when the greedy digit run, greedy whitespace run and keyword match there, and every way it matches is that greedy split |
| Text.SplitIsGreedy | app.py:253 | any split of digits and whitespace under which the pattern matches uses the maximal digit run and the maximal whitespace run |
| Text.MatchExtendsLeft | app.py:253 | a match that starts after a digit extends to start at that digit too, so the leftmost match starts a maximal run |
| Text.SearchFrom | app.py:253 | the search returns the leftmost matching position at or after the start, or None when no later position matches |
| Text.SearchNumberBefore | app.py:253-255 | a reported group is a non-empty string of digits |
| Text.SearchNumberBeforeSpec | app.py:253-255 | the search returns None exactly when no position matches; otherwise it returns the digit run at the leftmost match |
| Text.SearchFindsMaximalRun | app.py:253-255 | the reported group is the first maximal digit run followed by optional whitespace and the keyword: it is preceded by a non-digit or the start, and followed by a non-digit |
| Text.FirstMatchUnique | app.py:253 | there is only one leftmost match |
| Text.DigitsValue | app.py:255 | definition of `int()` of a digit string, also the digit case of `to_numeric` at app.py:273; its properties are stated by DigitsValueOfDigits and DigitsValueZero |
| Text.DigitsValueOfDigits | app.py:255 | `int(str(n)) == n` for every natural number |
| Text.DigitsValueZero | app.py:255 | a digit string has value 0 exactly when every digit is '0' |
| Text.Lower | app.py:259 | lower-casing keeps the length of the string |
| Text.LowerChar | app.py:259 | definition of lower-casing one character (ASCII letters only); used by Lower and by the case-insensitive keyword test |
| Text.LowerCharOfLetter | app.py:253 | only a letter and its upper-case twin lower-case to a given lower-case letter, so no digit or whitespace character does |
| Catalog.MockCatalog | app.py:91-204 | definition of the twelve-row development fixture, column for column; no lemma is proved about it |
| Scraper.DeriveAttributes | app.py:62-76 | remote is "Yes" iff the lower-cased description contains "remote", else "No"; adaptive is "Yes" iff it contains "adaptive" or "irt", else "No"; the duration is the scraped duration; the type is Cognitive, Personality, Skills or Unknown by the first keyword found in that order (each case an iff) |
| Scraper.ScrapedDuration | app.py:66-67 | the scraped duration is "Unknown" or a non-empty digit string |
| Scraper.DeriveDuration | app.py:66-67 | the scraped duration is "Unknown" exactly when no `<digits><spaces>minutes` occurs, case-insensitive; otherwise it is the digit run of the leftmost occurrence |
| Scraper.ScrapedRow | app.py:78-86 | the appended record keeps the card's name, link and description, and its remote, adaptive, duration and type columns are the derived attributes of the description; its duration is a digit string or "Unknown" |
| Scraper.IrtMatchesInsideWords | app.py:63 | "Virtual interview" is flagged adaptive, because "irt" occurs inside "virtual" |
| Scraper.DeriveExample | app.py:62-72 | "Remote cognitive" is flagged remote and typed Cognitive |
| Constraints.DurationConstraint | app.py:252-255 | definition of the duration constraint; its meaning is stated by DurationConstraintSpec and ConstraintAtFirstMatch |
| Constraints.DurationConstraintSpec | app.py:252-255 | the duration constraint is None exactly when `(\d+)\s*min` matches nowhere; otherwise it is the integer value of the digit run at the leftmost match |
| Constraints.ConstraintAtFirstMatch | app.py:253-255 | at the leftmost match position the constraint is the value of the digit run that starts there |
| Constraints.MinutesMatchIsMinMatch | app.py:253 | wherever `<digits><spaces>minutes` matches, `<digits><spaces>min` matches as well |
| Constraints.ZeroConstraintIsAllZeros | app.py:253-271 | the constraint is 0, which is falsy, exactly when the matched digit run is all zeros |
| Constraints.DurationExample | app.py:253-255 | "SQL 9min" gives the constraint 9 (the whitespace before "min" is optional) |
| Constraints.DurationExampleMatch | app.py:253 | the leftmost match in "SQL 9min" is at the digit, position 4 |
| Constraints.MentionsSkill | app.py:263 | definition of the skill-keyword test: some keyword of the five occurs in the lower-cased query; used by TestTypesSpec and JavaScriptMentionsJava |
| Constraints.TestTypes | app.py:258-264 | definition of the requested type list; its meaning is stated by TestTypesSpec |
| Constraints.TestTypesSpec | app.py:258-264 | "Cognitive" is requested iff the lower-cased query contains "cognitive"; "Personality" iff it contains "personality"; "Skills" iff it contains one of java, python, sql, javascript, coding; nothing else is requested and no type twice |
| Constraints.JavaScriptMentionsJava | app.py:263 | a query containing "javascript" also contains "java" |
| Constraints.TypesExample | app.py:258-264 | "SQL 9min" requests exactly the Skills type |
| Ranking.Tabulate | app.py:267-268 | definition of the scored table, one candidate per catalog row with its index and score; its properties are stated by TabulateDistinct and SurvivorIff |
| Ranking.Select | app.py:274-277 | definition of a boolean-mask selection; its meaning is stated by SelectMembers and SelectKeepsDistinct |
| Ranking.DurationAdmits | app.py:271-274 | definition of the duration test a row passes: no or a zero constraint, or a compared duration within it; used by ApplyFiltersMembers and SurvivorIff |
| Ranking.TypeAdmits | app.py:276-277 | definition of the type test a row passes: no requested type, or the row's type among them; used by ApplyFiltersMembers and SurvivorIff |
| Ranking.FilterByDuration | app.py:273-274 | definition of the duration mask; its effect is stated by ApplyFiltersMembers |
| Ranking.FilterByType | app.py:277 | definition of the type mask; its effect is stated by ApplyFiltersMembers |
| Ranking.SelectMembers | app.py:274-277 | a boolean mask keeps exactly the rows that satisfy it |
| Ranking.DurationNum | app.py:273 | definition of the compared duration (a digit string's value, otherwise 999); its effect is stated by DurationFilterSound and DurationFilterComplete |
| Ranking.ApplyFilters | app.py:271-277 | definition of the two filters; its meaning is stated by ApplyFiltersMembers and ApplyFiltersKeepsDistinct |
| Ranking.ApplyFiltersMembers | app.py:271-277 | a row passes the filters exactly when it passes the duration mask (only when the constraint is truthy) and the type mask (only when the list is non-empty) |
| Ranking.ApplyFiltersKeepsDistinct | app.py:271-277 | filtering keeps the rows distinct |
| Ranking.InsertPermutes | app.py:280 | insertion adds exactly the inserted candidate |
| Ranking.InsertSorted | app.py:280 | inserting into a non-increasing list keeps it non-increasing |
| Ranking.SortByScore | app.py:280 | definition of one descending order, stable among ties; its properties are stated by SortPermutes and SortSorted |
| Ranking.SortPermutes | app.py:280 | sorting by score is a permutation of its input |
| Ranking.SortSorted | app.py:280 | sorting by score leaves the scores non-increasing |
| Ranking.SortKeepsDistinct | app.py:280 | sorting keeps the rows distinct |
| Ranking.TabulateDistinct | app.py:267-268 | the scored table lists each catalog row once |
| Ranking.ExtractConstraints | app.py:252-264 | the request path's duration constraint and type list are the ones the query determines |
| Ranking.FilterTable | app.py:271-277 | the reassigned table is the scored table with the truthy constraints' masks applied |
| Ranking.FormatAll | app.py:286-295 | the response has one entry per kept row, in order, each one that row formatted |
| Ranking.FindRelevantAssessments | app.py:240-297 | the request path returns the specified recommendations for the catalog, scores, query and `max_results`, under the stable tie order of `SortByScore` |
| Ranking.SurvivorIff | app.py:267-277 | a candidate survives the filters exactly when it is a scored catalog row whose duration and type the query admits |
| Ranking.DurationFilterSound | app.py:271-274 | with a non-zero constraint D, a survivor with a numeric duration has duration at most D, and one with a non-numeric duration survives only if D is at least 999 |
| Ranking.DurationFilterComplete | app.py:271-274 | a row that passes the type filter but is dropped had a truthy constraint below its duration, a non-numeric duration counting as 999 |
| Ranking.FalsyConstraintKeepsAll | app.py:271 | with no constraint or a constraint of 0, a row survives exactly when it passes the type filter |
| Ranking.TypeFilterSound | app.py:276-277 | when the query names types, every survivor has one of them |
| Ranking.Head | app.py:283 | definition of `head`, the first HeadLen rows; its properties are stated by TopResultsLength |
| Ranking.Survivors | app.py:267-277 | definition of the filtered scored table; its meaning is stated by SurvivorIff |
| Ranking.TopResults | app.py:280-283 | definition of the sorted, cut survivors for the stable tie order; its properties are stated by TopResultsSorted, TopResultsFromSurvivors, TopResultsAreBest and TopResultsLength |
| Ranking.HeadLen | app.py:283 | definition of how many rows `head` keeps; its properties are stated by TopResultsLength |
| Ranking.Format | app.py:288-295 | definition of one response entry; its fields are stated by RecommendationShape |
| Ranking.Recommend | app.py:240-297 | definition of the response for the stable tie order; its properties are stated by RecommendationShape, RecommendedNamesDistinct and the TopResults lemmas |
| Ranking.TopResultsLength | app.py:283 | the result is as long as `head` keeps: the smaller of `max_results` and the number of survivors when `max_results` is not negative |
| Ranking.TopResultsSorted | app.py:280-283 | scores never increase along the result |
| Ranking.TopResultsFromSurvivors | app.py:280-283 | the result is a sub-multiset of the survivors, each catalog row at most once |
| Ranking.TopResultsAreBest | app.py:280-283 | no survivor left out of the result scores higher than any kept row |
| Ranking.RecommendedNamesDistinct | app.py:280-295 | over a catalog with distinct names, the recommended names are distinct |
| Ranking.RecommendationShape | app.py:280-295 | the response has `head`'s length of the survivors, at most `max_results` entries; entry k copies name, url, flags and type of the k-th kept catalog row, sets its duration to the row's duration + " minutes", and that row passes both filters |
| Metrics.RecNames | app.py:341 | definition of the first three recommended names; their properties are stated by QueryNamesDistinct |
| Metrics.RelevantCount | app.py:344 | the relevant count is at most the number of names, and it is zero exactly when no name is in the ground truth |
| Metrics.RelevantCountCongruent | app.py:344 | the count depends only on which names are in the ground truth |
| Metrics.RemoveFirst | app.py:344 | proof helper for RelevantCountAtMostTruth, not code of the source: removing one occurrence of a name shortens the ground-truth list by one and changes no other name's membership |
| Metrics.RelevantCountAtMostTruth | app.py:344-345 | distinct names hit at most as many ground-truth entries as there are |
| Metrics.Recall | app.py:345 | definition of Recall@3; its properties are stated by RecallBounds, ExampleScores and AllRelevantIsPerfect |
| Metrics.RecallBounds | app.py:344-345 | with distinct names Recall@3 lies in [0, 1] |
| Metrics.PrecisionSum | app.py:351-355 | definition of what the AP loop accumulates; its properties are stated by PrecisionSumAtMostHits and AllRelevantPrecisionSum |
| Metrics.PrecisionSumAtMostHits | app.py:351-355 | the accumulated precision lies between 0 and the number of hits |
| Metrics.AveragePrecision | app.py:349-358 | definition of AP@3; its properties are stated by AveragePrecisionBounds, AveragePrecisionAt3 and ExampleScores |
| Metrics.AveragePrecisionBounds | app.py:349-358 | with at most three distinct names AP@3 lies in [0, 1] |
| Metrics.AveragePrecisionAt3 | app.py:349-358 | the AP loop computes the average precision of the names against the ground truth |
| Metrics.ScoreQuery | app.py:340-359 | one loop step scores the first three recommended names: its Recall@3 and AP@3 are those of the specification |
| Metrics.Evaluate | app.py:333-371 | the evaluation endpoint returns the specified evaluation, under the stable tie order of `SortByScore`: the per-query scores in query order and their means |
| Metrics.AllRelevantCount | app.py:344 | when every name is relevant, every name is counted |
| Metrics.AllRelevantPrecisionSum | app.py:351-355 | when every name is relevant, the precision sum equals the number of names |
| Metrics.AllRelevantIsPerfect | app.py:344-358 | min(3, \|gt\|) names that are all relevant score AP@3 = 1, and their recall is their number over \|gt\| |
| Metrics.ExampleScores | app.py:341-358 | names [A, X, C] against ground truth [A, C] give Recall@3 = 1 and AP@3 = 5/6 |
| Metrics.DuplicateNamesExceedOne | app.py:344-358 | names [A, A, A] against ground truth [A] give Recall@3 = 3 and AP@3 = 3: repeated names are counted each time |
| Metrics.Sum | app.py:361-362 | definition of the total of a score list; its bounds are stated by SumBounds |
| Metrics.SumBounds | app.py:361-362 | the sum of scores in [0, 1] lies between 0 and their number |
| Metrics.Mean | app.py:361-362 | definition of the mean, 0 for no scores; its properties are stated by MeanBounds |
| Metrics.MeanBounds | app.py:361-362 | the mean of scores in [0, 1] (0 for none) lies in [0, 1] |
| Metrics.QueryNames | app.py:340-341 | definition of one query's scored names for the stable tie order; their properties are stated by QueryNamesDistinct |
| Metrics.AnsweredNames | app.py:339-341 | the scored names of the first n queries, one list per query; their properties are stated by AnsweredNamesDistinct |
| Metrics.RecallsOf | app.py:339-346 | one Recall@3 per scored list; its bounds are stated by RecallsBounded |
| Metrics.ApsOf | app.py:339-359 | one AP@3 per scored list; its bounds are stated by ApsBounded |
| Metrics.AnsweredNamesDistinct | app.py:339-341 | over a catalog with distinct names, every query's scored list has at most three distinct names |
| Metrics.QueryNamesDistinct | app.py:340-341 | over a catalog with distinct names, one query's scored names are distinct and at most three |
| Metrics.RecallsBounded | app.py:339-346 | every recall in the accumulated list lies in [0, 1] when every scored list is distinct |
| Metrics.ApsBounded | app.py:339-359 | every AP in the accumulated list lies in [0, 1] when every scored list is distinct |
| Metrics.EvaluationForBounds | app.py:339-371 | with distinct scored lists, there is one individual score per query in query order, each in [0, 1], and both means lie in [0, 1] |
| Metrics.EvaluationFor | app.py:361-371 | definition of the response for given scored lists; its bounds are stated by EvaluationForBounds |
| Metrics.EvaluationOf | app.py:339-371 | definition of the evaluation response for the stable tie order; its properties are stated by EvaluationBounds and Evaluate |
| Metrics.EvaluationBounds | app.py:331-371 | over a catalog with distinct names, the response has one individual score per query in query order, each recall and AP in [0, 1], and both means in [0, 1] |

## Left out

- Similarity scores are an input. The sentence-embedding model and `cosine_similarity` are a foreign model and floating-point numerics. The model takes the resulting score of each row as a `real`, and `Evaluate` takes one score vector per query.
- The Gemini call `process_query_with_llm` is a network call whose result the request path never uses. It is not modelled.
- HTTP and HTML I/O are not modelled: the `requests`/BeautifulSoup fetching of the scraper, `process_job_description_url`, the CSV cache, the Flask routes, JSON parsing and `render_template`.
- The module-level load with its mock-data fallback is not modelled. The catalog is a parameter.
- `deploy.py` is not part of this model. It prints placeholders, posts to a local server and averages hard-coded numbers.
- Floating point is modelled as exact `real` arithmetic. Rounding of the Python floats is not modelled.
- `\d` is modelled as the ASCII digits only. `str.lower()` and `re.IGNORECASE` are modelled on ASCII letters only. Python applies them to all of Unicode.
- `DurationNum`: `pd.to_numeric` is modelled for digit strings only. Everything else becomes 999, as a failed coercion does. Float strings such as "12.5" are read as 999 here. The scraper and the mock data only ever produce digit strings or "Unknown".
- `Ranking.SortByScore` is one stable order; pandas' quicksort leaves the order of equal scores unspecified. `Ranking.TopResults`, `Ranking.Recommend`, `Metrics.EvaluationOf` and the method equalities of `Ranking.FindRelevantAssessments` and `Metrics.Evaluate` are exact for that stable order only. The lemmas about the ranking (`TopResultsSorted`, `TopResultsFromSurvivors`, `TopResultsAreBest`, `TopResultsLength`, `RecommendationShape`) state only what holds for every tie order.
- The missing ground-truth entry is not modelled as an error. A `ground_truth` shorter than `queries` raises `IndexError` at `ground_truth[i]`; the model has the precondition `|queries| <= |groundTruth|` instead (`WellFormedBenchmark`).
- The ground truth is assumed to be valid JSON lists. A JSON value of another type in `ground_truth` is not modelled.
- `Catalog.MockCatalog` holds the twelve rows of `create_mock_data` as data, and no lemma is proved about it. Verifying even simple facts about the twelve-row literal, such as its length or its durations, is too slow. The literal examples use short strings instead.
- `Metrics.RecallBounds` and `Metrics.AveragePrecisionBounds` are stated for distinct names only. With repeated names the code's scores can exceed 1 (`Metrics.DuplicateNamesExceedOne`).
- `Constraints.DurationConstraint`: CPython's limit on converting long digit strings to `int` is not modelled. `int()` raises `ValueError` for a digit group of more than 4300 digits, so such a query fails the request, while the model returns the group's value.
- `Ranking.DurationNum`: float64 rounding of large durations is not modelled. When any row's duration is not a number, `to_numeric(...).fillna(999)` produces a float64 column, and digit durations above 2^53 are compared after rounding. The model compares exact integers, so near 2^53 it can drop a row that pandas keeps, or the reverse.
