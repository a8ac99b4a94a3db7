# Culture-survey dashboard: the data pipeline, modelled in Dafny

The dashboard reads an organisational-culture survey exported as a
spreadsheet. It turns each row into a survey record and computes
aggregates from the records:

- the response rate;
- the share of incomplete responses;
- a mean score per question category;
- head counts per organisation (`소속1`);
- per-question means and spreads;
- a five-band score distribution;
- respondent counts by any field.

It then classifies an (importance, satisfaction) pair into one of four
quadrants. This project models that pipeline, the small rule tables
around it, the column-name patterns of the record type, the
response-rate traffic light of the theme and the CSV export of the sample
template.

The JavaScript semantics the pipeline depends on are written out:

- A survey record is a JavaScript object: an insertion-ordered list of
  keys plus a dictionary (`SurveyTypes.Record`). Assigning a new key
  appends it to the order.
- A cell is a number, a string or `null` (`JsValue.Value`). Arithmetic
  is over `real`.
- `Number(v)` is a partial parse in which `''`, blanks and `null` give
  0 and anything else unparsable gives `None` (NaN).
- `String(v)` prints integers without a fraction, in plain digits at
  every magnitude (see "## Left out").
- `Math.round(x)` is `floor(x + 1/2)`, and `Math.round(x * 10) / 10` is
  `Round1`.
- `String.prototype.trim`, `split` and `join` work on `seq<char>`.
- `Array.prototype.sort` is a stable insertion sort (`Collections.SortBy`)
  by a real key, with a descending sort written as an ascending sort on
  the negated key.
- The key order of a `Map` filled from a sequence is
  `Collections.Distinct`.

Loops that build maps or accumulate in place are `method`s, each proved
equal to a specification function:

- `calculateCategoryScores`
- `analyzeByOrganization`
- `calculateQuestionScores`
- `calculateAverageScore`
- `calculateScoreDistribution`
- `getRespondentDistribution`
- `validateSurveyData`

Lemmas then state what those specification functions mean.

Modules, one per source file plus the JavaScript library they lean on:
`JsText`, `JsValue`, `Collections` (built-ins), `SurveyTypes`
(`src/types/index.ts`), `DataProcessor` (`src/utils/dataProcessor.ts`),
`Analytics` (`src/utils/analytics.ts`), `Theme` (`src/utils/theme.ts`),
`SampleData` (`src/utils/sampleData.ts`).

Two source behaviours are kept as written rather than corrected:

- A score field belongs to every category that is a `startsWith` prefix
  of it. A category `리더` therefore also absorbs `리더십_Q1`
  (`DataProcessor.ShortCategoryAbsorbsLonger`).
- Category means are taken over all records, not only over complete ones.

`getQuadrantRecommendation` compares strictly (`importance < 50`,
`satisfaction < 50`), so any coordinate equal to 50 falls through to
`현상 유지 영역` (`DataProcessor.GetQuadrantRecommendation`).

## Model

| member | source | states |
|---|---|---|
| JsText.TrimMeaning | src/utils/dataProcessor.ts:42 | `trim` gives a substring of its input whose ends are not whitespace, and trimming it again changes nothing |
| JsText.TrimStart | src/utils/dataProcessor.ts:42 | the leading part that is dropped is all whitespace, and what remains starts with a non-whitespace character or is empty |
| JsText.TrimEnd | src/utils/dataProcessor.ts:42 | the trailing part that is dropped is all whitespace, and what remains ends with a non-whitespace character or is empty |
| JsText.IndexOf | src/utils/dataProcessor.ts:172 | the first position of the separator, or the length when it does not occur |
| JsText.ContainsAt | src/utils/analytics.ts:67 | `includes` holds exactly when the substring occurs at some position |
| JsText.Split | src/utils/dataProcessor.ts:172 | `split` always yields at least one part |
| JsText.SplitJoin | src/utils/sampleData.ts:130-131 | joining parts free of the separator and splitting again gives the parts back |
| JsText.JoinSplit | src/utils/sampleData.ts:130-131 | splitting on a character and joining on it again gives the text back |
| JsText.JoinAvoids | src/utils/sampleData.ts:133 | joining parts that lack a character, with a different separator, never introduces that character |
| JsText.IndexOfAfterPrefix | src/utils/dataProcessor.ts:172 | the separator is found right after a prefix that lacks it |
| JsValue.ParseUnsigned | src/utils/dataProcessor.ts:99 | a parsed unsigned literal is non-negative |
| JsValue.DigitsValue | src/utils/dataProcessor.ts:99 | `d` digits denote a number below `10^d` |
| JsValue.DecimalValue | src/utils/dataProcessor.ts:99 | the value of `a.b` lies in `[a, a + 1)`: the fraction part stays below one |
| JsValue.LeadingDigitsOf | src/utils/dataProcessor.ts:99 | the scan for leading digits stops exactly at the first non-digit |
| JsValue.ParseUnsignedAtPoint | src/utils/dataProcessor.ts:99 | a literal with digits on both sides of its point parses to their decimal value |
| JsValue.ParseUnsignedAccepts | src/utils/dataProcessor.ts:99 | the unsigned parse succeeds exactly on a run of digits or two runs of digits around a point, not both empty |
| JsValue.UnsignedIntegerValue | src/utils/dataProcessor.ts:99 | a run of digits parses to its value |
| JsValue.UnsignedDecimalValue | src/utils/dataProcessor.ts:99 | digits, a point and digits parse to the integer part plus the fraction digits scaled by their count |
| JsValue.ParseNumber | src/utils/dataProcessor.ts:99 | `Number` of a text is 0 when the text is blank, and is a number (not NaN) exactly when the trimmed text is blank or a signed decimal literal |
| JsValue.ToNumber | src/utils/dataProcessor.ts:99-101 | `Number(null)` and `Number('')` are 0, a number converts to itself, and a text converts exactly when it is blank or a signed decimal literal |
| JsValue.FractionDigits | src/utils/analytics.ts:213 | the printed fraction is all digits, at most 20 of them, and nonempty for a nonzero fraction |
| JsValue.UnsignedToString | src/utils/analytics.ts:213 | a non-negative number prints as an unsigned decimal literal that starts and ends with a digit |
| JsValue.NumberToString | src/utils/analytics.ts:213 | a number prints as a signed decimal literal ending in a digit, with a leading `-` exactly when negative |
| JsValue.ToText | src/utils/analytics.ts:213 | `String` leaves a text unchanged, prints `null` as `null`, and prints a number as a decimal literal, without exponent, with `-` exactly when negative |
| JsValue.NumberTextParses | src/utils/analytics.ts:213 | `Number(String(x))` is a number, never NaN, for every number `x` |
| JsValue.NumberOfDigits | src/utils/dataProcessor.ts:99 | `Number` reads a run of digits as its value |
| JsValue.NumberOfNegatedDigits | src/utils/dataProcessor.ts:99 | `Number` reads a minus sign and a run of digits as the negated value |
| JsValue.NatToString | src/utils/analytics.ts:213 | a natural number prints as a nonempty string of digits |
| JsValue.NatDigitsValue | src/utils/analytics.ts:213 | the printed digits of a natural number denote that number |
| JsValue.DigitsParse | src/utils/dataProcessor.ts:99 | `Number` reads the printed digits of a natural number back as that number |
| JsValue.IntegerText | src/utils/analytics.ts:213 | an integer prints as its digits, with a leading `-` when negative (plain digits also from 10^21 on) |
| JsValue.IntegerTextRoundTrip | src/utils/dataProcessor.ts:99 | `Number(String(i)) == i` for every integer |
| JsValue.TrimOfUnpadded | src/utils/dataProcessor.ts:42 | a text whose ends are not whitespace is its own trim |
| JsValue.Round | src/utils/dataProcessor.ts:84 | `Math.round(x)` lies within half a unit of `x`, rounding halves up |
| JsValue.Round1 | src/utils/analytics.ts:40 | `Math.round(x * 10) / 10` lies within 0.05 of `x` and is a whole number of tenths |
| JsValue.Round1Monotone | src/utils/analytics.ts:40 | rounding to one decimal is monotone |
| JsValue.Round1OfTenths | src/utils/analytics.ts:40 | a whole number of tenths is left unchanged |
| JsValue.Round1Threshold | src/utils/analytics.ts:239 | a value on one side of a whole number of tenths rounds to the same side |
| JsValue.Round1Within | src/utils/analytics.ts:40 | a value between two tenths rounds to a value between them |
| Collections.Filter | src/utils/dataProcessor.ts:111-125 | `filter` returns no more elements than its input, each from the input and satisfying the predicate |
| Collections.FilterSelects | src/utils/dataProcessor.ts:111-125 | `filter` keeps, in order, exactly the positions whose element satisfies the predicate |
| Collections.FilterIndicesShape | src/utils/dataProcessor.ts:111-125 | the kept positions are increasing, in range and as many as the kept elements |
| Collections.FilterIndicesMember | src/utils/dataProcessor.ts:111-125 | a position is kept exactly when its element satisfies the predicate |
| Collections.FilterElements | src/utils/dataProcessor.ts:111-125 | the i-th kept element is the element at the i-th kept position |
| Collections.FilterMember | src/utils/dataProcessor.ts:189-191 | an element is in the result exactly when it is in the input and satisfies the predicate |
| Collections.FilterComplete | src/utils/dataProcessor.ts:94-103 | every input element that satisfies the predicate is kept |
| Collections.FilterAll | src/utils/dataProcessor.ts:111-125 | filtering with a predicate every element meets returns the input |
| Collections.FilterKeepsHead | src/utils/dataProcessor.ts:111-125 | a first element that satisfies the predicate stays first |
| Collections.SumAppend | src/utils/analytics.ts:27 | `reduce((a, b) => a + b, 0)` over a concatenation is the sum of the two sums |
| Collections.SumBounds | src/utils/analytics.ts:27 | a sum of values in (lo, hi] lies in (n·lo, n·hi] |
| Collections.SumPositive | src/utils/dataProcessor.ts:196 | a nonempty sum of positive values is positive |
| Collections.DistinctProperties | src/utils/dataProcessor.ts:227-234 | the keys of a `Map` filled from a sequence are distinct and are exactly the sequence's elements |
| Collections.DistinctLength | src/utils/dataProcessor.ts:227-234 | a `Map` has no more keys than the sequence it was filled from |
| Collections.CountPositive | src/utils/dataProcessor.ts:237 | a key occurs in a sequence exactly when its count is positive |
| Collections.CountAtMostOne | src/utils/dataProcessor.ts:237 | in a duplicate-free sequence a key occurs at most once |
| Collections.SumOfCountsStep | src/utils/dataProcessor.ts:237 | one more element adds its own count to the sum of counts |
| Collections.SumOfCountsIsLength | src/utils/dataProcessor.ts:241 | the per-key counts over the distinct keys add up to the length |
| Collections.Insert | src/utils/analytics.ts:48 | inserting one element lengthens the sequence by one |
| Collections.SortBy | src/utils/analytics.ts:48 | `sort` keeps the length |
| Collections.SortedPrefix | src/utils/analytics.ts:48 | a prefix of a sorted sequence is sorted |
| Collections.InsertPermutes | src/utils/analytics.ts:48 | insertion adds exactly the inserted element |
| Collections.InsertSorted | src/utils/analytics.ts:48 | insertion into a sorted sequence keeps it sorted |
| Collections.InsertProperties | src/utils/analytics.ts:48 | insertion keeps sortedness and adds exactly one element |
| Collections.SortProperties | src/utils/analytics.ts:48 | `sort` returns a sorted permutation of its input |
| Collections.SortSorted | src/utils/analytics.ts:150 | sorting an already sorted sequence leaves it unchanged, as a stable sort must |
| Collections.PermutationMember | src/utils/analytics.ts:136 | a permutation has the same members |
| Collections.InsertSumBy | src/utils/analytics.ts:220 | insertion adds the inserted element's weight to the total |
| Collections.SortSumBy | src/utils/analytics.ts:220 | sorting keeps the total of any weight |
| Collections.InsertDistinctBy | src/utils/analytics.ts:220 | inserting an element with a new identity keeps identities distinct |
| Collections.InsertMember | src/utils/analytics.ts:220 | after insertion the members are the old ones plus the inserted one |
| Collections.SortDistinctBy | src/utils/analytics.ts:220 | sorting keeps identities distinct |
| SurveyTypes.Assign | src/utils/dataProcessor.ts:51 | `record[col] = v` sets the value; a new key goes to the end of the key order and an existing one keeps its place; well-formedness is kept |
| SurveyTypes.ColumnListsDisjoint | src/types/index.ts:28-36 | `FILTER_COLUMNS` and `IGNORED_COLUMNS` share no entry, and `상태` is ignored |
| SurveyTypes.ScoreColumnMeaning | src/types/index.ts:42 | a name matches the score pattern exactly when its first three characters are digits numbering at most 53 |
| SurveyTypes.TextColumnMeaning | src/types/index.ts:39 | a name matches the text pattern exactly when its first three characters are digits numbering 54 or 55 |
| SurveyTypes.NumberOfThreeDigits | src/types/index.ts:42 | the number of a three-digit prefix is its decimal value |
| SurveyTypes.ScoreAndTextDisjoint | src/types/index.ts:39-42 | no name matches both the score and the text pattern |
| SurveyTypes.PatternsIgnoreSuffix | src/types/index.ts:39-42 | both patterns look only at the first three characters |
| DataProcessor.ParseWorkbook | src/utils/dataProcessor.ts:21-25 | a workbook with no sheet fails with the no-sheet message; otherwise the first sheet, if it has a data row, is parsed or fails with the no-valid-row message |
| DataProcessor.ParseGrid | src/utils/dataProcessor.ts:38-58 | a sheet with fewer than two rows fails with the no-data message; any failure carries the no-data or the no-valid-row message; a success has at least one record and fewer records than sheet rows |
| DataProcessor.RecordOfRow | src/utils/dataProcessor.ts:48-53 | the record's fields are exactly the header names, with no more keys than header cells |
| DataProcessor.RecordOfRowShape | src/utils/dataProcessor.ts:48-53 | a row's record has each header name once, in order of first appearance; a repeated header takes its last column's value; a missing or null cell gives `''` |
| DataProcessor.ParseGridOutcome | src/utils/dataProcessor.ts:38-58 | a sheet fails exactly when it has fewer than two rows or no non-blank data row, with the matching message |
| DataProcessor.ParsedRows | src/utils/dataProcessor.ts:42-54 | the records are, in sheet order, exactly the data rows with a cell that is neither `''` nor null, each read against the trimmed header |
| DataProcessor.BlankRowsDropped | src/utils/dataProcessor.ts:42-54 | a blank row is dropped, header cells are trimmed and a short row is padded with `''` |
| DataProcessor.KeptRowsOfExample | src/utils/dataProcessor.ts:47 | of a blank row and a row with content, only the second is kept |
| DataProcessor.HeaderOfExample | src/utils/dataProcessor.ts:42 | padded header cells are trimmed |
| DataProcessor.TrimOfPadded | src/utils/dataProcessor.ts:42 | a character padded with spaces trims to itself |
| DataProcessor.RecordOfExample | src/utils/dataProcessor.ts:50-52 | a row shorter than the header gives `''` in the missing columns |
| DataProcessor.ParseGridOfOneRow | src/utils/dataProcessor.ts:47-54 | a sheet with one non-blank data row gives that row's record alone |
| DataProcessor.CalculateResponseRate | src/utils/dataProcessor.ts:80-85 | the rate is undefined (NaN or Infinity) exactly for zero invitations; otherwise it is within half a unit of responses / invitations × 100; it is non-negative for a positive invitation count, and at most 100 when responses do not exceed invitations |
| DataProcessor.ResponseRateByDefault | src/utils/dataProcessor.ts:82-84 | with the default 100 invitations the rate equals the number of records |
| DataProcessor.ResponseRateMonotone | src/utils/dataProcessor.ts:84 | more responses never lower the rate |
| DataProcessor.DetectedScoreFields | src/utils/dataProcessor.ts:94-103 | the detected fields are exactly the keys of the first record whose value converts to a number in (0, 100], kept in key order |
| DataProcessor.FilterCompleteResponses | src/utils/dataProcessor.ts:90-126 | the result is a sub-collection of the input |
| DataProcessor.NothingToCheckKeepsAll | src/utils/dataProcessor.ts:91-109 | with no records, or no score field in the first, all records are kept |
| DataProcessor.CompleteResponsesSelection | src/utils/dataProcessor.ts:111-125 | otherwise exactly the records with a present, non-null, non-empty, positive number in every detected field are kept, in order |
| DataProcessor.ScoreLookingIsValid | src/utils/dataProcessor.ts:98-120 | a value that made a field a score field passes that field's completeness test |
| DataProcessor.FirstRecordKept | src/utils/dataProcessor.ts:94-125 | the first record always survives the filter |
| DataProcessor.SharePercent | src/utils/dataProcessor.ts:144-146 | the rounded percentage is within half a unit of the exact share times 100 |
| DataProcessor.SharePercentBounds | src/utils/dataProcessor.ts:144-146 | a part of a positive total is 0..100 percent once rounded |
| DataProcessor.GetIncompleteResponseStats | src/utils/dataProcessor.ts:131-148 | the complete and incomplete counts add up to the total; the rate is within half a unit of incomplete / total × 100, in 0..100, and 0 for no records; a nonempty input has at least one complete response |
| DataProcessor.CategoryPrefixMeaning | src/utils/dataProcessor.ts:172 | a category name is the part of the field before its first `_`, or the whole field when it has none |
| DataProcessor.CategoryPrefixesMember | src/utils/dataProcessor.ts:171-176 | the collected categories are exactly the nonempty prefixes of the score fields |
| DataProcessor.CategoryNamesMeaning | src/utils/dataProcessor.ts:170-181 | the categories are distinct, and are the nonempty prefixes, or only `전체` when there is none |
| DataProcessor.PositiveValuesArePositive | src/utils/dataProcessor.ts:194-198 | only positive numbers are counted |
| DataProcessor.CategoryValuesArePositive | src/utils/dataProcessor.ts:187-200 | every value counted for a category over all records is positive |
| DataProcessor.SumCategory | src/utils/dataProcessor.ts:184-200 | the nested loops yield the sum and the number of a category's positive values |
| DataProcessor.CollectCategories | src/utils/dataProcessor.ts:170-181 | the loop yields the category names in order of first appearance |
| DataProcessor.CalculateCategoryScores | src/utils/dataProcessor.ts:153-214 | the method builds the specified category scores |
| DataProcessor.CategoryScoresMeaning | src/utils/dataProcessor.ts:158-211 | no records give no categories; otherwise one entry per category whose count is its number of values, whose score is `Round1` of its mean, a whole number of tenths within 0.05 of it (0 when empty) and whose satisfaction equals its score |
| DataProcessor.MeanScoreNotNegative | src/utils/dataProcessor.ts:202-206 | a rounded mean of positive values is not negative |
| DataProcessor.FieldsOfCategoryMember | src/utils/dataProcessor.ts:189-191 | a field belongs to a category exactly when it starts with the category name |
| DataProcessor.ShortCategoryAbsorbsLonger | src/utils/dataProcessor.ts:189-191 | a category also takes the fields of a longer category it prefixes |
| DataProcessor.EmptyPrefixNotFallback | src/utils/dataProcessor.ts:172-180 | a field without a category name does not start with `전체` |
| DataProcessor.FallbackCategoryIsEmpty | src/utils/dataProcessor.ts:179-202 | when the fallback `전체` is used it counts nothing and scores 0 |
| DataProcessor.EmptyCategoryValues | src/utils/dataProcessor.ts:187-200 | a category without fields has no values |
| DataProcessor.OrgKeys | src/utils/dataProcessor.ts:225 | one organisation key per record |
| DataProcessor.CountByOrganization | src/utils/dataProcessor.ts:224-238 | the first pass keys the map by organisation in order of first appearance, each with its head count |
| DataProcessor.AnalyzeByOrganization | src/utils/dataProcessor.ts:219-249 | the method builds the specified organisation groups |
| DataProcessor.TotalOfPrefix | src/utils/dataProcessor.ts:237 | the head counts of the first m groups add up to the counts of the first m keys |
| DataProcessor.OrganizationGroups | src/utils/dataProcessor.ts:219-249 | there are no more groups than records, and at least one group when there is a record |
| DataProcessor.OrganizationGroupsMeaning | src/utils/dataProcessor.ts:224-246 | groups have distinct names, each counts the records with its `소속1` (or `전체` when falsy), has at least one respondent and a rate in 0..100; every record has its group; the head counts add up to the number of records |
| DataProcessor.OrganizationGroupsTotal | src/utils/dataProcessor.ts:224-246 | the groups' head counts add up to the number of records |
| DataProcessor.CountAtMostLength | src/utils/dataProcessor.ts:237 | no group counts more records than exist |
| DataProcessor.GetQuadrantRecommendation | src/utils/dataProcessor.ts:287-325 | each of the four quadrants is returned exactly under its strict comparison with 50, and any coordinate equal to 50 gives `현상 유지 영역` |
| DataProcessor.FilterDataByOrganization | src/utils/dataProcessor.ts:330-345 | `all` returns the input; otherwise only records with a truthy department at that level |
| DataProcessor.FilterByOrganizationSelects | src/utils/dataProcessor.ts:338-344 | exactly the records with a truthy department at that level are kept, in order |
| DataProcessor.ValidateSurveyData | src/utils/dataProcessor.ts:368-393 | valid exactly when there is no error; no records give one error; otherwise one error per required field the first record lacks, so valid exactly when it has `소속1`, and a first record without `소속1` gives exactly the one missing-field error |
| Analytics.EntryKeys | src/utils/analytics.ts:15 | one key per scored entry |
| Analytics.EntryScores | src/utils/analytics.ts:21 | one score per scored entry |
| Analytics.EntryColumns | src/utils/analytics.ts:15-21 | the keys and the scores are the entries' key and score columns, position by position |
| Analytics.ScoredEntriesOfValid | src/utils/analytics.ts:17 | every collected value is a number in (0, 100] |
| Analytics.ScoredEntriesValid | src/utils/analytics.ts:14-24 | every value collected from all records is in (0, 100] |
| Analytics.EntryScoresValid | src/utils/analytics.ts:17 | the collected scores are in (0, 100] |
| Analytics.ScoresUnderValid | src/utils/analytics.ts:17-21 | the scores under one key are in (0, 100] |
| Analytics.ScoresUnderAppend | src/utils/analytics.ts:21 | a key's scores over two runs of entries are the two runs' scores in order |
| Analytics.ScoresUnderNonEmpty | src/utils/analytics.ts:18-21 | a key has scores exactly when it was seen with one |
| Analytics.MeanOfScores | src/utils/analytics.ts:27 | the mean of scores in (0, 100] is in (0, 100] |
| Analytics.RoundedMeanOfScores | src/utils/analytics.ts:40 | that mean rounded to one decimal is in [0, 100] |
| Analytics.SquaredDeviations | src/utils/analytics.ts:30-33 | the sum of squared deviations is never negative |
| Analytics.PopulationVariance | src/utils/analytics.ts:28-34 | the variance (divisor = count) is never negative |
| Analytics.NoDeviationFromConstant | src/utils/analytics.ts:30-33 | equal scores have no deviation |
| Analytics.SqrtSearch | src/utils/analytics.ts:28-34 | the search ends at the tenth whose half-tenth neighbourhood brackets the square root |
| Analytics.SqrtStep | src/utils/analytics.ts:28-34 | each search step stays within the bound and advances the lower bracket |
| Analytics.RoundedSqrt1 | src/utils/analytics.ts:44 | `Math.round(Math.sqrt(v) * 10) / 10` is the non-negative whole number of tenths within 0.05 of √v |
| Analytics.TenthsAreWhole | src/utils/analytics.ts:44 | n tenths are a whole number of tenths |
| Analytics.FirstMatch | src/utils/analytics.ts:66-70 | the position of the first table entry whose key or label occurs in the id, the table length when none does |
| Analytics.InferCategory | src/utils/analytics.ts:54-73 | the result is one of the nine labels; `기타` exactly when no entry matches; otherwise the label of the first matching entry |
| Analytics.ImportanceColumnClassified | src/utils/analytics.ts:54-73 | the importance column `중요도_몰입` is classified as `몰입도` |
| Analytics.QuestionIdsHaveScores | src/utils/analytics.ts:18-21 | every key in the map has at least one score |
| Analytics.ScoredEntriesStep | src/utils/analytics.ts:15-22 | one more key of a record adds its entry exactly when it holds a score |
| Analytics.EntryKeysSnoc | src/utils/analytics.ts:18-21 | one more entry adds its key |
| Analytics.ScoresUnderSnoc | src/utils/analytics.ts:21 | one more entry adds its score under its own key only |
| Analytics.CollectEntry | src/utils/analytics.ts:18-21 | one entry creates its key at the end when new and appends its score |
| Analytics.CollectKnownKey | src/utils/analytics.ts:21 | a known key keeps its place and gets one more score |
| Analytics.CollectNewKey | src/utils/analytics.ts:18-21 | a new key goes to the end with its one score |
| Analytics.CollectRecord | src/utils/analytics.ts:15-23 | the inner loop adds a record's scored entries to the map |
| Analytics.CollectQuestionScores | src/utils/analytics.ts:12-24 | the map holds, for each key in order of first appearance, every score found under it across all records |
| Analytics.AggregateQuestions | src/utils/analytics.ts:26-46 | one aggregate per key, in map order |
| Analytics.QuestionScores | src/utils/analytics.ts:10-49 | one question per distinct scored key |
| Analytics.CalculateQuestionScores | src/utils/analytics.ts:10-49 | the method returns the specified question scores |
| Analytics.QuestionScoresOrder | src/utils/analytics.ts:48 | questions are sorted by score, highest first, have distinct ids and are a permutation of the aggregates |
| Analytics.QuestionScoreMeaning | src/utils/analytics.ts:26-46 | a question's count is its number of scores, its score the mean to one decimal in [0, 100], its satisfaction its score, its variance the rounded standard deviation and its category the inferred one |
| Analytics.ScoresUnderOneRecord | src/utils/analytics.ts:15-22 | one record contributes at most one score per key |
| Analytics.QuestionCountIsRespondents | src/utils/analytics.ts:14-43 | a question's count is the number of records holding a number in (0, 100] under its key |
| Analytics.AverageScore | src/utils/analytics.ts:97-111 | 0 when no value is a number in (0, 100]; otherwise within 0.05 of their mean; always a whole number of tenths in [0, 100] |
| Analytics.CalculateAverageScore | src/utils/analytics.ts:97-111 | the accumulating loops compute the specified average |
| Analytics.EntryScoresSnoc | src/utils/analytics.ts:104 | one more entry adds its score to the running total |
| Analytics.SumRecord | src/utils/analytics.ts:102-107 | the inner loop adds a record's scores to the total and their number to the count |
| Analytics.CalculateAverageSatisfaction | src/utils/analytics.ts:116-118 | the satisfaction is 0.85 times the average: at most the average, at most 85, and below a positive average |
| Analytics.CalculateAverageImportance | src/utils/analytics.ts:123-125 | the importance is 1.1 times the average: at least the average, at most 110, and above a positive average |
| Analytics.GetTopIssues | src/utils/analytics.ts:130-139 | at most `limit` issues, as `slice(0, limit)` counts them |
| Analytics.TopIssuesMeaning | src/utils/analytics.ts:134-138 | the issues are the lowest-scoring questions, in non-decreasing score order, none scoring above a question left out |
| Analytics.GetStrengths | src/utils/analytics.ts:144-153 | at most `limit` strengths, as `slice(0, limit)` counts them |
| Analytics.StrengthsMeaning | src/utils/analytics.ts:148-152 | the strengths are the highest-scoring questions, in non-increasing score order, none scoring below a question left out |
| Analytics.QuestionsAlreadyDescending | src/utils/analytics.ts:148-150 | re-sorting the questions highest first changes nothing |
| Analytics.CompareOrgScores | src/utils/analytics.ts:158-172 | one row per requested organisation, in order, with the count and the average of its records and satisfaction ≤ score ≤ importance |
| Analytics.CompareOrgMembers | src/utils/analytics.ts:163 | an organisation's records are exactly those whose `소속1` is that string, compared strictly, in order |
| Analytics.BandMeaning | src/utils/analytics.ts:189-193 | every value lands in exactly one bucket, by the thresholds 80, 60, 40 and 20 |
| Analytics.DistributionTotal | src/utils/analytics.ts:186-196 | the buckets add up to the number of values counted |
| Analytics.Bands | src/utils/analytics.ts:189-193 | one bucket per value |
| Analytics.DistributionCountsBands | src/utils/analytics.ts:186-196 | each bucket counts exactly the values that land in it |
| Analytics.TallyCount | src/utils/analytics.ts:189-193 | counting a value raises its own bucket by one and no other |
| Analytics.DistributionSnoc | src/utils/analytics.ts:188-194 | one more value adds one tally |
| Analytics.TallyRecord | src/utils/analytics.ts:187-195 | the inner loop tallies a record's scores |
| Analytics.CalculateScoreDistribution | src/utils/analytics.ts:177-199 | the loops build the distribution of all numbers in (0, 100] |
| Analytics.CountText | src/utils/analytics.ts:213-214 | counting one more text appends a new key at the end and raises that key's counter by one |
| Analytics.TruthyTextsStep | src/utils/analytics.ts:210-215 | one more record adds its printed value exactly when it is truthy |
| Analytics.GetRespondentDistribution | src/utils/analytics.ts:204-221 | the method returns the specified distribution |
| Analytics.KeyCountsSum | src/utils/analytics.ts:218-219 | the counts of the first m keys add up as the per-key counts do |
| Analytics.TruthyTextsCount | src/utils/analytics.ts:211-212 | one text per record whose field is truthy |
| Analytics.RespondentDistributionMeaning | src/utils/analytics.ts:208-220 | keys are distinct, every count is at least 1, counts go highest first and add up to the number of records with a truthy value in the field |
| Analytics.AnalyzeTrend | src/utils/analytics.ts:226-242 | `up` exactly when the change exceeds 2, `down` exactly when it is below −2, `stable` otherwise; the change is the difference rounded to a whole number of tenths within 0.05 of it; the percentage is undefined exactly for a zero previous score and otherwise is the relative change × 100 rounded the same way |
| Analytics.CalculateImprovementPotential | src/utils/analytics.ts:247-254 | never negative and a whole number of tenths; 0 when the score meets the target, otherwise within 0.05 of the gap |
| Theme.ResponseRateColor | src/utils/theme.ts:183-187 | good exactly at 90 and above, warning exactly in [70, 90), risk exactly below 70 |
| Theme.ResponseRateStatus | src/utils/theme.ts:190-194 | `우수` exactly at 90 and above, `보통` exactly in [70, 90), `미달` exactly below 70 |
| Theme.StatusMatchesColor | src/utils/theme.ts:183-194 | the status word corresponds one-to-one with the colour for every rate |
| Theme.RaisingRateNeverWorse | src/utils/theme.ts:183-187 | raising the rate never moves to a worse tier |
| SampleData.ExampleFields | src/utils/sampleData.ts:131 | field i is the example value of column i, or `''` when missing or falsy |
| SampleData.ExportCsv | src/utils/sampleData.ts:130-133 | the export starts with the header line followed by a newline |
| SampleData.ExportSampleDataAsCsv | src/utils/sampleData.ts:128-134 | the sample export splits into exactly two lines: the joined columns and the value line |
| SampleData.HeaderSplitsBack | src/utils/sampleData.ts:130-131 | splitting the header line on commas gives the columns back when no column holds a comma |
| SampleData.ValueLineFields | src/utils/sampleData.ts:131-133 | the value line splits into one nonempty printed example value per column |
| SampleData.CsvLayout | src/utils/sampleData.ts:133 | the export is the header line, a newline and the value line, and splits into exactly those two lines |
| SampleData.ExportFacts | src/utils/sampleData.ts:128-134 | for any template that reads back cleanly, the export's lines and fields are the columns and their example values |
| SampleData.SampleColumnsPlain | src/utils/sampleData.ts:61-91 | the template has 29 columns, none holding a comma or a newline |
| SampleData.EveryColumnHasExample | src/utils/sampleData.ts:61-122 | every template column has an example entry |
| SampleData.SampleValuesAmongKinds | src/utils/sampleData.ts:92-122 | every example value is one of six texts or the numbers 2 to 5 |
| SampleData.SampleValueKindsPlain | src/utils/sampleData.ts:92-122 | each of those is truthy and prints without a comma or newline |
| SampleData.SampleValuesPlain | src/utils/sampleData.ts:92-122 | every example value is truthy and prints as a nonempty text without a comma or newline |
| SampleData.SampleTemplatePlain | src/utils/sampleData.ts:60-123 | the sample template has 29 columns and reads back cleanly |
| SampleData.SampleExport | src/utils/sampleData.ts:128-134 | the header line splits back into the 29 columns, and the value line into 29 nonempty example values |

## Left out

- Reading the file: `FileReader`, `XLSX.read`, `sheet_to_json` and the promise wrapper around parsing (src/utils/dataProcessor.ts:12-37, 60-75) are I/O. The model starts from the workbook's sheets as grids of cells. The unreadable-sheet error (lines 28-30) depends on the XLSX library's objects and is not modelled.
- Cells that are booleans, dates, NaN or ±Infinity are not modelled; a cell is a number, a string or null.
- `Number(...)` on exponent, hexadecimal, binary, octal or `Infinity` literals gives `None` in the model. `String(...)` of non-integers prints up to 20 fraction digits, without exponent notation.
- JsValue.ToText, JsValue.IntegerText: integers of magnitude 10^21 or more, which `String` prints in exponent form (`1e+21`), are printed in plain digits. This reaches the keys of `getRespondentDistribution` (src/utils/analytics.ts:213) only for such huge numeric cells.
- Floating point: all arithmetic is exact over `real`. IEEE rounding, for example in the ×0.85 and ×1.1 adjustments, is not modelled.
- Random values: the `importance` fields (src/utils/dataProcessor.ts:207, src/utils/analytics.ts:41), `generateImportanceMatrix` and `generateSampleData` depend on `Math.random` and are left out.
- `generateDashboardData` reads the clock and is left out; its parts (response rate, organisation groups, category scores) are modelled.
- `getOrganizationStats` (src/utils/analytics.ts:78-92) only composes modelled functions and is left out.
- `generateExcelTemplate` is a constant literal with no behaviour and is left out.
- The user-interface components, hooks and styling objects are presentation and are left out.
- Functions that other files import but that the data processor does not define, and the `warnings` field that the upload page reads, do not exist in the modelled code.
- JavaScript orders integer-like object keys numerically before other keys. The model keeps pure insertion order, so records whose column names are integer-like strings are not modelled faithfully in key order.
- `field in firstRecord` and the property reads `record[field]` (`src/utils/analytics.ts:163`, `src/utils/analytics.ts:211`, `src/utils/dataProcessor.ts:338-344`) also see inherited properties such as `constructor`; the model looks at the record's own keys only.
- Analytics.GetTopIssues: a non-integer `limit` is not modelled; `limit` is an integer, with negative values counted from the end as `slice` does.
- Analytics.GetStrengths: a non-integer `limit` is not modelled, as for GetTopIssues.
- Theme.ResponseRateColor: a NaN rate (which the source would class as risk) is not modelled, since rates are reals.
- Analytics.RoundedSqrt1: `Math.sqrt` is specified by its rounded result, not computed in floating point.
- DataProcessor.CalculateResponseRate: a NaN or infinite rate is written `None`, without telling the two apart.
- Analytics.AnalyzeTrend: a NaN or infinite percentage is written `None`, without telling the two apart.
