# ESG lookup, analysis and PDF export — a Dafny model

`app3.py` is a Streamlit application over a table of Chinese listed companies
and their yearly Huazheng ESG ratings and quantified scores (2009–2020). A
user picks a company from a sorted selection list. The application finds the
company's row and reads its yearly series. It computes the average, the
extremes, the latest value and the trend, and sorts the company into one of
four tiers. It writes a fixed Markdown report from these figures and exports
the report as a PDF. Building that PDF falls back twice: first to a basic
layout, then to a hard-coded one-page file.

This project models that core as pure functions and proves properties of them.
The modules follow the program:

- `Text` — the Python string behaviour the code relies on:
  - `str.isspace` and `strip`, over the full Unicode whitespace set;
  - `split` and `join` on one character, and `replace`;
  - the decimal text of a number;
  - `sorted`, as code-point order.
- `Dataset` — the company record and the display key `name（code）`. Also the
  sorted selection list, and the choice of the rating and score columns from
  the table header.
- `Resolver` — `get_company_by_selection`: from a selection-list entry to a
  row, with its match stages and fallbacks.
- `Metrics`:
  - the score parser `int(float(x)) if x.replace('.','').isdigit() else 0`;
  - the series extraction;
  - the summary figures with their fixed fallbacks;
  - the tier thresholds.
- `Narrative`:
  - the tier texts;
  - the one-decimal rendering of the average;
  - the report template, line by line;
  - the detail table's year label and the chart's rating-to-number map.
- `Renderer` — the PDF export:
  - blank-content substitution;
  - character cleaning and heading-marker removal;
  - the line-to-element layout with its style tests;
  - the choice among the three documents.
- `MinimalPdf` — the last-resort PDF, assembled from its parts, so that its
  cross-reference offsets can be checked.
- `Pipeline` — end-to-end facts:
  - worked series;
  - the report splits back into its 43 lines;
  - the styled PDF of a report has 47 elements.

The average is kept exactly, as the pair (sum, count). A threshold test
`average >= k` becomes `sum >= k * count`. The typesetting library is not
modelled. Three flags say how far the typesetting gets: whether the styled
layout builds, whether the basic elements can be constructed, and whether the
basic layout builds. The PDF bytes are
text, one character per byte (they are all ASCII).

The model follows the code as written, also where its comments promise
otherwise. The lookup is documented as never failing (app3.py:199) and the
export as never raising (app3.py:238). The code behaves as follows:

- When the entry has a bracket pair and no code matches it, the code goes
  straight to the display-key comparison. It does not fall back to the name
  (app3.py:207-219).
- With at least one extracted year, the latest score and year come from the
  last extracted year, even when that score is 0 and not counted as valid. Only
  with no extracted year at all are they 3 and the string "2020"
  (app3.py:432-433, 444-449).
- A real selection against an empty table raises. `iloc[0]` fails in the
  `try`, and again in the exception handler (app3.py:226-231). The model
  returns `Raises` in that case.
- The basic layout's elements are constructed outside the handler that guards
  their build (app3.py:364-383). An exception while constructing them leaves the
  export, and the hard-coded bytes are not reached (see Findings).
- The hard-coded PDF does not declare the offsets where its objects are (see
  Findings).

## Model

| member | source | states |
|---|---|---|
| Dataset.SelectionList | app3.py:170-171 | The selection list is in Python's string order and is a permutation of the records' `name（code）` keys: each key occurs in it as often as among the records, and nothing else does |
| Dataset.PickColumns | app3.py:155-167 | A header column is kept exactly when it carries the preferred marker and names a year 2009–2020. If no column does, the columns carrying the fallback marker are kept instead. The result is sorted, and each kept column occurs in it exactly as often as in the header |
| Text.SortStrings | app3.py:166-167 | Sorting returns a permutation of the input that is ordered by code point |
| Resolver.BracketCode | app3.py:207-208 | A match exists exactly when a full-width `（` is later followed by a `）` with no newline between them. The group is the text of the leftmost such pair, up to its first `）` |
| Resolver.NamePart | app3.py:213 | The name is the prefix before the first `（`; the whole entry when there is none |
| Resolver.StageOne | app3.py:207-215 | With a bracket pair, the first record whose code equals the bracketed text; without one, the first record whose name equals the name part; none when no record matches |
| Resolver.KeyStage | app3.py:218-219 | The first record whose display key equals the entry; none when no record's does |
| Resolver.Resolve | app3.py:196-231 | No record exactly for "" and the placeholder "请选择企业". An exception exactly when a real entry meets an empty table. Otherwise the first stage-one match, else the first display-key match, both exact. Else the first row, tagged as a fallback exactly when neither stage matches |
| Resolver.StagesExclusive | app3.py:207-215 | An entry with a bracket pair is matched only on codes, one without only on names; a record never matches both ways |
| Resolver.BracketOfDisplayKey | app3.py:207-211 | Parsing a display key gives back the record's code, when the name has no `（` and the code has no `）` or newline |
| Resolver.ResolveDisplayKey | app3.py:196-231 | Selecting a record's own display key is an exact match on the first record that has the same code |
| Resolver.ResolveDisplayKeyUnique | app3.py:196-231 | With unique codes, selecting a record's display key returns that very record, as an exact match |
| Metrics.RemoveDotsIsReplace | app3.py:416 | Deleting the dots one at a time is `replace('.', '')` |
| Metrics.ParseScore | app3.py:415-418 | A positive score only comes from a text that is digits once the dots are gone, has at most one dot and has a nonzero digit; every other text scores 0 |
| Metrics.ParseScoreOfInteger | app3.py:416 | The decimal text of n parses to n |
| Metrics.ParseScoreOfDigits | app3.py:415-418 | A dotless digit text parses to its value, leading zeros included ("07" gives 7) |
| Metrics.ParseScoreTruncates | app3.py:416 | `a.b` with digit strings a and b parses to the value of a: `int(float(...))` truncates |
| Metrics.ParseScoreTwoDots | app3.py:415-418 | "1.2.3" passes the digit test but `float` rejects it, and the exception handler scores it 0 |
| Metrics.EntryFor | app3.py:409-424 | The entry is for the requested year. Its rating is the cell of the first rating column naming the year, or "无评级" when the row lacks that cell. Its score is the parsed cell of the first score column naming the year, or 0 when the row lacks it |
| Metrics.ColumnFor | app3.py:409-410 | The first column naming the year; none exactly when no column names it |
| Metrics.ExtractSeries | app3.py:407-424 | Every entry is for a listed year that both a rating and a score column name, and holds that year's cell texts with their defaults |
| Metrics.ExtractComplete | app3.py:407-424 | Every listed year that both column lists name appears in the series |
| Metrics.ExtractAscending | app3.py:407-424 | With ascending years, the series is in strictly ascending year order |
| Metrics.LatestIsLastCovered | app3.py:432-433 | The last entry of the series is the latest year both column lists name |
| Metrics.ValidScores | app3.py:428 | The valid scores are positive, and a number is among them exactly when some year has it as a positive score |
| Metrics.ValidScoresSingle | app3.py:428 | One entry contributes its score exactly when the score is positive, and nothing otherwise |
| Metrics.ValidScoresConcat | app3.py:428 | The filter distributes over concatenation; with the single-entry case, the valid scores are the positive scores in order and with their multiplicity |
| Metrics.MaxOf | app3.py:430 | The maximum is a member and bounds every member |
| Metrics.MinOf | app3.py:431 | The minimum is a member and is bounded by every member |
| Metrics.SumBounds | app3.py:429-431 | Scores between lo and hi sum to between lo·n and hi·n, so the average lies between the minimum and the maximum |
| Metrics.TrendOf | app3.py:436-441 | Rising exactly when there are at least three valid scores and the last exceeds the first; Falling exactly when there are at least three and the last is below the first; otherwise Stable |
| Metrics.Summarise | app3.py:427-449 | Average, maximum and minimum of the valid scores, or exactly 3, 4 and 2 when there are none. The latest score and year are those of the last entry, or 3 and "2020". The trend compares last with first only with at least three valid scores, else Stable. The average always lies between the minimum and the maximum |
| Metrics.ComputeMetrics | app3.py:427-449 | A company's figures: the sum, count, maximum and minimum of its valid scores, or 3 over 1, 4 and 2 when it has none. The latest score and year are those of the last extracted year, or 3 and "2020" when no year was extracted. The trend is that of the valid scores |
| Metrics.ZeroScoreIgnored | app3.py:427-433 | A year whose score is 0 changes no figure unless it is the last year |
| Metrics.TierOf | app3.py:452-467 | Excellent iff average ≥ 5; Good iff 4 ≤ average < 5; Moderate iff 3 ≤ average < 4; NeedsImprovement iff average < 3 |
| Metrics.TierMonotone | app3.py:452-467 | A higher average never falls into a lower tier |
| Metrics.TierOfAverageOnly | app3.py:452-467 | The tier depends only on the average, not on how many scores make it |
| Narrative.TierTextsDistinct | app3.py:452-494 | Different tiers get different level words and different strategy sentences; each strategy sentence mentions its level word |
| Narrative.StrategyNamesLevel | app3.py:491-494 | Each strategy sentence carries its tier's level word right after "作为ESG" |
| Narrative.CycleByTier | app3.py:452-467 | Two tiers share an implementation period exactly when they are the same tier, or Good and Moderate (both 12-24个月) |
| Narrative.RoundHalfEven | app3.py:480 | The rounded quotient is one of the two integers around n/d: the lower when the remainder is under half of d, the upper when it is over |
| Narrative.RoundHalfEvenNearest | app3.py:480 | The average's tenths are rounded to the nearest integer, and an exact half goes to the even one |
| Narrative.OneDecimal | app3.py:480 | The average prints as digits, a point and one digit, and read as tenths that text is 10·sum/count rounded half to even |
| Narrative.TenthsTextReadsBack | app3.py:480 | The one-decimal text parses back, through the score parser, to its integer part |
| Narrative.OneDecimalExamples | app3.py:480-483 | 14/3 prints as "4.7", 3 as "3.0", 4.25 as "4.2" and 4.75 as "4.8" |
| Narrative.ReportLines | app3.py:452-515 | A company's report has 43 lines. The first is the "# name(code) ESG数字化转型分析报告" title. Line 11 names the level and foundation words of the average's tier. Lines 14 to 18 give the average to one decimal, the maximum, the minimum, the latest score with its year, and the trend word. Line 22 is the strategy sentence of the average's tier |
| Narrative.AnalysisText | app3.py:395-515 | No selected company gives the fixed placeholder. A selected company's analysis is its report lines, filled in from the figures of its extracted series and joined with line breaks, so it starts with the report title |
| Narrative.AnalysisStartsWithHeading | app3.py:396-470 | The placeholder and every report start with "# " |
| Narrative.ReportStrategy | app3.py:489-494 | The strategy line is the sentence of the average's tier, and no other tier's sentence appears in the report |
| Narrative.ReportCycle | app3.py:511-514 | The tier's implementation period appears in both the expected-benefit line and the conclusion |
| Narrative.YearLabel | app3.py:574 | "优秀" iff score ≥ 5, "良好" iff 3 ≤ score < 5, "待提升" iff score < 3 |
| Narrative.YearLabelVersusLevel | app3.py:574 | A single year's label equals the level that score would earn as an average except at score 3, where the label says "良好" and the level says "中等" |
| Narrative.RatingValue | app3.py:623-624 | AAA…B map to 6…1; any other text to 0; the value is positive exactly for the six grades |
| Renderer.Sanitize | app3.py:321 | The cleaned text holds only allowed characters |
| Renderer.SanitizeCounts | app3.py:321 | Every allowed character is kept as often as it occurs |
| Renderer.SanitizeSubsequence | app3.py:321 | The cleaned text keeps the characters in their original order |
| Renderer.MarksRemoved | app3.py:321 | '#', '*', '、', '•' and '：' never survive the cleaning |
| Renderer.SanitizeClean | app3.py:321 | A text of allowed characters is left unchanged |
| Renderer.SanitizeIdempotent | app3.py:321 | Cleaning twice is cleaning once |
| Renderer.MarkersAlreadyGone | app3.py:321-322 | Removing "# ", "## " and "### " after cleaning changes nothing, because cleaning has deleted every '#' |
| Renderer.CleanKeepsLines | app3.py:321-322 | Cleaning keeps every line break |
| Renderer.EffectiveContent | app3.py:316-317 | A non-blank analysis is used unchanged; a blank one is replaced by the template naming the company and its code; the laid-out text is never blank |
| Renderer.StyleOf | app3.py:340-347 | The style tests are tried in order: heading 2 exactly for "一、" or "1."; heading 3 exactly when that fails and the line opens with "（一）" or "2."; the list style exactly when both fail and it opens with "- " or "• "; the body style otherwise; never the title or basic style |
| Renderer.LineElement | app3.py:333-347 | A line gives the 8-point spacer exactly when it is all whitespace; a non-blank line gives exactly the paragraph of the stripped line in the style its first characters select; never a page break |
| Renderer.ContentLines | app3.py:319-332 | The lines are the pieces of the cleaned analysis between line breaks; joined again they give the cleaned text, and there is one more line than the analysis has line breaks |
| Renderer.Elements | app3.py:325-351 | The document is the title and its 20-point spacer, then for each line i the element of line i at position i+2, then a page break and the time-stamped footer |
| Renderer.ContentElementsWellFormed | app3.py:332-347 | Every element between title block and page break is a spacer or a paragraph of non-empty, stripped, single-line, clean text, never in the title or basic style |
| Renderer.DeadStyleTests | app3.py:340-345 | On a cleaned line the "一、" and "• " tests never fire: heading 2 is exactly "1." and the list style exactly "- " when no earlier test fired |
| Renderer.BasicElements | app3.py:373-380 | The basic document: six elements, all paragraphs in the basic style or 10-point spacers; the spacers follow the company heading and the code line "证券代码：code" |
| Renderer.RenderPdf | app3.py:316-390 | The styled document, exactly the styled elements of the analysis, when it builds. Otherwise an exception leaves the export exactly when the basic elements cannot be constructed. Else the basic elements exactly when they build, else the 328 bytes the application writes, whose cross-reference table does not locate its objects. Every layout starts with a paragraph opening with the company name |
| Renderer.GuardedRenderPdf | app3.py:360-390 | With the basic elements constructed inside the handler, the export never raises. It agrees with the as-written export wherever that does not raise, and gives the last-resort bytes where it does |
| MinimalPdf.BuildConsistent | app3.py:387 | For any objects, a document whose offsets are computed from the lengths of its parts declares every object, and the table, where it really starts |
| MinimalPdf.AsWrittenIsLiteral | app3.py:387 | The as-written document is, piece for piece, the byte string the application writes |
| MinimalPdf.AsWrittenFirstMisplaced | app3.py:387 | Object 1 does not start at the declared byte 10 |
| MinimalPdf.AsWrittenStartMisplaced | app3.py:387 | The table does not start at the declared byte 262, which is a digit of the third entry |
| MinimalPdf.AsWrittenMisplaced | app3.py:387 | The file is 328 bytes and its objects and table start at 9, 58, 115 and 186, not at the declared offsets |
| MinimalPdf.FallbackConsistent | app3.py:387 | The corrected file, also 328 bytes, declares 9, 58, 115 and 186, and those are where its parts start |
| Pipeline.TableSeriesAscending | app3.py:155-167 | With the years 2009 to 2020 and the column lists picked from the table header, the series has at most twelve entries, all for years 2009 to 2020, in ascending year order |
| Pipeline.RisingGoodSeries | app3.py:427-467 | The series 2018:4, 2019:5, 2020:5 averages 14/3, printed "4.7"; it rises, is Good, and has the 12-24个月 period |
| Pipeline.EmptySeries | app3.py:444-467 | No extracted year gives average 3 ("3.0"), maximum 4, minimum 2, latest 3 in "2020", Stable, Moderate |
| Pipeline.ZeroScoreSeries | app3.py:427-441 | Years that all score 0 fall back to 3, 4 and 2 but report the last year's 0 as the latest |
| Pipeline.ReportLinesNoBreak | app3.py:470-514 | No report line contains a line break when the record's name, code and listing date have none |
| Pipeline.ReportReadsBack | app3.py:470-515 | Splitting a report at its line breaks gives back its 43 lines |
| Pipeline.AnalysisLineBreaks | app3.py:470-515 | A company's report has 42 line breaks |
| Pipeline.ReportElementCount | app3.py:325-351 | The styled PDF of a company's report has 47 elements |
| Pipeline.AnalysisNotBlank | app3.py:316 | No analysis is blank, so the export never substitutes its template for a report |
| Text.Strip | app3.py:334 | `strip` removes the leading and trailing whitespace: the result is a slice of the input with non-space ends, and only whitespace lies outside it |
| Text.StripIdempotent | app3.py:334 | Stripping twice is stripping once |
| Text.StripEmptyIffBlank | app3.py:335 | A line strips to nothing exactly when it is all whitespace |
| Text.Split | app3.py:332 | The pieces contain no separator and join back to the text |
| Text.SplitCount | app3.py:332 | There is one more piece than there are separators |
| Text.SplitJoin | app3.py:332 | Joining pieces free of the separator and splitting again gives the pieces back |
| Text.ReplaceAbsent | app3.py:322 | Replacing a pattern that does not occur changes nothing |

## Left out

- The Streamlit page is not modelled: widgets, layout, charts, the detail table's rendering, messages and downloads. Only the two small helpers behind the detail table and the rating chart are modelled (app3.py:574, 623-624).
- The CSV loading and its sample-table fallback are not modelled, nor the load-time `strip` and `fillna` of the identity columns. A record holds the cleaned texts, and its other cells hold `str()` of the value ("nan" for a missing one).
- Resolver.Resolve: the `st.warning` on a fallback match is not modelled; it is replaced by the `Fallback` tag.
- Metrics.ExtractSeries: `company_data.get` on a column that is in the column lists but absent from the row falls back to the defaults ("无评级", 0). A column from the lists is always in the table, so the model keeps the default only for a missing key.
- Metrics.ParseScore: the score text is the `str()` of the cell. The digit test accepts ASCII digits only, where Python's `isdigit` also accepts other Unicode digits. Scores above 2^53 are taken exactly, where `float` rounds them. Digit strings beyond the double range (over 308 digits) are also taken exactly, where `int(float(...))` raises and the handler gives 0.
- Narrative.OneDecimal: the model rounds the exact ratio sum/count half-to-even. Python formats the nearest double. The two agree while count < 20 and sum < 2^53/20: exact ties then occur only at quarter values, which doubles represent exactly. A series has at most one entry per supported year, so at most 12.
- The exception branch of the report (app3.py:518-532) is not modelled: none of the modelled steps raises on a record.
- The typesetting library (reportlab), the fonts and the styles' metrics are not modelled. Three input flags stand for it: whether the styled document builds, whether the basic elements can be constructed, and whether the basic document builds. The layouts are given as element lists. Which names, codes or analyses make the library fail is not modelled.
- Renderer.RenderPdf: an exception that leaves the export is the outcome `Escapes`. The page's handler that then shows an error (app3.py:660-679) is part of the Streamlit page.
- The generation time `pd.Timestamp.now()` is the parameter `now` of the renderer.
- MinimalPdf: the PDF bytes are text, one character per byte.

## Findings

| source | as written | input that shows it | evidently intended | confidence | as-written member | corrected member |
|---|---|---|---|---|---|---|
| app3.py:238 | The export is documented never to raise, but the basic layout's six paragraphs are constructed outside the handler, which guards only their build (app3.py:364-383) | A company name or code that the typesetting library's paragraph markup parser rejects. The styled title fails for it at app3.py:328, and the basic heading fails again at app3.py:374, outside any handler | The basic elements are constructed inside the handler, so every failure ends in the hard-coded bytes | not executed; it rests on the library rejecting the markup when a paragraph is constructed | Renderer.RenderPdf | Renderer.GuardedRenderPdf |
| app3.py:387 | The hard-coded last-resort PDF declares objects at bytes 10, 79 and 173 and the cross-reference table at byte 262 | The 328-byte file itself: the objects start at 9, 58 and 115 and the table at 186; byte 262 is the '1' of "0000000173" | The declared offsets are where the parts start, so the file is a valid PDF without repair | not executed | MinimalPdf.AsWrittenMisplaced | MinimalPdf.FallbackConsistent |
