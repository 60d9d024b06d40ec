# CBC engine model

A Dafny model of the analysis engine of a complete-blood-count (CBC)
report reader, `app.py`. The model covers:

- the reference-range table `NORMAL_RANGES`;
- `parse_cbc_values`, which searches the report's text with one pattern per
  parameter and converts the captured number with `float`;
- `assess_sample_quality`, which warns about the sample from its age, its
  storage and a few readings;
- `analyze_values`, which turns readings into per-parameter findings plus
  the composite findings (Rule of Threes, anemia evaluation, possible
  primary immunodeficiency);
- the summary filter that keeps every finding whose status is not `Normal`.

Python dicts are association lists `seq<(string, V)>` in insertion order
(module `Dict`); `d[k] = v` is `Insert`, `d[k]` and `k in d` are `Lookup`.
Numbers are exact `real`s. The modules follow the program's parts:
`ReferenceRanges`, `Matcher` (the two fixed pattern shapes), `Decimal`
(`float` on a digits-and-periods token), `Extractor`, `SampleQuality` and
`Analysis`. `Report` connects parsing to analysis.

How the patterns behave. Every pattern has one of two shapes.

- `KW[\s:]*([\d\.]+)`.
- `LONG|KW[\s:]*([\d\.]+)`. The alternation binds loosest, so the bare long
  name matches on its own and leaves group 1 empty. `float(None)` then
  raises `TypeError`, which the `except ValueError` does not catch. The
  model returns `Err(TypeError)` for the whole parse in that case.

Both quantifiers are greedy. No character is both in `[\s:]` and in
`[\d\.]`, so giving separators back to the star can never start the token
earlier, and backtracking never produces a different match. The search is
case-insensitive. The keyword branch matches at position `i` exactly when
the keyword is at `i` and, after the longest run of whitespace and colons,
a digit or period follows (`Matcher.KeywordMatchAtMeans`). The captured
token is the longest run of digits and periods after that run.

A token is accepted by `float` exactly when it has a digit and at most one
period. Otherwise `ValueError` is caught and the key is skipped.

Points of `app.py`'s behaviour worth noting:

- It has no RDW rule and no smear-recommendation finding.
- It does not normalise commas before matching.
- The composite rules run in the order Rule of Threes, anemia evaluation,
  possible PID.
- The MCV quality check compares with the literal 100, not the table.
- Among the red-cell parameters only RBC has its own low and high advice.
  Hemoglobin and hematocrit get the generic advice.
- Per-parameter findings follow the order of the readings, not the
  table's. Parsed readings are always in table order.
- With no MCV reading, the anemia advice keeps the empty type between its
  two spaces.

## Model

| member | source | states |
|---|---|---|
| Dict.LookupSpec | app.py:101-104 | `d[k]` / `k in d` on a dict: absent exactly when `k` is not a key, and otherwise a value stored under `k` |
| Dict.InsertSpec | app.py:87 | `values[key] = v`: an existing key keeps its place and the key order is unchanged; a new key is appended at the end |
| Dict.InsertLookup | app.py:87 | after `d[k] = v`, reading `k` gives `v` and every other key reads as before |
| Dict.InsertDistinct | app.py:87 | assignment never duplicates a key |
| Dict.LookupEntry | app.py:12-29 | in a dict with distinct keys, the value read under the i-th key is the i-th value |
| ReferenceRanges.TableWellFormed | app.py:12-29 | the table has 16 distinct parameters and every minimum is at most its maximum |
| ReferenceRanges.RangeOfWellFormed | app.py:12-29 | `NORMAL_RANGES[param]` exists exactly for the table's keys, with min <= max |
| ReferenceRanges.RbcMinFromTable | app.py:13 | the RBC minimum read by the hemolysis check (4.5) is the table's RBC entry |
| ReferenceRanges.HemoglobinMinFromTable | app.py:14 | the hemoglobin minimum read by the hemolysis check and the anemia rule (13.5) is the table's entry |
| ReferenceRanges.LymphocytesMinFromTable | app.py:22 | the lymphocyte minimum read by the PID rule (1.0) is the table's entry |
| ReferenceRanges.MpvMaxFromTable | app.py:27 | the MPV maximum read by the prolonged-EDTA-exposure check (10.4) is the table's entry |
| Matcher.WordAtMeans | app.py:84 | a keyword occurs at `i` exactly when every letter matches the text's letter there without regard to case |
| Matcher.SepEnd | app.py:65 | `[\s:]*` consumes the longest run of whitespace and colons |
| Matcher.NumEnd | app.py:65 | `([\d\.]+)` captures the longest run of digits and periods |
| Matcher.KeywordMatchAt | app.py:65 | a keyword match captures a non-empty token of digits and periods, and that token is the greedy run of digits and periods starting where the greedy run of separators after the keyword ends |
| Matcher.KeywordMatchAtMeans | app.py:65 | `KW[\s:]*([\d\.]+)` matches at `i` exactly when the keyword is at `i` and some split of the following text into separators and then at least one digit or period exists |
| Matcher.SplitAfterSeparators | app.py:65 | every such split starts its token exactly where the greedy separator run ends, so backtracking cannot change the match |
| Matcher.MatchAt | app.py:66 | a match has no group exactly when the pattern has a long name and that name is at the position; it captures exactly when the long name is not there and the keyword branch matches, and then captures what the keyword branch captures |
| Matcher.MatchAtMeans | app.py:65-66 | a pattern captures at `i` exactly when its long name is not at `i`, its keyword is, and separators followed by digits or periods come after it |
| Matcher.SearchFrom | app.py:84 | `re.search` finds the leftmost match position: nothing matches before it, and no match means no position matches |
| Matcher.SearchAbsent | app.py:84-85 | a pattern whose words do not occur in the text finds nothing |
| Matcher.SearchMissingLetter | app.py:84-85 | a pattern whose keyword, and long name, each need a letter absent from the text finds nothing |
| Decimal.ParseDecimal | app.py:86-89 | `float` accepts a digits-and-periods token exactly when it has a digit and at most one period, and the value is then >= 0 |
| Decimal.ParseShowNat | app.py:87 | `float(str(n)) == n` for every natural `n` |
| Decimal.ParseWholeDotFrac | app.py:87 | digits, a period and digits read as the whole part plus the fraction |
| Decimal.ParseShowDecimal | app.py:87 | `float(str(n) + "." + f)` is `n` plus the fraction written by `f` |
| Decimal.ParseDecimalExample | app.py:87 | `float("5.2") == 5.2` |
| Decimal.ParseExamples | app.py:86-89 | `"007"` is 7, `"1."` is 1, `".5"` is 0.5; `"."` and `"1.2.3"` raise `ValueError` |
| Extractor.StepOf | app.py:84-89 | one turn of the loop stores a value only if that value is >= 0 |
| Extractor.ParseCbcValues | app.py:63-90 | the loop returns exactly the specified extraction result, including the `TypeError` exit |
| Extractor.PatternsFollowTable | app.py:64-81 | one pattern per table parameter, in the table's order, no name twice |
| Extractor.ExtractSpec | app.py:63-90 | parsing raises exactly when some pattern's leftmost match is a bare long name. Otherwise every key is a table parameter with a value >= 0, no key repeats, and each parameter holds what its own pattern's match and `float` give |
| Extractor.ExtractNoMatch | app.py:83-90 | text in which no pattern matches gives the empty dict |
| Extractor.ExtractWithoutRaise | app.py:83-90 | when no pattern matches a bare long name first, the result is the stored readings in pattern order |
| Extractor.ExtractOkStored | app.py:83-90 | a successful parse means no pattern matched a bare long name, and the result is the stored readings in pattern order |
| Extractor.StoredInOrder | app.py:83-87 | values are stored in the order the loop visits their names |
| Extractor.ExtractInTableOrder | app.py:64-90 | parsed readings are in table order: of any two readings, the earlier one's parameter is the earlier key of `NORMAL_RANGES` |
| Extractor.ExtractEmptyText | app.py:63-90 | empty text gives the empty dict |
| Extractor.ExtractOnlyRbc | app.py:65-90 | text without any of the letters h, m, d, w, n, l, e, a and p, in either case, yields at most the RBC reading |
| Extractor.ExtractRbcExample | app.py:65 | `"RBC: 5.2"` gives `{RBC: 5.2}` |
| Extractor.ExtractRejectedTokenExample | app.py:86-89 | `"RBC: ."` gives `{}`: the rejected token is skipped silently |
| Extractor.ExtractBareLongNameExample | app.py:66 | `"Hemoglobin 14"` raises `TypeError` |
| SampleQuality.AssessSampleQuality | app.py:93-107 | the successive appends give exactly the warnings of the checks that hold, in check order |
| SampleQuality.QualityIssuesMeaning | app.py:94-106 | each warning appears exactly when its own check holds: age > 72, frozen, heated, MCV > 100, MPV above the MPV maximum, both hemoglobin and RBC below their minimums |
| SampleQuality.QualityIssuesShape | app.py:94-107 | only the six warnings occur, none twice, there are at most six, and a sample is never both frozen and heated |
| SampleQuality.When | app.py:95-106 | a check contributes no warning or its single warning |
| Analysis.Classify | app.py:115-143 | status Low exactly below the minimum, High exactly above the maximum (and not below the minimum), Normal exactly inside the range |
| Analysis.SuggestionMeaning | app.py:117-143 | normal readings get "Within normal range."; RBC, Platelets, WBC and Neutrophils get their own advice when low and when high, Lymphocytes only when low; every other low or high reading gets the generic advice naming the parameter |
| Analysis.FindingOf | app.py:144-150 | a per-parameter row is never `Abnormal` |
| Analysis.FindingStatus | app.py:114-150 | a row's status follows the reading against the table range; its value is the reading and its label and unit come from the table |
| Analysis.ParamFindings | app.py:112-150 | at most one row per reading, and no row is `Abnormal` |
| Analysis.ParamRows | app.py:112-150 | the loop builds exactly the per-parameter rows |
| Analysis.ParamFindingsCover | app.py:112-150 | every reading whose parameter is in the table has its row |
| Analysis.ParamFindingsSource | app.py:112-150 | every row comes from a reading whose parameter is in the table |
| Analysis.ParamFindingsAllKnown | app.py:112-150 | when every parameter is in the table, row i is the row of reading i |
| Analysis.ParamFindingsTableKeys | app.py:112-150 | the same, for readings whose keys are all table keys |
| Analysis.Abs | app.py:156 | `abs` is non-negative and is `x` or `-x` |
| Analysis.RuleOfThrees | app.py:152-163 | the Rule of Threes contributes at most one row, and it is `Abnormal` |
| Analysis.RuleOfThreesMeaning | app.py:152-163 | the Rule of Threes row appears exactly when RBC, hemoglobin and hematocrit are present and `abs(3 RBC - Hb) >= 1` or `abs(3 Hb - HCT) >= 3` |
| Analysis.RuleOfThreesExamples | app.py:152-163 | RBC 5, Hb 15, HCT 45 gives no row; RBC 5, Hb 10, HCT 45 gives one; without RBC there is none |
| Analysis.AnemiaEvaluation | app.py:165-178 | the anemia evaluation contributes at most one row, and it is `Abnormal` |
| Analysis.AnemiaEvaluationMeaning | app.py:165-178 | the anemia row appears exactly when hemoglobin is present and below 13.5, and the type is microcytic below MCV 80, macrocytic above 100, normocytic otherwise, empty without MCV |
| Analysis.AnemiaExamples | app.py:165-178 | Hb 10 with MCV 70, 110, 90 or no MCV gives the four advice texts; Hb 13.5 gives none |
| Analysis.PossiblePid | app.py:180-188 | the PID rule contributes at most one row, and it is `Abnormal` |
| Analysis.PossiblePidMeaning | app.py:180-188 | the PID row appears exactly when lymphocytes are present and below 1.0 |
| Analysis.Composites | app.py:152-188 | at most three composite rows, all `Abnormal` |
| Analysis.AnalyzeValues | app.py:110-190 | returns the per-parameter rows, then the Rule of Threes, anemia and PID rows in that order |
| Analysis.AnalysisOfNothing | app.py:110-190 | no readings give no rows |
| Analysis.AnalysisSplits | app.py:110-190 | the result is the per-parameter rows followed by the composite rows; a row is `Abnormal` exactly when it is a composite row |
| Analysis.NotNormal | app.py:252 | the summary holds exactly the rows whose status is not `Normal` |
| Analysis.NotNormalAppend | app.py:252 | filtering keeps the original order: filtering a concatenation concatenates the filtered parts |
| Analysis.NotNormalKeeps | app.py:252 | a list without normal rows passes the filter unchanged |
| Analysis.SummaryKeepsComposites | app.py:252 | the summary is the abnormal per-parameter rows followed by every composite row |
| Report.ParsedReadingsAllAnalysed | app.py:223-246 | every reading parsed from a report gets its own row, in parsing order |

## Left out

- The Streamlit interface, the manual input form, the file upload and the display of results (app.py:193-266). They are presentation only. The storage choice is the `Storage` enumeration of the four offered options.
- PDF and image text extraction (app.py:49-60). These call foreign libraries, so the text is a parameter.
- `COLLECTION_ADVICE` (app.py:32-46) and the DataFrame table (app.py:248-249). They are static text and display.
- The general regular-expression engine. Only the two pattern shapes above are modelled, with ASCII `\s`, `\d` and case folding; Unicode behaviour of `re` and `float` is not.
- `float` forms other than digits and periods (signs, exponents, `inf`, underscores). A token of `[\d.]+` cannot contain them.
- IEEE rounding. Readings are exact reals, so the Rule of Threes comparisons are exact.
