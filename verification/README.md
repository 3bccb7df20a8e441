# Timestamp-column detection and unit check

This project models the two pieces of self-contained logic in `util.py` of a
set of scripts for post-processing physiological and eye-tracking recordings
exported as CSV files:

* `find_timestamp_candidates(df)`. It returns, in column order, the column
  names that look like timestamps. A name qualifies when it contains one of
  the keywords `time`, `timestamp` or `ts`, ignoring case, with a boundary on
  each side. A boundary is the start or end of the name, or a character that
  is not a letter or digit. So `gaze_ts`, `start time`, `timestamp_ns`,
  `ts-1` and `timestamp [ns]` qualify, and `runtime`, `starts`, `times` and
  `timestamps` do not.
* The unit check at the head of `unix_to_readable`. The unit name is looked
  up in the table `s`→1, `ms`→10^3, `us`→10^6, `ns`→10^9. Any other name
  raises `ValueError` before any timestamp is converted.

Modules:

* `Wrappers` (`wrappers.dfy`): `Result`, which stands in for a raised exception, and `Option`.
* `Chars` (`chars.dfy`): letters, digits, letter case (ASCII) and the whitespace class `\s` (Python's full set).
* `TimestampPattern` (`pattern.dfy`): the pattern stated in two ways. The
  first is the regular expression taken alternative by alternative
  (`PatternAt`, `PatternSearch`), including the optional `\s*\[ns\]` after
  `timestamp`. The second is a plain keyword-token predicate
  (`IsTimestampName`). A lemma proves the two agree. The methods `MatchAt`
  and `Search` carry out the scan and are proved against the first form.
* `TimestampColumns` (`candidates.dfy`): the list comprehension as the method
  `FindTimestampCandidates`. It is proved equal to a reference filter,
  `Candidates`. Lemmas about `Candidates` cover order, multiplicity,
  idempotence, case-invariance and the empty result.
* `Units` (`units.dfy`): the scale table, the unit check, and
  `unix_to_readable`. In the model, the conversion is a parameter of
  `unix_to_readable`.
* `PatternExamples`, `ColumnExamples` (`examples.dfy`): concrete names and a concrete header.

Facts about `util.py` that the model keeps:

* The pattern has only the keywords `time`, `timestamp` and `ts`, and it is
  applied only to the names in `df.columns` (util.py:108, util.py:111).
* The result is a list in column order that keeps repeated names (util.py:111-113).
* An unknown unit raises `ValueError` with a fixed message (util.py:30). The
  unit defaults to seconds (util.py:12).

## Model

| member | source | states |
|---|---|---|
| TimestampPattern.LeftBoundary | util.py:108 | the lookbehind `(?:^\|(?<=[\W/_-]))`: an offset is the start of the name or follows a character that is not a letter or digit |
| TimestampPattern.RightBoundary | util.py:108 | the lookahead `(?:$\|(?=[\W/_-]))`: an offset is the end of the name or precedes a character that is not a letter or digit |
| TimestampPattern.IsTimestampName | util.py:107-108 | a name is a timestamp name when `time`, `timestamp` or `ts` occurs in it, ignoring case, with a boundary on each side |
| TimestampPattern.NsTagSpan | util.py:108 | the optional suffix `\s*\[ns\]`: whitespace, then `[ns]` in any case, spanning a stretch of the name |
| TimestampPattern.PatternAt | util.py:107-108 | the expression anchored at one offset: the lookbehind, one of the four ways through the alternation, then the lookahead |
| TimestampPattern.PatternSearch | util.py:107-111 | `pattern.search` succeeds: the expression matches at some offset of the name |
| TimestampPattern.PatternSearchIsTimestampName | util.py:107-108 | the regular expression matches somewhere in a name exactly when some keyword `time`/`timestamp`/`ts` occurs in it, ignoring case, with a non-alphanumeric character or the string edge on each side; the optional `\s*\[ns\]` never changes the answer |
| TimestampPattern.PatternAtIsToken | util.py:107-108 | each of the four ways through the alternation (`time`, `timestamp` followed by `\s*\[ns\]`, `timestamp`, `ts`), with both lookarounds, puts some keyword at that offset as a bounded token |
| TimestampPattern.NsTagBoundsTimestamp | util.py:108 | when `timestamp` is followed by whitespace and `[ns]`, the character after `timestamp` is already a right boundary |
| TimestampPattern.MatchAt | util.py:107-108 | trying the expression at one offset, in the engine's order with a greedy `\s*`, succeeds exactly when the expression matches there |
| TimestampPattern.Search | util.py:107-111 | `pattern.search(name)` succeeds exactly when the expression matches at some offset, which is exactly when the name is a timestamp name |
| TimestampPattern.TokenAtCaseInvariant | util.py:108 | two names equal up to letter case have a keyword token at the same offsets (the `(?i)` flag, and letter case does not change whether a character is a boundary) |
| TimestampPattern.TimestampNameCaseInvariant | util.py:108 | changing the letter case of a name never changes whether it is a timestamp name |
| TimestampPattern.TimestampNameOfCase | util.py:108 | a name, its lower-case form and its upper-case form are all classified alike |
| PatternExamples.AcceptedNames | util.py:107-108 | `gaze_ts`, `start time`, `timestamp_ns`, `ts-1`, `timestamp [ns]` and `Timestamp` are timestamp names |
| PatternExamples.NsTagAlternative | util.py:108 | `timestamp [ns]` also matches through the `\s*\[ns\]` alternative |
| PatternExamples.RejectedLeft | util.py:108 | `runtime` and `starts` are rejected: the keyword has a letter on its left |
| PatternExamples.RejectedRight | util.py:108 | `times` and `timestamps` are rejected: the keyword has a letter on its right |
| PatternExamples.RejectedValue | util.py:107-108 | `value` is not a timestamp name |
| TimestampColumns.Candidates | util.py:111 | the reference filter never returns more names than it is given |
| TimestampColumns.MatchPositions | util.py:111 | there is one kept offset per returned name, and every kept offset is an offset of the input |
| TimestampColumns.CandidatesReadAtPositions | util.py:111 | the result is the input read at strictly ascending offsets: nothing is added, duplicated or reordered |
| TimestampColumns.MatchPositionsAreMatches | util.py:111 | an offset is kept exactly when the name there is a timestamp name |
| TimestampColumns.CandidatesSelectsMatches | util.py:111 | the result is the input read at exactly the matching offsets, in ascending order |
| TimestampColumns.FindTimestampCandidates | util.py:101-113 | the comprehension, running the pattern scan on each column name, returns exactly the reference filter's list |
| TimestampColumns.NoMatchIsEmpty | util.py:111-113 | with no timestamp name among the columns (in particular, no columns), the result is the empty list and nothing fails |
| TimestampColumns.AllMatchIsIdentity | util.py:111 | a list made only of timestamp names is returned unchanged |
| TimestampColumns.CandidatesMembership | util.py:111 | a name is in the result exactly when it is one of the columns and a timestamp name |
| TimestampColumns.CandidatesIdempotent | util.py:111-113 | applying the filter to its own output returns that output |
| TimestampColumns.CandidatesMultiplicity | util.py:111 | each matching name occurs in the result as often as among the columns; a non-matching name not at all |
| TimestampColumns.CandidatesAppend | util.py:111 | filtering the concatenation of two column lists is the concatenation of their filtered lists |
| TimestampColumns.CandidatesCaseInvariant | util.py:107-111 | lower-casing the column names before filtering gives the lower-cased result |
| TimestampColumns.MatchPositionsCaseInvariant | util.py:107-111 | two column lists that differ only in letter case keep the same offsets |
| ColumnExamples.PicksTimestampColumn | util.py:111-113 | of the columns `timestamp_ns` and `value`, the result is `[timestamp_ns]` |
| Units.ScaleTable | util.py:28 | the scale table: `s`→1, `ms`→1000, `us`→10^6, `ns`→10^9 ticks per second |
| Units.Symbol | util.py:28 | the key of each of the four units in the scale table |
| Units.Scale | util.py:28 | a unit's scale, read from the table, is 1000 to the power of its position (`s`, `ms`, `us`, `ns`) |
| Units.ParseUnit | util.py:27-30 | a unit name is accepted exactly when it is a key of the scale table; the accepted unit has that name and the table's scale; any other name gives `ValueError` with the fixed message |
| Units.ParseSymbol | util.py:28-29 | every unit's own name is accepted and read back as that unit |
| Units.ScaleTableIsUnits | util.py:28 | the table's keys are exactly the four unit names, each mapped to its unit's scale |
| Units.ScaleSteps | util.py:28 | each unit's scale is exactly 1000 times the previous unit's |
| Units.UnixToReadable | util.py:12-30 | the unit defaults to seconds; an unknown unit is rejected with `ValueError` whatever the timestamps and the conversion are; a known unit hands the timestamps and that unit to the conversion |
| Units.DefaultUnitIsSeconds | util.py:12 | a call without a unit converts the timestamps as seconds |
| Units.ExactSpelling | util.py:27-30 | the lookup is exact: `S`, `MS`, `sec`, the empty name and `ns ` are rejected |

## Left out

- The timestamp conversion in `unix_to_readable` (util.py:31-98) is a parameter of `Units.UnixToReadable`. That code is floating-point division, pandas `to_datetime`/`tz_convert`, `datetime.fromtimestamp`, the time-zone database and `strftime`: foreign library calls and floating point.
- `str(unit)` (util.py:27): the model takes the unit already as a string.
- `str(col)` (util.py:111): column labels are modelled as strings. A non-string label is converted before matching but returned as the original label, and the model does not cover that.
- Characters outside ASCII. Python's `\W` treats every Unicode letter or digit (for example `é`) as a word character, and `(?i)` also identifies `ı`, `İ` with `i` and `ſ` with `s`. The model's letters and digits are the ASCII ones, and it folds only `A`–`Z`. Non-ASCII letters next to a keyword therefore count as boundaries in the model.
- `synchronize_data` (util.py:120-156) is left out because it is unfinished. Each iteration replaces `dfs` with a one-entry dictionary under the literal key `'{i}'`/`'{j}'`, and the merge exists only as a comment. Modelling an alignment would mean inventing behaviour the code lacks.
- The module-level CSV reads and the call at util.py:159-167 are file I/O on fixed local paths.
- test.py is left out: it reads a CSV and prints. It indexes the list returned by `find_timestamp_candidates` with `'columns'`, which the list type does not support.
