# MoESchools data pipeline, modelled in Dafny

This project models the data pipeline of `MoESchools.py`. The pipeline builds one table of New Zealand schools from two sources: the Ministry of Education school registry, read page by page from a datastore API, and a roll workbook that holds one sheet of student counts per year. The pipeline has five parts, modelled one module each. `Text` and `Wrappers` are shared helpers.

- `Records` models the record normaliser, `normalize_value` and `project_record`. A raw JSON object becomes a record over the fixed, ordered 34-entry field list. `"-"` stands in for null, for blank strings, and for empty lists and objects.
- `Fetcher` models the paginated fetch, `fetch_all_projected_records`. It is a `while` loop over `fetched`, `offset`, `total` and the growing `projected` list. The method is proved equal to a specification function, `Fetch`, over an abstract page source: a function from the requested offset to the reply. Lemmas prove that batches are read at consecutive offsets, that the loop stops at the reported total or on an empty page, and that a failure returns no records.
- `RollData` models the roll-band extractor, `load_roll_data`, and the year list, `get_available_years`. It finds the sheet named after the year and scans the headers for the school-ID column. A loop locates the `AY`..`BM` band, and the last match wins for each boundary. The sheet is projected to the ID column plus the band, the ID column is renamed to `School_Id`, and rows whose ID is not numeric are dropped.
- `Reconciler` models the reconciler, `match_schools_with_rolls`. It computes the roll-only and registry-only ID sets and does a left join that keeps registry order.
- `Export` models the export naming. It covers the sanitised base file name, the `FIELD_ALIASES` rename and the header names of the Excel table.

Where the code's behaviour departs from what its names, comments or messages suggest, the model follows the code:

- The band boundaries are the **last** matching headers. The scan has no `break`.
- When either boundary is missing, only the ID column is kept. The warning text at MoESchools.py:241 says "all columns except School_Id", but the code keeps just the ID column.
- A base name made only of illegal characters, such as `***`, becomes `___`. It does not fall back to the default. Only a name that is blank after replacement and stripping falls back to `schools_filtered`.
- When no header looks like a school ID, the first column is used only if the sheet is non-empty. pandas calls a sheet empty when it has no rows or no columns. An empty sheet has no ID column, selecting `None` raises, and loading fails.
- Loading also fails if the projection would hold two `School_Id` columns. This happens when the ID column lies inside the band, or when a band header is already named `School_Id`. In that case `pd.to_numeric` receives a table rather than a column, raises, and the error is re-raised as a load error.

Inputs the verifier cannot see become parameters:

- The HTTP source becomes the `Fetcher.Source` oracle.
- The workbook becomes a list of named sheets.
- The current year is an argument of `AvailableYears`.

## Model

| member | source | states |
|---|---|---|
| `Text.Strip` | MoESchools.py:113 | `str.strip()`: the result is a slice of the input with only whitespace before and after it, has no whitespace at either end, and is empty exactly when the input is all whitespace |
| `Text.StripIdempotent` | MoESchools.py:113 | stripping a stripped string changes nothing |
| `Text.Letters` | MoESchools.py:231 | the header's letters-only label keeps only alphabetic characters, keeps every character of an all-letter header, and drops a single non-letter |
| `Text.LettersAppend` | MoESchools.py:231 | the label of a concatenation is the concatenation of the labels, so every letter is kept, in order, and every other character dropped |
| `Text.LettersExample` | MoESchools.py:231 | the header `AY.1` has the label `AY` |
| `Text.ContainsAt` | MoESchools.py:211 | Python's substring test `sub in s` holds exactly when `sub` occurs at some position of `s` |
| `Text.IntToString` | MoESchools.py:203 | `str(year)`: decimal digits that denote the year, with a leading `-` for a negative year and no leading zero |
| `Text.NatToStringRoundTrip` | MoESchools.py:203 | reading the decimal form of a number back gives the number |
| `Text.IntToStringInjective` | MoESchools.py:203 | different years give different sheet names |
| `Records.NormalizeValue` | MoESchools.py:109-117 | null, blank strings, and empty lists and objects become `"-"`; other strings are trimmed; other values pass unchanged; the result is never blank and never has outer whitespace |
| `Records.NormalizeIdempotent` | MoESchools.py:109-117 | `normalize_value` is idempotent |
| `Records.NormalizedIsFixed` | MoESchools.py:109-117 | a value that is already normalised is left unchanged |
| `Records.IdFieldOnlyFirst` | MoESchools.py:51-59 | `School_Id` is the first exported field and appears nowhere else in the list |
| `Records.Project` | MoESchools.py:120-121 | the keys are exactly the field list, in field order; each value is the normalised raw value, or `"-"` when the key is missing; no value is blank (`ProjectRecord` is this projection onto the exported fields) |
| `Records.ProjectedLookup` | MoESchools.py:120-121 | every field of the list can be read from the projected record and holds the normalised raw value; any other key is absent |
| `Records.ProjectIdempotent` | MoESchools.py:120-121 | projecting an already projected record onto the same fields gives the same record |
| `Fetcher.ReportedTotal` | MoESchools.py:150-156 | the total is `result.total` when truthy, else `records_total` when present (even 0), else the first page's record count |
| `Fetcher.ZeroTotalFallsThrough` | MoESchools.py:151 | a reported `total` of 0 behaves exactly like a missing total |
| `Fetcher.ProjectAll` | MoESchools.py:153 | each raw record of a batch is projected, in order |
| `Fetcher.Drain` | MoESchools.py:162-177 | the later-page loop as a function of the source: every batch it collects is non-empty, and a failure is a transport failure or a falsy `success` at some offset |
| `Fetcher.DrainFollows` | MoESchools.py:158-177 | the later batches were each read at the offset their predecessors add up to, each successful and non-empty and below the total; the loop ended because the total was reached or the next page was empty |
| `Fetcher.DrainFollowsOffsets` | MoESchools.py:162-176 | batch `i` came from the request at offset (first page size + records in batches before `i`): no record is skipped or read twice |
| `Fetcher.DrainFailureAt` | MoESchools.py:162-166 | a failed loop names an offset the loop actually requested, below the total, after successful non-empty batches that add up to it, together with the failure met there |
| `Fetcher.FetchReachesTotal` | MoESchools.py:158-180 | a successful fetch returns at least the reported total, unless a successful but empty page at exactly the offset reached ended the loop |
| `Fetcher.FetchFailure` | MoESchools.py:142-166 | a failed fetch returns no records; its error is a first page with falsy `success`, a transport failure on the first request, or a transport failure or falsy `success` at an offset the loop requested after a successful first page |
| `Fetcher.FetchInRequestOrder` | MoESchools.py:150-177 | a successful result is the first page's records, then the later batches in request order, all projected |
| `Fetcher.FetchAllProjectedRecords` | MoESchools.py:124-180 | the loop keeps `fetched == offset == |projected|` and returns exactly the result of the `Fetch` specification: the same records or the same error |
| `RollData.AvailableYears` | MoESchools.py:184-190 | the consecutive years from 2010 to the current year inclusive; empty before 2010 |
| `RollData.FindSheet` | MoESchools.py:203-204 | the sheet is the one whose name is exactly the year string; there is none when no sheet has that name |
| `RollData.FirstSchoolIdHeader` | MoESchools.py:210-213 | the first header whose lower-cased text contains both "school" and "id"; none when no header does |
| `RollData.SchoolIdColumnChoice` | MoESchools.py:209-217 | the ID column is the first matching header; without one it is column 0 of a non-empty sheet, and there is none otherwise |
| `RollData.FindSchoolIdColumn` | MoESchools.py:209-217 | the scan that stops at the first match returns that same column |
| `RollData.LastLabelIndex` | MoESchools.py:230-235 | the last header whose letters, upper-cased, equal the label; none when no header matches |
| `RollData.LastLabelIndexIs` | MoESchools.py:230-235 | a matching header with no match after it is the boundary the scan settles on |
| `RollData.CapitalLabelMatch` | MoESchools.py:231-234 | for headers made only of capital letters, a label match is plain equality |
| `RollData.LocateBand` | MoESchools.py:226-235 | the loop without `break` leaves each boundary at the last matching header |
| `RollData.BandHeaders` | MoESchools.py:237-238 | `all_cols[start:end+1]`: the headers from start to end inclusive, in order; empty when start > end |
| `RollData.ProjectRow` | MoESchools.py:245 | a kept row holds its ID and one cell per band column, in band order |
| `RollData.ParseId` | MoESchools.py:251-255 | a number is kept, a string coerces exactly when it is a run of decimal digits and then to the non-negative value they denote, a blank cell never coerces |
| `RollData.ParseIdDecimal` | MoESchools.py:251-255 | an ID written as decimal digits coerces to that integer |
| `RollData.KeepNumeric` | MoESchools.py:250-255 | the rows whose ID coerces are kept and projected; each has one cell per band column |
| `RollData.KeepNumericAppend` | MoESchools.py:254 | the row filter keeps sheet order |
| `RollData.KeepNumericMembers` | MoESchools.py:250-255 | a row survives exactly when its ID coerces, and each surviving row carries that integer ID and the row's band cells |
| `RollData.LoadRollColumns` | MoESchools.py:223-248 | the columns are `School_Id` followed by the headers from the last start match to the last end match inclusive; only `School_Id` when a boundary is missing; every row has one cell per band column |
| `RollData.LoadRollNoDuplicateId` | MoESchools.py:245-251 | a loaded table never holds `School_Id` twice |
| `RollData.LoadRollData` | MoESchools.py:192-261 | resolve the sheet, choose the ID column, locate the band, project, rename and filter: the result equals the `LoadRoll` specification, including its error cases |
| `RollData.BandExample` | MoESchools.py:192-261 | headers SchoolID, AX, AY, AZ, BM, BN give the columns School_Id, AY, AZ, BM, and a row whose ID is "n/a" is dropped |
| `Reconciler.RegistryIds` | MoESchools.py:271 | every registry ID as an integer, in registry order; otherwise the first record whose ID does not coerce |
| `Reconciler.Mismatches` | MoESchools.py:274-275 | roll-only and registry-only sets are disjoint; neither contains an ID present on both sides; together with the common IDs they cover both sides |
| `Reconciler.MatchesFor` | MoESchools.py:285 | the band cells of exactly the roll rows with the given ID: each matching row contributes and nothing else does; empty exactly when the roll table lacks that ID |
| `Reconciler.MatchesForAppend` | MoESchools.py:285 | the matches in two blocks of roll rows are those of the first block followed by those of the second, so the matches keep roll order |
| `Reconciler.LeftJoin` | MoESchools.py:285 | the left merge yields at least one row per registry record, the first row belonging to the first record |
| `Reconciler.JoinOne` | MoESchools.py:285 | one output row per matching roll row; one unmatched row when nothing matches; all of them carry the registry record |
| `Reconciler.LeftJoinAppend` | MoESchools.py:285 | the left join is stable: joining two blocks of the registry is joining each block in turn |
| `Reconciler.LeftJoinCovers` | MoESchools.py:285 | every registry record yields at least one row; every row carries a registry record; roll cells are attached only under a matching ID; roll-only IDs produce no rows |
| `Reconciler.LeftJoinUnique` | MoESchools.py:285 | with unique roll IDs there is exactly one row per registry record, in registry order, matched exactly when its ID is in the roll table |
| `Reconciler.MatchOutcome` | MoESchools.py:271-295 | the report lists the IDs on one side only; with unique roll IDs a row is unmatched exactly when its ID is registry-only |
| `Reconciler.MatchSchoolsWithRolls` | MoESchools.py:263-295 | the match succeeds exactly when every registry ID is numeric; a failure names a record whose ID is not; on success there is at least one row per registry record and the two mismatch sets are disjoint |
| `Reconciler.JoinedColumns` | MoESchools.py:285 | the merged table's columns are the 34 registry fields, then the roll table's columns after `School_Id`, in order |
| `Reconciler.MatchExample` | MoESchools.py:263-295 | registry 1, 2, 3 against rolls 2, 3, 4 gives roll-only {4}, registry-only {1}, and three rows in registry order, with the row for 1 unmatched |
| `Export.ReplaceIllegal` | MoESchools.py:301 | each of `\ / : * ? " < > \|` becomes `_`; every other character stays in place |
| `Export.ReplaceIllegalClean` | MoESchools.py:301 | after replacement no illegal character is left, and the whitespace is unchanged |
| `Export.SanitizeBaseName` | MoESchools.py:301 | the base name is never empty, has no illegal character and no outer whitespace; it is the default name exactly when the given name is blank |
| `Export.SanitizeTrimmedReplacement` | MoESchools.py:301 | when the replaced name has no outer whitespace, it is the base name |
| `Export.SanitizeKeepsCleanName` | MoESchools.py:301 | a legal, trimmed, non-empty name is kept as it is |
| `Export.SanitizeIdempotent` | MoESchools.py:301 | sanitising a sanitised name changes nothing |
| `Export.SanitizeExample` | MoESchools.py:301 | `My:Export*2025` becomes `My_Export_2025` |
| `Export.SanitizeIllegalOnly` | MoESchools.py:301 | `***` becomes `___`, and a blank name becomes `schools_filtered` |
| `Export.CsvFileName` | MoESchools.py:301-302 | the CSV file name is the sanitised base name followed by `.csv`; its stem is non-empty, legal and trimmed |
| `Export.ExcelFileName` | MoESchools.py:320-321 | the Excel file name is the sanitised base name followed by `.xlsx`; its stem is non-empty, legal and trimmed |
| `Export.FileNamesShareStem` | MoESchools.py:301-302 | both export files carry the sanitised base name, and a clean name is used unchanged |
| `Export.AliasColumns` | MoESchools.py:306 | the rename maps each column through `FIELD_ALIASES.get(col, col)` and keeps the column order and count |
| `Export.AliasRenamesOnlyId` | MoESchools.py:63-65 | `School_Id` becomes `MoEID`; every other column name is unchanged, in place |
| `Export.AliasKeepsDistinct` | MoESchools.py:306 | the rename cannot make two columns collide, unless a column is already called `MoEID` |
| `Export.AliasedFields` | MoESchools.py:328 | the aliased field list is `MoEID` followed by the other 33 fields, unchanged |
| `Export.TableHeadersAsWritten` | MoESchools.py:328-347 | the table headers as written: the aliased fields for the first 34 columns, then `Column35`, `Column36`, ... for the rest (see Findings) |
| `Export.TableHeaders` | MoESchools.py:344 | the corrected table headers: one per exported column, each the column's aliased name |
| `Export.TableHeadersMatchCsv` | MoESchools.py:328-344 | the corrected Excel header row is the CSV header row: the aliased fields, then the roll band |
| `Export.TableHeadersAgreeOnFields` | MoESchools.py:328-344 | the as-written and the corrected headers agree on the 34 registry fields |
| `Export.TableHeaderLosesRollName` | MoESchools.py:344 | with one roll column `Y1`, the table as written heads it `Column35`; the corrected table heads it `Y1` |

## Left out

- The Tkinter `App` class, its widgets and message boxes, the icon loading and the file-exists and lock checks: these are user-interface code.
- `TextHandler` and `make_logger`, and every `logger` call: logging is a side effect only. The mismatch sets are returned as values instead.
- The HTTP session, `raise_for_status`, JSON decoding, the request timeout and the page-size parameter. The source is an oracle from offset to reply, so a repeated request at the same offset is assumed to get the same reply. For example, when the first page succeeds with no records and a positive total, the loop asks for offset 0 again, receives the first reply, and ends with no records. The real server could answer differently or time out. Any transport or HTTP failure is one `TransportFailure` reply.
- The number of requests, which would be `ceil(total / page size)`: the model has no page size, so it cannot state this. The oracle may return pages of any size.
- `sleep(pause)` between pages: it only affects timing.
- Non-boolean `success` flags and non-integer totals: the JSON types appear as `bool` and `int`.
- `pd.read_excel` parsing: a sheet is given as its header row and data rows. Headers are taken to be distinct, as pandas makes them. Columns are therefore chosen by position, which then agrees with pandas' choice by name.
- pandas' float-based `to_numeric` coercion: an ID coerces when it is an integer cell or a non-empty string of decimal digits. Signs, decimals, exponents, whitespace and float truncation by `astype(int)` are not modelled.
- Python's full Unicode behaviour:
  - `isalpha` covers ASCII, Latin-1 and the Latin Extended-A/B letters.
  - `lower` and `upper` map ASCII only. For the labels "school", "id", "AY" and "BM", this gives the same test results as Python.
- The numeric sort of the registry at MoESchools.py:616, and the registry's `to_numeric(...).fillna(...)` step at line 613. The reconciler reads a registry ID as an integer, or as a digit string that step would convert.
- The join's column-name suffixes (`_x`, `_y`), which pandas adds when a roll header repeats a registry field name.
- Writing the files:
  - `to_csv` with `utf-8-sig`, `ExcelWriter`, `freeze_panes`, the table style and `os.makedirs` are foreign-library I/O.
  - The missing-XlsxWriter `ImportError` is left out for the same reason.
  - The CSV round trip is left out because it depends on pandas' quoting.
  - Only the file names, the aliased header row and the table header names are modelled.

## Findings

| source | as written | input that shows it | evidently intended | confidence | as-written member | corrected member |
|---|---|---|---|---|---|---|
| MoESchools.py:328-347 | The Excel table is given headers for the 34 aliased registry fields only, but it spans every exported column. XlsxWriter writes its default names `Column35`, `Column36`, ... over the header cells of the roll-band columns appended by the join. | A merged table with the 34 fields and one roll column `Y1`: the table heads column 35 `Column35`. The wrong headers appear only when the merged table has at least one data row, since XlsxWriter declines a table with a header row and no data rows. | Every table column keeps its exported, aliased name, as in the CSV header row. | medium, not executed; relies on XlsxWriter's documented default table column names | `Export.TableHeadersAsWritten`, `Export.TableHeaderLosesRollName` | `Export.TableHeaders`, `Export.TableHeadersMatchCsv` |
