# Spreadsheet merge and filename classifier, modelled in Dafny

This project models the tabular core of a spreadsheet admin dashboard:

- **mergeExcelFiles** (`lib/excel.ts`). The first uploaded file is the base.
  Each of its sheets is extended, in file order, with the same-position sheet
  of every later file. A later file's rows are taken from the row that its
  file name selects. The merged sheets form a new workbook under the base
  sheet names. An empty file list is an error ("No files to merge").
- **getStartingRow** (`lib/utils/file-utils.ts`). A first-match search over
  the rule table `FILE_PATTERNS` (`lib/constants/file-patterns.ts`). The
  rules are MDS→9, DAH→9, TB1→7, TB4→12, visited in that order. The `DEFAULT`
  entry is skipped by key and supplies the fallback row 8.

Files:

- `wrappers.dfy`: `Option` and `Result`.
- `file_patterns.dfy`: module `FilePatterns`. It holds the rule table as a
  constant sequence and the regular-expression test of one rule. Each pattern
  is `/XYZ/i`: no anchors, no `g` flag, no `u` flag, only ASCII letters and
  digits. A test like that matches exactly when the ASCII-lower-cased pattern
  is a substring of the ASCII-lower-cased name. `ScanFrom` is the regex
  engine's left-to-right scan, and it is proved equal to that substring test.
- `file_utils.dfy`: module `FileUtils`. `FirstMatch` is the `for … of` loop
  with its early return, and `GetStartingRow` adds the fallback.
- `excel.dfy`: module `Excel`. It defines cells, sheets and files, and the
  specification function `Merged`. The method `MergeExcelFiles`, with its
  per-sheet loop `MergeSheet`, is proved equal to `Merged`. Lemmas state
  what `Merged` promises.

Modelling choices:

- An `ExcelFile` is its name plus a sequence of `Sheet(name, rows)`. The
  source keeps `sheetNames` and `sheets` as two parallel arrays. readExcelFile
  builds both from the same `SheetNames` list, so pairing them loses nothing.
- Cells are `Text`, `Number` or `Blank`. A row is a sequence of cells and a
  sheet is a sequence of rows (the `{header: 1}` array-of-arrays view).
- `sheet_to_json(sheet, {header: 1})` and `aoa_to_sheet(rows)` are the
  identity on the row grid. `book_new()` is the empty sheet sequence.
  `book_append_sheet` appends one named sheet at the end.
- `currentData.slice(startRow - 1)` is modelled by `SliceFrom`, which covers
  the full one-argument `Array.prototype.slice`: a negative start counts from
  the end, and a start past the end gives nothing. Because `GetStartingRow` is
  always at least 1, only the non-negative branch is ever used.
- The object keys of `FILE_PATTERNS` are an enumeration `Key`. The visiting
  order of `Object.entries` (insertion order of string keys) is the order of
  the constant `Table`.
- Merging a single file returns a new workbook whose sheets are equal
  to the base file's sheets (`SingleFileIdentity`). The "at least two files"
  rule is enforced by the page (`app/(root)/files/page.tsx:46-49`), not by
  `mergeExcelFiles`, so the model accepts one file.

## Model

| member | source | states |
|---|---|---|
| `FilePatterns.FilePatternsTable` | lib/constants/file-patterns.ts:1-21 | The table visits MDS, DAH, TB1, TB4, DEFAULT in that order. Its start rows are 9, 9, 7, 12, 8 and its patterns are "MDS", "DAH", "TB1", "TB4". DEFAULT is exactly the entry with no pattern. |
| `FilePatterns.ScanFromSpec` | lib/utils/file-utils.ts:6 | The regex engine's left-to-right scan from position k succeeds exactly when the pattern occurs at some position j ≥ k. |
| `FilePatterns.TestPatternSpec` | lib/constants/file-patterns.ts:3-15 | A `/XYZ/i` test is exactly "the lower-cased pattern is a substring of the lower-cased name". |
| `FileUtils.FirstMatchSpec` | lib/utils/file-utils.ts:4-10 | The search returns nothing exactly when no non-DEFAULT rule matches. Otherwise it returns the start row of a matching non-DEFAULT rule that no earlier rule beats (first match wins). |
| `FileUtils.GetStartingRow` | lib/utils/file-utils.ts:3-11 | Total, with no error path. The result is always one of 7, 8, 9, 12, and so is at least 1. |
| `FileUtils.GetStartingRowCases` | lib/utils/file-utils.ts:3-11 | Independent decision list: "mds" → 9, else "dah" → 9, else "tb1" → 7, else "tb4" → 12, else 8. Each test is a case-insensitive substring test. |
| `FileUtils.NoMatchGivesDefault` | lib/utils/file-utils.ts:10 | If no rule is selected, the result is `DEFAULT.startRow`, which is 8. |
| `FileUtils.MatchGivesFirstRule` | lib/utils/file-utils.ts:4-8 | If rule i matches and no earlier rule does, the result is rule i's start row. |
| `FileUtils.Tb1BeforeTb4` | lib/utils/file-utils.ts:4-8 | A name containing both TB1 and TB4, and neither MDS nor DAH, yields 7. |
| `FileUtils.MdsBeforeTb4` | lib/utils/file-utils.ts:4-8 | A name containing MDS and TB4 yields 9. |
| `FileUtils.DefaultNeverTested` | lib/utils/file-utils.ts:5 | A DEFAULT-keyed entry anywhere in a rule list can be removed without changing the search result, whatever pattern it carries. |
| `FileUtils.DefaultPatternIrrelevant` | lib/utils/file-utils.ts:5-6 | Giving the table's DEFAULT entry any pattern leaves the search result unchanged. |
| `FileUtils.CaseInsensitive` | lib/constants/file-patterns.ts:3-15 | Two names that agree after ASCII lower-casing get the same start row. |
| `Excel.SliceFrom` | lib/excel.ts:69 | `slice(start)` returns a suffix of the rows. For start ≥ 0 its length is max(0, len - start). For start < 0 its length is min(-start, len). |
| `Excel.MergeExcelFiles` | lib/excel.ts:37-84 | An empty list fails with NoFilesToMerge ("No files to merge"). In the model a non-empty list always succeeds (see "Left out" for the engine limit the source can hit). On success the result is `Merged(files)`. It has the base file's sheet names in the base order, and each base sheet's rows are an unchanged prefix of the merged rows. |
| `Excel.MergeSheet` | lib/excel.ts:47-72 | The per-sheet loop builds exactly the base rows followed by every later file's block, in file order. |
| `Excel.MergedShape` | lib/excel.ts:47-75 | The merged workbook has as many sheets as the base file, with the same names in the same order. Every base sheet's rows are a prefix of its merged sheet. |
| `Excel.BlockIsSlice` | lib/excel.ts:58-70 | A later file adds nothing at an index where it has no sheet. Otherwise it adds its rows from index `getStartingRow(name) - 1`, or nothing when that index is past the end. The length of that block is the file's contribution. |
| `Excel.BlocksLength` | lib/excel.ts:56-71 | The appended rows number exactly the sum of the later files' contributions. |
| `Excel.MergedRowCount` | lib/excel.ts:56-71 | Merged row count = base rows + Σ over later files of max(0, len_i - (startRow_i - 1)). A file without that sheet counts 0. |
| `Excel.BlockPlacement` | lib/excel.ts:56-71 | Later file k's block occupies merged rows [start_k, start_k + contribution_k). start_k is the base row count plus the contributions of files 1..k-1. |
| `Excel.BlocksInFileOrder` | lib/excel.ts:56-71 | For j < k, file j's block ends at or before the start of file k's block. |
| `Excel.ShortFileAddsNothing` | lib/excel.ts:56-71 | A later file k with no sheet at index i, at any position in the list, has an empty block. The next block starts where its block would have, and removing file k leaves the merged rows of sheet i unchanged. |
| `Excel.ExtraSheetsDropped` | lib/excel.ts:47-58 | Cutting every later file down to the base file's sheet count leaves the merged workbook unchanged. |
| `Excel.SingleFileIdentity` | lib/excel.ts:47-76 | Merging a one-file list gives back exactly that file's sheets (names and rows). |
| `Excel.TwoFileExample` | lib/excel.ts:56-71 | A 5-row base sheet and a 10-row later sheet whose name gets start row 8 give 5 + (10 - 7) = 8 merged rows. |

## Left out

- readExcelFile (lib/excel.ts:11-35): FileReader callbacks, a Promise and `XLSX.read` are browser I/O and a foreign decoder. Its one structural effect, that sheet names and sheets correspond, is built into `ExcelFile`.
- saveWorkbook (lib/excel.ts:86-94): `XLSX.writeFile` triggers a download, which is I/O.
- The XLSX library: `sheet_to_json`, `aoa_to_sheet`, `book_new` and `book_append_sheet`. They are taken as the identity on the row grid and an append to a sheet sequence. The library's own behaviour is outside the model: a grid starting at the sheet's used range, blank-row handling, and sheet-name validation or duplicate-name errors in `book_append_sheet`. The binary round trip is not modelled.
- Every `toast` call (lib/excel.ts:25, 30, 39, 78, 81): notification side effects with no effect on the result.
- The catch-and-rethrow in mergeExcelFiles (lib/excel.ts:80-83): with the library abstracted, the only error left inside the loop is the engine limit in the next line, which is not modelled.
- Excel.MergeExcelFiles: does not model the JavaScript engine's argument-count limit. `mergedData.push(...dataToAppend)` (lib/excel.ts:70) passes every appended row as a separate call argument. A block of tens of thousands of rows makes the engine throw a RangeError, which lib/excel.ts:80-83 rethrows. The model instead returns Success for every non-empty list, because unbounded sequences have no such limit.
- Numbers are `real`. JavaScript's floating-point number semantics are not modelled, and the merge never inspects cell values.
- Case folding: only ASCII A-Z are folded. That is all a non-unicode `/i` regular expression can do to match these ASCII-only patterns, but it is not a general regular-expression engine.
- The label-to-ID mapping routine in `app/(root)/mapping/page.tsx` is not part of this model. It scans row 8, looks each label up remotely and writes the result to row 9. It lives inside a React page, and it interleaves an asynchronous network lookup with in-place cell writes and progress state.
- The React components and layouts have no logic to state and are not modelled: sidebar, theme toggle, header, footer and layouts.
