/**
 * mergeExcelFiles of lib/excel.ts: the first file's sheets set the shape of
 * the result; each of its sheets is extended, in file order, with the rows of
 * the same-position sheet of every later file, starting at the row that
 * getStartingRow assigns to that file's name.
 *
 * The spreadsheet library is abstracted: `sheet_to_json(sheet, {header: 1})`
 * and `aoa_to_sheet(rows)` are the identity on a sheet's row grid,
 * `book_new()` is the empty sheet list and `book_append_sheet` appends one
 * named sheet at the end.
 */
module Excel {
  import opened Wrappers
  import FileUtils

  /** A decoded cell: text, a number, or an empty position in a row. */
  datatype Cell = Text(text: string) | Number(number: real) | Blank

  type Row = seq<Cell>

  /** A sheet as an array of arrays, the `{header: 1}` view of it. */
  type Grid = seq<Row>

  datatype Sheet = Sheet(name: string, rows: Grid)

  /**
   * ExcelFile: the file's name and its sheets in workbook order.  Each sheet
   * carries its own name, so `sheetNames` and `sheets` always have the same
   * length, as readExcelFile builds them.
   */
  datatype ExcelFile = ExcelFile(name: string, sheets: seq<Sheet>)

  /** The output workbook: its sheets in the order they were appended. */
  type Workbook = seq<Sheet>

  datatype MergeError = NoFilesToMerge

  function Message(e: MergeError): string
  {
    match e
    case NoFilesToMerge => "No files to merge"
  }

  function SheetNames(sheets: seq<Sheet>): seq<string>
  {
    seq(|sheets|, i requires 0 <= i < |sheets| => sheets[i].name)
  }

  /**
   * `Array.prototype.slice(start)` with a single argument: a negative start
   * counts from the end, a start past the end gives the empty array.
   */
  function SliceFrom<T>(s: seq<T>, start: int): (r: seq<T>)
    ensures |r| <= |s| && r == s[|s| - |r|..]
    ensures 0 <= start ==> |r| == if start <= |s| then |s| - start else 0
    ensures start < 0 ==> |r| == if -start <= |s| then -start else |s|
  {
    var from := if start < 0 then (if |s| + start < 0 then 0 else |s| + start)
                else if start <= |s| then start else |s|;
    s[from..]
  }

  /** The rows a later file contributes to sheet `index` of the result. */
  function Block(f: ExcelFile, index: nat): Grid
  {
    if index < |f.sheets| then SliceFrom(f.sheets[index].rows, FileUtils.GetStartingRow(f.name) - 1)
    else []
  }

  /** The blocks of the later files, concatenated in file order. */
  function Blocks(later: seq<ExcelFile>, index: nat): Grid
  {
    if later == [] then [] else Block(later[0], index) + Blocks(later[1..], index)
  }

  /** The merged rows of sheet `index`: the base sheet's rows, then every block. */
  function MergedRows(files: seq<ExcelFile>, index: nat): Grid
    requires files != [] && index < |files[0].sheets|
  {
    files[0].sheets[index].rows + Blocks(files[1..], index)
  }

  /** The specification of mergeExcelFiles for a non-empty file list. */
  function Merged(files: seq<ExcelFile>): Workbook
    requires files != []
  {
    var base := files[0].sheets;
    seq(|base|, i requires 0 <= i < |base| => Sheet(base[i].name, MergedRows(files, i)))
  }

  /** How many rows a later file adds at `index`: max(0, len - (startRow - 1)), or 0 without that sheet. */
  function Contribution(f: ExcelFile, index: nat): nat
  {
    if index < |f.sheets| then
      var skip := FileUtils.GetStartingRow(f.name) - 1;
      if |f.sheets[index].rows| <= skip then 0 else |f.sheets[index].rows| - skip
    else 0
  }

  function TotalContribution(later: seq<ExcelFile>, index: nat): nat
  {
    if later == [] then 0 else Contribution(later[0], index) + TotalContribution(later[1..], index)
  }

  /**
   * mergeExcelFiles.  The empty list is an error; otherwise the result is
   * Merged(files), which has the base file's sheet names in the base file's
   * order and keeps every base sheet's rows as an unchanged prefix.
   */
  method MergeExcelFiles(files: seq<ExcelFile>) returns (r: Result<Workbook, MergeError>)
    ensures files == [] <==> r.Failure?
    ensures r.Failure? ==> r.error == NoFilesToMerge && Message(r.error) == "No files to merge"
    ensures r.Success? ==> r.value == Merged(files)
    ensures r.Success? ==> SheetNames(r.value) == SheetNames(files[0].sheets)
    ensures r.Success? ==> forall i :: 0 <= i < |r.value| ==> BasePrefix(files[0].sheets[i], r.value[i])
  {
    if |files| == 0 {
      return Failure(NoFilesToMerge);
    }
    var baseFile := files[0];
    var workbook: Workbook := [];
    var index := 0;
    while index < |baseFile.sheets|
      invariant 0 <= index <= |baseFile.sheets|
      invariant |workbook| == index
      invariant forall k :: 0 <= k < index ==> workbook[k] == Merged(files)[k]
    {
      var mergedData := MergeSheet(files, index);
      workbook := workbook + [Sheet(baseFile.sheets[index].name, mergedData)];
      index := index + 1;
    }
    MergedShape(files);
    return Success(workbook);
  }

  /**
   * The body of the `forEach` callback for base sheet `index`: start from the
   * base sheet's rows and push each later file's block in file order.
   */
  method MergeSheet(files: seq<ExcelFile>, index: nat) returns (mergedData: Grid)
    requires files != [] && index < |files[0].sheets|
    ensures mergedData == MergedRows(files, index)
  {
    mergedData := files[0].sheets[index].rows;
    var i := 1;
    while i < |files|
      invariant 1 <= i <= |files|
      invariant mergedData == files[0].sheets[index].rows + Blocks(files[1..i], index)
    {
      var currentFile := files[i];
      ghost var before := mergedData;
      if index < |currentFile.sheets| {
        var currentData := currentFile.sheets[index].rows;
        var startRow := FileUtils.GetStartingRow(currentFile.name);
        var dataToAppend := SliceFrom(currentData, startRow - 1);
        mergedData := mergedData + dataToAppend;
        MergeStep(files, index, i, before, mergedData);
      } else {
        MergeStep(files, index, i, before, mergedData);
      }
      i := i + 1;
    }
    assert files[1..i] == files[1..];
  }

  /** The base sheet's rows are an unchanged prefix of the merged sheet's rows. */
  predicate BasePrefix(base: Sheet, merged: Sheet)
  {
    |base.rows| <= |merged.rows| && merged.rows[..|base.rows|] == base.rows
  }

  /** The merged workbook has the base file's sheet names, in order, and extends each base sheet. */
  lemma MergedShape(files: seq<ExcelFile>)
    requires files != []
    ensures |Merged(files)| == |files[0].sheets|
    ensures SheetNames(Merged(files)) == SheetNames(files[0].sheets)
    ensures forall i :: 0 <= i < |files[0].sheets| ==> BasePrefix(files[0].sheets[i], Merged(files)[i])
  {
    forall i | 0 <= i < |files[0].sheets|
      ensures BasePrefix(files[0].sheets[i], Merged(files)[i])
    {
      var base := files[0].sheets[i].rows;
      assert MergedRows(files, i)[..|base|] == base;
    }
  }

  /** Appending one more file to the list appends its block. */
  lemma {:induction false} BlocksSnoc(later: seq<ExcelFile>, f: ExcelFile, index: nat)
    ensures Blocks(later + [f], index) == Blocks(later, index) + Block(f, index)
  {
    if later == [] {
      assert [f][1..] == [];
    } else {
      var lf := later + [f];
      assert lf[0] == later[0];
      assert lf[1..] == later[1..] + [f];
      BlocksSnoc(later[1..], f, index);
      AppendAssoc(Block(later[0], index), Blocks(later[1..], index), Block(f, index));
    }
  }

  lemma AppendAssoc<T>(a: seq<T>, b: seq<T>, c: seq<T>)
    ensures (a + b) + c == a + (b + c)
  {
  }

  lemma SliceMiddle<T>(x: seq<T>, y: seq<T>, z: seq<T>)
    ensures ((x + y) + z)[|x|..|x| + |y|] == y
  {
  }

  /** One turn of the per-file loop keeps the merged rows equal to base + blocks so far. */
  lemma MergeStep(files: seq<ExcelFile>, index: nat, i: nat, before: Grid, after: Grid)
    requires 1 <= i < |files| && index < |files[0].sheets|
    requires before == files[0].sheets[index].rows + Blocks(files[1..i], index)
    requires after == if index < |files[i].sheets|
                      then before + SliceFrom(files[i].sheets[index].rows, FileUtils.GetStartingRow(files[i].name) - 1)
                      else before
    ensures after == files[0].sheets[index].rows + Blocks(files[1..i + 1], index)
  {
    BlocksStep(files, i, index);
    AppendAssoc(files[0].sheets[index].rows, Blocks(files[1..i], index), Block(files[i], index));
    if index >= |files[i].sheets| {
      assert Blocks(files[1..i], index) + Block(files[i], index) == Blocks(files[1..i], index);
    }
  }

  lemma BlocksStep(files: seq<ExcelFile>, i: nat, index: nat)
    requires 1 <= i < |files|
    ensures Blocks(files[1..i + 1], index) == Blocks(files[1..i], index) + Block(files[i], index)
  {
    assert files[1..i + 1] == files[1..i] + [files[i]];
    BlocksSnoc(files[1..i], files[i], index);
  }

  /** Blocks distributes over concatenation of file lists. */
  lemma {:induction false} BlocksAppend(a: seq<ExcelFile>, b: seq<ExcelFile>, index: nat)
    ensures Blocks(a + b, index) == Blocks(a, index) + Blocks(b, index)
  {
    if a == [] {
      assert a + b == b;
    } else {
      var ab := a + b;
      assert ab[0] == a[0];
      assert ab[1..] == a[1..] + b;
      BlocksAppend(a[1..], b, index);
      AppendAssoc(Block(a[0], index), Blocks(a[1..], index), Blocks(b, index));
    }
  }

  /** A later file's block is its sheet at `index` sliced from startRow - 1, or nothing. */
  lemma BlockIsSlice(f: ExcelFile, index: nat)
    ensures index < |f.sheets| ==>
              var skip := FileUtils.GetStartingRow(f.name) - 1;
              Block(f, index) == if skip <= |f.sheets[index].rows| then f.sheets[index].rows[skip..] else []
    ensures index >= |f.sheets| ==> Block(f, index) == []
    ensures |Block(f, index)| == Contribution(f, index)
  {
  }

  lemma {:induction false} BlocksLength(later: seq<ExcelFile>, index: nat)
    ensures |Blocks(later, index)| == TotalContribution(later, index)
  {
    if later != [] {
      BlockIsSlice(later[0], index);
      BlocksLength(later[1..], index);
    }
  }

  /** Merged row count = base rows + the sum of every later file's contribution. */
  lemma MergedRowCount(files: seq<ExcelFile>, index: nat)
    requires files != [] && index < |files[0].sheets|
    ensures |Merged(files)[index].rows| == |files[0].sheets[index].rows| + TotalContribution(files[1..], index)
  {
    BlocksLength(files[1..], index);
  }

  /** Where the block of later file `k` starts in the merged rows of sheet `index`. */
  function BlockStart(files: seq<ExcelFile>, index: nat, k: nat): nat
    requires 1 <= k <= |files| && index < |files[0].sheets|
  {
    |files[0].sheets[index].rows| + TotalContribution(files[1..k], index)
  }

  /**
   * File `k`'s block sits in the merged rows right after the blocks of files
   * 1 .. k-1, and each block starts where the previous one ends, so blocks
   * appear in input-file order.
   */
  lemma BlockPlacement(files: seq<ExcelFile>, index: nat, k: nat)
    requires 1 <= k < |files| && index < |files[0].sheets|
    ensures BlockStart(files, index, k + 1) == BlockStart(files, index, k) + Contribution(files[k], index)
    ensures BlockStart(files, index, k + 1) <= |Merged(files)[index].rows|
    ensures Merged(files)[index].rows[BlockStart(files, index, k)..BlockStart(files, index, k + 1)]
            == Block(files[k], index)
  {
    var base := files[0].sheets[index].rows;
    var a, fk, b := files[1..k], files[k], files[k + 1..];
    assert files[1..] == (a + [fk]) + b;
    assert files[1..k + 1] == a + [fk];
    BlocksAppend(a + [fk], b, index);
    BlocksSnoc(a, fk, index);
    BlocksLength(a, index);
    BlocksLength(a + [fk], index);
    BlockIsSlice(fk, index);
    var x, y, z := base + Blocks(a, index), Block(fk, index), Blocks(b, index);
    AppendAssoc(Blocks(a, index), y, z);
    AppendAssoc(base, Blocks(a, index) + y, z);
    AppendAssoc(base, Blocks(a, index), y);
    assert MergedRows(files, index) == (x + y) + z;
    SliceMiddle(x, y, z);
  }

  /** Blocks never overlap and are ordered: file j's block ends before file k's begins, for j < k. */
  lemma {:induction false} BlocksInFileOrder(files: seq<ExcelFile>, index: nat, j: nat, k: nat)
    requires 1 <= j < k < |files| && index < |files[0].sheets|
    ensures BlockStart(files, index, j) + Contribution(files[j], index) <= BlockStart(files, index, k)
    decreases k - j
  {
    BlockPlacement(files, index, j);
    if j + 1 < k {
      BlocksInFileOrder(files, index, j + 1, k);
    }
  }

  /**
   * A later file without a sheet at `index`, wherever it stands in the list,
   * adds nothing to that sheet: its block is empty, the next block starts where
   * its block would have, and removing the file leaves the merged rows unchanged.
   */
  lemma ShortFileAddsNothing(files: seq<ExcelFile>, index: nat, k: nat)
    requires 1 <= k < |files| && index < |files[0].sheets| && |files[k].sheets| <= index
    ensures Block(files[k], index) == []
    ensures BlockStart(files, index, k + 1) == BlockStart(files, index, k)
    ensures MergedRows(files[..k] + files[k + 1..], index) == MergedRows(files, index)
  {
    BlockPlacement(files, index, k);
    var a, b := files[1..k], files[k + 1..];
    var g := files[..k] + files[k + 1..];
    assert g[0] == files[0];
    assert g[1..] == a + b;
    assert files[1..] == (a + [files[k]]) + b;
    BlocksAppend(a + [files[k]], b, index);
    BlocksSnoc(a, files[k], index);
    BlocksAppend(a, b, index);
    assert Blocks(a, index) + Block(files[k], index) == Blocks(a, index);
  }

  /** A file with only its first `n` sheets. */
  function TakeSheets(f: ExcelFile, n: nat): ExcelFile
  {
    ExcelFile(f.name, if n <= |f.sheets| then f.sheets[..n] else f.sheets)
  }

  function TakeAllSheets(later: seq<ExcelFile>, n: nat): seq<ExcelFile>
  {
    seq(|later|, k requires 0 <= k < |later| => TakeSheets(later[k], n))
  }

  lemma {:induction false} BlocksIgnoreExtraSheets(later: seq<ExcelFile>, n: nat, index: nat)
    requires index < n
    ensures Blocks(TakeAllSheets(later, n), index) == Blocks(later, index)
  {
    if later != [] {
      assert TakeAllSheets(later, n)[1..] == TakeAllSheets(later[1..], n);
      BlocksIgnoreExtraSheets(later[1..], n, index);
    }
  }

  /** Sheets of later files past the base file's sheet count are dropped. */
  lemma ExtraSheetsDropped(files: seq<ExcelFile>)
    requires files != []
    ensures Merged([files[0]] + TakeAllSheets(files[1..], |files[0].sheets|)) == Merged(files)
  {
    var n := |files[0].sheets|;
    var g := [files[0]] + TakeAllSheets(files[1..], n);
    assert g[1..] == TakeAllSheets(files[1..], n);
    forall i | 0 <= i < n
      ensures MergedRows(g, i) == MergedRows(files, i)
    {
      BlocksIgnoreExtraSheets(files[1..], n, i);
    }
  }

  /** Merging a single file gives back its sheets: same names, same rows. */
  lemma SingleFileIdentity(f: ExcelFile)
    ensures Merged([f]) == f.sheets
  {
    assert [f][1..] == [];
    forall i | 0 <= i < |f.sheets|
      ensures Merged([f])[i] == f.sheets[i]
    {
      assert MergedRows([f], i) == f.sheets[i].rows;
    }
  }

  /**
   * Two files, a base sheet of 5 rows and a later sheet of 10 rows whose file
   * name gets the default start row 8: the merged sheet has 5 + (10 - 7) = 8 rows.
   */
  lemma TwoFileExample(a: ExcelFile, b: ExcelFile)
    requires |a.sheets| == 1 && |a.sheets[0].rows| == 5
    requires |b.sheets| >= 1 && |b.sheets[0].rows| == 10 && FileUtils.GetStartingRow(b.name) == 8
    ensures |Merged([a, b])| == 1 && |Merged([a, b])[0].rows| == 8
  {
    MergedRowCount([a, b], 0);
    assert [a, b][1..] == [b];
  }
}
