/**
 * The cell-level comparison of a test output file with the original
 * (compare_csv_contents in laminar_floating_point_error/process.py). Both
 * files are read with every cell as a string, so cells are compared as
 * written. The comparison checks the shutdown flag at its start, every 100
 * rows and before the extra rows, and stops with what it has so far.
 */
module ProcessCompare {
  import opened Wrappers
  import opened Interrupt

  /** A CSV file as pandas reads it with `dtype=str`. */
  datatype Table = Table(columns: seq<string>, rows: seq<seq<string>>)

  /** Every row has one cell per column (a DataFrame is rectangular). */
  predicate Rectangular(t: Table) { forall r :: 0 <= r < |t.rows| ==> |t.rows[r]| == |t.columns| }

  datatype CellDiff = CellDiff(row: nat, column: string, newValue: string, originalValue: string)

  const RowNotInOriginal: string := "ROW_NOT_IN_ORIGINAL"
  const RowNotInNew: string := "ROW_NOT_IN_NEW"
  const HeadersDiffer: string := "Headers do not match"

  /**
   * The comparison dict. Keys the source leaves out are None here:
   * headers_match, shape_match and total_differences are absent from the
   * early returns, cell_differences is then absent too (read as []).
   */
  datatype Detail = Detail(
    filename: string,
    headersMatch: Option<bool>,
    shapeMatch: Option<bool>,
    diffs: seq<CellDiff>,
    total: Option<nat>,
    error: Option<string>)

  /** The dict returned before any cell is compared, or from the exception handler. */
  function Early(filename: string, error: string): Detail
  {
    Detail(filename, None, None, [], None, Some(error))
  }

  function Min(a: nat, b: nat): nat { if a <= b then a else b }
  function Max(a: nat, b: nat): nat { if a >= b then a else b }

  /** Same columns, rows of the right width: what the cell loops may index. */
  predicate Comparable(n: Table, o: Table)
  {
    Rectangular(n) && Rectangular(o) && n.columns == o.columns
  }

  /** The cell at row r, column c (`iloc[r][col]`); "" outside the table, where it is never read. */
  function Cell(t: Table, r: nat, c: nat): string
  {
    if r < |t.rows| && c < |t.rows[r]| then t.rows[r][c] else ""
  }

  /** The name of column c; "" past the last column. */
  function Column(t: Table, c: nat): string
  {
    if c < |t.columns| then t.columns[c] else ""
  }

  /** The differing cells of common row r among its first c columns, left to right. */
  function ColDiffs(n: Table, o: Table, r: nat, c: nat): seq<CellDiff>
  {
    if c == 0 then []
    else
      ColDiffs(n, o, r, c - 1)
      + (if Cell(n, r, c - 1) != Cell(o, r, c - 1) then [CellDiff(r, Column(n, c - 1), Cell(n, r, c - 1), Cell(o, r, c - 1))] else [])
  }

  /** The entries of the common rows before R, row by row. */
  function CommonDiffs(n: Table, o: Table, R: nat): seq<CellDiff>
  {
    if R == 0 then [] else CommonDiffs(n, o, R - 1) + ColDiffs(n, o, R - 1, |n.columns|)
  }

  /** The first c entries for extra row r of the longer table, with the sentinel on the missing side. */
  function ExtraCells(n: Table, o: Table, r: nat, c: nat): seq<CellDiff>
  {
    if c == 0 then []
    else
      ExtraCells(n, o, r, c - 1)
      + [if |n.rows| > |o.rows| then CellDiff(r, Column(n, c - 1), Cell(n, r, c - 1), RowNotInOriginal)
         else CellDiff(r, Column(o, c - 1), RowNotInNew, Cell(o, r, c - 1))]
  }

  /** The entries of the extra rows in [a, R), row by row. */
  function ExtraDiffs(n: Table, o: Table, a: nat, R: nat): seq<CellDiff>
  {
    if R <= a then [] else ExtraDiffs(n, o, a, R - 1) + ExtraCells(n, o, R - 1, |n.columns|)
  }

  /** What the comparison holds on reaching row R: the common rows, then the extra rows before R. */
  function Reached(n: Table, o: Table, R: nat): seq<CellDiff>
  {
    var m := Min(|n.rows|, |o.rows|);
    if R <= m then CommonDiffs(n, o, R) else CommonDiffs(n, o, m) + ExtraDiffs(n, o, m, R)
  }

  /** The rows in [a, b) at which the flag is checked: those divisible by 100. */
  function Marks(a: nat, b: nat): seq<nat>
  {
    if b <= a then [] else Marks(a, b - 1) + (if (b - 1) % 100 == 0 then [b - 1] else [])
  }

  /**
   * The rows reached at each flag check after the headers: the common rows
   * divisible by 100, the end of the common rows, the extra rows divisible
   * by 100.
   */
  function Checkpoints(n: Table, o: Table): seq<nat>
  {
    var m := Min(|n.rows|, |o.rows|);
    Marks(0, m) + [m] + Marks(m, Max(|n.rows|, |o.rows|))
  }

  const DownloadCancelled: string := "Download cancelled due to interrupt"

  /** What fetching one CSV object yields: the table, or the failure of the get or of the parse. */
  datatype Fetch = Fetched(table: Table) | GetFailed(message: string) | ParseFailed(message: string)

  predicate FetchOk(f: Fetch) { f.Fetched? ==> Rectangular(f.table) }

  /**
   * download_csv_from_s3: reads the flag before the get (raising outside the
   * try), after the get (raising inside it) and in the handler, where an
   * exception seen with the flag set becomes the cancellation message.
   */
  function Download(f: Fetch, s: Shutdown, read: nat): (Result<Table, string>, nat)
  {
    if IsSet(s, read) then (Err(DownloadCancelled), read + 1)
    else match f
      case GetFailed(m) => (Err(if IsSet(s, read + 1) then DownloadCancelled else m), read + 2)
      case Fetched(t) => if IsSet(s, read + 1) then (Err(DownloadCancelled), read + 3) else (Ok(t), read + 2)
      case ParseFailed(m) =>
        if IsSet(s, read + 1) then (Err(DownloadCancelled), read + 3)
        else (Err(if IsSet(s, read + 2) then DownloadCancelled else m), read + 3)
  }

  /** The detail after both downloads succeeded, from flag read `read` on. */
  function CompareTables(filename: string, n: Table, o: Table, s: Shutdown, read: nat): (Detail, nat)
    requires Rectangular(n) && Rectangular(o)
  {
    if n.columns != o.columns then (Detail(filename, Some(false), Some(true), [], None, Some(HeadersDiffer)), read)
    else
      var shape := Some(|n.rows| == |o.rows|);
      var cps := Checkpoints(n, o);
      match FirstSet(s, read, |cps|)
      case Some(i) =>
        var diffs := Reached(n, o, cps[i]);
        (Detail(filename, Some(true), shape, diffs, Some(|diffs|), Some(InterruptedMessage)), read + 1 + i)
      case None =>
        var diffs := Reached(n, o, Max(|n.rows|, |o.rows|));
        (Detail(filename, Some(true), shape, diffs, Some(|diffs|), None), read + |cps|)
  }

  /**
   * compare_csv_contents, given what fetching the new and the original file
   * yields and the shutdown flag, from flag read number `read` on; the
   * second result is the next read number. An exception from a download is
   * caught, and the handler reports the interruption when the flag is set.
   */
  function CompareContents(filename: string, newFile: Fetch, originalFile: Fetch, s: Shutdown, read: nat): (Detail, nat)
    requires FetchOk(newFile) && FetchOk(originalFile)
  {
    if IsSet(s, read) then (Early(filename, InterruptedMessage), read + 1)
    else
      var (nt, r1) := Download(newFile, s, read + 1);
      if nt.Err? then (Early(filename, if IsSet(s, r1) then InterruptedMessage else nt.error), r1 + 1)
      else
        var (ot, r2) := Download(originalFile, s, r1);
        if ot.Err? then (Early(filename, if IsSet(s, r2) then InterruptedMessage else ot.error), r2 + 1)
        else CompareTables(filename, nt.value, ot.value, s, r2)
  }

  /** No read in [read, k) saw the flag set (the flag never clears, so the last one suffices). */
  predicate ClearUpTo(s: Shutdown, read: nat, k: nat) { k <= read || !IsSet(s, k - 1) }

  /** The entries of common row `row`: the inner loop over the columns. */
  method CommonRowDiffs(n: Table, o: Table, row: nat) returns (t: seq<CellDiff>)
    requires Comparable(n, o) && row < Min(|n.rows|, |o.rows|)
    ensures t == ColDiffs(n, o, row, |n.columns|)
  {
    t := [];
    var c := 0;
    while c < |n.columns|
      invariant c <= |n.columns| && t == ColDiffs(n, o, row, c)
    {
      assert Cell(n, row, c) == n.rows[row][c] && Cell(o, row, c) == o.rows[row][c];
      if n.rows[row][c] != o.rows[row][c] {
        t := t + [CellDiff(row, n.columns[c], n.rows[row][c], o.rows[row][c])];
      }
      c := c + 1;
    }
  }

  /** The entries of extra row `row` of the longer table. */
  method ExtraRowCells(n: Table, o: Table, row: nat) returns (t: seq<CellDiff>)
    requires Comparable(n, o) && Min(|n.rows|, |o.rows|) <= row < Max(|n.rows|, |o.rows|)
    ensures t == ExtraCells(n, o, row, |n.columns|)
  {
    t := [];
    var c := 0;
    while c < |n.columns|
      invariant c <= |n.columns| && t == ExtraCells(n, o, row, c)
    {
      if |n.rows| > |o.rows| {
        assert Cell(n, row, c) == n.rows[row][c];
        t := t + [CellDiff(row, n.columns[c], n.rows[row][c], RowNotInOriginal)];
      } else {
        assert Cell(o, row, c) == o.rows[row][c];
        t := t + [CellDiff(row, o.columns[c], RowNotInNew, o.rows[row][c])];
      }
      c := c + 1;
    }
  }

  /**
   * The common-row loop, checking the flag at rows divisible by 100;
   * returns the entries, the next read number, whether the flag stopped
   * it and the row it stopped at (the common row count when it did not).
   */
  method CommonRows(n: Table, o: Table, s: Shutdown, read: nat) returns (diffs: seq<CellDiff>, read': nat, stopped: bool, row: nat)
    requires Comparable(n, o)
    ensures row <= Min(|n.rows|, |o.rows|) && diffs == CommonDiffs(n, o, row)
    ensures ClearUpTo(s, read, read + |Marks(0, row)|)
    ensures stopped ==>
      row < Min(|n.rows|, |o.rows|) && row % 100 == 0 && IsSet(s, read + |Marks(0, row)|) && read' == read + |Marks(0, row)| + 1
    ensures !stopped ==> row == Min(|n.rows|, |o.rows|) && read' == read + |Marks(0, row)|
  {
    var m := Min(|n.rows|, |o.rows|);
    diffs := [];
    read' := read;
    row := 0;
    stopped := false;
    while row < m
      invariant row <= m && diffs == CommonDiffs(n, o, row) && read' == read + |Marks(0, row)|
      invariant ClearUpTo(s, read, read')
    {
      if row % 100 == 0 {
        if IsSet(s, read') {
          stopped := true;
          read' := read' + 1;
          return;
        }
        read' := read' + 1;
      }
      var t := CommonRowDiffs(n, o, row);
      assert |Marks(0, row + 1)| == |Marks(0, row)| + (if row % 100 == 0 then 1 else 0);
      diffs := diffs + t;
      row := row + 1;
    }
  }

  /** The extra-row loop over the rows of the longer table, numbered as in that table. */
  method ExtraRows(n: Table, o: Table, s: Shutdown, read: nat) returns (extra: seq<CellDiff>, read': nat, stopped: bool, row: nat)
    requires Comparable(n, o)
    ensures Min(|n.rows|, |o.rows|) <= row <= Max(|n.rows|, |o.rows|)
    ensures extra == ExtraDiffs(n, o, Min(|n.rows|, |o.rows|), row)
    ensures ClearUpTo(s, read, read + |Marks(Min(|n.rows|, |o.rows|), row)|)
    ensures stopped ==>
      row < Max(|n.rows|, |o.rows|) && row % 100 == 0 && IsSet(s, read + |Marks(Min(|n.rows|, |o.rows|), row)|)
      && read' == read + |Marks(Min(|n.rows|, |o.rows|), row)| + 1
    ensures !stopped ==> row == Max(|n.rows|, |o.rows|) && read' == read + |Marks(Min(|n.rows|, |o.rows|), row)|
  {
    var m, M := Min(|n.rows|, |o.rows|), Max(|n.rows|, |o.rows|);
    extra := [];
    read' := read;
    row := m;
    stopped := false;
    while row < M
      invariant m <= row <= M && extra == ExtraDiffs(n, o, m, row) && read' == read + |Marks(m, row)|
      invariant ClearUpTo(s, read, read')
    {
      if row % 100 == 0 {
        if IsSet(s, read') {
          stopped := true;
          read' := read' + 1;
          return;
        }
        read' := read' + 1;
      }
      var t := ExtraRowCells(n, o, row);
      assert |Marks(m, row + 1)| == |Marks(m, row)| + (if row % 100 == 0 then 1 else 0);
      extra := extra + t;
      row := row + 1;
    }
  }

  /** compare_csv_contents */
  method CompareCsvContents(filename: string, newFile: Fetch, originalFile: Fetch, s: Shutdown, read: nat)
    returns (d: Detail, read': nat)
    requires FetchOk(newFile) && FetchOk(originalFile)
    ensures (d, read') == CompareContents(filename, newFile, originalFile, s, read)
  {
    if IsSet(s, read) {
      return Early(filename, InterruptedMessage), read + 1;
    }
    var first := Download(newFile, s, read + 1);
    var nt, r1 := first.0, first.1;
    if nt.Err? {
      return Early(filename, if IsSet(s, r1) then InterruptedMessage else nt.error), r1 + 1;
    }
    var second := Download(originalFile, s, r1);
    var ot, r2 := second.0, second.1;
    if ot.Err? {
      return Early(filename, if IsSet(s, r2) then InterruptedMessage else ot.error), r2 + 1;
    }
    d, read' := CompareDownloaded(filename, nt.value, ot.value, s, r2);
  }

  /** The part of compare_csv_contents after both downloads. */
  method CompareDownloaded(filename: string, n: Table, o: Table, s: Shutdown, read: nat) returns (d: Detail, read': nat)
    requires Rectangular(n) && Rectangular(o)
    ensures (d, read') == CompareTables(filename, n, o, s, read)
  {
    if n.columns != o.columns {
      return Detail(filename, Some(false), Some(true), [], None, Some(HeadersDiffer)), read;
    }
    var shape := Some(|n.rows| == |o.rows|);
    var diffs, r, stopped, row := CommonRows(n, o, s, read);
    if stopped {
      StoppedInCommon(filename, n, o, s, read, row, diffs);
      return Detail(filename, Some(true), shape, diffs, Some(|diffs|), Some(InterruptedMessage)), r;
    }
    d, read' := AfterCommonRows(filename, n, o, s, read, diffs, r);
  }

  /** The check before the extra rows, the extra-row loop and the final dict. */
  method AfterCommonRows(filename: string, n: Table, o: Table, s: Shutdown, read: nat, diffs: seq<CellDiff>, r: nat)
    returns (d: Detail, read': nat)
    requires Comparable(n, o)
    requires var m := Min(|n.rows|, |o.rows|);
      diffs == CommonDiffs(n, o, m) && r == read + |Marks(0, m)| && ClearUpTo(s, read, r)
    ensures (d, read') == CompareTables(filename, n, o, s, read)
  {
    var shape := Some(|n.rows| == |o.rows|);
    if IsSet(s, r) {
      StoppedAfterCommon(filename, n, o, s, read, diffs);
      return Detail(filename, Some(true), shape, diffs, Some(|diffs|), Some(InterruptedMessage)), r + 1;
    }
    d, read' := ExtraPhase(filename, n, o, s, read, diffs, r + 1);
  }

  /** The extra-row loop and the final dict, once the check before it saw the flag clear. */
  method ExtraPhase(filename: string, n: Table, o: Table, s: Shutdown, read: nat, diffs: seq<CellDiff>, r: nat)
    returns (d: Detail, read': nat)
    requires Comparable(n, o)
    requires var m := Min(|n.rows|, |o.rows|);
      diffs == CommonDiffs(n, o, m) && r == read + |Marks(0, m)| + 1 && !IsSet(s, r - 1)
    ensures (d, read') == CompareTables(filename, n, o, s, read)
  {
    var shape := Some(|n.rows| == |o.rows|);
    var extra, r', stopped', row' := ExtraRows(n, o, s, r);
    if stopped' {
      StoppedInExtra(filename, n, o, s, read, row', diffs, extra);
      return Detail(filename, Some(true), shape, diffs + extra, Some(|diffs + extra|), Some(InterruptedMessage)), r';
    }
    Completed(filename, n, o, s, read, diffs, extra);
    return Detail(filename, Some(true), shape, diffs + extra, Some(|diffs + extra|), None), r';
  }

  /** Stopping at checkpoint `i`, row `row`, with the entries reached there, is what the specification returns. */
  lemma {:induction false} StoppedAt(filename: string, n: Table, o: Table, s: Shutdown, read: nat, row: nat, i: nat, diffs: seq<CellDiff>)
    requires Comparable(n, o)
    requires var m, M := Min(|n.rows|, |o.rows|), Max(|n.rows|, |o.rows|);
      (row < m && row % 100 == 0 && i == |Marks(0, row)|)
      || (row == m && i == |Marks(0, m)|)
      || (m <= row < M && row % 100 == 0 && i == |Marks(0, m)| + 1 + |Marks(m, row)|)
    requires IsSet(s, read + i) && ClearUpTo(s, read, read + i) && diffs == Reached(n, o, row)
    ensures CompareTables(filename, n, o, s, read)
      == (Detail(filename, Some(true), Some(|n.rows| == |o.rows|), diffs, Some(|diffs|), Some(InterruptedMessage)), read + i + 1)
  {
    CheckpointAt(n, o, row, i);
    FirstSetFound(s, read, |Checkpoints(n, o)|, i);
  }

  lemma {:induction false} StoppedInCommon(filename: string, n: Table, o: Table, s: Shutdown, read: nat, row: nat, diffs: seq<CellDiff>)
    requires Comparable(n, o) && row < Min(|n.rows|, |o.rows|) && row % 100 == 0
    requires IsSet(s, read + |Marks(0, row)|) && ClearUpTo(s, read, read + |Marks(0, row)|) && diffs == CommonDiffs(n, o, row)
    ensures CompareTables(filename, n, o, s, read)
      == (Detail(filename, Some(true), Some(|n.rows| == |o.rows|), diffs, Some(|diffs|), Some(InterruptedMessage)), read + |Marks(0, row)| + 1)
  {
    StoppedAt(filename, n, o, s, read, row, |Marks(0, row)|, diffs);
  }

  lemma {:induction false} StoppedAfterCommon(filename: string, n: Table, o: Table, s: Shutdown, read: nat, diffs: seq<CellDiff>)
    requires Comparable(n, o)
    requires var m := Min(|n.rows|, |o.rows|);
      IsSet(s, read + |Marks(0, m)|) && ClearUpTo(s, read, read + |Marks(0, m)|) && diffs == CommonDiffs(n, o, m)
    ensures CompareTables(filename, n, o, s, read)
      == (Detail(filename, Some(true), Some(|n.rows| == |o.rows|), diffs, Some(|diffs|), Some(InterruptedMessage)),
          read + |Marks(0, Min(|n.rows|, |o.rows|))| + 1)
  {
    StoppedAt(filename, n, o, s, read, Min(|n.rows|, |o.rows|), |Marks(0, Min(|n.rows|, |o.rows|))|, diffs);
  }

  lemma {:induction false} StoppedInExtra(filename: string, n: Table, o: Table, s: Shutdown, read: nat, row: nat,
                                          diffs: seq<CellDiff>, extra: seq<CellDiff>)
    requires Comparable(n, o)
    requires var m, M := Min(|n.rows|, |o.rows|), Max(|n.rows|, |o.rows|);
      m <= row < M && row % 100 == 0 && diffs == CommonDiffs(n, o, m) && extra == ExtraDiffs(n, o, m, row)
      && IsSet(s, read + |Marks(0, m)| + 1 + |Marks(m, row)|) && ClearUpTo(s, read + |Marks(0, m)| + 1, read + |Marks(0, m)| + 1 + |Marks(m, row)|)
      && !IsSet(s, read + |Marks(0, m)|)
    ensures var m := Min(|n.rows|, |o.rows|);
      CompareTables(filename, n, o, s, read)
      == (Detail(filename, Some(true), Some(|n.rows| == |o.rows|), diffs + extra, Some(|diffs + extra|), Some(InterruptedMessage)),
          read + |Marks(0, m)| + 1 + |Marks(m, row)| + 1)
  {
    var m := Min(|n.rows|, |o.rows|);
    assert diffs + extra == Reached(n, o, row) by {
      if row == m {
        assert extra == [];
      }
    }
    StoppedAt(filename, n, o, s, read, row, |Marks(0, m)| + 1 + |Marks(m, row)|, diffs + extra);
  }

  /** Passing every checkpoint with the flag clear is what the specification returns. */
  lemma {:induction false} Completed(filename: string, n: Table, o: Table, s: Shutdown, read: nat, diffs: seq<CellDiff>, extra: seq<CellDiff>)
    requires Comparable(n, o)
    requires var m, M := Min(|n.rows|, |o.rows|), Max(|n.rows|, |o.rows|);
      ClearUpTo(s, read + |Marks(0, m)| + 1, read + |Marks(0, m)| + 1 + |Marks(m, M)|) && !IsSet(s, read + |Marks(0, m)|)
      && diffs == CommonDiffs(n, o, m) && extra == ExtraDiffs(n, o, m, M)
    ensures var m, M := Min(|n.rows|, |o.rows|), Max(|n.rows|, |o.rows|);
      CompareTables(filename, n, o, s, read)
      == (Detail(filename, Some(true), Some(|n.rows| == |o.rows|), diffs + extra, Some(|diffs + extra|), None),
          read + |Marks(0, m)| + 1 + |Marks(m, M)|)
  {
    var m, M := Min(|n.rows|, |o.rows|), Max(|n.rows|, |o.rows|);
    assert |Checkpoints(n, o)| == |Marks(0, m)| + 1 + |Marks(m, M)|;
    assert diffs + extra == Reached(n, o, M) by {
      if M == m {
        assert extra == [];
      }
    }
  }

  /** The marks in [a, b) are rows in that range divisible by 100. */
  lemma {:induction false} MarksRange(a: nat, b: nat)
    ensures forall k :: 0 <= k < |Marks(a, b)| ==> a <= Marks(a, b)[k] < b && Marks(a, b)[k] % 100 == 0
  {
    if a < b {
      MarksRange(a, b - 1);
    }
  }

  /** The checkpoint numbered `i` is row `row`. */
  lemma {:induction false} CheckpointAt(n: Table, o: Table, row: nat, i: nat)
    requires var m, M := Min(|n.rows|, |o.rows|), Max(|n.rows|, |o.rows|);
      (row < m && row % 100 == 0 && i == |Marks(0, row)|)
      || (row == m && i == |Marks(0, m)|)
      || (m <= row < M && row % 100 == 0 && i == |Marks(0, m)| + 1 + |Marks(m, row)|)
    ensures i < |Checkpoints(n, o)| && Checkpoints(n, o)[i] == row
  {
    var m, M := Min(|n.rows|, |o.rows|), Max(|n.rows|, |o.rows|);
    if row < m && row % 100 == 0 && i == |Marks(0, row)| {
      MarksPrefix(0, row + 1, m);
      assert Marks(0, row + 1) == Marks(0, row) + [row];
    } else if row == m && i == |Marks(0, m)| {
    } else {
      MarksPrefix(m, row + 1, M);
      assert Marks(m, row + 1) == Marks(m, row) + [row];
      var cps := Checkpoints(n, o);
      assert cps == (Marks(0, m) + [m]) + Marks(m, M);
    }
  }

  /** The marks below b are a prefix of the marks below c. */
  lemma {:induction false} MarksPrefix(a: nat, b: nat, c: nat)
    requires b <= c
    ensures Marks(a, b) <= Marks(a, c)
    decreases c - b
  {
    if b < c {
      MarksPrefix(a, b, c - 1);
    }
  }

  /** When read i is the first set one, FirstSet finds it. */
  lemma {:induction false} FirstSetFound(s: Shutdown, read: nat, count: nat, i: nat)
    requires i < count && IsSet(s, read + i) && ClearUpTo(s, read, read + i)
    ensures FirstSet(s, read, count) == Some(i)
  {
  }
}

module ProcessCompareFacts {
  import opened Wrappers
  import opened Interrupt
  import opened ProcessCompare

  /** `e` records a cell of common row e.row whose two strings differ. */
  predicate Mismatch(n: Table, o: Table, e: CellDiff)
  {
    e.row < Min(|n.rows|, |o.rows|)
    && exists c :: 0 <= c < |n.columns| && e == CellDiff(e.row, Column(n, c), Cell(n, e.row, c), Cell(o, e.row, c))
                   && Cell(n, e.row, c) != Cell(o, e.row, c)
  }

  lemma {:induction false} ColDiffsExact(n: Table, o: Table, r: nat, c: nat)
    requires r < Min(|n.rows|, |o.rows|) && c <= |n.columns|
    ensures forall e :: e in ColDiffs(n, o, r, c) ==> e.row == r && Mismatch(n, o, e)
    ensures forall c' :: 0 <= c' < c && Cell(n, r, c') != Cell(o, r, c') ==>
      CellDiff(r, Column(n, c'), Cell(n, r, c'), Cell(o, r, c')) in ColDiffs(n, o, r, c)
  {
    if c > 0 {
      ColDiffsExact(n, o, r, c - 1);
      if Cell(n, r, c - 1) != Cell(o, r, c - 1) {
        var e := CellDiff(r, Column(n, c - 1), Cell(n, r, c - 1), Cell(o, r, c - 1));
        assert Mismatch(n, o, e) by {
          assert e == CellDiff(e.row, Column(n, c - 1), Cell(n, e.row, c - 1), Cell(o, e.row, c - 1));
        }
      }
    }
  }

  /** Every entry for the first R common rows is a differing cell of one of them. */
  lemma {:induction false} CommonEntriesSound(n: Table, o: Table, R: nat)
    requires R <= Min(|n.rows|, |o.rows|)
    ensures forall e :: e in CommonDiffs(n, o, R) ==> e.row < R && Mismatch(n, o, e)
  {
    if R > 0 {
      CommonEntriesSound(n, o, R - 1);
      ColDiffsExact(n, o, R - 1, |n.columns|);
    }
  }

  /** Every differing cell of the first R common rows has its entry. */
  lemma {:induction false} CommonEntriesComplete(n: Table, o: Table, R: nat)
    requires R <= Min(|n.rows|, |o.rows|)
    ensures forall r, c :: 0 <= r < R && 0 <= c < |n.columns| && Cell(n, r, c) != Cell(o, r, c) ==>
      CellDiff(r, Column(n, c), Cell(n, r, c), Cell(o, r, c)) in CommonDiffs(n, o, R)
  {
    if R > 0 {
      CommonEntriesComplete(n, o, R - 1);
      ColDiffsExact(n, o, R - 1, |n.columns|);
    }
  }

  /** Row numbers never decrease along `d`, and all lie in [lo, hi). */
  predicate RowsIn(d: seq<CellDiff>, lo: nat, hi: nat)
  {
    (forall i, j :: 0 <= i < j < |d| ==> d[i].row <= d[j].row) && forall i :: 0 <= i < |d| ==> lo <= d[i].row < hi
  }

  lemma {:induction false} ConcatRows(a: seq<CellDiff>, b: seq<CellDiff>, lo: nat, mid: nat, hi: nat)
    requires RowsIn(a, lo, mid) && RowsIn(b, mid, hi) && lo <= mid <= hi
    ensures RowsIn(a + b, lo, hi)
  {
    forall i | 0 <= i < |a + b|
      ensures i < |a| ==> (a + b)[i] == a[i]
      ensures i >= |a| ==> (a + b)[i] == b[i - |a|]
    {
    }
    forall i, j | 0 <= i < j < |a + b|
      ensures (a + b)[i].row <= (a + b)[j].row
    {
      if j < |a| {
        assert a[i].row <= a[j].row;
      } else if i >= |a| {
        assert b[i - |a|].row <= b[j - |a|].row;
      } else {
        assert a[i].row < mid <= b[j - |a|].row;
      }
    }
  }

  lemma {:induction false} ColDiffsRow(n: Table, o: Table, r: nat)
    requires r < Min(|n.rows|, |o.rows|)
    ensures RowsIn(ColDiffs(n, o, r, |n.columns|), r, r + 1)
  {
    ColDiffsExact(n, o, r, |n.columns|);
    var d := ColDiffs(n, o, r, |n.columns|);
    assert forall i :: 0 <= i < |d| ==> d[i] in d;
  }

  /** Entries come row by row: the row numbers never decrease. */
  lemma {:induction false} CommonRowMajor(n: Table, o: Table, R: nat)
    requires R <= Min(|n.rows|, |o.rows|)
    ensures RowsIn(CommonDiffs(n, o, R), 0, R)
  {
    if R > 0 {
      CommonRowMajor(n, o, R - 1);
      ColDiffsRow(n, o, R - 1);
      ConcatRows(CommonDiffs(n, o, R - 1), ColDiffs(n, o, R - 1, |n.columns|), 0, R - 1, R);
    }
  }

  /**
   * An extra row yields one entry per column, holding the longer table's
   * cell and the sentinel naming the table that lacks the row.
   */
  lemma {:induction false} ExtraCellsShape(n: Table, o: Table, r: nat, c: nat)
    ensures |ExtraCells(n, o, r, c)| == c
    ensures forall k :: 0 <= k < c ==>
      ExtraCells(n, o, r, c)[k] ==
        if |n.rows| > |o.rows| then CellDiff(r, Column(n, k), Cell(n, r, k), RowNotInOriginal)
        else CellDiff(r, Column(o, k), RowNotInNew, Cell(o, r, k))
  {
    if c > 0 {
      ExtraCellsShape(n, o, r, c - 1);
    }
  }

  lemma {:induction false} ExtraRowMajor(n: Table, o: Table, a: nat, R: nat)
    requires a <= R
    ensures RowsIn(ExtraDiffs(n, o, a, R), a, R)
  {
    if R > a {
      ExtraRowMajor(n, o, a, R - 1);
      ExtraCellsShape(n, o, R - 1, |n.columns|);
      ConcatRows(ExtraDiffs(n, o, a, R - 1), ExtraCells(n, o, R - 1, |n.columns|), a, R - 1, R);
    }
  }

  /** All the entries, up to any row reached, come in row-major order. */
  lemma {:induction false} RowMajor(n: Table, o: Table, R: nat)
    ensures RowsIn(Reached(n, o, R), 0, R)
  {
    var m := Min(|n.rows|, |o.rows|);
    if R <= m {
      CommonRowMajor(n, o, R);
    } else {
      CommonRowMajor(n, o, m);
      ExtraRowMajor(n, o, m, R);
      ConcatRows(CommonDiffs(n, o, m), ExtraDiffs(n, o, m, R), 0, m, R);
    }
  }

  /** Every entry of `d` carries the sentinel of the shorter table. */
  predicate Sentinels(n: Table, o: Table, d: seq<CellDiff>)
  {
    forall i :: 0 <= i < |d| ==>
      if |n.rows| > |o.rows| then d[i].originalValue == RowNotInOriginal else d[i].newValue == RowNotInNew
  }

  lemma {:induction false} ExtraSentinels(n: Table, o: Table, a: nat, R: nat)
    ensures Sentinels(n, o, ExtraDiffs(n, o, a, R))
  {
    if R > a {
      ExtraSentinels(n, o, a, R - 1);
      ExtraCellsShape(n, o, R - 1, |n.columns|);
      var x: seq<CellDiff>, y: seq<CellDiff> := ExtraDiffs(n, o, a, R - 1), ExtraCells(n, o, R - 1, |n.columns|);
      forall i | 0 <= i < |x + y|
        ensures if |n.rows| > |o.rows| then (x + y)[i].originalValue == RowNotInOriginal else (x + y)[i].newValue == RowNotInNew
      {
        if i >= |x| {
          assert (x + y)[i] == y[i - |x|];
        }
      }
    }
  }

  /** k added a times over. */
  function Repeated(a: nat, k: nat): nat
  {
    if a == 0 then 0 else Repeated(a - 1, k) + k
  }

  lemma {:induction false} RepeatedIsProduct(a: nat, k: nat)
    ensures Repeated(a, k) == a * k
  {
    if a > 0 {
      RepeatedIsProduct(a - 1, k);
    }
  }

  lemma {:induction false} ExtraCount(n: Table, o: Table, a: nat, R: nat)
    requires a <= R
    ensures |ExtraDiffs(n, o, a, R)| == Repeated(R - a, |n.columns|)
  {
    if R > a {
      ExtraCount(n, o, a, R - 1);
      ExtraCellsShape(n, o, R - 1, |n.columns|);
    }
  }

  /**
   * The entries of a completed comparison: the common-row mismatches, then
   * one entry per column for each extra row, holding the sentinel; so the
   * total is the mismatch count plus the row difference times the column
   * count.
   */
  lemma {:induction false} CompletedEntries(n: Table, o: Table)
    ensures var m, M := Min(|n.rows|, |o.rows|), Max(|n.rows|, |o.rows|);
      Reached(n, o, M) == CommonDiffs(n, o, m) + ExtraDiffs(n, o, m, M)
      && |Reached(n, o, M)| == |CommonDiffs(n, o, m)| + (M - m) * |n.columns|
      && Sentinels(n, o, ExtraDiffs(n, o, m, M))
  {
    var m, M := Min(|n.rows|, |o.rows|), Max(|n.rows|, |o.rows|);
    if M == m {
      assert ExtraDiffs(n, o, m, M) == [];
    }
    ExtraCount(n, o, m, M);
    RepeatedIsProduct(M - m, |n.columns|);
    ExtraSentinels(n, o, m, M);
  }

  lemma {:induction false} CommonGrow(n: Table, o: Table, R: nat, R': nat)
    requires R <= R'
    ensures CommonDiffs(n, o, R) <= CommonDiffs(n, o, R')
    decreases R' - R
  {
    if R < R' {
      CommonGrow(n, o, R, R' - 1);
    }
  }

  lemma {:induction false} ExtraGrow(n: Table, o: Table, a: nat, R: nat, R': nat)
    requires R <= R'
    ensures ExtraDiffs(n, o, a, R) <= ExtraDiffs(n, o, a, R')
    decreases R' - R
  {
    if R < R' {
      ExtraGrow(n, o, a, R, R' - 1);
    }
  }

  /** What the comparison holds at an earlier row is a prefix of what it holds later. */
  lemma {:induction false} ReachedGrow(n: Table, o: Table, R: nat, R': nat)
    requires R <= R'
    ensures Reached(n, o, R) <= Reached(n, o, R')
  {
    var m := Min(|n.rows|, |o.rows|);
    if R' <= m {
      CommonGrow(n, o, R, R');
    } else if R <= m {
      CommonGrow(n, o, R, m);
    } else {
      ExtraGrow(n, o, m, R, R');
    }
  }

  /** The checkpoints are rows of the tables, at most the longer row count. */
  lemma {:induction false} CheckpointsInRange(n: Table, o: Table)
    ensures forall k :: 0 <= k < |Checkpoints(n, o)| ==> Checkpoints(n, o)[k] <= Max(|n.rows|, |o.rows|)
  {
    var m, M := Min(|n.rows|, |o.rows|), Max(|n.rows|, |o.rows|);
    var a, b := Marks(0, m), Marks(m, M);
    MarksRange(0, m);
    MarksRange(m, M);
    assert Checkpoints(n, o) == a + [m] + b;
  }

  /**
   * After both downloads: differing headers give the header error with no
   * entries; otherwise the error is None exactly when no checkpoint saw
   * the flag, the entries are then those of every row, and an interrupted
   * comparison holds a prefix of them. The total always counts the entries.
   */
  lemma {:induction false} TablesOutcome(filename: string, n: Table, o: Table, s: Shutdown, read: nat)
    requires Rectangular(n) && Rectangular(o)
    ensures var d := CompareTables(filename, n, o, s, read).0;
      d.filename == filename
      && (n.columns != o.columns <==> d.headersMatch == Some(false))
      && (n.columns != o.columns ==> d.error == Some(HeadersDiffer) && d.diffs == [] && d.total == None)
      && (n.columns == o.columns ==>
            d.shapeMatch == Some(|n.rows| == |o.rows|) && d.total == Some(|d.diffs|)
            && (d.error == None <==> FirstSet(s, read, |Checkpoints(n, o)|).None?)
            && (d.error != None ==> d.error == Some(InterruptedMessage))
            && d.diffs <= Reached(n, o, Max(|n.rows|, |o.rows|))
            && (d.error == None ==> d.diffs == Reached(n, o, Max(|n.rows|, |o.rows|))))
  {
    if n.columns == o.columns {
      CheckpointsInRange(n, o);
      var cps := Checkpoints(n, o);
      match FirstSet(s, read, |cps|)
      case Some(i) =>
        FirstSetIsFirst(s, read, |cps|);
        ReachedGrow(n, o, cps[i], Max(|n.rows|, |o.rows|));
      case None =>
    }
  }

  /**
   * download_csv_from_s3 yields the fetched table only when every flag read
   * saw it clear, and the cancellation message only when the last read saw
   * it set.
   */
  lemma {:induction false} DownloadOutcome(f: Fetch, s: Shutdown, read: nat)
    ensures var r, read' := Download(f, s, read).0, Download(f, s, read).1;
      read' > read
      && (r.Ok? <==> f.Fetched? && !IsSet(s, read' - 1))
      && (r.Ok? ==> r.value == f.table)
      && (r.Err? && !IsSet(s, read' - 1) ==> r.error == f.message)
      && (r.Err? && IsSet(s, read' - 1) ==> r.error == DownloadCancelled)
  {
  }

  /**
   * The whole function: a flag set at the start, or a failed download,
   * returns before any comparison, without headers_match; whenever the
   * last flag read saw the flag set the result reports the interruption,
   * so a download cancelled by the flag is never reported by its own
   * message.
   */
  lemma {:induction false} ContentsOutcome(filename: string, newFile: Fetch, originalFile: Fetch, s: Shutdown, read: nat)
    requires FetchOk(newFile) && FetchOk(originalFile)
    ensures var d, read' := CompareContents(filename, newFile, originalFile, s, read).0, CompareContents(filename, newFile, originalFile, s, read).1;
      read' > read
      && (IsSet(s, read) ==> d == Early(filename, InterruptedMessage))
      && (d.headersMatch == None ==> d.diffs == [] && d.total == None && d.error.Some?)
      && (!newFile.Fetched? || !originalFile.Fetched? ==> d.headersMatch == None)
      && (IsSet(s, read' - 1) ==> d.error == Some(InterruptedMessage))
  {
    if !IsSet(s, read) {
      DownloadOutcome(newFile, s, read + 1);
      var nt, r1 := Download(newFile, s, read + 1).0, Download(newFile, s, read + 1).1;
      if nt.Ok? {
        DownloadOutcome(originalFile, s, r1);
        var ot, r2 := Download(originalFile, s, r1).0, Download(originalFile, s, r1).1;
        if ot.Ok? {
          var cps := Checkpoints(nt.value, ot.value);
          FirstSetIsFirst(s, r2, |cps|);
        }
      }
    }
  }
}
