/**
 * Looking for cells the floating-point bug changes: check_excel_for_bug
 * (conrad_scripts/laminar_floating_point_error/script.py).
 *
 * Each numeric cell is rendered by the old and by the new converter; the
 * first cell, row by row, where the two disagree is the sheet's bug and the
 * scan moves on to the next sheet. A sheet is abandoned once 100 rows with
 * no value at all have been seen (not necessarily in a row). A converter
 * that raises ends the whole check with the bugs found so far.
 */
module ScanCheck {
  import opened Wrappers
  import opened Text
  import opened Decimals
  import opened Convert

  /** A cell's value as the workbook gives it, with its number format. */
  datatype Cell =
    | Blank                                 // None
    | Numeric(value: Dec, format: string)   // an int or float; "" stands for a missing number format
    | NonNumeric                            // any other value

  datatype Sheet = Sheet(name: string, rows: seq<seq<Cell>>)

  datatype FormatType = General | Other

  /** One bug: the sheet, the 1-based row, the column letters, both renderings and the format kind. */
  datatype Bug = Bug(sheet: string, row: nat, column: string, oldValue: Conv, newValue: Conv, formatType: FormatType)

  /** The workbook at a path; None when it cannot be downloaded or loaded. */
  type Opener = string -> Option<seq<Sheet>>

  /** What comparing one cell's two renderings shows. */
  datatype Verdict = Agrees | Differs(oldValue: Conv, newValue: Conv, formatType: FormatType) | Fails

  /** The letters of a 1-based column number (get_column_letter): bijective base 26. */
  function ColumnLetter(n: nat): (r: string)
    requires n >= 1
    ensures |r| >= 1
    ensures forall k :: 0 <= k < |r| ==> 'A' <= r[k] <= 'Z'
    decreases n
  {
    if n <= 26 then [('A' as int + n - 1) as char]
    else ColumnLetter((n - 1) / 26) + [('A' as int + (n - 1) % 26) as char]
  }

  /** The column number column letters stand for. */
  function ColumnNumber(s: string): nat
    requires forall k :: 0 <= k < |s| ==> 'A' <= s[k] <= 'Z'
  {
    if s == [] then 0
    else ColumnNumber(s[..|s| - 1]) * 26 + (s[|s| - 1] as int - 'A' as int + 1)
  }

  /** The number format the scan uses: the cell's, or "General" when it has none. */
  function FormatOf(format: string): string { if format == "" then "General" else format }

  /** The old and the new rendering of a cell, compared. */
  function CellVerdict(cell: Cell, fixed: Renderer): Verdict
  {
    match cell
    case Numeric(v, f) =>
      var fmt := FormatOf(f);
      var kind := if fmt == "General" then General else Other;
      var before := if kind == General then HandleGeneralOld(fmt, v) else ConvertOldSpec(fmt, v, fixed);
      var after := if kind == General then HandleGeneralNew(fmt, v) else ConvertNewSpec(fmt, v);
      if before == Raised || after == Raised then Fails
      else if before != after then Differs(before, after, kind)
      else Agrees
    case _ => Agrees
  }

  /** The comparison the scan applies to each cell. */
  type Judge = Cell -> Verdict

  /** The scan's comparison, with the old converter's fixed-point rendering. */
  function JudgeWith(fixed: Renderer): Judge { cell => CellVerdict(cell, fixed) }

  /** A row with no value in any cell. */
  predicate AllBlank(row: seq<Cell>) { forall j :: 0 <= j < |row| ==> row[j] == Blank }

  /** How scanning a row or a sheet ends. */
  datatype Scan = Clear | Found(bug: Bug) | Stopped

  /** Scanning row `r` (1-based) of a sheet from column index `j`. */
  function ScanCells(sheet: string, row: seq<Cell>, r: nat, j: nat, judge: Judge): Scan
    decreases |row| - j
  {
    if j >= |row| then Clear
    else match judge(row[j])
      case Fails => Stopped
      case Differs(before, after, kind) => Found(Bug(sheet, r, ColumnLetter(j + 1), before, after, kind))
      case Agrees => ScanCells(sheet, row, r, j + 1, judge)
  }

  /** Scanning a sheet from row index `i`, `blanks` empty rows having been seen. */
  function ScanRows(sheet: Sheet, i: nat, blanks: nat, judge: Judge): Scan
    decreases |sheet.rows| - i
  {
    if i >= |sheet.rows| then Clear
    else match ScanCells(sheet.name, sheet.rows[i], i + 1, 0, judge)
      case Clear =>
        var seen := if AllBlank(sheet.rows[i]) then blanks + 1 else blanks;
        if seen >= 100 then Clear else ScanRows(sheet, i + 1, seen, judge)
      case other => other
  }

  function ScanSheet(sheet: Sheet, judge: Judge): Scan { ScanRows(sheet, 0, 0, judge) }

  /** The bugs of the sheets from index `k` on, one per sheet at most, until a converter raises. */
  function ScanSheets(sheets: seq<Sheet>, k: nat, judge: Judge): seq<Bug>
    decreases |sheets| - k
  {
    if k >= |sheets| then []
    else match ScanSheet(sheets[k], judge)
      case Stopped => []
      case Clear => ScanSheets(sheets, k + 1, judge)
      case Found(b) => [b] + ScanSheets(sheets, k + 1, judge)
  }

  /** check_excel_for_bug: nothing when the workbook cannot be had. */
  function CheckExcel(path: string, open: Opener, judge: Judge): seq<Bug>
  {
    match open(path)
    case None => []
    case Some(sheets) => ScanSheets(sheets, 0, judge)
  }

  /** The cell loop of one row; `allNone` is whether every visited cell was empty. */
  method ScanRow(sheet: string, row: seq<Cell>, r: nat, judge: Judge) returns (scan: Scan, allNone: bool)
    ensures scan == ScanCells(sheet, row, r, 0, judge)
    ensures scan == Clear ==> allNone == AllBlank(row)
  {
    allNone := true;
    var j := 0;
    while j < |row|
      invariant 0 <= j <= |row|
      invariant ScanCells(sheet, row, r, 0, judge) == ScanCells(sheet, row, r, j, judge)
      invariant allNone == AllBlank(row[..j])
    {
      var cell := row[j];
      if cell != Blank {
        allNone := false;
      }
      var verdict := judge(cell);
      if verdict.Fails? {
        return Stopped, allNone;
      }
      if verdict.Differs? {
        var column := ColumnLetter(j + 1);
        return Found(Bug(sheet, r, column, verdict.oldValue, verdict.newValue, verdict.formatType)), allNone;
      }
      assert row[..j + 1] == row[..j] + [cell];
      j := j + 1;
    }
    assert row[..j] == row;
    scan := Clear;
  }

  /** The row loop of one sheet, with its count of empty rows. */
  method ScanRowsLoop(sheet: Sheet, judge: Judge) returns (scan: Scan)
    ensures scan == ScanSheet(sheet, judge)
  {
    var blanks := 0;
    var i := 0;
    while i < |sheet.rows|
      invariant 0 <= i <= |sheet.rows| && blanks < 100
      invariant ScanSheet(sheet, judge) == ScanRows(sheet, i, blanks, judge)
    {
      var rowScan, allNone := ScanRow(sheet.name, sheet.rows[i], i + 1, judge);
      if !rowScan.Clear? {
        return rowScan;
      }
      if allNone {
        blanks := blanks + 1;
      }
      if blanks >= 100 {
        return Clear;
      }
      i := i + 1;
    }
    scan := Clear;
  }

  /** check_excel_for_bug: the sheet loop. */
  method CheckExcelForBug(path: string, open: Opener, judge: Judge) returns (bugs: seq<Bug>)
    ensures bugs == CheckExcel(path, open, judge)
  {
    bugs := [];
    var workbook := open(path);
    if workbook.None? {
      return;
    }
    var sheets := workbook.value;
    var k := 0;
    while k < |sheets|
      invariant 0 <= k <= |sheets|
      invariant CheckExcel(path, open, judge) == bugs + ScanSheets(sheets, k, judge)
    {
      var scan := ScanRowsLoop(sheets[k], judge);
      if scan.Stopped? {
        return;
      }
      if scan.Found? {
        assert bugs + ScanSheets(sheets, k, judge) == (bugs + [scan.bug]) + ScanSheets(sheets, k + 1, judge);
        bugs := bugs + [scan.bug];
      }
      k := k + 1;
    }
  }
}

/** What check_excel_for_bug promises about the bugs it reports. */
module ScanCheckFacts {
  import opened Wrappers
  import opened Convert
  import opened Lists
  import opened ScanCheck

  /** Column letters name every column number once: the two conversions are inverse. */
  lemma {:induction false} ColumnRoundTrip(n: nat)
    requires n >= 1
    ensures ColumnNumber(ColumnLetter(n)) == n
    decreases n
  {
    if n > 26 {
      var s := ColumnLetter(n);
      ColumnRoundTrip((n - 1) / 26);
      assert s[..|s| - 1] == ColumnLetter((n - 1) / 26);
    }
  }

  lemma {:induction false} LetterRoundTrip(s: string)
    requires |s| >= 1 && forall k :: 0 <= k < |s| ==> 'A' <= s[k] <= 'Z'
    ensures ColumnNumber(s) >= 1 && ColumnLetter(ColumnNumber(s)) == s
    decreases |s|
  {
    var front := s[..|s| - 1];
    var d := s[|s| - 1] as int - 'A' as int + 1;
    if front == [] {
      assert s == [s[|s| - 1]];
    } else {
      LetterRoundTrip(front);
      var n := ColumnNumber(s);
      assert n == ColumnNumber(front) * 26 + d;
      assert (n - 1) / 26 == ColumnNumber(front) && (n - 1) % 26 == d - 1;
      assert s == front + [s[|s| - 1]];
    }
  }

  /** A cell in General format (or with no format) never shows a difference. */
  lemma GeneralAgrees(v: Decimals.Dec, format: string, fixed: Renderer)
    requires FormatOf(format) == "General"
    ensures CellVerdict(Numeric(v, format), fixed) == Agrees
  {
    GeneralHandlersAgree("General", v);
  }

  /** A comparison that only ever finds differences outside General format. */
  ghost predicate NoGeneralBugs(judge: Judge)
  {
    forall cell :: judge(cell).Differs? ==> judge(cell).formatType == Other
  }

  lemma ScanJudgeNoGeneral(fixed: Renderer)
    ensures NoGeneralBugs(JudgeWith(fixed))
  {
    forall cell | JudgeWith(fixed)(cell).Differs?
      ensures JudgeWith(fixed)(cell).formatType == Other
    {
      if cell.Numeric? && FormatOf(cell.format) == "General" {
        GeneralAgrees(cell.value, cell.format, fixed);
      }
    }
  }

  /** The number of rows with no value at all. */
  function BlankRows(rows: seq<seq<Cell>>): nat
  {
    if rows == [] then 0
    else BlankRows(rows[..|rows| - 1]) + (if AllBlank(rows[|rows| - 1]) then 1 else 0)
  }

  lemma {:induction false} BlankRowsGrow(rows: seq<seq<Cell>>, a: nat, b: nat)
    requires a <= b <= |rows|
    ensures BlankRows(rows[..a]) <= BlankRows(rows[..b])
    decreases b - a
  {
    if a < b {
      BlankRowsGrow(rows, a, b - 1);
      assert rows[..b][..b - 1] == rows[..b - 1];
    }
  }

  /** A row the scan reaches unless it stops earlier: fewer than 100 empty rows come before it. */
  predicate Visible(rows: seq<seq<Cell>>, r: int)
  {
    0 <= r < |rows| && BlankRows(rows[..r]) < 100
  }

  /** Column `c` holds the first cell from column `j` whose renderings do not agree. */
  predicate FirstAt(row: seq<Cell>, j: nat, c: nat, judge: Judge)
  {
    j <= c < |row| && judge(row[c]) != Agrees
    && forall c' :: j <= c' < c ==> judge(row[c']) == Agrees
  }

  /** How the scan ends at a cell whose renderings do not agree: a bug there, or a stop when a converter raised. */
  function Outcome(sheet: string, r: nat, c: nat, v: Verdict): Scan
  {
    match v
    case Differs(before, after, kind) => Found(Bug(sheet, r, ColumnLetter(c + 1), before, after, kind))
    case _ => Stopped
  }

  /** A row scan is clear exactly when every cell agrees; otherwise it ends at the first cell that does not. */
  lemma {:induction false} CellsFacts(sheet: string, row: seq<Cell>, r: nat, j: nat, judge: Judge)
    requires j <= |row|
    ensures ScanCells(sheet, row, r, j, judge) == Clear <==>
      forall c :: j <= c < |row| ==> judge(row[c]) == Agrees
    ensures ScanCells(sheet, row, r, j, judge) != Clear ==>
      exists c: nat :: FirstAt(row, j, c, judge)
        && ScanCells(sheet, row, r, j, judge) == Outcome(sheet, r, c, judge(row[c]))
    decreases |row| - j
  {
    if j < |row| {
      if judge(row[j]) != Agrees {
        assert FirstAt(row, j, j, judge);
      } else {
        CellsFacts(sheet, row, r, j + 1, judge);
        if ScanCells(sheet, row, r, j, judge) != Clear {
          var c: nat :| FirstAt(row, j + 1, c, judge)
            && ScanCells(sheet, row, r, j + 1, judge) == Outcome(sheet, r, c, judge(row[c]));
          assert FirstAt(row, j, c, judge);
        }
      }
    }
  }

  /** Every cell of the visible rows from `i` on agrees. */
  predicate AllAgreeFrom(sheet: Sheet, i: nat, judge: Judge)
  {
    forall r, c :: i <= r < |sheet.rows| && Visible(sheet.rows, r) && 0 <= c < |sheet.rows[r]| ==> judge(sheet.rows[r][c]) == Agrees
  }

  /** Every cell of rows `i` up to `r` agrees. */
  predicate AgreeBetween(sheet: Sheet, i: nat, r: nat, judge: Judge)
    requires r <= |sheet.rows|
  {
    forall r', c :: i <= r' < r && 0 <= c < |sheet.rows[r']| ==> judge(sheet.rows[r'][c]) == Agrees
  }

  /** The scan ends at cell (r, c): a visible row, the first disagreeing cell of a sheet whose earlier rows all agree. */
  predicate EndsAt(sheet: Sheet, i: nat, r: nat, c: nat, judge: Judge)
  {
    i <= r && Visible(sheet.rows, r) && FirstAt(sheet.rows[r], 0, c, judge) && AgreeBetween(sheet, i, r, judge)
  }

  /** The sheet scan from row `i` is clear exactly when every cell of the visible rows agrees. */
  lemma {:induction false} RowsClear(sheet: Sheet, i: nat, judge: Judge)
    requires i <= |sheet.rows| && BlankRows(sheet.rows[..i]) < 100
    ensures ScanRows(sheet, i, BlankRows(sheet.rows[..i]), judge) == Clear <==> AllAgreeFrom(sheet, i, judge)
    decreases |sheet.rows| - i
  {
    var rows := sheet.rows;
    if i < |rows| {
      var row := rows[i];
      CellsFacts(sheet.name, row, i + 1, 0, judge);
      assert Visible(rows, i);
      if ScanCells(sheet.name, row, i + 1, 0, judge) == Clear {
        assert rows[..i + 1][..i] == rows[..i];
        if BlankRows(rows[..i + 1]) >= 100 {
          forall r | i < r < |rows|
            ensures !Visible(rows, r)
          {
            BlankRowsGrow(rows, i + 1, r);
          }
        } else {
          RowsClear(sheet, i + 1, judge);
        }
      }
    }
  }

  /** Otherwise it ends at the first disagreeing cell of the visible rows. */
  lemma {:induction false} RowsEnd(sheet: Sheet, i: nat, judge: Judge)
    requires i <= |sheet.rows| && BlankRows(sheet.rows[..i]) < 100
    ensures ScanRows(sheet, i, BlankRows(sheet.rows[..i]), judge) != Clear ==>
      exists r: nat, c: nat :: EndsAt(sheet, i, r, c, judge)
        && ScanRows(sheet, i, BlankRows(sheet.rows[..i]), judge) == Outcome(sheet.name, r + 1, c, judge(sheet.rows[r][c]))
    decreases |sheet.rows| - i
  {
    var rows := sheet.rows;
    if i < |rows| {
      var row := rows[i];
      CellsFacts(sheet.name, row, i + 1, 0, judge);
      if ScanCells(sheet.name, row, i + 1, 0, judge) != Clear {
        var c: nat :| FirstAt(row, 0, c, judge)
          && ScanCells(sheet.name, row, i + 1, 0, judge) == Outcome(sheet.name, i + 1, c, judge(row[c]));
        assert EndsAt(sheet, i, i, c, judge);
      } else {
        assert rows[..i + 1][..i] == rows[..i];
        var seen := BlankRows(rows[..i + 1]);
        if seen < 100 {
          RowsEnd(sheet, i + 1, judge);
          if ScanRows(sheet, i + 1, seen, judge) != Clear {
            var r: nat, c: nat :| EndsAt(sheet, i + 1, r, c, judge)
              && ScanRows(sheet, i + 1, seen, judge) == Outcome(sheet.name, r + 1, c, judge(rows[r][c]));
            assert EndsAt(sheet, i, r, c, judge);
          }
        }
      }
    }
  }

  /**
   * One sheet: the scan is clear exactly when every cell of the rows it
   * reaches agrees, and otherwise it ends at the first cell, row by row,
   * whose renderings do not agree, reporting the bug there (1-based row,
   * column letters) or stopping when a converter raised.
   */
  lemma SheetFacts(sheet: Sheet, judge: Judge)
    ensures ScanSheet(sheet, judge) == Clear <==> AllAgreeFrom(sheet, 0, judge)
    ensures ScanSheet(sheet, judge) != Clear ==>
      exists r: nat, c: nat :: EndsAt(sheet, 0, r, c, judge)
        && ScanSheet(sheet, judge) == Outcome(sheet.name, r + 1, c, judge(sheet.rows[r][c]))
  {
    assert sheet.rows[..0] == [];
    RowsClear(sheet, 0, judge);
    RowsEnd(sheet, 0, judge);
  }

  /** Rows after the 100th empty row are never looked at. */
  lemma {:induction false} RowsAfterBlanksIgnored(name: string, rows: seq<seq<Cell>>, more: seq<seq<Cell>>, i: nat, judge: Judge)
    requires BlankRows(rows) >= 100 && i < |rows| && BlankRows(rows[..i]) < 100
    ensures ScanRows(Sheet(name, rows + more), i, BlankRows(rows[..i]), judge)
         == ScanRows(Sheet(name, rows), i, BlankRows(rows[..i]), judge)
    decreases |rows| - i
  {
    var all := rows + more;
    assert all[i] == rows[i];
    assert rows[..i + 1][..i] == rows[..i];
    if i + 1 == |rows| {
      assert rows[..i + 1] == rows;
    } else if BlankRows(rows[..i + 1]) < 100 {
      RowsAfterBlanksIgnored(name, rows, more, i + 1, judge);
    }
  }

  lemma SheetIgnoresRowsAfterBlanks(name: string, rows: seq<seq<Cell>>, more: seq<seq<Cell>>, judge: Judge)
    requires BlankRows(rows) >= 100
    ensures ScanSheet(Sheet(name, rows + more), judge) == ScanSheet(Sheet(name, rows), judge)
  {
    assert rows[..0] == [];
    assert rows != [];
    RowsAfterBlanksIgnored(name, rows, more, 0, judge);
  }

  /** A bug's place: a 1-based row and the letters of a column. */
  predicate WellPlaced(b: Bug)
  {
    b.row >= 1 && |b.column| >= 1 && forall k :: 0 <= k < |b.column| ==> 'A' <= b.column[k] <= 'Z'
  }

  /** A sheet's bug names that sheet and a cell, and is outside General format when the comparison only finds such. */
  lemma FoundFacts(sheet: Sheet, judge: Judge)
    requires ScanSheet(sheet, judge).Found?
    ensures ScanSheet(sheet, judge).bug.sheet == sheet.name && WellPlaced(ScanSheet(sheet, judge).bug)
    ensures NoGeneralBugs(judge) ==> ScanSheet(sheet, judge).bug.formatType == Other
  {
    SheetFacts(sheet, judge);
    var r: nat, c: nat :| EndsAt(sheet, 0, r, c, judge)
      && ScanSheet(sheet, judge) == Outcome(sheet.name, r + 1, c, judge(sheet.rows[r][c]));
  }

  /**
   * The workbook: every bug is the bug of one of the sheets, all are outside
   * General format, no sheet name has more bugs than sheets carry it, and
   * when no converter raises every sheet with a bug is reported.
   */
  lemma {:induction false} SheetsFacts(sheets: seq<Sheet>, k: nat, judge: Judge, name: string)
    requires k <= |sheets|
    ensures forall b :: b in ScanSheets(sheets, k, judge) ==>
      (NoGeneralBugs(judge) ==> b.formatType == Other) && WellPlaced(b)
      && exists m :: k <= m < |sheets| && ScanSheet(sheets[m], judge) == Found(b)
    ensures |Filter(ScanSheets(sheets, k, judge), (b: Bug) => b.sheet == name)|
         <= |Filter(sheets[k..], (s: Sheet) => s.name == name)|
    ensures (forall m :: k <= m < |sheets| ==> !ScanSheet(sheets[m], judge).Stopped?) ==>
      |ScanSheets(sheets, k, judge)| == |Filter(sheets[k..], (s: Sheet) => ScanSheet(s, judge).Found?)|
    decreases |sheets| - k
  {
    if k < |sheets| {
      SheetsFacts(sheets, k + 1, judge, name);
      assert sheets[k..][0] == sheets[k] && sheets[k..][1..] == sheets[k + 1..];
      if ScanSheet(sheets[k], judge).Found? {
        FoundFacts(sheets[k], judge);
      }
    }
  }

  /** check_excel_for_bug reports only non-General bugs, at most one per sheet. */
  lemma CheckExcelFacts(path: string, open: Opener, fixed: Renderer, name: string)
    ensures forall b :: b in CheckExcel(path, open, JudgeWith(fixed)) ==> b.formatType == Other && WellPlaced(b)
    ensures open(path).None? ==> CheckExcel(path, open, JudgeWith(fixed)) == []
    ensures open(path).Some? ==>
      |CheckExcel(path, open, JudgeWith(fixed))| <= |open(path).value|
      && |Filter(CheckExcel(path, open, JudgeWith(fixed)), (b: Bug) => b.sheet == name)|
         <= |Filter(open(path).value, (s: Sheet) => s.name == name)|
  {
    if open(path).Some? {
      var sheets := open(path).value;
      ScanJudgeNoGeneral(fixed);
      SheetsFacts(sheets, 0, JudgeWith(fixed), name);
      SheetsBound(sheets, 0, JudgeWith(fixed));
      assert sheets[0..] == sheets;
    }
  }

  lemma {:induction false} SheetsBound(sheets: seq<Sheet>, k: nat, judge: Judge)
    requires k <= |sheets|
    ensures |ScanSheets(sheets, k, judge)| <= |sheets| - k
    decreases |sheets| - k
  {
    if k < |sheets| {
      SheetsBound(sheets, k + 1, judge);
    }
  }
}
