/**
 * 991a.py: `run_daily_update` finds the header row of the downloaded sheet,
 * drops empty and footer rows; `compare_holdings` picks the key and quantity
 * columns, cleans the quantities with `clean_numeric`, outer-joins today's
 * table with the latest backup and labels every row with `detect_change`.
 */
module Etf991 {
  import opened Wrappers
  import opened Text
  import opened Holdings

  /** A spreadsheet cell: empty (NaN) or holding text. */
  datatype Cell = Blank | Filled(text: string)

  /** `astype(str)` of a cell: an empty cell reads "nan". */
  function CellText(c: Cell): string {
    match c
    case Blank => "nan"
    case Filled(t) => t
  }

  const NameLabel := "證券名稱"
  const CodeLabel := "證券代號"
  const SharesLabel := "持股股數"

  // ---------------------------------------------------------------------------
  // Locating the table in the sheet (991a.py:45-59)
  // ---------------------------------------------------------------------------

  predicate HasNameCell(row: seq<Cell>) {
    Filled(NameLabel) in row
  }

  /** `h` is the first row of the sheet holding a 證券名稱 cell. */
  predicate IsFirstHeader(sheet: seq<seq<Cell>>, h: nat) {
    h < |sheet| && HasNameCell(sheet[h]) && forall k :: 0 <= k < h ==> !HasNameCell(sheet[k])
  }

  /** The header search: the first row holding 證券名稱, or the error raised when none does. */
  method FindHeaderRow(sheet: seq<seq<Cell>>) returns (r: Result<nat>)
    ensures r.Ok? ==> IsFirstHeader(sheet, r.value)
    ensures r.Err? <==> forall k :: 0 <= k < |sheet| ==> !HasNameCell(sheet[k])
  {
    var header: Option<nat> := None;
    var i := 0;
    while i < |sheet|
      invariant 0 <= i <= |sheet|
      invariant header.None?
      invariant forall k :: 0 <= k < i ==> !HasNameCell(sheet[k])
    {
      if HasNameCell(sheet[i]) {
        header := Some(i);
        break;
      }
      i := i + 1;
    }
    if header.None? {
      return Err("在 Excel 中找不到 '證券名稱' 欄位");
    }
    return Ok(header.value);
  }

  /** The cell in column `k`, blank where the row is shorter than the table. */
  function CellAt(row: seq<Cell>, k: nat): Cell {
    if k < |row| then row[k] else Blank
  }

  predicate IsBlankRow(row: seq<Cell>) {
    forall k :: 0 <= k < |row| ==> row[k] == Blank
  }

  /** The footer test on the first column: it contains 合計, 備註 or 註 (a blank cell reads "nan"). */
  predicate IsFooter(row: seq<Cell>) {
    var t := CellText(CellAt(row, 0));
    Contains(t, "合計") || Contains(t, "備註") || Contains(t, "註")
  }

  /** 備註 adds nothing to the pattern: every text containing it contains 註. */
  lemma FooterIsTotalOrNote(row: seq<Cell>)
    ensures IsFooter(row) <==> Contains(CellText(CellAt(row, 0)), "合計") || Contains(CellText(CellAt(row, 0)), "註")
  {
    var t := CellText(CellAt(row, 0));
    if Contains(t, "備註") {
      ContainsTail(t, "備註", 1);
      assert "備註"[1..] == "註";
    }
  }

  /**
   * `dropna(how='all')` followed by the footer filter: a blank or footer row
   * is dropped, every other row is kept as often as it occurs, and
   * `DataRowsAppend` shows the kept rows stay in their order.
   */
  function DataRows(rows: seq<seq<Cell>>): (r: seq<seq<Cell>>)
    ensures |r| <= |rows|
    ensures forall x :: x in r <==> x in rows && !IsBlankRow(x) && !IsFooter(x)
    ensures forall x :: multiset(r)[x] == if IsBlankRow(x) || IsFooter(x) then 0 else multiset(rows)[x]
  {
    if rows == [] then []
    else
      assert rows == [rows[0]] + rows[1..];
      var rest := DataRows(rows[1..]);
      if IsBlankRow(rows[0]) || IsFooter(rows[0]) then rest else [rows[0]] + rest
  }

  /** The filter works row by row: filtering a sheet in two parts keeps the rows of the first part first. */
  lemma {:induction false} DataRowsAppend(a: seq<seq<Cell>>, b: seq<seq<Cell>>)
    ensures DataRows(a + b) == DataRows(a) + DataRows(b)
  {
    if a == [] {
      assert a + b == b;
    } else {
      assert (a + b)[0] == a[0] && (a + b)[1..] == a[1..] + b;
      DataRowsAppend(a[1..], b);
    }
  }

  /** A header cell's column label: its text, or `Unnamed: k` for an empty cell. */
  function ColumnLabel(c: Cell, k: nat): string {
    match c
    case Blank => "Unnamed: " + NaturalText(k)
    case Filled(t) => t
  }

  /** The column labels `read_excel` gives the header row: a cell's text, or `Unnamed: k` for an empty cell. */
  function Labels(header: seq<Cell>): (r: seq<string>)
    ensures |r| == |header|
    ensures forall k :: 0 <= k < |header| && header[k].Filled? ==> r[k] == header[k].text
    ensures forall k :: 0 <= k < |header| && header[k].Blank? ==> r[k] == "Unnamed: " + NaturalText(k)
  {
    seq(|header|, k requires 0 <= k < |header| => ColumnLabel(header[k], k))
  }

  /** A table as pandas holds it: column labels and rows of cells. */
  datatype Table = Table(columns: seq<string>, rows: seq<seq<Cell>>)

  /** The table read with `skiprows=h`: row `h` gives the labels, the rows after it the data. */
  function TableAt(sheet: seq<seq<Cell>>, h: nat): Table
    requires h < |sheet|
  {
    Table(Labels(sheet[h]), DataRows(sheet[h + 1..]))
  }

  /** The header row's 證券名稱 cell becomes a column label. */
  lemma NameColumnFound(sheet: seq<seq<Cell>>, h: nat)
    requires IsFirstHeader(sheet, h)
    ensures NameLabel in TableAt(sheet, h).columns
  {
    var k :| 0 <= k < |sheet[h]| && sheet[h][k] == Filled(NameLabel);
    assert TableAt(sheet, h).columns[k] == NameLabel;
  }

  /**
   * Today's table as `run_daily_update` builds it from the downloaded sheet;
   * the error is the exception its `try` reports.
   */
  method LoadToday(sheet: seq<seq<Cell>>) returns (r: Result<Table>)
    ensures r.Err? <==> forall k :: 0 <= k < |sheet| ==> !HasNameCell(sheet[k])
    ensures r.Ok? ==> exists h :: IsFirstHeader(sheet, h) && r.value == TableAt(sheet, h)
    ensures r.Ok? ==> NameLabel in r.value.columns
  {
    var header := FindHeaderRow(sheet);
    match header
    case Err(e) =>
      r := Err(e);
    case Ok(h) =>
      NameColumnFound(sheet, h);
      r := Ok(TableAt(sheet, h));
  }

  // ---------------------------------------------------------------------------
  // clean_numeric (991a.py:71-73)
  // ---------------------------------------------------------------------------

  /** Neither "nan" nor "0" gives anything but 0. */
  lemma NanAndZeroReadAsZero()
    ensures NumberOrZero("nan") == 0 && NumberOrZero("0") == 0
  {
    assert TrimAscii("nan") == "nan" by {
      TrimAsciiPadded([], "nan", []);
      assert [] + "nan" + [] == "nan";
    }
    assert !IsNumeral("nan") by {
      assert !IsDigit("nan"[0]) && "nan"[0] != '-' && "nan"[0] != '+';
    }
    assert IsNumeral("0") && NumeralValue("0") == 0;
    NumeralTrimmed("0");
  }

  /**
   * `clean_numeric`: commas removed, the whole value "nan" replaced by "0",
   * anything not a number read as 0. The "nan" replacement changes nothing:
   * it is the quantity coercion of 981a.py applied to the cell's text, and an
   * empty cell is 0.
   */
  function CleanNumeric(c: Cell): (n: int)
    ensures n == CoerceQuantity(CellText(c))
    ensures c.Blank? ==> n == 0
  {
    NanAndZeroReadAsZero();
    var t := RemoveCommas(CellText(c));
    if c.Blank? then
      RemoveCommasNoop("nan");
      NumberOrZero(if t == "nan" then "0" else t)
    else
      NumberOrZero(if t == "nan" then "0" else t)
  }

  // ---------------------------------------------------------------------------
  // Column choice and the merge (991a.py:90-111)
  // ---------------------------------------------------------------------------

  datatype Columns = Columns(key: string, qty: string)

  /**
   * The key is 證券代號 when today's table has it, else 證券名稱; the quantity
   * is 持股股數 when present, else the third column, an IndexError when
   * there are fewer than three.
   */
  function ChooseColumns(labels: seq<string>): (r: Result<Columns>)
    ensures r.Err? <==> SharesLabel !in labels && |labels| < 3
    ensures r.Ok? ==> (CodeLabel in labels <==> r.value.key == CodeLabel)
    ensures r.Ok? ==> r.value.key == CodeLabel || r.value.key == NameLabel
    ensures r.Ok? && SharesLabel in labels ==> r.value.qty == SharesLabel
    ensures r.Ok? && SharesLabel !in labels ==> r.value.qty == labels[2]
  {
    var key := if CodeLabel in labels then CodeLabel else NameLabel;
    if SharesLabel in labels then Ok(Columns(key, SharesLabel))
    else if |labels| > 2 then Ok(Columns(key, labels[2]))
    else Err("IndexError: index 2 is out of bounds")
  }

  /** Today's selection `df_new[[key_col, '證券名稱', qty_col]]`. */
  function TodaySelection(cols: Columns): seq<string> {
    [cols.key, NameLabel, cols.qty]
  }

  predicate Distinct(s: seq<string>) {
    forall i, j :: 0 <= i < j < |s| ==> s[i] != s[j]
  }

  /**
   * Why `compare_holdings` raises between the selection and the labelling,
   * if it does (991a.py:95-125):
   * - a selected column missing on either side (KeyError);
   * - the key label occurring twice in a selection, which `pd.merge` refuses;
   * - the quantity column being 證券名稱 itself: the merge then succeeds, but
   *   `detect_change` reads two values under one label and Python cannot
   *   take the truth value of that pair.
   */
  function MergeFailure(today: seq<string>, backup: seq<string>, cols: Columns): (r: Option<string>)
    ensures r.None? <==>
              && (forall l :: l in TodaySelection(cols) ==> l in today)
              && cols.key in backup && cols.qty in backup
              && Distinct(TodaySelection(cols))
  {
    if cols.qty !in today || cols.qty !in backup then Some("KeyError: " + cols.qty)
    else if cols.key !in today || NameLabel !in today || cols.key !in backup then Some("KeyError: " + cols.key)
    else if cols.key == NameLabel || cols.qty == cols.key then
      assert TodaySelection(cols)[0] == cols.key && TodaySelection(cols)[1] == NameLabel;
      assert TodaySelection(cols)[2] == cols.qty;
      Some("ValueError: the merge key is not unique")
    else if cols.qty == NameLabel then
      assert TodaySelection(cols)[1] == TodaySelection(cols)[2];
      Some("ValueError: the truth value of a Series is ambiguous")
    else
      assert Distinct(TodaySelection(cols)) by {
        var sel := TodaySelection(cols);
        assert sel[0] == cols.key && sel[1] == NameLabel && sel[2] == cols.qty;
      }
      None
  }

  /** The columns of the merged frame: the key, the name, and the quantity with each suffix. */
  function MergedColumns(cols: Columns): seq<string> {
    [cols.key, NameLabel, cols.qty + "_新", cols.qty + "_舊"]
  }

  /**
   * Falling back to 證券名稱 as the key always makes the merge raise:
   * today's selection then names that column twice.
   */
  lemma NameKeyFails(today: seq<string>, backup: seq<string>)
    requires CodeLabel !in today && ChooseColumns(today).Ok?
    ensures MergeFailure(today, backup, ChooseColumns(today).value).Some?
  {
  }

  /**
   * The check for '證券名稱_x' (991a.py:110) never succeeds: when the merge
   * runs, its only name column is 證券名稱 and the suffixes are _新 and _舊.
   */
  lemma NoXSuffixedName(today: seq<string>, backup: seq<string>)
    requires ChooseColumns(today).Ok?
    requires MergeFailure(today, backup, ChooseColumns(today).value).None?
    ensures "證券名稱_x" !in MergedColumns(ChooseColumns(today).value)
  {
    var cols := ChooseColumns(today).value;
    assert cols.key == CodeLabel;
    var q := cols.qty;
    assert (q + "_新")[|q + "_新"| - 1] == '新';
    assert (q + "_舊")[|q + "_舊"| - 1] == '舊';
  }

  /** The position of the first column with the label. */
  function ColumnOf(labels: seq<string>, wanted: string): (k: nat)
    requires wanted in labels
    ensures k < |labels| && labels[k] == wanted
    ensures forall i :: 0 <= i < k ==> labels[i] != wanted
  {
    if labels[0] == wanted then 0 else 1 + ColumnOf(labels[1..], wanted)
  }

  /** The text of a row's cell under a label, as `astype(str)` gives it. */
  function TextUnder(t: Table, i: nat, column: string): string
    requires i < |t.rows| && column in t.columns
  {
    CellText(CellAt(t.rows[i], ColumnOf(t.columns, column)))
  }

  /**
   * Today's side of the merge: row by row, the key text, the 證券名稱 text and
   * the quantity cleaned by `clean_numeric`, so the comparison sees the
   * coerced share count of each row.
   */
  function Side(t: Table, key: string, qty: string): (s: seq<Holding>)
    requires key in t.columns && NameLabel in t.columns && qty in t.columns
    ensures |s| == |t.rows|
    ensures forall i :: 0 <= i < |t.rows| ==>
              && s[i].code == TextUnder(t, i, key)
              && s[i].name == TextUnder(t, i, NameLabel)
              && s[i].qty == CoerceQuantity(TextUnder(t, i, qty))
  {
    var kc, nc, qc := ColumnOf(t.columns, key), ColumnOf(t.columns, NameLabel), ColumnOf(t.columns, qty);
    seq(|t.rows|, i requires 0 <= i < |t.rows| =>
      Holding(CellText(CellAt(t.rows[i], kc)), CellText(CellAt(t.rows[i], nc)),
              CleanNumeric(CellAt(t.rows[i], qc)), None))
  }

  /**
   * The backup side: row by row, the key text and the cleaned quantity. It
   * carries no name column; its rows get an empty name that is never read.
   */
  function BackupSide(t: Table, key: string, qty: string): (s: seq<Holding>)
    requires key in t.columns && qty in t.columns
    ensures |s| == |t.rows|
    ensures forall i :: 0 <= i < |t.rows| ==>
              s[i].code == TextUnder(t, i, key) && s[i].qty == CoerceQuantity(TextUnder(t, i, qty))
  {
    var kc, qc := ColumnOf(t.columns, key), ColumnOf(t.columns, qty);
    seq(|t.rows|, i requires 0 <= i < |t.rows| =>
      Holding(CellText(CellAt(t.rows[i], kc)), "", CleanNumeric(CellAt(t.rows[i], qc)), None))
  }

  // ---------------------------------------------------------------------------
  // detect_change (991a.py:113-123)
  // ---------------------------------------------------------------------------

  datatype Change = FirstBuy | SoldAll | Increase(diff: int) | Decrease(diff: int) | Unchanged

  function CategoryOf(c: Change): Category {
    match c
    case FirstBuy => New
    case SoldAll => Exited
    case Increase(_) => Increased
    case Decrease(_) => Decreased
    case Unchanged => Category.Unchanged
  }

  /**
   * First buy, then sold out, then the sign of the difference, which the
   * status carries. It agrees with the shared classification.
   */
  function DetectChange(newQty: int, oldQty: int): (c: Change)
    ensures CategoryOf(c) == Classify(oldQty, newQty)
    ensures c.Increase? ==> c.diff == newQty - oldQty && c.diff > 0
    ensures c.Decrease? ==> c.diff == newQty - oldQty && c.diff < 0
  {
    if oldQty == 0 && newQty > 0 then FirstBuy
    else if newQty == 0 && oldQty > 0 then SoldAll
    else
      var diff := newQty - oldQty;
      if diff > 0 then Increase(diff)
      else if diff < 0 then Decrease(diff)
      else Change.Unchanged
  }

  /** `format(d, '+,')`: an explicit sign and thousands separators. */
  function SignedText(d: int): string {
    if d >= 0 then "+" + Grouped(d) else "-" + Grouped(-d)
  }

  /** The signed difference in a status reads back as the difference itself. */
  lemma SignedTextReadsBack(d: int)
    ensures CoerceQuantity(SignedText(d)) == d
  {
    var n: nat := if d >= 0 then d else -d;
    var sign := if d >= 0 then "+" else "-";
    GroupedDigits(n);
    RemoveCommasAppend(sign, Grouped(n));
    RemoveCommasNoop(sign);
    var t := RemoveCommas(SignedText(d));
    assert t == sign + RemoveCommas(Grouped(n));
    assert t[1..] == RemoveCommas(Grouped(n));
    assert IsNumeral(t);
    NumeralTrimmed(t);
  }

  /** The text of the 異動狀態 column. */
  function StatusText(c: Change): (t: string)
    ensures |t| > 0
    ensures t[0] == match c
                    case FirstBuy => '🆕'
                    case SoldAll => '🚫'
                    case Increase(_) => '🔺'
                    case Decrease(_) => '🔻'
                    case Unchanged => '━'
  {
    match c
    case FirstBuy => "🆕 第一次買進"
    case SoldAll => "🚫 全部賣出"
    case Increase(d) => "🔺 增加持股 (" + SignedText(d) + ")"
    case Decrease(d) => "🔻 減少持股 (" + SignedText(d) + ")"
    case Unchanged => "━ 持股不變"
  }

  /**
   * An increase or decrease text carries the signed difference between its
   * parentheses, and that text reads back as the difference.
   */
  lemma StatusTextCarriesDiff(c: Change)
    requires c.Increase? || c.Decrease?
    ensures var t := StatusText(c);
            && |t| > 9 && t[7] == '(' && t[|t| - 1] == ')'
            && t[8..|t| - 1] == SignedText(c.diff)
            && CoerceQuantity(t[8..|t| - 1]) == c.diff
  {
    var t := StatusText(c);
    var head := if c.Increase? then "🔺 增加持股 (" else "🔻 減少持股 (";
    assert |head| == 8 && head[7] == '(';
    assert t == head + SignedText(c.diff) + ")";
    assert t[8..|t| - 1] == SignedText(c.diff);
    SignedTextReadsBack(c.diff);
  }

  /** The status text tells the change apart: two changes with the same text are the same change. */
  lemma StatusTextDistinct(c1: Change, c2: Change)
    requires StatusText(c1) == StatusText(c2)
    ensures c1 == c2
  {
    if c1.Increase? || c1.Decrease? {
      StatusTextCarriesDiff(c1);
      StatusTextCarriesDiff(c2);
    }
  }

  // ---------------------------------------------------------------------------
  // compare_holdings (991a.py:75-129)
  // ---------------------------------------------------------------------------

  /** One row of the report: 代號, 名稱 (absent for a code gone today), 昨日股數, 今日股數, 異動狀態. */
  datatype Row = Row(code: string, name: Option<string>, oldQty: int, newQty: int, change: Change)

  function MergedRow(r: Joined): Row {
    var newQty, oldQty := QtyOr0(r.left), QtyOr0(r.right);
    Row(r.code, if r.left.Some? then Some(r.left.value.name) else None, oldQty, newQty, DetectChange(newQty, oldQty))
  }

  function Tabulated(j: seq<Joined>): seq<Row> {
    seq(|j|, i requires 0 <= i < |j| => MergedRow(j[i]))
  }

  /** The rows of a comparison of today's rows with the backup's. */
  function Compared(today: seq<Holding>, backup: seq<Holding>): seq<Row> {
    Tabulated(OuterJoin(today, backup))
  }

  /** One row per code of either side. */
  lemma ComparedSize(today: seq<Holding>, backup: seq<Holding>)
    ensures |Compared(today, backup)| == |Codes(today) + Codes(backup)|
  {
  }

  /** Every code of either side has a row, and no other code does. */
  lemma ComparedCodes(today: seq<Holding>, backup: seq<Holding>, code: string)
    ensures code in Codes(today) + Codes(backup)
            <==> exists i :: 0 <= i < |Compared(today, backup)| && Compared(today, backup)[i].code == code
  {
    var j, t := OuterJoin(today, backup), Compared(today, backup);
    JoinCovers(today, backup, code);
    if code in Codes(today) + Codes(backup) {
      var i :| 0 <= i < |j| && j[i].code == code;
      assert t[i].code == code;
    }
    if i :| 0 <= i < |t| && t[i].code == code {
      assert j[i].code == code;
    }
  }

  /**
   * Quantities with 0 for a missing side, the change they call for, and a
   * name only where today's table has the code.
   */
  lemma ComparedRowMeaning(today: seq<Holding>, backup: seq<Holding>, i: nat)
    requires i < |Compared(today, backup)|
    ensures var r := Compared(today, backup)[i];
            && r.newQty == QtyOr0(Lookup(Index(today), r.code))
            && r.oldQty == QtyOr0(Lookup(Index(backup), r.code))
            && CategoryOf(r.change) == Classify(r.oldQty, r.newQty)
            && r.change == DetectChange(r.newQty, r.oldQty)
            && (r.name.Some? <==> r.code in Codes(today))
            && (r.name.Some? ==> r.name.value == Index(today)[r.code].name)
  {
    var j := OuterJoin(today, backup);
    var m := j[i];
    assert m.left == Lookup(Index(today), m.code) && m.right == Lookup(Index(backup), m.code);
    assert Compared(today, backup)[i] == MergedRow(m);
  }

  /** Comparing a side with itself reports every code unchanged. */
  lemma SelfComparisonIsUnchanged(s: seq<Holding>, i: nat)
    requires i < |Compared(s, s)|
    ensures Compared(s, s)[i].change == Change.Unchanged
  {
    ComparedRowMeaning(s, s, i);
  }

  /** The steps after the merge (991a.py:106-125): both quantities filled with 0 and the change detected. */
  method ApplyChange(merged: seq<Joined>) returns (rows: seq<Row>)
    ensures rows == Tabulated(merged)
  {
    rows := [];
    for i := 0 to |merged|
      invariant |rows| == i
      invariant forall k :: 0 <= k < i ==> rows[k] == MergedRow(merged[k])
    {
      var r := merged[i];
      var newQty, oldQty := QtyOr0(r.left), QtyOr0(r.right);
      var name := if r.left.Some? then Some(r.left.value.name) else None;
      rows := rows + [Row(r.code, name, oldQty, newQty, DetectChange(newQty, oldQty))];
    }
  }

  /** What a run of `compare_holdings` ends with. */
  datatype Report =
    | NoBackup                  // no backup yet: only today's table is rendered
    | Failed(reason: string)    // an exception, reported by `run_daily_update`
    | Comparison(rows: seq<Row>)

  /**
   * `rows` is the report of comparing `today` with `backup`: the columns can
   * be chosen, selecting and merging them raises nothing, and the rows are
   * the comparison of the two sides read through those columns.
   */
  predicate ComparesTo(today: Table, backup: Table, rows: seq<Row>) {
    && ChooseColumns(today.columns).Ok?
    && var cols := ChooseColumns(today.columns).value;
    && MergeFailure(today.columns, backup.columns, cols).None?
    && rows == Compared(Side(today, cols.key, cols.qty), BackupSide(backup, cols.key, cols.qty))
  }

  /**
   * The comparison of today's table with the latest backup, if there is one.
   * It fails exactly when the columns cannot be chosen or the selection or
   * merge raises; in particular whenever today's table lacks 證券代號.
   */
  method CompareHoldings(today: Table, backup: Option<Table>) returns (out: Report)
    ensures backup.None? <==> out.NoBackup?
    ensures backup.Some? ==>
              (out.Failed? <==>
                 || ChooseColumns(today.columns).Err?
                 || MergeFailure(today.columns, backup.value.columns, ChooseColumns(today.columns).value).Some?)
    ensures backup.Some? && CodeLabel !in today.columns ==> out.Failed?
    ensures out.Comparison? ==> backup.Some? && ComparesTo(today, backup.value, out.rows)
  {
    if backup.None? {
      return NoBackup;
    }
    var prev := backup.value;
    var chosen := ChooseColumns(today.columns);
    if chosen.Err? {
      return Failed(chosen.reason);
    }
    var cols := chosen.value;
    var failure := MergeFailure(today.columns, prev.columns, cols);
    if failure.Some? {
      if CodeLabel !in today.columns {
        NameKeyFails(today.columns, prev.columns);
      }
      return Failed(failure.value);
    }
    var newSide := Side(today, cols.key, cols.qty);
    var oldSide := BackupSide(prev, cols.key, cols.qty);
    var merged := OuterJoin(newSide, oldSide);
    var rows := ApplyChange(merged);
    out := Comparison(rows);
  }

  /**
   * The daily run: today's table from the sheet, then the comparison; a
   * sheet without a 證券名稱 row ends the run with its error.
   */
  method RunDailyUpdate(sheet: seq<seq<Cell>>, backup: Option<Table>) returns (out: Report)
    ensures (forall k :: 0 <= k < |sheet| ==> !HasNameCell(sheet[k])) ==> out.Failed?
    ensures out.NoBackup? <==> backup.None? && exists k :: 0 <= k < |sheet| && HasNameCell(sheet[k])
    ensures forall h :: IsFirstHeader(sheet, h) && backup.Some? ==>
              (out.Failed? <==>
                 || ChooseColumns(TableAt(sheet, h).columns).Err?
                 || MergeFailure(TableAt(sheet, h).columns, backup.value.columns,
                                 ChooseColumns(TableAt(sheet, h).columns).value).Some?)
    ensures out.Comparison? ==>
              backup.Some? && exists h :: IsFirstHeader(sheet, h) && ComparesTo(TableAt(sheet, h), backup.value, out.rows)
  {
    var today := LoadToday(sheet);
    if today.Err? {
      return Failed(today.reason);
    }
    out := CompareHoldings(today.value, backup);
    forall h1: nat, h2: nat | IsFirstHeader(sheet, h1) && IsFirstHeader(sheet, h2)
      ensures h1 == h2
    {
      FirstHeaderUnique(sheet, h1, h2);
    }
  }

  /** A sheet has at most one first header row. */
  lemma FirstHeaderUnique(sheet: seq<seq<Cell>>, h1: nat, h2: nat)
    requires IsFirstHeader(sheet, h1) && IsFirstHeader(sheet, h2)
    ensures h1 == h2
  {
  }
}
