/**
 * The parsing core of `fetch_comex_silver`: from an already decoded depository
 * stock report (a grid of cells) to the four aggregate inventory figures, in
 * millions of ounces. Downloading the report and decoding the workbook are left
 * to the caller; the sheet arrives as rows of cells.
 */
module Inventory {
  import opened Wrappers
  import opened Text
  import opened Rounding

  /** A decoded spreadsheet cell: empty, a number, or a piece of text. */
  datatype Cell = Blank | Num(value: real) | Str(text: string)

  type Row = seq<Cell>

  /** The first sheet of the workbook, row by row. Rows may be ragged. */
  type Sheet = seq<Row>

  /**
   * The two Python built-ins the parser applies to cell values: `str()` of a
   * float, and `float()` of a string (`None` where it raises).
   */
  datatype Builtins = Builtins(floatToStr: real -> string, strToFloat: string -> Option<real>)

  /** The header row is looked for among this many leading rows. */
  const HeaderScanRows: nat := 6

  /** The word that marks the header row. */
  const Anchor: string := "registered"

  /** The word that marks the report's own total row. */
  const TotalMarker: string := "TOTAL"

  const OuncesPerMillion: real := 1000000.0

  function Min(a: nat, b: nat): nat {
    if a <= b then a else b
  }

  /** `str(sh.cell_value(r, c))`. */
  function CellText(py: Builtins, c: Cell): string {
    match c
    case Blank => ""
    case Num(x) => py.floatToStr(x)
    case Str(s) => s
  }

  /** The cell in column `c`; a row shorter than the sheet is padded with empty cells. */
  function CellAt(row: Row, c: nat): Cell {
    if c < |row| then row[c] else Blank
  }

  /** The length of the longest of the first `n` rows. */
  function WidthOf(sheet: Sheet, n: nat): nat
    requires n <= |sheet|
    decreases n
  {
    if n == 0 then 0
    else
      var rest := WidthOf(sheet, n - 1);
      if |sheet[n - 1]| <= rest then rest else |sheet[n - 1]|
  }

  /** `sh.ncols`: the length of the longest row. */
  function Width(sheet: Sheet): nat {
    WidthOf(sheet, |sheet|)
  }

  lemma {:induction false} WidthOfBoundsRows(sheet: Sheet, n: nat)
    requires n <= |sheet|
    ensures forall r :: 0 <= r < n ==> |sheet[r]| <= WidthOf(sheet, n)
    ensures n > 0 ==> exists r :: 0 <= r < n && |sheet[r]| == WidthOf(sheet, n)
    decreases n
  {
    if n > 0 {
      WidthOfBoundsRows(sheet, n - 1);
    }
  }

  /**
   * The width is the length of the longest row: no row is longer, so padding
   * never hides a cell, and some row is exactly that long.
   */
  lemma WidthIsLongestRow(sheet: Sheet)
    ensures forall r :: 0 <= r < |sheet| ==> |sheet[r]| <= Width(sheet)
    ensures |sheet| > 0 ==> exists r :: 0 <= r < |sheet| && |sheet[r]| == Width(sheet)
  {
    WidthOfBoundsRows(sheet, |sheet|);
  }

  /** The first index at `from` or later whose flag is set: the shape of a `for` loop that breaks on a match. */
  function FirstTrue(flags: seq<bool>, from: nat): (i: Option<nat>)
    ensures i.Some? ==> from <= i.value < |flags|
    decreases |flags| - from
  {
    if from >= |flags| then None
    else if flags[from] then Some(from)
    else FirstTrue(flags, from + 1)
  }

  lemma {:induction false} FirstTrueIsFirst(flags: seq<bool>, from: nat)
    ensures FirstTrue(flags, from).None? <==> forall i :: from <= i < |flags| ==> !flags[i]
    ensures FirstTrue(flags, from).Some? ==>
      && flags[FirstTrue(flags, from).value]
      && forall i :: from <= i < FirstTrue(flags, from).value ==> !flags[i]
    decreases |flags| - from
  {
    if from < |flags| && !flags[from] {
      FirstTrueIsFirst(flags, from + 1);
    }
  }

  // ---------------------------------------------------------------------------
  // Header detection
  // ---------------------------------------------------------------------------

  /** A header cell as compared: stripped and lower-cased. */
  function HeaderText(py: Builtins, c: Cell): string {
    Lower(Strip(CellText(py, c)))
  }

  /** The header texts of the first `w` columns of a row. */
  function RowTexts(py: Builtins, row: Row, w: nat): (hdrs: seq<string>)
    ensures |hdrs| == w
    decreases w
  {
    if w == 0 then [] else RowTexts(py, row, w - 1) + [HeaderText(py, CellAt(row, w - 1))]
  }

  /** `[str(sh.cell_value(r, c)).strip().lower() for c in range(sh.ncols)]`. */
  function HeaderTexts(py: Builtins, sheet: Sheet, r: nat): (hdrs: seq<string>)
    requires r < |sheet|
    ensures |hdrs| == Width(sheet)
  {
    RowTexts(py, sheet[r], Width(sheet))
  }

  /** Python's `any(name in v for v in vals)`. */
  predicate AnyContains(vals: seq<string>, name: string)
    decreases |vals|
  {
    |vals| > 0 && (Contains(vals[0], name) || AnyContains(vals[1..], name))
  }

  predicate IsHeaderRow(py: Builtins, sheet: Sheet, r: nat)
    requires r < |sheet|
  {
    AnyContains(HeaderTexts(py, sheet, r), Anchor)
  }

  /** Which of the leading rows (at most six) are header rows. */
  function HeaderFlags(py: Builtins, sheet: Sheet): (flags: seq<bool>)
    ensures |flags| == Min(HeaderScanRows, |sheet|)
  {
    seq(Min(HeaderScanRows, |sheet|), r requires 0 <= r < Min(HeaderScanRows, |sheet|) => IsHeaderRow(py, sheet, r))
  }

  /** The header row: the first of the leading rows in which some cell contains "registered". */
  function HeaderRow(py: Builtins, sheet: Sheet): (h: Option<nat>)
    ensures h.Some? ==> h.value < Min(HeaderScanRows, |sheet|) <= HeaderScanRows
  {
    FirstTrue(HeaderFlags(py, sheet), 0)
  }

  /**
   * The header row is the first row among the leading six (or fewer) that has a
   * cell containing "registered"; there is none exactly when no such row has one.
   */
  lemma HeaderRowIsFirst(py: Builtins, sheet: Sheet)
    ensures HeaderRow(py, sheet).None? <==>
      forall r :: 0 <= r < Min(HeaderScanRows, |sheet|) ==> !IsHeaderRow(py, sheet, r)
    ensures HeaderRow(py, sheet).Some? ==>
      && IsHeaderRow(py, sheet, HeaderRow(py, sheet).value)
      && forall r :: 0 <= r < HeaderRow(py, sheet).value ==> !IsHeaderRow(py, sheet, r)
  {
    var flags := HeaderFlags(py, sheet);
    FirstTrueIsFirst(flags, 0);
    var h := FirstTrue(flags, 0);
    var bound := if h.Some? then h.value else |flags|;
    forall r | 0 <= r < bound
      ensures !IsHeaderRow(py, sheet, r)
    {
      assert !flags[r];
    }
    if h.Some? {
      assert flags[h.value];
    }
  }

  /** The header search loop of `fetch_comex_silver`, which stops at the first match. */
  method FindHeader(py: Builtins, sheet: Sheet) returns (header: Option<nat>)
    ensures header == HeaderRow(py, sheet)
  {
    header := None;
    var n := Min(HeaderScanRows, |sheet|);
    var r := 0;
    while r < n
      invariant 0 <= r <= n
      invariant FirstTrue(HeaderFlags(py, sheet), r) == HeaderRow(py, sheet)
    {
      var vals := HeaderTexts(py, sheet, r);
      if AnyContains(vals, Anchor) {
        header := Some(r);
        break;
      }
      r := r + 1;
    }
  }

  // ---------------------------------------------------------------------------
  // Column mapping
  // ---------------------------------------------------------------------------

  /** The categories whose columns are looked up in the header. */
  datatype Category = Received | Withdrawn | Registered | Eligible | Total

  /** The lower-case word that names a category's column. */
  function Keyword(k: Category): string {
    match k
    case Received => "received"
    case Withdrawn => "withdrawn"
    case Registered => "registered"
    case Eligible => "eligible"
    case Total => "total"
  }

  /** One value per category, like the `ci` and `totals` dictionaries. */
  datatype PerCategory<T> = PerCategory(received: T, withdrawn: T, registered: T, eligible: T, total: T) {
    function Get(k: Category): T {
      match k
      case Received => received
      case Withdrawn => withdrawn
      case Registered => registered
      case Eligible => eligible
      case Total => total
    }
  }

  type Columns = PerCategory<Option<nat>>

  type Totals = PerCategory<real>

  /** Which header cells contain `name`. */
  function Matches(hdrs: seq<string>, name: string): (flags: seq<bool>)
    ensures |flags| == |hdrs|
  {
    seq(|hdrs|, j requires 0 <= j < |hdrs| => Contains(hdrs[j], name))
  }

  /** `colidx(name)`: the leftmost header cell containing `name`, if any. */
  function ColumnOf(hdrs: seq<string>, name: string): (i: Option<nat>)
    ensures i.Some? ==> i.value < |hdrs|
  {
    FirstTrue(Matches(hdrs, name), 0)
  }

  /**
   * A category's column is the smallest index whose header contains the keyword,
   * and there is none exactly when no header cell contains it.
   */
  lemma ColumnOfIsFirst(hdrs: seq<string>, name: string)
    ensures ColumnOf(hdrs, name).Some? ==>
      && Contains(hdrs[ColumnOf(hdrs, name).value], name)
      && forall j :: 0 <= j < ColumnOf(hdrs, name).value ==> !Contains(hdrs[j], name)
    ensures ColumnOf(hdrs, name).None? <==>
      forall j :: 0 <= j < |hdrs| ==> !Contains(hdrs[j], name)
  {
    var flags := Matches(hdrs, name);
    FirstTrueIsFirst(flags, 0);
    var i := FirstTrue(flags, 0);
    var bound := if i.Some? then i.value else |flags|;
    forall j | 0 <= j < bound
      ensures !Contains(hdrs[j], name)
    {
      assert !flags[j];
    }
    if i.Some? {
      assert flags[i.value];
    }
  }

  /** The `ci` dictionary: each category's column. */
  function ColumnsOf(hdrs: seq<string>): Columns {
    PerCategory(
      ColumnOf(hdrs, Keyword(Received)),
      ColumnOf(hdrs, Keyword(Withdrawn)),
      ColumnOf(hdrs, Keyword(Registered)),
      ColumnOf(hdrs, Keyword(Eligible)),
      ColumnOf(hdrs, Keyword(Total)))
  }

  // ---------------------------------------------------------------------------
  // Row values and the scan over the data rows
  // ---------------------------------------------------------------------------

  /** `float(v or 0)` for a cell value `v`, and 0 where `float` raises. */
  function CellAmount(py: Builtins, c: Cell): real {
    match c
    case Blank => 0.0
    case Num(x) => x
    case Str(s) => if s == "" then 0.0 else py.strToFloat(s).GetOr(0.0)
  }

  /** `sf(idx)`: the amount in column `idx` of the row, 0 for a missing column. */
  function ColumnAmount(py: Builtins, row: Row, idx: Option<nat>): real {
    match idx
    case None => 0.0
    case Some(i) => CellAmount(py, CellAt(row, i))
  }

  /** The `sf` value of every category for one row. */
  function RowAmounts(py: Builtins, row: Row, cols: Columns): (t: Totals)
    ensures forall k :: t.Get(k) == ColumnAmount(py, row, cols.Get(k))
  {
    PerCategory(
      ColumnAmount(py, row, cols.received),
      ColumnAmount(py, row, cols.withdrawn),
      ColumnAmount(py, row, cols.registered),
      ColumnAmount(py, row, cols.eligible),
      ColumnAmount(py, row, cols.total))
  }

  const Zero: Totals := PerCategory(0.0, 0.0, 0.0, 0.0, 0.0)

  function Add(a: Totals, b: Totals): (s: Totals)
    ensures forall k :: s.Get(k) == a.Get(k) + b.Get(k)
  {
    PerCategory(a.received + b.received, a.withdrawn + b.withdrawn, a.registered + b.registered,
                a.eligible + b.eligible, a.total + b.total)
  }

  /** The depository name in the first column, stripped and upper-cased. */
  function Label(py: Builtins, row: Row): string {
    Upper(Strip(CellText(py, CellAt(row, 0))))
  }

  /** How the row loop treats a row below the header. */
  datatype RowKind = Skipped | TotalRow | Depository

  /** A blank label is skipped; a label containing "TOTAL" marks the total row. */
  function KindOf(dep: string): RowKind {
    if dep == "" then Skipped
    else if Contains(dep, TotalMarker) then TotalRow
    else Depository
  }

  function RowKindOf(py: Builtins, row: Row): RowKind {
    KindOf(Label(py, row))
  }

  /**
   * The data-row scan as a function of the rows still to come and the totals so
   * far: blank rows are skipped, the first total row replaces the totals and ends
   * the scan, every other row is added in.
   */
  function ScanRows(py: Builtins, rows: seq<Row>, cols: Columns, acc: Totals): Totals
    decreases |rows|
  {
    if rows == [] then acc
    else match RowKindOf(py, rows[0])
      case Skipped => ScanRows(py, rows[1..], cols, acc)
      case TotalRow => RowAmounts(py, rows[0], cols)
      case Depository => ScanRows(py, rows[1..], cols, Add(acc, RowAmounts(py, rows[0], cols)))
  }

  /** Some row is a total row. */
  predicate HasTotalRow(py: Builtins, rows: seq<Row>)
    decreases |rows|
  {
    rows != [] && (RowKindOf(py, rows[0]) == TotalRow || HasTotalRow(py, rows[1..]))
  }

  /** `kinds` lists how the row loop classifies each row of `sheet`. */
  predicate KindsOf(py: Builtins, sheet: Sheet, kinds: seq<RowKind>) {
    |kinds| == |sheet|
    && forall r {:trigger RowKindOf(py, sheet[r])} :: 0 <= r < |sheet| ==> kinds[r] == RowKindOf(py, sheet[r])
  }

  lemma ClassifyAll(py: Builtins, sheet: Sheet) returns (kinds: seq<RowKind>)
    ensures KindsOf(py, sheet, kinds)
  {
    kinds := seq(|sheet|, r requires 0 <= r < |sheet| => RowKindOf(py, sheet[r]));
  }

  /** `ScanRows` over the rows from index `r` on, counted by index, with the row kinds given. */
  function ScanFrom(py: Builtins, sheet: Sheet, kinds: seq<RowKind>, r: nat, cols: Columns, acc: Totals): Totals
    requires |kinds| == |sheet| && r <= |sheet|
    decreases |sheet| - r
  {
    if r == |sheet| then acc
    else match kinds[r]
      case Skipped => ScanFrom(py, sheet, kinds, r + 1, cols, acc)
      case TotalRow => RowAmounts(py, sheet[r], cols)
      case Depository => ScanFrom(py, sheet, kinds, r + 1, cols, Add(acc, RowAmounts(py, sheet[r], cols)))
  }

  /** `HasTotalRow` over the kinds from index `r` on. */
  predicate TotalFrom(kinds: seq<RowKind>, r: nat)
    requires r <= |kinds|
    decreases |kinds| - r
  {
    r < |kinds| && (kinds[r] == TotalRow || TotalFrom(kinds, r + 1))
  }

  lemma {:induction false} ScanFromIsScanRows(py: Builtins, sheet: Sheet, kinds: seq<RowKind>, r: nat, cols: Columns, acc: Totals)
    requires KindsOf(py, sheet, kinds) && r <= |sheet|
    ensures ScanFrom(py, sheet, kinds, r, cols, acc) == ScanRows(py, sheet[r..], cols, acc)
    ensures TotalFrom(kinds, r) == HasTotalRow(py, sheet[r..])
    decreases |sheet| - r
  {
    if r < |sheet| {
      assert sheet[r..][0] == sheet[r];
      assert sheet[r..][1..] == sheet[r + 1..];
      assert kinds[r] == RowKindOf(py, sheet[r]);
      ScanFromIsScanRows(py, sheet, kinds, r + 1, cols, acc);
      ScanFromIsScanRows(py, sheet, kinds, r + 1, cols, Add(acc, RowAmounts(py, sheet[r], cols)));
    } else {
      assert sheet[r..] == [];
    }
  }

  /**
   * The label tests at the top of the row loop: a blank label skips the row, one
   * containing "TOTAL" ends the scan. This is the executable form of `RowKindOf`;
   * `SumRows` calls it so that its own proof reasons about the row kind alone,
   * never about how the label is built.
   */
  method ClassifyRow(py: Builtins, row: Row) returns (kind: RowKind)
    ensures kind == RowKindOf(py, row)
  {
    var dep := Label(py, row);
    if dep == "" {
      kind := Skipped;
    } else if Contains(dep, TotalMarker) {
      kind := TotalRow;
    } else {
      kind := Depository;
    }
  }

  /**
   * The row loop of `fetch_comex_silver`: accumulates the rows below the header
   * until the first total row, whose values replace the running totals.
   * `foundTotal` is the `found_total_row` flag.
   */
  method SumRows(py: Builtins, sheet: Sheet, header: nat, cols: Columns)
    returns (totals: Totals, foundTotal: bool)
    requires header < |sheet|
    ensures totals == ScanRows(py, sheet[header + 1..], cols, Zero)
    ensures foundTotal <==> HasTotalRow(py, sheet[header + 1..])
  {
    ghost var kinds := ClassifyAll(py, sheet);
    ghost var goal := ScanFrom(py, sheet, kinds, header + 1, cols, Zero);
    ghost var hasTotal := TotalFrom(kinds, header + 1);
    totals := Zero;
    foundTotal := false;
    var r := header + 1;
    while r < |sheet|
      invariant header + 1 <= r <= |sheet|
      invariant ScanFrom(py, sheet, kinds, r, cols, totals) == goal
      invariant TotalFrom(kinds, r) == hasTotal
      invariant !foundTotal
    {
      var kind := ClassifyRow(py, sheet[r]);
      if kind == TotalRow {
        totals := RowAmounts(py, sheet[r], cols);
        foundTotal := true;
        break;
      } else if kind == Depository {
        totals := Add(totals, RowAmounts(py, sheet[r], cols));
      }
      r := r + 1;
    }
    ScanFromIsScanRows(py, sheet, kinds, header + 1, cols, Zero);
  }

  // ---------------------------------------------------------------------------
  // What the scan computes
  // ---------------------------------------------------------------------------

  /** The sum of one column over the depository rows, independently of the scan. */
  function DepositorySum(py: Builtins, rows: seq<Row>, idx: Option<nat>): real
    decreases |rows|
  {
    if rows == [] then 0.0
    else
      (if RowKindOf(py, rows[0]) == Depository then ColumnAmount(py, rows[0], idx) else 0.0)
        + DepositorySum(py, rows[1..], idx)
  }

  /**
   * A cell that is empty, holds the empty string, or holds text `float`
   * rejects adds exactly nothing to its column's sum, wherever its row stands.
   */
  lemma {:induction false} UnreadableCellAddsNothing(py: Builtins, pre: seq<Row>, row: Row, post: seq<Row>, i: nat)
    requires CellAt(row, i).Blank? || CellAt(row, i) == Str("")
      || (CellAt(row, i).Str? && py.strToFloat(CellAt(row, i).text).None?)
    ensures DepositorySum(py, pre + [row] + post, Some(i)) == DepositorySum(py, pre + post, Some(i))
    decreases |pre|
  {
    if pre == [] {
      assert pre + [row] + post == [row] + post && pre + post == post;
      assert ([row] + post)[0] == row && ([row] + post)[1..] == post;
    } else {
      assert (pre + [row] + post)[0] == pre[0] && (pre + post)[0] == pre[0];
      assert (pre + [row] + post)[1..] == pre[1..] + [row] + post;
      assert (pre + post)[1..] == pre[1..] + post;
      UnreadableCellAddsNothing(py, pre[1..], row, post, i);
    }
  }

  /**
   * Without a total row the scan adds up, column by column, exactly the rows
   * with a non-blank label.
   */
  lemma {:induction false} ScanWithoutTotalIsSum(py: Builtins, rows: seq<Row>, cols: Columns, acc: Totals, k: Category)
    requires !HasTotalRow(py, rows)
    ensures ScanRows(py, rows, cols, acc).Get(k) == acc.Get(k) + DepositorySum(py, rows, cols.Get(k))
    decreases |rows|
  {
    if rows != [] {
      if RowKindOf(py, rows[0]) == Skipped {
        ScanWithoutTotalIsSum(py, rows[1..], cols, acc, k);
      } else {
        ScanWithoutTotalIsSum(py, rows[1..], cols, Add(acc, RowAmounts(py, rows[0], cols)), k);
      }
    }
  }

  /**
   * The first total row decides the result: its own values, whatever the rows
   * above it added up to and whatever follows it.
   */
  lemma {:induction false} FirstTotalRowWins(py: Builtins, rows: seq<Row>, i: nat, cols: Columns, acc: Totals)
    requires i < |rows| && RowKindOf(py, rows[i]) == TotalRow
    requires !HasTotalRow(py, rows[..i])
    ensures ScanRows(py, rows, cols, acc) == RowAmounts(py, rows[i], cols)
    decreases i
  {
    if i > 0 {
      assert rows[..i][0] == rows[0];
      assert rows[..i][1..] == rows[1..][..i - 1];
      var next := if RowKindOf(py, rows[0]) == Depository then Add(acc, RowAmounts(py, rows[0], cols)) else acc;
      FirstTotalRowWins(py, rows[1..], i - 1, cols, next);
    }
  }

  /** A row with a blank label changes nothing, wherever it stands. */
  lemma {:induction false} BlankRowIgnored(py: Builtins, pre: seq<Row>, row: Row, post: seq<Row>, cols: Columns, acc: Totals)
    requires RowKindOf(py, row) == Skipped
    ensures ScanRows(py, pre + [row] + post, cols, acc) == ScanRows(py, pre + post, cols, acc)
    decreases |pre|
  {
    if pre == [] {
      assert ([row] + post)[1..] == post;
      assert pre + [row] + post == [row] + post;
      assert pre + post == post;
    } else {
      assert (pre + [row] + post)[0] == pre[0] && (pre + post)[0] == pre[0];
      assert (pre + [row] + post)[1..] == pre[1..] + [row] + post;
      assert (pre + post)[1..] == pre[1..] + post;
      var next := if RowKindOf(py, pre[0]) == Depository then Add(acc, RowAmounts(py, pre[0], cols)) else acc;
      BlankRowIgnored(py, pre[1..], row, post, cols, next);
    }
  }

  /** Two depository rows next to each other may be swapped without changing the totals. */
  lemma {:induction false} DepositoryRowsCommute(py: Builtins, pre: seq<Row>, a: Row, b: Row, post: seq<Row>,
                                                 cols: Columns, acc: Totals)
    requires RowKindOf(py, a) == Depository && RowKindOf(py, b) == Depository
    ensures ScanRows(py, pre + [a, b] + post, cols, acc) == ScanRows(py, pre + [b, a] + post, cols, acc)
    decreases |pre|
  {
    if pre == [] {
      assert ([a, b] + post)[0] == a && ([a, b] + post)[1..] == [b] + post;
      assert ([b, a] + post)[0] == b && ([b, a] + post)[1..] == [a] + post;
      assert ([b] + post)[1..] == post && ([a] + post)[1..] == post;
      assert pre + [a, b] + post == [a, b] + post && pre + [b, a] + post == [b, a] + post;
      var ra, rb := RowAmounts(py, a, cols), RowAmounts(py, b, cols);
      assert Add(Add(acc, ra), rb) == Add(Add(acc, rb), ra);
    } else {
      assert (pre + [a, b] + post)[0] == pre[0] && (pre + [b, a] + post)[0] == pre[0];
      assert (pre + [a, b] + post)[1..] == pre[1..] + [a, b] + post;
      assert (pre + [b, a] + post)[1..] == pre[1..] + [b, a] + post;
      var next := if RowKindOf(py, pre[0]) == Depository then Add(acc, RowAmounts(py, pre[0], cols)) else acc;
      if RowKindOf(py, pre[0]) != TotalRow {
        DepositoryRowsCommute(py, pre[1..], a, b, post, cols, next);
      }
    }
  }

  /** A category whose keyword appears in no header cell always totals zero. */
  lemma {:induction false} MissingColumnIsZero(py: Builtins, rows: seq<Row>, cols: Columns, acc: Totals, k: Category)
    requires cols.Get(k).None? && acc.Get(k) == 0.0
    ensures ScanRows(py, rows, cols, acc).Get(k) == 0.0
    decreases |rows|
  {
    if rows != [] && RowKindOf(py, rows[0]) != TotalRow {
      var next := if RowKindOf(py, rows[0]) == Depository then Add(acc, RowAmounts(py, rows[0], cols)) else acc;
      MissingColumnIsZero(py, rows[1..], cols, next, k);
    }
  }

  // ---------------------------------------------------------------------------
  // Unit conversion and the whole parse
  // ---------------------------------------------------------------------------

  /** The figures `fetch_comex_silver` reports, in millions of ounces. */
  datatype InventoryReport = InventoryReport(registered: real, eligible: real, received: real, withdrawn: real)

  /** `moz`: ounces to millions of ounces, to three decimals. */
  function Millions(oz: real): real {
    RoundTo(oz / OuncesPerMillion, 3)
  }

  function ToReport(t: Totals): InventoryReport {
    InventoryReport(Millions(t.registered), Millions(t.eligible), Millions(t.received), Millions(t.withdrawn))
  }

  /** The figures read from the rows below header row `h`, with columns taken from that row. */
  function ReportBelow(py: Builtins, sheet: Sheet, h: nat): InventoryReport
    requires h < |sheet|
  {
    var cols := ColumnsOf(HeaderTexts(py, sheet, h));
    ToReport(ScanRows(py, sheet[h + 1..], cols, Zero))
  }

  /** What `fetch_comex_silver` returns for a decoded sheet: `None` when there is no header row. */
  function Parse(py: Builtins, sheet: Sheet): Option<InventoryReport> {
    match HeaderRow(py, sheet)
    case None => None
    case Some(h) => Some(ReportBelow(py, sheet, h))
  }

  /** The body of `fetch_comex_silver` after the workbook has been decoded. */
  method ParseReport(py: Builtins, sheet: Sheet) returns (report: Option<InventoryReport>)
    ensures report == Parse(py, sheet)
    ensures report.None? <==>
      forall r :: 0 <= r < Min(HeaderScanRows, |sheet|) ==> !IsHeaderRow(py, sheet, r)
  {
    var header := FindHeader(py, sheet);
    match header {
    case None =>
      report := None;
    case Some(h) =>
      var hdrs := HeaderTexts(py, sheet, h);
      var cols := ColumnsOf(hdrs);
      var totals, _ := SumRows(py, sheet, h, cols);
      report := Some(ToReport(totals));
    }
    ParseFailsIffNoHeader(py, sheet);
  }

  /** `moz` is within half a thousandth of the exact number of millions. */
  lemma MillionsError(oz: real)
    ensures -0.0005 <= Millions(oz) - oz / OuncesPerMillion <= 0.0005
  {
    RoundToError(oz / OuncesPerMillion, 3);
    assert Unshift(0.5, 3) == 0.0005;
  }

  /** Amounts with at most three decimals of millions come out exactly. */
  lemma MillionsExamples()
    ensures Millions(84200000.0) == 84.2
    ensures Millions(312500000.0) == 312.5
    ensures Millions(0.0) == 0.0
  {
    assert Shift(84.2, 3) == 84200.0;
    RoundToExact(84.2, 3);
    assert Shift(312.5, 3) == 312500.0;
    RoundToExact(312.5, 3);
    RoundToZero(3);
  }

  /** The parse fails exactly when none of the leading rows is a header row. */
  lemma ParseFailsIffNoHeader(py: Builtins, sheet: Sheet)
    ensures Parse(py, sheet).None? <==>
      forall r :: 0 <= r < Min(HeaderScanRows, |sheet|) ==> !IsHeaderRow(py, sheet, r)
  {
    HeaderRowIsFirst(py, sheet);
  }

  /**
   * With no total row below the header, each reported figure is the rounded
   * sum of its column over the depository rows.
   */
  lemma ReportSumsDepositories(py: Builtins, rows: seq<Row>, cols: Columns)
    requires !HasTotalRow(py, rows)
    ensures ToReport(ScanRows(py, rows, cols, Zero)) == InventoryReport(
      Millions(DepositorySum(py, rows, cols.registered)),
      Millions(DepositorySum(py, rows, cols.eligible)),
      Millions(DepositorySum(py, rows, cols.received)),
      Millions(DepositorySum(py, rows, cols.withdrawn)))
  {
    ScanWithoutTotalIsSum(py, rows, cols, Zero, Registered);
    ScanWithoutTotalIsSum(py, rows, cols, Zero, Eligible);
    ScanWithoutTotalIsSum(py, rows, cols, Zero, Received);
    ScanWithoutTotalIsSum(py, rows, cols, Zero, Withdrawn);
  }
}
