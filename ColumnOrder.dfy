/**
 * The physical order of the category columns does not matter to
 * `fetch_comex_silver`: the columns are found by the keywords in the header
 * row, not by position. Moving the columns of a rectangular sheet around,
 * with the depository names staying in the first column, leaves the reported
 * figures unchanged, provided each reported category's keyword occurs in a
 * single header cell (otherwise the leftmost such cell wins, and moving the
 * columns can change which one that is).
 */
module ColumnOrder {
  import opened Wrappers
  import opened Text
  import opened Inventory

  /** Every row has exactly `w` cells. */
  predicate Rectangular(sheet: Sheet, w: nat) {
    forall r :: 0 <= r < |sheet| ==> |sheet[r]| == w
  }

  /**
   * `perm` and `inv` are mutually inverse permutations of the column indices,
   * and the first column, which holds the depository names, stays in place.
   */
  predicate IsColumnPermutation(perm: seq<nat>, inv: seq<nat>) {
    && |perm| == |inv|
    && (forall c :: 0 <= c < |perm| ==> perm[c] < |inv| && inv[perm[c]] == c)
    && (forall c :: 0 <= c < |inv| ==> inv[c] < |perm| && perm[inv[c]] == c)
    && (|perm| > 0 ==> perm[0] == 0)
  }

  /** The row with its columns rearranged: new column `c` holds old column `perm[c]`. */
  function PermuteRow(row: Row, perm: seq<nat>): (moved: Row)
    ensures |moved| == |perm|
  {
    seq(|perm|, c requires 0 <= c < |perm| => CellAt(row, perm[c]))
  }

  /** The sheet with the columns of every row rearranged by `perm`. */
  function PermuteSheet(sheet: Sheet, perm: seq<nat>): (moved: Sheet)
    ensures |moved| == |sheet|
  {
    seq(|sheet|, r requires 0 <= r < |sheet| => PermuteRow(sheet[r], perm))
  }

  /** At most one header cell contains `name`. */
  predicate UniqueMatch(hdrs: seq<string>, name: string) {
    forall i, j :: 0 <= i < |hdrs| && 0 <= j < |hdrs| && Contains(hdrs[i], name) && Contains(hdrs[j], name) ==> i == j
  }

  /** The keywords of the four reported categories each occur in at most one header cell. */
  predicate ReportedKeywordsUnique(hdrs: seq<string>) {
    && UniqueMatch(hdrs, Keyword(Registered))
    && UniqueMatch(hdrs, Keyword(Eligible))
    && UniqueMatch(hdrs, Keyword(Received))
    && UniqueMatch(hdrs, Keyword(Withdrawn))
  }

  /** `moved` lists the header texts of `hdrs` in the order `perm` gives. */
  predicate PermutedTexts(moved: seq<string>, hdrs: seq<string>, perm: seq<nat>) {
    |moved| == |perm| && forall c :: 0 <= c < |perm| ==> perm[c] < |hdrs| && moved[c] == hdrs[perm[c]]
  }

  /** Column `moved` of the rearranged sheet is column `idx` of the original one. */
  predicate SameColumn(moved: Option<nat>, idx: Option<nat>, perm: seq<nat>) {
    && (moved.None? <==> idx.None?)
    && (moved.Some? ==> moved.value < |perm| && perm[moved.value] == idx.value)
  }

  /** Every reported category's column of the rearranged header is its column of the original header. */
  predicate SameReportedColumns(moved: Columns, cols: Columns, perm: seq<nat>) {
    && SameColumn(moved.registered, cols.registered, perm)
    && SameColumn(moved.eligible, cols.eligible, perm)
    && SameColumn(moved.received, cols.received, perm)
    && SameColumn(moved.withdrawn, cols.withdrawn, perm)
  }

  /** Two sets of totals agree on the four reported categories. */
  predicate AgreeReported(a: Totals, b: Totals) {
    a.registered == b.registered && a.eligible == b.eligible && a.received == b.received && a.withdrawn == b.withdrawn
  }

  /** Row by row, the same kind of row and the same reported amounts. */
  predicate SameRows(py: Builtins, moved: seq<Row>, mcols: Columns, rows: seq<Row>, cols: Columns) {
    && |moved| == |rows|
    && forall i :: 0 <= i < |rows| ==>
         && RowKindOf(py, moved[i]) == RowKindOf(py, rows[i])
         && AgreeReported(RowAmounts(py, moved[i], mcols), RowAmounts(py, rows[i], cols))
  }

  // ---------------------------------------------------------------------------
  // The header row
  // ---------------------------------------------------------------------------

  lemma {:induction false} WidthOfRectangular(sheet: Sheet, w: nat, n: nat)
    requires Rectangular(sheet, w) && n <= |sheet|
    ensures WidthOf(sheet, n) == if n == 0 then 0 else w
    decreases n
  {
    if n > 0 {
      WidthOfRectangular(sheet, w, n - 1);
    }
  }

  lemma {:induction false} RowTextsAt(py: Builtins, row: Row, w: nat, c: nat)
    requires c < w
    ensures RowTexts(py, row, w)[c] == HeaderText(py, CellAt(row, c))
    decreases w
  {
    if c < w - 1 {
      RowTextsAt(py, row, w - 1, c);
    }
  }

  lemma PermuteSheetRectangular(sheet: Sheet, perm: seq<nat>)
    ensures Rectangular(PermuteSheet(sheet, perm), |perm|)
  {
    var moved := PermuteSheet(sheet, perm);
    forall r | 0 <= r < |moved|
      ensures |moved[r]| == |perm|
    {
      assert moved[r] == PermuteRow(sheet[r], perm);
    }
  }

  /** Each row of the rearranged sheet has the header texts of the original row, rearranged. */
  lemma HeaderTextsPermuted(py: Builtins, sheet: Sheet, w: nat, perm: seq<nat>, r: nat)
    requires Rectangular(sheet, w) && |perm| == w && r < |sheet|
    requires forall c :: 0 <= c < |perm| ==> perm[c] < w
    ensures |HeaderTexts(py, sheet, r)| == w
    ensures PermutedTexts(HeaderTexts(py, PermuteSheet(sheet, perm), r), HeaderTexts(py, sheet, r), perm)
  {
    var moved := PermuteSheet(sheet, perm);
    PermuteSheetRectangular(sheet, perm);
    WidthOfRectangular(sheet, w, |sheet|);
    WidthOfRectangular(moved, w, |moved|);
    var mhdrs, hdrs := HeaderTexts(py, moved, r), HeaderTexts(py, sheet, r);
    forall c | 0 <= c < w
      ensures mhdrs[c] == hdrs[perm[c]]
    {
      RowTextsAt(py, moved[r], w, c);
      RowTextsAt(py, sheet[r], w, perm[c]);
      assert moved[r] == PermuteRow(sheet[r], perm);
      assert CellAt(moved[r], c) == CellAt(sheet[r], perm[c]);
    }
  }

  /** `any(name in v for v in vals)` holds exactly when some cell contains `name`. */
  lemma {:induction false} AnyContainsExists(vals: seq<string>, name: string)
    ensures AnyContains(vals, name) <==> exists i :: 0 <= i < |vals| && Contains(vals[i], name)
    decreases |vals|
  {
    if |vals| > 0 {
      AnyContainsExists(vals[1..], name);
      if AnyContains(vals[1..], name) {
        var i :| 0 <= i < |vals[1..]| && Contains(vals[1..][i], name);
        assert Contains(vals[i + 1], name);
      }
      forall i | 1 <= i < |vals| && Contains(vals[i], name)
        ensures AnyContains(vals[1..], name)
      {
        assert vals[1..][i - 1] == vals[i];
      }
    }
  }

  /** Rearranging the header cells does not change whether one of them contains `name`. */
  lemma AnyContainsPermuted(moved: seq<string>, hdrs: seq<string>, perm: seq<nat>, inv: seq<nat>, name: string)
    requires IsColumnPermutation(perm, inv) && |hdrs| == |perm| && PermutedTexts(moved, hdrs, perm)
    ensures AnyContains(moved, name) <==> AnyContains(hdrs, name)
  {
    AnyContainsExists(moved, name);
    AnyContainsExists(hdrs, name);
    if AnyContains(hdrs, name) {
      var i :| 0 <= i < |hdrs| && Contains(hdrs[i], name);
      assert moved[inv[i]] == hdrs[i];
    }
    if AnyContains(moved, name) {
      var c :| 0 <= c < |moved| && Contains(moved[c], name);
      assert Contains(hdrs[perm[c]], name);
    }
  }

  /** The rearranged sheet has its header in the same row. */
  lemma HeaderRowPermuted(py: Builtins, sheet: Sheet, w: nat, perm: seq<nat>, inv: seq<nat>)
    requires Rectangular(sheet, w) && |perm| == w && IsColumnPermutation(perm, inv)
    ensures HeaderRow(py, PermuteSheet(sheet, perm)) == HeaderRow(py, sheet)
  {
    var moved := PermuteSheet(sheet, perm);
    var mflags, flags := HeaderFlags(py, moved), HeaderFlags(py, sheet);
    forall r | 0 <= r < |flags|
      ensures mflags[r] == flags[r]
    {
      HeaderTextsPermuted(py, sheet, w, perm, r);
      AnyContainsPermuted(HeaderTexts(py, moved, r), HeaderTexts(py, sheet, r), perm, inv, Anchor);
    }
    assert mflags == flags;
  }

  // ---------------------------------------------------------------------------
  // The columns and the rows below the header
  // ---------------------------------------------------------------------------

  /** A keyword found in a single header cell is found in that same cell after the move. */
  lemma ColumnPermuted(moved: seq<string>, hdrs: seq<string>, perm: seq<nat>, inv: seq<nat>, name: string)
    requires IsColumnPermutation(perm, inv) && |hdrs| == |perm| && PermutedTexts(moved, hdrs, perm)
    requires UniqueMatch(hdrs, name)
    ensures SameColumn(ColumnOf(moved, name), ColumnOf(hdrs, name), perm)
  {
    ColumnOfIsFirst(moved, name);
    ColumnOfIsFirst(hdrs, name);
    match ColumnOf(hdrs, name) {
      case None =>
        forall c | 0 <= c < |moved|
          ensures !Contains(moved[c], name)
        {
          assert moved[c] == hdrs[perm[c]];
        }
      case Some(i) =>
        assert moved[inv[i]] == hdrs[i];
        var c := ColumnOf(moved, name).value;
        assert Contains(hdrs[perm[c]], name);
    }
  }

  lemma ColumnsPermuted(moved: seq<string>, hdrs: seq<string>, perm: seq<nat>, inv: seq<nat>)
    requires IsColumnPermutation(perm, inv) && |hdrs| == |perm| && PermutedTexts(moved, hdrs, perm)
    requires ReportedKeywordsUnique(hdrs)
    ensures SameReportedColumns(ColumnsOf(moved), ColumnsOf(hdrs), perm)
  {
    ColumnPermuted(moved, hdrs, perm, inv, Keyword(Registered));
    ColumnPermuted(moved, hdrs, perm, inv, Keyword(Eligible));
    ColumnPermuted(moved, hdrs, perm, inv, Keyword(Received));
    ColumnPermuted(moved, hdrs, perm, inv, Keyword(Withdrawn));
  }

  /** A rearranged row has the same label and the same reported amounts. */
  lemma RowPermuted(py: Builtins, row: Row, perm: seq<nat>, inv: seq<nat>, mcols: Columns, cols: Columns)
    requires IsColumnPermutation(perm, inv) && |row| == |perm|
    requires SameReportedColumns(mcols, cols, perm)
    ensures RowKindOf(py, PermuteRow(row, perm)) == RowKindOf(py, row)
    ensures AgreeReported(RowAmounts(py, PermuteRow(row, perm), mcols), RowAmounts(py, row, cols))
  {
    var moved := PermuteRow(row, perm);
    assert CellAt(moved, 0) == CellAt(row, 0);
    forall c | 0 <= c < |perm|
      ensures CellAt(moved, c) == CellAt(row, perm[c])
    {
    }
  }

  lemma RowsPermuted(py: Builtins, sheet: Sheet, w: nat, perm: seq<nat>, inv: seq<nat>,
                     mcols: Columns, cols: Columns, from: nat)
    requires Rectangular(sheet, w) && |perm| == w && IsColumnPermutation(perm, inv)
    requires SameReportedColumns(mcols, cols, perm) && from <= |sheet|
    ensures SameRows(py, PermuteSheet(sheet, perm)[from..], mcols, sheet[from..], cols)
  {
    var moved := PermuteSheet(sheet, perm);
    forall i | 0 <= i < |sheet| - from
      ensures RowKindOf(py, moved[from..][i]) == RowKindOf(py, sheet[from..][i])
      ensures AgreeReported(RowAmounts(py, moved[from..][i], mcols), RowAmounts(py, sheet[from..][i], cols))
    {
      assert moved[from..][i] == PermuteRow(sheet[from + i], perm);
      assert sheet[from..][i] == sheet[from + i];
      RowPermuted(py, sheet[from + i], perm, inv, mcols, cols);
    }
  }

  /** Scanning rows that agree row by row gives totals that agree. */
  lemma {:induction false} ScanRowsCongruent(py: Builtins, moved: seq<Row>, mcols: Columns, macc: Totals,
                                             rows: seq<Row>, cols: Columns, acc: Totals)
    requires SameRows(py, moved, mcols, rows, cols) && AgreeReported(macc, acc)
    ensures AgreeReported(ScanRows(py, moved, mcols, macc), ScanRows(py, rows, cols, acc))
    decreases |rows|
  {
    if rows != [] {
      assert RowKindOf(py, moved[0]) == RowKindOf(py, rows[0]);
      assert AgreeReported(RowAmounts(py, moved[0], mcols), RowAmounts(py, rows[0], cols));
      forall i | 0 <= i < |rows| - 1
        ensures RowKindOf(py, moved[1..][i]) == RowKindOf(py, rows[1..][i])
        ensures AgreeReported(RowAmounts(py, moved[1..][i], mcols), RowAmounts(py, rows[1..][i], cols))
      {
        assert moved[1..][i] == moved[i + 1] && rows[1..][i] == rows[i + 1];
      }
      match RowKindOf(py, rows[0]) {
        case Skipped =>
          ScanRowsCongruent(py, moved[1..], mcols, macc, rows[1..], cols, acc);
        case TotalRow =>
        case Depository =>
          ScanRowsCongruent(py, moved[1..], mcols, Add(macc, RowAmounts(py, moved[0], mcols)),
                            rows[1..], cols, Add(acc, RowAmounts(py, rows[0], cols)));
      }
    }
  }

  /**
   * Rearranging the columns of a rectangular sheet, the first column staying
   * first, leaves the parse result unchanged when each reported category's
   * keyword is found in a single header cell.
   */
  lemma ColumnOrderIrrelevant(py: Builtins, sheet: Sheet, w: nat, perm: seq<nat>, inv: seq<nat>)
    requires Rectangular(sheet, w) && |perm| == w && IsColumnPermutation(perm, inv)
    requires HeaderRow(py, sheet).Some? ==>
      ReportedKeywordsUnique(HeaderTexts(py, sheet, HeaderRow(py, sheet).value))
    ensures Parse(py, PermuteSheet(sheet, perm)) == Parse(py, sheet)
  {
    var moved := PermuteSheet(sheet, perm);
    HeaderRowPermuted(py, sheet, w, perm, inv);
    match HeaderRow(py, sheet) {
      case None =>
      case Some(h) =>
        var hdrs, mhdrs := HeaderTexts(py, sheet, h), HeaderTexts(py, moved, h);
        HeaderTextsPermuted(py, sheet, w, perm, h);
        var cols, mcols := ColumnsOf(hdrs), ColumnsOf(mhdrs);
        ColumnsPermuted(mhdrs, hdrs, perm, inv);
        RowsPermuted(py, sheet, w, perm, inv, mcols, cols, h + 1);
        ScanRowsCongruent(py, moved[h + 1..], mcols, Zero, sheet[h + 1..], cols, Zero);
    }
  }
}
