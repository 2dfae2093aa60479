/**
 * `extractFundamentalsFromSheet`: scan a downloaded fundamentals sheet for the
 * dividend-yield and P/E rows. Rows are matched on their lower-cased text; a later
 * matching row overwrites the value of an earlier one, and every match is listed.
 */
module FundamentalsSheet {
  import opened Wrappers
  import opened Text
  import opened Cells
  import opened NumericValue

  /** A row of the sheet: `sheet_to_json` may hand over something that is not an array. */
  datatype SheetRow = NotArray | Row(cells: seq<Cell>)

  datatype RowKind = Dividend | Pe

  /** An entry of `foundRows`: which metric, the row index and the row itself. */
  datatype FoundRow = FoundRow(kind: RowKind, row: nat, data: seq<Cell>)

  datatype SheetFundamentals = SheetFundamentals(dividendYield: Option<real>, peRatio: Option<real>, foundRows: seq<FoundRow>)

  /** `String(cell || '')`. */
  function CellText(c: Cell): string { if Truthy(c) then ToJsString(c) else "" }

  /** The row's cells joined with spaces and lower-cased. */
  function RowText(cells: seq<Cell>): string {
    ToLower(Join(seq(|cells|, k requires 0 <= k < |cells| => CellText(cells[k])), " "))
  }

  predicate MentionsDividend(t: string) {
    Contains(t, "周息率") || Contains(t, "股息率") || Contains(t, "dividend yield")
  }

  predicate MentionsPe(t: string) {
    Contains(t, "市盈率") || Contains(t, "p/e") || Contains(t, "pe ratio")
  }

  /** The dividend yield a row contributes: the row mentions it and one of its cells reads as a number. */
  function DividendValue(r: SheetRow): (v: Option<real>)
    ensures v.Some? ==> r.Row?
  {
    if r.Row? && MentionsDividend(RowText(r.cells)) then ExtractNumericValue(r.cells) else None
  }

  function PeValue(r: SheetRow): (v: Option<real>)
    ensures v.Some? ==> r.Row?
  {
    if r.Row? && MentionsPe(RowText(r.cells)) then ExtractNumericValue(r.cells) else None
  }

  /** What the two keyword tests make of one row. */
  datatype RowReading = RowReading(dividend: Option<real>, pe: Option<real>, cells: seq<Cell>)

  function Reading(r: SheetRow): RowReading {
    RowReading(DividendValue(r), PeValue(r), if r.Row? then r.cells else [])
  }

  function Readings(rows: seq<SheetRow>): (rs: seq<RowReading>)
    ensures |rs| == |rows|
  {
    seq(|rows|, k requires 0 <= k < |rows| => Reading(rows[k]))
  }

  const Empty := SheetFundamentals(None, None, [])

  /** What one row does to the accumulated fundamentals: the dividend test first, then the P/E test. */
  function ScanRow(acc: SheetFundamentals, rd: RowReading, i: nat): SheetFundamentals {
    var afterDividend :=
      if rd.dividend.Some? then
        acc.(dividendYield := rd.dividend, foundRows := acc.foundRows + [FoundRow(Dividend, i, rd.cells)])
      else acc;
    if rd.pe.Some? then
      afterDividend.(peRatio := rd.pe, foundRows := afterDividend.foundRows + [FoundRow(Pe, i, rd.cells)])
    else afterDividend
  }

  /** The fundamentals after the first `n` rows. */
  function ScanUpTo(rs: seq<RowReading>, n: nat): SheetFundamentals
    requires n <= |rs|
  {
    if n == 0 then Empty else ScanRow(ScanUpTo(rs, n - 1), rs[n - 1], n - 1)
  }

  /** The result of the whole scan: `null` when no row matched. */
  function SheetResult(rows: seq<SheetRow>): Option<SheetFundamentals> {
    var f := ScanUpTo(Readings(rows), |rows|);
    if |f.foundRows| > 0 then Some(f) else None
  }

  method ExtractFundamentalsFromSheet(data: seq<SheetRow>) returns (r: Option<SheetFundamentals>)
    ensures r == SheetResult(data)
  {
    var fundamentals := Empty;
    var i := 0;
    while i < |data|
      invariant 0 <= i <= |data|
      invariant fundamentals == ScanUpTo(Readings(data), i)
    {
      var row := data[i];
      assert Readings(data)[i] == Reading(row);
      if row.Row? {
        var rowText := RowText(row.cells);
        if MentionsDividend(rowText) {
          var value := ExtractNumericValue(row.cells);
          if value.Some? {
            fundamentals := fundamentals.(dividendYield := value);
            fundamentals := fundamentals.(foundRows := fundamentals.foundRows + [FoundRow(Dividend, i, row.cells)]);
          }
        }
        if MentionsPe(rowText) {
          var value := ExtractNumericValue(row.cells);
          if value.Some? {
            fundamentals := fundamentals.(peRatio := value);
            fundamentals := fundamentals.(foundRows := fundamentals.foundRows + [FoundRow(Pe, i, row.cells)]);
          }
        }
      }
      i := i + 1;
    }
    r := if |fundamentals.foundRows| > 0 then Some(fundamentals) else None;
  }

  /** The dividend yield is that of the last row contributing one, and absent when no row does. */
  lemma {:induction false} DividendLastWins(rs: seq<RowReading>, n: nat)
    requires n <= |rs|
    ensures ScanUpTo(rs, n).dividendYield.None? <==> forall k :: 0 <= k < n ==> rs[k].dividend.None?
    ensures ScanUpTo(rs, n).dividendYield.Some? ==>
      exists k :: 0 <= k < n && ScanUpTo(rs, n).dividendYield == rs[k].dividend
        && forall j :: k < j < n ==> rs[j].dividend.None?
  {
    if n > 0 {
      DividendLastWins(rs, n - 1);
      if rs[n - 1].dividend.None? && ScanUpTo(rs, n).dividendYield.Some? {
        var k :| 0 <= k < n - 1 && ScanUpTo(rs, n - 1).dividendYield == rs[k].dividend
          && forall j :: k < j < n - 1 ==> rs[j].dividend.None?;
        assert forall j :: k < j < n ==> rs[j].dividend.None?;
      }
    }
  }

  /** The P/E ratio is that of the last row contributing one, and absent when no row does. */
  lemma {:induction false} PeLastWins(rs: seq<RowReading>, n: nat)
    requires n <= |rs|
    ensures ScanUpTo(rs, n).peRatio.None? <==> forall k :: 0 <= k < n ==> rs[k].pe.None?
    ensures ScanUpTo(rs, n).peRatio.Some? ==>
      exists k :: 0 <= k < n && ScanUpTo(rs, n).peRatio == rs[k].pe
        && forall j :: k < j < n ==> rs[j].pe.None?
  {
    if n > 0 {
      PeLastWins(rs, n - 1);
      if rs[n - 1].pe.None? && ScanUpTo(rs, n).peRatio.Some? {
        var k :| 0 <= k < n - 1 && ScanUpTo(rs, n - 1).peRatio == rs[k].pe
          && forall j :: k < j < n - 1 ==> rs[j].pe.None?;
        assert forall j :: k < j < n ==> rs[j].pe.None?;
      }
    }
  }

  /** `f` is a match of one of the first `n` rows: that row's cells, and the row contributed that metric. */
  predicate Listed(rs: seq<RowReading>, n: nat, f: FoundRow)
    requires n <= |rs|
  {
    f.row < n && rs[f.row].cells == f.data
    && (f.kind == Dividend ==> rs[f.row].dividend.Some?)
    && (f.kind == Pe ==> rs[f.row].pe.Some?)
  }

  /** The scan order: by row, and within a row the dividend match before the P/E match. */
  predicate Before(f: FoundRow, g: FoundRow) {
    f.row < g.row || (f.row == g.row && f.kind == Dividend && g.kind == Pe)
  }

  /**
   * Every listed match is a row that contributed that metric, with the row's own
   * cells, in scan order; so no match is listed twice.
   */
  lemma {:induction false} FoundRowsInOrder(rs: seq<RowReading>, n: nat)
    requires n <= |rs|
    ensures forall a :: 0 <= a < |ScanUpTo(rs, n).foundRows| ==> Listed(rs, n, ScanUpTo(rs, n).foundRows[a])
    ensures forall a, b :: 0 <= a < b < |ScanUpTo(rs, n).foundRows| ==>
      Before(ScanUpTo(rs, n).foundRows[a], ScanUpTo(rs, n).foundRows[b])
  {
    if n > 0 {
      FoundRowsInOrder(rs, n - 1);
      var prev := ScanUpTo(rs, n - 1).foundRows;
      var rd := rs[n - 1];
      var extra := (if rd.dividend.Some? then [FoundRow(Dividend, n - 1, rd.cells)] else [])
        + (if rd.pe.Some? then [FoundRow(Pe, n - 1, rd.cells)] else []);
      var found := ScanUpTo(rs, n).foundRows;
      assert found == prev + extra;
      assert forall a :: 0 <= a < |extra| ==> Listed(rs, n, extra[a]) && extra[a].row == n - 1;
      forall a | 0 <= a < |found|
        ensures Listed(rs, n, found[a])
      {
        if a >= |prev| {
          assert found[a] == extra[a - |prev|];
        } else {
          assert found[a] == prev[a];
          assert Listed(rs, n - 1, prev[a]);
        }
      }
      forall a, b | 0 <= a < b < |found|
        ensures Before(found[a], found[b])
      {
        if b < |prev| {
          assert found[a] == prev[a] && found[b] == prev[b];
        } else if a < |prev| {
          assert found[a] == prev[a];
          assert Listed(rs, n - 1, prev[a]);
          assert found[b] == extra[b - |prev|];
        } else {
          assert found[a] == extra[a - |prev|] && found[b] == extra[b - |prev|];
        }
      }
    }
  }

  /** Whether a row reading contributes the metric of `kind`. */
  predicate Contributes(rd: RowReading, kind: RowKind) {
    if kind == Dividend then rd.dividend.Some? else rd.pe.Some?
  }

  /** How many matches the first `n` rows contribute: one per metric a row yields. */
  function Contributions(rs: seq<RowReading>, n: nat): nat
    requires n <= |rs|
  {
    if n == 0 then 0
    else Contributions(rs, n - 1) + (if rs[n - 1].dividend.Some? then 1 else 0) + (if rs[n - 1].pe.Some? then 1 else 0)
  }

  /** Every contribution of the first `n` rows is listed, and the list holds nothing else. */
  lemma {:induction false} FoundRowsComplete(rs: seq<RowReading>, n: nat)
    requires n <= |rs|
    ensures |ScanUpTo(rs, n).foundRows| == Contributions(rs, n)
    ensures forall k, kind :: 0 <= k < n && Contributes(rs[k], kind) ==>
      exists a :: 0 <= a < |ScanUpTo(rs, n).foundRows| && ScanUpTo(rs, n).foundRows[a] == FoundRow(kind, k, rs[k].cells)
  {
    if n > 0 {
      FoundRowsComplete(rs, n - 1);
      var prev := ScanUpTo(rs, n - 1).foundRows;
      var rd := rs[n - 1];
      var extra := (if rd.dividend.Some? then [FoundRow(Dividend, n - 1, rd.cells)] else [])
        + (if rd.pe.Some? then [FoundRow(Pe, n - 1, rd.cells)] else []);
      var found := ScanUpTo(rs, n).foundRows;
      assert found == prev + extra;
      forall k, kind | 0 <= k < n && Contributes(rs[k], kind)
        ensures exists a :: 0 <= a < |found| && found[a] == FoundRow(kind, k, rs[k].cells)
      {
        if k < n - 1 {
          var a :| 0 <= a < |prev| && prev[a] == FoundRow(kind, k, rs[k].cells);
          assert found[a] == prev[a];
        } else if kind == Dividend {
          assert found[|prev|] == FoundRow(kind, k, rs[k].cells);
        } else {
          var a := |prev| + (if rd.dividend.Some? then 1 else 0);
          assert found[a] == FoundRow(kind, k, rs[k].cells);
        }
      }
    }
  }

  /** The scan is `null` exactly when no row contributes a value. */
  lemma {:induction false} SheetResultNullIff(rs: seq<RowReading>, n: nat)
    requires n <= |rs|
    ensures |ScanUpTo(rs, n).foundRows| == 0 <==>
      forall k :: 0 <= k < n ==> rs[k].dividend.None? && rs[k].pe.None?
  {
    if n > 0 {
      SheetResultNullIff(rs, n - 1);
    }
  }

  /** Rows that are not arrays contribute nothing, and a row contributes a value only when it mentions the metric. */
  lemma ReadingOfRow(r: SheetRow)
    ensures r.NotArray? ==> Reading(r).dividend.None? && Reading(r).pe.None?
    ensures Reading(r).dividend.Some? ==>
      (r.Row? && MentionsDividend(RowText(r.cells)) && Reading(r).dividend == ExtractNumericValue(r.cells))
    ensures Reading(r).pe.Some? ==>
      (r.Row? && MentionsPe(RowText(r.cells)) && Reading(r).pe == ExtractNumericValue(r.cells))
  {
  }
}
