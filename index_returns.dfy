/**
 * The CSI index-return collector: for each index code listed in the index list
 * sheet it opens the index page, reads the return table and, when the table has
 * usable rows, appends them to the collection; between two indexes it waits a
 * random 5 to 15 seconds. The collection is finally written twice, under today's
 * name and under the default name.
 *
 * Each page is an input (its table rows as the cells' inner texts, or the error
 * that interrupted the visit); `Math.random()` draws are inputs in [0, 1).
 */
module IndexReturns {
  import opened Text
  import opened Cells

  // ---- getRandomDelay ----

  /** `Math.floor(Math.random() * (max - min + 1)) + min`, given the draw `u`. */
  function RandomDelay(min: int, max: int, u: real): int
    requires 0.0 <= u < 1.0
  {
    (u * (max - min + 1) as real).Floor + min
  }

  /** With `min <= max`, the delay is a whole number of milliseconds in [min, max]. */
  lemma RandomDelayBounds(min: int, max: int, u: real)
    requires 0.0 <= u < 1.0 && min <= max
    ensures min <= RandomDelay(min, max, u) <= max
  {
    var n := (max - min + 1) as real;
    assert 0.0 <= u * n by {
      assert n > 0.0;
    }
    assert u * n < n by {
      assert (1.0 - u) * n > 0.0;
    }
    var f := (u * n).Floor;
    assert f as real <= u * n < n;
  }

  /** Every delay in [min, max] can be drawn. */
  lemma RandomDelayCovers(min: int, max: int, d: int)
    requires min <= d <= max
    ensures RandomDelay(min, max, (d - min) as real / (max - min + 1) as real) == d
  {
    var n := (max - min + 1) as real;
    var u := (d - min) as real / n;
    assert u * n == (d - min) as real;
    assert 0.0 <= u < 1.0 by {
      assert (d - min) as real < n;
    }
  }

  // ---- row mapping ----

  /** One row of the return table: the name and the nine return and volatility figures. */
  datatype ReturnRow = ReturnRow(
    name: string,
    returnOneMonth: string, returnThreeMonths: string, returnYearToDate: string,
    annualisedOneYear: string, annualisedThreeYears: string, annualisedFiveYears: string,
    volatilityOneYear: string, volatilityThreeYears: string, volatilityFiveYears: string)

  const MinColumns: nat := 9

  /** The trimmed inner text of column `i`, or '' for a column the row does not have. */
  function Column(columns: seq<string>, i: nat): string { if i < |columns| then Trim(columns[i]) else "" }

  /** A table row with at least nine cells, as a record; a shorter row is `null`. */
  function MapRow(columns: seq<string>): (r: ReturnRow)
    requires |columns| >= MinColumns
    ensures r.name == Trim(columns[0]) && r.volatilityThreeYears == Trim(columns[8])
    ensures r.volatilityFiveYears == if |columns| > 9 then Trim(columns[9]) else ""
  {
    ReturnRow(Column(columns, 0), Column(columns, 1), Column(columns, 2), Column(columns, 3),
              Column(columns, 4), Column(columns, 5), Column(columns, 6),
              Column(columns, 7), Column(columns, 8), Column(columns, 9))
  }

  /** `rows.map(...).filter(Boolean)`: the records of the rows with at least nine cells, in table order. */
  function MapRows(rows: seq<seq<string>>): (out: seq<ReturnRow>)
    ensures |out| <= |rows|
  {
    if |rows| == 0 then []
    else
      var init := MapRows(rows[..|rows| - 1]);
      var last := rows[|rows| - 1];
      if |last| >= MinColumns then init + [MapRow(last)] else init
  }

  /** The number of rows with fewer than nine cells. */
  function ShortRows(rows: seq<seq<string>>): nat {
    if |rows| == 0 then 0 else ShortRows(rows[..|rows| - 1]) + (if |rows[|rows| - 1]| >= MinColumns then 0 else 1)
  }

  /** Every short row is dropped and every other row kept: the records number the rows minus the short ones. */
  lemma {:induction false} MapRowsCount(rows: seq<seq<string>>)
    ensures |MapRows(rows)| + ShortRows(rows) == |rows|
    ensures |MapRows(rows)| == 0 <==> forall k :: 0 <= k < |rows| ==> |rows[k]| < MinColumns
  {
    if |rows| > 0 {
      MapRowsCount(rows[..|rows| - 1]);
      var init := rows[..|rows| - 1];
      assert forall k :: 0 <= k < |init| ==> init[k] == rows[k];
    }
  }

  /** Each record comes from a row of the table, in order: the `j`-th long row gives the `j`-th record. */
  lemma {:induction false} MapRowsKeepsOrder(rows: seq<seq<string>>, k: nat)
    requires k < |rows| && |rows[k]| >= MinColumns
    ensures var j := |MapRows(rows[..k])|;
      j < |MapRows(rows)| && MapRows(rows)[j] == MapRow(rows[k])
    decreases |rows|
  {
    if k < |rows| - 1 {
      var init := rows[..|rows| - 1];
      assert init[..k] == rows[..k];
      MapRowsKeepsOrder(init, k);
    } else {
      assert rows[..|rows| - 1] == rows[..k];
    }
  }

  // ---- fetchIndexReturnData and main ----

  /** What visiting an index page gives: the body rows of the table (none without a table), or the error of the visit. */
  datatype ReturnPage = PageRows(rows: seq<seq<string>>) | PageFailed(message: string)

  /** One index's entry in the collection. */
  datatype IndexReturns = IndexReturns(indexCode: string, data: seq<ReturnRow>)

  /** What one visit adds to the collection. */
  function Collected(code: string, page: ReturnPage): seq<IndexReturns> {
    if page.PageRows? && |MapRows(page.rows)| > 0 then [IndexReturns(code, MapRows(page.rows))] else []
  }

  /** What the visits of the first `n` codes add. */
  function CollectedAll(codes: seq<string>, pages: nat -> ReturnPage, n: nat): seq<IndexReturns>
    requires n <= |codes|
  {
    if n == 0 then [] else CollectedAll(codes, pages, n - 1) + Collected(codes[n - 1], pages(n - 1))
  }

  /** `rows.slice(1).map(row => String(row[0])).filter(code => code && code.trim() !== '')`. */
  function IndexCodes(rows: seq<seq<Cell>>): (codes: seq<string>)
    ensures forall k :: 0 <= k < |codes| ==> Trim(codes[k]) != ""
  {
    if |rows| <= 1 then []
    else
      var init := IndexCodes(rows[..|rows| - 1]);
      var code := ToJsString(At(rows[|rows| - 1], 0));
      if code != "" && Trim(code) != "" then init + [code] else init
  }

  const DataDir := "index-return"
  function DatedPath(today: string): string { DataDir + "/all_index_returns_" + today + ".json" }
  const DefaultPath := DataDir + "/all_index_returns.json"

  const BetweenMin := 5000
  const BetweenMax := 15000

  /** The first `n` pauses between indexes, from the draws in order. */
  function BetweenDelays(draws: nat -> real, n: nat): (r: seq<int>)
    requires forall k: nat :: 0.0 <= draws(k) < 1.0
    ensures |r| == n
  {
    if n == 0 then [] else BetweenDelays(draws, n - 1) + [RandomDelay(BetweenMin, BetweenMax, draws(n - 1))]
  }

  class IndexReturnCollector {
    var allIndexData: seq<IndexReturns>
    var files: map<string, seq<IndexReturns>>

    constructor(existing: map<string, seq<IndexReturns>>)
      ensures allIndexData == [] && files == existing
    {
      allIndexData := [];
      files := existing;
    }

    /** `fetchIndexReturnData`: appends the index only if at least one row survives; a failure adds nothing. */
    method FetchIndexReturnData(code: string, page: ReturnPage)
      modifies this
      ensures allIndexData == old(allIndexData) + Collected(code, page)
      ensures files == old(files)
    {
      if page.PageFailed? {
        return;
      }
      var data := MapRows(page.rows);
      if |data| > 0 {
        allIndexData := allIndexData + [IndexReturns(code, data)];
      }
    }

    /** The loop of `main`: one visit per code, in order, and a random pause after every index but the last. */
    method VisitAll(codes: seq<string>, pages: nat -> ReturnPage, draws: nat -> real) returns (delays: seq<int>)
      modifies this
      requires forall k: nat :: 0.0 <= draws(k) < 1.0
      ensures allIndexData == old(allIndexData) + CollectedAll(codes, pages, |codes|)
      ensures files == old(files)
      ensures delays == BetweenDelays(draws, if |codes| == 0 then 0 else |codes| - 1)
    {
      delays := [];
      var i := 0;
      while i < |codes|
        invariant 0 <= i <= |codes|
        invariant allIndexData == old(allIndexData) + CollectedAll(codes, pages, i)
        invariant files == old(files)
        invariant delays == BetweenDelays(draws, if i < |codes| then i else if i == 0 then 0 else i - 1)
      {
        ghost var before := allIndexData;
        FetchIndexReturnData(codes[i], pages(i));
        assert allIndexData == before + Collected(codes[i], pages(i));
        assert CollectedAll(codes, pages, i + 1) == CollectedAll(codes, pages, i) + Collected(codes[i], pages(i));
        if i < |codes| - 1 {
          assert BetweenDelays(draws, i + 1) == delays + [RandomDelay(BetweenMin, BetweenMax, draws(i))];
          delays := delays + [RandomDelay(BetweenMin, BetweenMax, draws(i))];
        }
        i := i + 1;
      }
    }

    /** `main`: the codes of the index list, their visits, then the collection written under both names. */
    method RunAll(rows: seq<seq<Cell>>, pages: nat -> ReturnPage, draws: nat -> real, today: string)
      returns (delays: seq<int>)
      modifies this
      requires forall k: nat :: 0.0 <= draws(k) < 1.0
      ensures allIndexData == old(allIndexData) + CollectedAll(IndexCodes(rows), pages, |IndexCodes(rows)|)
      ensures files == old(files)[DatedPath(today) := allIndexData][DefaultPath := allIndexData]
      ensures delays == BetweenDelays(draws, if |IndexCodes(rows)| == 0 then 0 else |IndexCodes(rows)| - 1)
    {
      var indexCodes := IndexCodes(rows);
      delays := VisitAll(indexCodes, pages, draws);
      files := files[DatedPath(today) := allIndexData];
      files := files[DefaultPath := allIndexData];
    }
  }

  /** Every pause between two indexes lies between 5 and 15 seconds, and the `k`-th uses the `k`-th draw. */
  lemma {:induction false} BetweenDelaysBounded(draws: nat -> real, n: nat)
    requires forall k: nat :: 0.0 <= draws(k) < 1.0
    ensures forall k :: 0 <= k < n ==> BetweenMin <= BetweenDelays(draws, n)[k] <= BetweenMax
    ensures forall k :: 0 <= k < n ==> BetweenDelays(draws, n)[k] == RandomDelay(BetweenMin, BetweenMax, draws(k))
  {
    if n > 0 {
      BetweenDelaysBounded(draws, n - 1);
      RandomDelayBounds(BetweenMin, BetweenMax, draws(n - 1));
    }
  }

  /** `e` is the entry the visit of one of the first `n` codes made: that code with the records of its page. */
  predicate VisitedEntry(codes: seq<string>, pages: nat -> ReturnPage, n: nat, e: IndexReturns)
    requires n <= |codes|
  {
    exists k :: 0 <= k < n && e.indexCode == codes[k] && pages(k).PageRows? && e.data == MapRows(pages(k).rows)
  }

  /** A failing index adds nothing and leaves the others' entries alone: the collection is the concatenation per code. */
  lemma {:induction false} CollectedAllPerCode(codes: seq<string>, pages: nat -> ReturnPage, n: nat)
    requires n <= |codes|
    ensures |CollectedAll(codes, pages, n)| <= n
    ensures forall e :: e in CollectedAll(codes, pages, n) ==> VisitedEntry(codes, pages, n, e) && |e.data| > 0
  {
    if n > 0 {
      CollectedAllPerCode(codes, pages, n - 1);
      var prev := CollectedAll(codes, pages, n - 1);
      var added := Collected(codes[n - 1], pages(n - 1));
      assert CollectedAll(codes, pages, n) == prev + added;
      assert |added| <= 1;
      forall e | e in prev + added
        ensures VisitedEntry(codes, pages, n, e) && |e.data| > 0
      {
        if e in prev {
          assert VisitedEntry(codes, pages, n - 1, e) && |e.data| > 0;
          var k :| 0 <= k < n - 1 && e.indexCode == codes[k] && pages(k).PageRows? && e.data == MapRows(pages(k).rows);
          assert 0 <= k < n;
        } else {
          assert e in added;
          var page := pages(n - 1);
          assert page.PageRows? && |MapRows(page.rows)| > 0 && e == IndexReturns(codes[n - 1], MapRows(page.rows));
          assert 0 <= n - 1 < n && e.indexCode == codes[n - 1];
        }
      }
    }
  }

  /** A code is kept iff its cell's `String()` is not blank; a missing cell gives the kept code 'undefined'. */
  lemma IndexCodesOfRow(header: seq<Cell>, row: seq<Cell>)
    ensures IndexCodes([header, row]) == (if Trim(ToJsString(At(row, 0))) != "" then [ToJsString(At(row, 0))] else [])
    ensures |row| == 0 ==> IndexCodes([header, row]) == ["undefined"]
  {
    assert [header, row][..1] == [header];
    if |row| == 0 {
      var u := "undefined";
      assert !IsSpace(u[0]);
      assert TrimStart(u) == u;
      assert !IsSpace(u[|u| - 1]);
      assert TrimEnd(u) == u;
    }
  }
}
