/**
 * `calculateSizeChanges` of the display page: a fund's history, sorted newest
 * first, gives its size change over one, three, five, ten and thirty entries.
 *
 * `new Date(d)` and `parseFloat(s)` are parameters (`dateValue`, `sizeValue`);
 * an invalid date, whose comparison is `NaN` in the sort, is not modelled.
 */
module SizeChanges {
  import opened Wrappers
  import opened StockHistory

  // ---- the sort: a stable sort by date, newest first ----

  /** Put `e` after every entry at least as new as it. */
  function Insert(e: StockEntry, sorted: seq<StockEntry>, dateValue: Option<string> -> int): (r: seq<StockEntry>)
    ensures |r| == |sorted| + 1
    ensures multiset(r) == multiset(sorted) + multiset{e}
  {
    if |sorted| == 0 then [e]
    else if dateValue(sorted[0].date) >= dateValue(e.date) then
      assert sorted == [sorted[0]] + sorted[1..];
      [sorted[0]] + Insert(e, sorted[1..], dateValue)
    else [e] + sorted
  }

  /** `[...data].sort((a, b) => new Date(b.date) - new Date(a.date))`. */
  function SortNewestFirst(data: seq<StockEntry>, dateValue: Option<string> -> int): (r: seq<StockEntry>)
    ensures |r| == |data|
    ensures multiset(r) == multiset(data)
  {
    if |data| == 0 then []
    else
      assert data == data[..|data| - 1] + [data[|data| - 1]];
      Insert(data[|data| - 1], SortNewestFirst(data[..|data| - 1], dateValue), dateValue)
  }

  /** Each entry is at least as new as the one after it. */
  predicate NewestFirst(s: seq<StockEntry>, dateValue: Option<string> -> int) {
    forall i :: 0 <= i < |s| - 1 ==> dateValue(s[i].date) >= dateValue(s[i + 1].date)
  }

  lemma {:induction false} InsertKeepsOrder(e: StockEntry, sorted: seq<StockEntry>, dateValue: Option<string> -> int)
    requires NewestFirst(sorted, dateValue)
    ensures NewestFirst(Insert(e, sorted, dateValue), dateValue)
    ensures Insert(e, sorted, dateValue)[0] == (if |sorted| > 0 && dateValue(sorted[0].date) >= dateValue(e.date) then sorted[0] else e)
  {
    if |sorted| > 0 && dateValue(sorted[0].date) >= dateValue(e.date) {
      var rest := sorted[1..];
      assert NewestFirst(rest, dateValue) by {
        forall i | 0 <= i < |rest| - 1
          ensures dateValue(rest[i].date) >= dateValue(rest[i + 1].date)
        {
          assert rest[i] == sorted[i + 1] && rest[i + 1] == sorted[i + 2];
        }
      }
      InsertKeepsOrder(e, rest, dateValue);
      var r := Insert(e, sorted, dateValue);
      assert r == [sorted[0]] + Insert(e, rest, dateValue);
      forall i | 0 <= i < |r| - 1
        ensures dateValue(r[i].date) >= dateValue(r[i + 1].date)
      {
        if i > 0 {
          assert r[i] == Insert(e, rest, dateValue)[i - 1] && r[i + 1] == Insert(e, rest, dateValue)[i];
        } else if |rest| > 0 {
          assert dateValue(sorted[0].date) >= dateValue(sorted[1].date);
        }
      }
    }
  }

  /** The sorted copy is ordered newest first. */
  lemma {:induction false} SortIsSorted(data: seq<StockEntry>, dateValue: Option<string> -> int)
    ensures NewestFirst(SortNewestFirst(data, dateValue), dateValue)
  {
    if |data| > 0 {
      SortIsSorted(data[..|data| - 1], dateValue);
      InsertKeepsOrder(data[|data| - 1], SortNewestFirst(data[..|data| - 1], dateValue), dateValue);
    }
  }

  /** In a list ordered newest first, the head is at least as new as every entry. */
  lemma {:induction false} HeadIsNewest(s: seq<StockEntry>, dateValue: Option<string> -> int, j: nat)
    requires NewestFirst(s, dateValue) && j < |s|
    ensures dateValue(s[0].date) >= dateValue(s[j].date)
  {
    if j > 0 {
      HeadIsNewest(s, dateValue, j - 1);
    }
  }

  // ---- the windows ----

  /** One window: the newest entry's date and its size minus the size `offset` entries back. */
  datatype Change = Change(date: Option<string>, change: real)

  datatype SizeChangeReport = SizeChangeReport(
    oneDayChange: Change, threeDayChange: Option<Change>, fiveDayChange: Option<Change>,
    tenDayChange: Option<Change>, thirtyDayChange: Option<Change>)

  function WindowAt(sorted: seq<StockEntry>, offset: nat, sizeValue: Option<string> -> real): Option<Change> {
    if |sorted| > offset then Some(Change(sorted[0].date, sizeValue(sorted[0].size) - sizeValue(sorted[offset].size)))
    else None
  }

  /** `calculateSizeChanges`: `null` without a readable history of at least two entries. */
  function CalculateSizeChanges(files: map<string, StockFile>, stock: string,
                                dateValue: Option<string> -> int, sizeValue: Option<string> -> real): Option<SizeChangeReport>
  {
    var path := StockPath(Str(stock));
    if path !in files || files[path].Unreadable? || |files[path].list| < 2 then None
    else
      var sorted := SortNewestFirst(files[path].list, dateValue);
      Some(SizeChangeReport(WindowAt(sorted, 1, sizeValue).value, WindowAt(sorted, 3, sizeValue),
                            WindowAt(sorted, 5, sizeValue), WindowAt(sorted, 10, sizeValue), WindowAt(sorted, 30, sizeValue)))
  }

  /** A report exists iff the history file parses and has at least two entries. */
  lemma ReportNeedsTwoEntries(files: map<string, StockFile>, stock: string,
                              dateValue: Option<string> -> int, sizeValue: Option<string> -> real)
    ensures CalculateSizeChanges(files, stock, dateValue, sizeValue).Some? <==>
      var path := StockPath(Str(stock));
      path in files && files[path].Entries? && |files[path].list| >= 2
  {
  }

  /**
   * Each window exists iff the history is long enough (4, 6, 11 and 31 entries) and
   * then compares the newest entry with the entry 3, 5, 10 or 30 places older in
   * date order; every window carries the newest entry's date.
   */
  lemma WindowsByLength(files: map<string, StockFile>, stock: string,
                        dateValue: Option<string> -> int, sizeValue: Option<string> -> real)
    requires CalculateSizeChanges(files, stock, dateValue, sizeValue).Some?
    ensures var r := CalculateSizeChanges(files, stock, dateValue, sizeValue).value;
      var data := files[StockPath(Str(stock))].list;
      var sorted := SortNewestFirst(data, dateValue);
      (r.threeDayChange.Some? <==> |data| >= 4) && (r.fiveDayChange.Some? <==> |data| >= 6)
      && (r.tenDayChange.Some? <==> |data| >= 11) && (r.thirtyDayChange.Some? <==> |data| >= 31)
      && r.oneDayChange == Change(sorted[0].date, sizeValue(sorted[0].size) - sizeValue(sorted[1].size))
      && (|data| >= 4 ==> r.threeDayChange.value == Change(sorted[0].date, sizeValue(sorted[0].size) - sizeValue(sorted[3].size)))
      && (|data| >= 6 ==> r.fiveDayChange.value == Change(sorted[0].date, sizeValue(sorted[0].size) - sizeValue(sorted[5].size)))
      && (|data| >= 11 ==> r.tenDayChange.value == Change(sorted[0].date, sizeValue(sorted[0].size) - sizeValue(sorted[10].size)))
      && (|data| >= 31 ==> r.thirtyDayChange.value == Change(sorted[0].date, sizeValue(sorted[0].size) - sizeValue(sorted[30].size)))
  {
  }

  /** The windows are dated by the newest entry of the whole history. */
  lemma WindowDateIsNewest(files: map<string, StockFile>, stock: string,
                           dateValue: Option<string> -> int, sizeValue: Option<string> -> real)
    requires CalculateSizeChanges(files, stock, dateValue, sizeValue).Some?
    ensures var r := CalculateSizeChanges(files, stock, dateValue, sizeValue).value;
      var data := files[StockPath(Str(stock))].list;
      (exists k :: 0 <= k < |data| && data[k].date == r.oneDayChange.date)
      && forall k :: 0 <= k < |data| ==> dateValue(data[k].date) <= dateValue(r.oneDayChange.date)
  {
    var data := files[StockPath(Str(stock))].list;
    var sorted := SortNewestFirst(data, dateValue);
    SortIsSorted(data, dateValue);
    assert sorted[0] in multiset(data);
    forall k | 0 <= k < |data|
      ensures dateValue(data[k].date) <= dateValue(sorted[0].date)
    {
      assert data[k] in multiset(sorted);
      var j :| 0 <= j < |sorted| && sorted[j] == data[k];
      HeadIsNewest(sorted, dateValue, j);
    }
  }

  // ---- getChangeClass ----

  /** A change as the page holds it: `'N/A'` or a number. */
  datatype ChangeValue = NotAvailable | Amount(value: real)

  /** A growing fund is shown as 'negative' and a shrinking or unchanged one as 'positive'; 'N/A' gets no class. */
  function GetChangeClass(c: ChangeValue): (r: string)
    ensures r == "" <==> c.NotAvailable?
    ensures r == "negative" <==> c.Amount? && c.value > 0.0
    ensures r == "positive" <==> c.Amount? && c.value <= 0.0
  {
    if c.NotAvailable? then "" else if c.value > 0.0 then "negative" else "positive"
  }
}
