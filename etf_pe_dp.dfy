/**
 * `ETFPEDPFetcher`: looks an ETF up in the CSI fund search to find the index it
 * tracks, then reads the P/E and dividend-yield columns of that index's indicator
 * sheet. Network replies and sheet parsing are inputs.
 */
module EtfPeDp {
  import opened Wrappers
  import opened Text
  import opened Cells
  import Polling

  // ---- getIndexInfo ----

  /** One entry of the search reply's `data` array. */
  datatype FundInfo = FundInfo(productCode: string, fundName: string, indexCode: string, indexNameCn: string)

  /** How the search request goes: it throws, answers with a non-OK status, or answers JSON (`data` absent is `None`). */
  datatype SearchReply =
    | SearchThrew(message: string)
    | SearchNotOk(status: nat)
    | SearchJson(success: bool, data: Option<seq<FundInfo>>)

  datatype IndexInfo = InfoOk(etfCode: string, fundName: string, indexCode: string, indexName: string) | InfoFailed(error: string)

  function NotFoundMessage(etfCode: string): string { "未找到ETF代码 " + etfCode + " 对应的指数信息" }

  /** `getIndexInfo`: the search must succeed and list at least one fund; the first one is mapped. */
  function GetIndexInfo(etfCode: string, reply: SearchReply): (r: IndexInfo)
    ensures r.InfoOk? <==> reply.SearchJson? && reply.success && reply.data.Some? && |reply.data.value| > 0
    ensures r.InfoOk? ==> var f := reply.data.value[0];
      r == InfoOk(f.productCode, f.fundName, f.indexCode, f.indexNameCn)
    ensures reply.SearchNotOk? ==> r == InfoFailed("HTTP error! status: " + NatToString(reply.status))
    ensures reply.SearchJson? && !r.InfoOk? ==> r == InfoFailed(NotFoundMessage(etfCode))
  {
    match reply
    case SearchThrew(m) => InfoFailed(m)
    case SearchNotOk(status) => InfoFailed("HTTP error! status: " + NatToString(status))
    case SearchJson(ok, data) =>
      if !ok || data.None? || |data.value| == 0 then InfoFailed(NotFoundMessage(etfCode))
      else InfoOk(data.value[0].productCode, data.value[0].fundName, data.value[0].indexCode, data.value[0].indexNameCn)
  }

  // ---- getPEAndDPData ----

  /** How the indicator sheet download goes. */
  datatype SheetReply = SheetThrew(message: string) | SheetNotOk(status: nat) | SheetRows(rows: seq<seq<Cell>>)

  const EmptySheetMessage := "Excel文件为空或格式不正确"
  const NoDataRowMessage := "Excel文件没有数据行"

  /** A non-empty string header naming the P/E column. */
  predicate IsPeHeader(c: Cell) { c.Str? && c.s != "" && Contains(c.s, "市盈率") && Contains(c.s, "P/E2") }

  /** A non-empty string header naming the dividend-yield column; the P/E test comes first. */
  predicate IsDpHeader(c: Cell) { c.Str? && c.s != "" && !IsPeHeader(c) && Contains(c.s, "股息率") && Contains(c.s, "D/P2") }

  /** The last column below `n` whose header passes `pe` (or the dividend test), or -1. */
  function LastColumn(header: seq<Cell>, pe: bool, n: nat): (r: int)
    requires n <= |header|
    ensures -1 <= r < n
  {
    if n == 0 then -1
    else if (if pe then IsPeHeader(header[n - 1]) else IsDpHeader(header[n - 1])) then n - 1
    else LastColumn(header, pe, n - 1)
  }

  /** The header scan: it never breaks, so each match overwrites the previous one. */
  method FindColumns(header: seq<Cell>) returns (peIndex: int, dpIndex: int)
    ensures peIndex == LastColumn(header, true, |header|)
    ensures dpIndex == LastColumn(header, false, |header|)
  {
    peIndex := -1;
    dpIndex := -1;
    var i := 0;
    while i < |header|
      invariant 0 <= i <= |header|
      invariant peIndex == LastColumn(header, true, i)
      invariant dpIndex == LastColumn(header, false, i)
    {
      var cell := header[i];
      if cell.Str? && cell.s != "" {
        if Contains(cell.s, "市盈率") && Contains(cell.s, "P/E2") {
          peIndex := i;
        } else if Contains(cell.s, "股息率") && Contains(cell.s, "D/P2") {
          dpIndex := i;
        }
      }
      i := i + 1;
    }
  }

  /** The last matching column: it matches, and no later column does; -1 means none does. */
  lemma {:induction false} LastColumnIsLast(header: seq<Cell>, pe: bool, n: nat)
    requires n <= |header|
    ensures var r := LastColumn(header, pe, n);
      r >= 0 ==> (if pe then IsPeHeader(header[r]) else IsDpHeader(header[r]))
    ensures var r := LastColumn(header, pe, n);
      forall j :: r < j < n ==> !(if pe then IsPeHeader(header[j]) else IsDpHeader(header[j]))
  {
    if n > 0 {
      LastColumnIsLast(header, pe, n - 1);
    }
  }

  /** A column cannot be both; a header naming both metrics is the P/E column. */
  lemma PeTakesPrecedence(header: seq<Cell>)
    ensures LastColumn(header, true, |header|) == -1 || LastColumn(header, true, |header|) != LastColumn(header, false, |header|)
  {
    LastColumnIsLast(header, true, |header|);
    LastColumnIsLast(header, false, |header|);
  }

  datatype PeDp =
    | PeDpOk(indexCode: string, peValue: Cell, dpValue: Cell, peColumnName: Cell, dpColumnName: Cell)
    | PeDpFailed(error: string, indexCode: string)

  /** The cell under column `k` of `row`, or `null` without a column. */
  function Under(row: seq<Cell>, k: int): Cell { if k >= 0 then At(row, k) else Null }

  function GetPEAndDPData(indexCode: string, reply: SheetReply): PeDp {
    match reply
    case SheetThrew(m) => PeDpFailed(m, indexCode)
    case SheetNotOk(status) => PeDpFailed("无法获取Excel文件，HTTP状态: " + NatToString(status), indexCode)
    case SheetRows(rows) =>
      if |rows| == 0 then PeDpFailed(EmptySheetMessage, indexCode)
      else if |rows| < 2 then PeDpFailed(NoDataRowMessage, indexCode)
      else
        var pe := LastColumn(rows[0], true, |rows[0]|);
        var dp := LastColumn(rows[0], false, |rows[0]|);
        PeDpOk(indexCode, Under(rows[1], pe), Under(rows[1], dp), Under(rows[0], pe), Under(rows[0], dp))
  }

  /** An empty sheet and a sheet without a data row both fail and carry the index code. */
  lemma SheetErrors(indexCode: string, rows: seq<seq<Cell>>)
    ensures |rows| == 0 ==> GetPEAndDPData(indexCode, SheetRows(rows)) == PeDpFailed(EmptySheetMessage, indexCode)
    ensures |rows| == 1 ==> GetPEAndDPData(indexCode, SheetRows(rows)) == PeDpFailed(NoDataRowMessage, indexCode)
    ensures GetPEAndDPData(indexCode, SheetRows(rows)).indexCode == indexCode
  {
  }

  /** A found column reads its value from the second row and its name from the header; a missing one reads `null` for both. */
  lemma ColumnsReadSecondRow(indexCode: string, rows: seq<seq<Cell>>)
    requires |rows| >= 2
    ensures var r := GetPEAndDPData(indexCode, SheetRows(rows));
      var pe := LastColumn(rows[0], true, |rows[0]|);
      r.PeDpOk? && (pe == -1 ==> r.peValue == Null && r.peColumnName == Null)
      && (pe >= 0 ==> r.peValue == At(rows[1], pe) && IsPeHeader(r.peColumnName))
  {
    LastColumnIsLast(rows[0], true, |rows[0]|);
  }

  // ---- getETFPEAndDP ----

  datatype EtfPeDpResult =
    | Combined(etfCode: string, fundName: string, indexCode: string, indexName: string,
               peValue: Cell, dpValue: Cell, peColumnName: Cell, dpColumnName: Cell)
    | IndexLookupFailed(error: string, etfCode: string)
    | SheetFailed(error: string, etfCode: string, indexCode: string, indexName: string)

  /** What the two requests for one ETF meet; the sheet is the one of the index the search found. */
  datatype CodeEnv = CodeEnv(search: SearchReply, sheet: SheetReply)

  function GetETFPEAndDP(etfCode: string, env: CodeEnv): EtfPeDpResult {
    match GetIndexInfo(etfCode, env.search)
    case InfoFailed(e) => IndexLookupFailed(e, etfCode)
    case InfoOk(_, fundName, indexCode, indexName) =>
      match GetPEAndDPData(indexCode, env.sheet)
      case PeDpFailed(e, _) => SheetFailed(e, etfCode, indexCode, indexName)
      case PeDpOk(_, pe, dp, peName, dpName) => Combined(etfCode, fundName, indexCode, indexName, pe, dp, peName, dpName)
  }

  /** A failed search stops the run: the sheet is never looked at and the ETF code is the one asked for. */
  lemma SearchFailureSkipsSheet(etfCode: string, search: SearchReply, sheet1: SheetReply, sheet2: SheetReply)
    requires GetIndexInfo(etfCode, search).InfoFailed?
    ensures GetETFPEAndDP(etfCode, CodeEnv(search, sheet1)) == GetETFPEAndDP(etfCode, CodeEnv(search, sheet2))
    ensures GetETFPEAndDP(etfCode, CodeEnv(search, sheet1)) == IndexLookupFailed(GetIndexInfo(etfCode, search).error, etfCode)
  {
  }

  /** Every outcome carries the ETF code asked for (not the search's `productCode`), and the index found once it is known. */
  lemma ResultCarriesCodes(etfCode: string, env: CodeEnv)
    ensures GetETFPEAndDP(etfCode, env).etfCode == etfCode
    ensures var info := GetIndexInfo(etfCode, env.search);
      info.InfoOk? ==> (!GetETFPEAndDP(etfCode, env).IndexLookupFailed?
        && GetETFPEAndDP(etfCode, env).indexCode == info.indexCode
        && GetETFPEAndDP(etfCode, env).indexName == info.indexName)
    ensures GetETFPEAndDP(etfCode, env).Combined? <==>
      GetIndexInfo(etfCode, env.search).InfoOk? && GetPEAndDPData(GetIndexInfo(etfCode, env.search).indexCode, env.sheet).PeDpOk?
  {
  }

  // ---- getMultipleETFPEAndDP ----

  const PerCodeDelay: nat := 1000

  /** One ETF after another; a 1000 ms pause follows every one, the last included. */
  method GetMultipleETFPEAndDP(etfCodes: seq<string>, envs: nat -> CodeEnv) returns (results: seq<EtfPeDpResult>, delays: seq<nat>)
    ensures |results| == |etfCodes|
    ensures forall k :: 0 <= k < |etfCodes| ==> results[k] == GetETFPEAndDP(etfCodes[k], envs(k))
    ensures delays == Polling.Repeat(PerCodeDelay, |etfCodes|)
  {
    results := [];
    delays := [];
    var i := 0;
    while i < |etfCodes|
      invariant 0 <= i <= |etfCodes| && |results| == i
      invariant forall k :: 0 <= k < i ==> results[k] == GetETFPEAndDP(etfCodes[k], envs(k))
      invariant delays == Polling.Repeat(PerCodeDelay, i)
    {
      results := results + [GetETFPEAndDP(etfCodes[i], envs(i))];
      delays := delays + [PerCodeDelay];
      i := i + 1;
    }
  }
}
