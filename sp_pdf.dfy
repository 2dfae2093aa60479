/**
 * The S&P factsheet reader: the text of each index's factsheet PDF is searched
 * for the header '股息率 市净率 预期市盈率', and the numbers printed just after it
 * give the forward P/E, the P/B and the dividend yield.
 *
 * The download and the PDF text extraction are inputs: each configured index
 * comes with the text its factsheet yields, or the message of the error that
 * stopped the download or the parse.
 */
module SpPdf {
  import opened Wrappers
  import opened Text

  // ---- the anchor ----

  const DividendHeader := "股息率"
  const PbHeader := "市净率"
  const PeHeader := "预期市盈率"
  const WindowChars: nat := 40

  /** Where `股息率\s*市净率\s*预期市盈率` matched at `i` ends. */
  function AnchorEnd(s: string, i: nat): Option<nat> {
    if !StartsAt(s, DividendHeader, i) then None
    else
      var j := SkipSpaces(s, i + |DividendHeader|);
      if !StartsAt(s, PbHeader, j) then None
      else
        var k := SkipSpaces(s, j + |PbHeader|);
        if !StartsAt(s, PeHeader, k) then None else Some(k + |PeHeader|)
  }

  /** The leftmost anchor at or after `i`: its start and end. */
  function FirstAnchor(s: string, i: nat): (r: Option<(nat, nat)>)
    decreases |s| - i
    ensures r.Some? ==> i <= r.value.0 && AnchorEnd(s, r.value.0) == Some(r.value.1) && r.value.1 <= |s|
    ensures r.Some? ==> forall j :: i <= j < r.value.0 ==> AnchorEnd(s, j).None?
    ensures r.None? ==> forall j :: i <= j ==> AnchorEnd(s, j).None?
  {
    if i >= |s| then None
    else if AnchorEnd(s, i).Some? then Some((i, AnchorEnd(s, i).value))
    else FirstAnchor(s, i + 1)
  }

  /** The match of the anchor pattern followed by `[\s\S]{0,40}` (greedy), if any. */
  function BaseMatch(text: string): (r: Option<string>)
    ensures r.None? <==> FirstAnchor(text, 0).None?
  {
    var a := FirstAnchor(text, 0);
    if a.None? then None
    else
      var stop := if a.value.1 + WindowChars <= |text| then a.value.1 + WindowChars else |text|;
      Some(text[a.value.0..stop])
  }

  // ---- the number tokens ----

  /** `replace(/(\d+\.\d\d)/g, '$1 ')`, scanning from the start of `s`. */
  function SpaceAfterDecimals(s: string): string
    decreases |s|
  {
    if |s| == 0 then ""
    else if IsDigit(s[0]) then
      var q := DigitRunEnd(s, 0);
      if q + 2 < |s| && s[q] == '.' && IsDigit(s[q + 1]) && IsDigit(s[q + 2]) then
        s[..q + 3] + " " + SpaceAfterDecimals(s[q + 3..])
      else s[..q] + SpaceAfterDecimals(s[q..])
    else [s[0]] + SpaceAfterDecimals(s[1..])
  }

  /** `replace(/(%)/g, ' $1 ')`. */
  function PadPercent(s: string): (r: string)
    ensures CountChar(r, '%') == CountChar(s, '%')
  {
    if |s| == 0 then ""
    else
      var head := if s[0] == '%' then " % " else [s[0]];
      assert s == [s[0]] + s[1..];
      CountCharAppend(head, PadPercent(s[1..]), '%');
      head + PadPercent(s[1..])
  }

  /** The token `\d+\.\d+|\d+\.\d+%|\d+%` matched at `p` (`p` starting a digit run), as its end. */
  function TokenMatchEnd(s: string, p: nat): Option<nat>
    requires p < |s| && IsDigit(s[p])
  {
    var q := DigitRunEnd(s, p);
    if q + 1 < |s| && s[q] == '.' && IsDigit(s[q + 1]) then Some(DigitRunEnd(s, q + 1))
    else if q < |s| && s[q] == '%' then Some(q + 1)
    else None
  }

  /** `match(...)` with the global flag: all tokens from `p` on, left to right. */
  function Tokens(s: string, p: nat): seq<string>
    decreases |s| - p
  {
    if p >= |s| then []
    else if !IsDigit(s[p]) then Tokens(s, p + 1)
    else
      var m := TokenMatchEnd(s, p);
      if m.Some? then [s[p..m.value]] + Tokens(s, m.value)
      else Tokens(s, DigitRunEnd(s, p))
  }

  /** The three metrics, kept as the strings the text shows. */
  datatype Metrics = Metrics(forwardPe: Option<string>, pb: Option<string>, dividendYield: Option<string>)

  function NumbersOf(window: string): seq<string> { Tokens(PadPercent(SpaceAfterDecimals(window)), 0) }

  /** `extractMetricsFromPDF` on the parsed text: the second, third and fourth token, or all `null` with fewer than four. */
  function ExtractMetrics(pdfText: string): (m: Metrics)
    ensures m.forwardPe.Some? <==> m.pb.Some?
    ensures m.pb.Some? <==> m.dividendYield.Some?
  {
    var base := BaseMatch(CollapseNewlines(pdfText));
    if base.None? then Metrics(None, None, None)
    else
      var nums := NumbersOf(base.value);
      if |nums| >= 4 then Metrics(Some(nums[1]), Some(nums[2]), Some(nums[3])) else Metrics(None, None, None)
  }

  // ---- properties of the text logic ----

  /** Without the header, or with fewer than four numbers after it, no metric is found; otherwise tokens 1 to 3 are. */
  lemma MetricsIff(pdfText: string)
    ensures var text := CollapseNewlines(pdfText);
      ExtractMetrics(pdfText).forwardPe.Some? <==> FirstAnchor(text, 0).Some? && |NumbersOf(BaseMatch(text).value)| >= 4
    ensures var text := CollapseNewlines(pdfText);
      ExtractMetrics(pdfText).forwardPe.Some? ==>
        var nums := NumbersOf(BaseMatch(text).value);
        ExtractMetrics(pdfText) == Metrics(Some(nums[1]), Some(nums[2]), Some(nums[3]))
  {
  }

  /** The shape of a token: digits, then a point and at least one digit, or digits and a '%'. */
  predicate NumberShape(t: string) {
    var q := DigitRunEnd(t, 0);
    0 < q && ((q + 1 < |t| && t[q] == '.' && AllDigits(t[q + 1..])) || (q + 1 == |t| && t[q] == '%'))
  }

  /** A token match starting at a digit run has the token shape. */
  lemma MatchShape(s: string, p: nat)
    requires p < |s| && IsDigit(s[p]) && TokenMatchEnd(s, p).Some?
    ensures NumberShape(s[p..TokenMatchEnd(s, p).value])
  {
    var q := DigitRunEnd(s, p);
    var e := TokenMatchEnd(s, p).value;
    var t := s[p..e];
    forall k | 0 <= k < q - p
      ensures IsDigit(t[k])
    {
      assert t[k] == s[p + k];
    }
    assert t[q - p] == s[q];
    DigitRunEndAt(t, 0, q - p);
    if s[q] == '.' {
      var frac := t[q - p + 1..];
      forall k | 0 <= k < |frac|
        ensures IsDigit(frac[k])
      {
        assert frac[k] == s[q + 1 + k];
      }
    }
  }

  /** Every token the scan returns is a decimal number or a whole percentage. */
  lemma {:induction false} TokensShape(s: string, p: nat)
    decreases |s| - p
    ensures forall k :: 0 <= k < |Tokens(s, p)| ==> NumberShape(Tokens(s, p)[k])
  {
    if p < |s| {
      if !IsDigit(s[p]) {
        TokensShape(s, p + 1);
      } else if TokenMatchEnd(s, p).Some? {
        MatchShape(s, p);
        TokensShape(s, TokenMatchEnd(s, p).value);
      } else {
        TokensShape(s, DigitRunEnd(s, p));
      }
    }
  }

  /** What is examined is the leftmost header followed by at most 40 more characters of the text. */
  lemma WindowIsBounded(text: string)
    requires FirstAnchor(text, 0).Some?
    ensures var (start, end) := FirstAnchor(text, 0).value;
      var w := BaseMatch(text).value;
      |w| <= end - start + WindowChars
      && w == text[start..start + |w|]
      && (end + WindowChars <= |text| ==> |w| == end - start + WindowChars)
      && (end + WindowChars > |text| ==> start + |w| == |text|)
  {
  }

  /** Nothing outside the window is examined: texts with the same window yield the same metrics. */
  lemma SameWindowSameMetrics(a: string, b: string)
    requires BaseMatch(CollapseNewlines(a)) == BaseMatch(CollapseNewlines(b))
    ensures ExtractMetrics(a) == ExtractMetrics(b)
  {
  }

  /** The text with its spaces removed. */
  function Unspaced(s: string): string {
    if |s| == 0 then "" else (if s[0] == ' ' then "" else [s[0]]) + Unspaced(s[1..])
  }

  lemma {:induction false} UnspacedAppend(a: string, b: string)
    ensures Unspaced(a + b) == Unspaced(a) + Unspaced(b)
  {
    if |a| > 0 {
      assert (a + b)[1..] == a[1..] + b;
      UnspacedAppend(a[1..], b);
    } else {
      assert a + b == b;
    }
  }

  /** The decimal spacing only inserts spaces: everything else is kept, in order. */
  lemma {:induction false} SpaceAfterDecimalsOnlySpaces(s: string)
    ensures Unspaced(SpaceAfterDecimals(s)) == Unspaced(s)
    decreases |s|
  {
    if |s| > 0 {
      if IsDigit(s[0]) {
        var q := DigitRunEnd(s, 0);
        if q + 2 < |s| && s[q] == '.' && IsDigit(s[q + 1]) && IsDigit(s[q + 2]) {
          SpaceAfterDecimalsOnlySpaces(s[q + 3..]);
          UnspacedAppend(s[..q + 3] + " ", SpaceAfterDecimals(s[q + 3..]));
          UnspacedAppend(s[..q + 3], " ");
          assert Unspaced(" ") == "" by { assert " "[1..] == ""; }
          assert s == s[..q + 3] + s[q + 3..];
          UnspacedAppend(s[..q + 3], s[q + 3..]);
        } else {
          SpaceAfterDecimalsOnlySpaces(s[q..]);
          UnspacedAppend(s[..q], SpaceAfterDecimals(s[q..]));
          assert s == s[..q] + s[q..];
          UnspacedAppend(s[..q], s[q..]);
        }
      } else {
        SpaceAfterDecimalsOnlySpaces(s[1..]);
        UnspacedAppend([s[0]], SpaceAfterDecimals(s[1..]));
        assert [s[0]][1..] == "";
      }
    }
  }

  /** Padding '%' only inserts spaces around it. */
  lemma {:induction false} PadPercentOnlySpaces(s: string)
    ensures Unspaced(PadPercent(s)) == Unspaced(s)
  {
    if |s| > 0 {
      var rest := PadPercent(s[1..]);
      PadPercentOnlySpaces(s[1..]);
      if s[0] == '%' {
        assert PadPercent(s) == " % " + rest;
        UnspacedAppend(" % ", rest);
        PaddedPercentUnspaced();
      } else {
        assert PadPercent(s) == [s[0]] + rest;
        UnspacedAppend([s[0]], rest);
        assert [s[0]][1..] == "";
      }
    }
  }

  lemma PaddedPercentUnspaced()
    ensures Unspaced(" % ") == "%"
  {
    assert " % "[1..] == "% " && "% "[1..] == " " && " "[1..] == "";
  }

  lemma {:induction false} PadPercentWithoutPercent(s: string)
    requires '%' !in s
    ensures PadPercent(s) == s
  {
    if |s| > 0 {
      assert s[0] in s;
      assert forall x :: x in s[1..] ==> x in s;
      PadPercentWithoutPercent(s[1..]);
    }
  }

  /** Glued numbers such as "12.3445.67" separate into "12.34" and "45.67" once a space follows each two-decimal number. */
  lemma GluedNumbersSplit()
    ensures NumbersOf("12.3445.67") == ["12.34", "45.67"]
  {
    GluedSpacing();
    SpacedPadding();
    SpacedTokens();
  }

  lemma SpacedPadding()
    ensures PadPercent("12.34 45.67 ") == "12.34 45.67 "
  {
    PadPercentWithoutPercent("12.34 45.67 ");
  }

  lemma GluedSpacing()
    ensures SpaceAfterDecimals("12.3445.67") == "12.34 45.67 "
  {
    var s := "12.3445.67";
    GluedHeadRun();
    assert s[..5] == "12.34" && s[5..] == "45.67";
    assert SpaceAfterDecimals(s) == s[..5] + " " + SpaceAfterDecimals(s[5..]);
    TailSpacing();
  }

  lemma GluedHeadRun()
    ensures DigitRunEnd("12.3445.67", 0) == 2
  {
    var s := "12.3445.67";
    assert IsDigit(s[0]) && IsDigit(s[1]) && !IsDigit(s[2]);
  }

  lemma TailSpacing()
    ensures SpaceAfterDecimals("45.67") == "45.67 "
  {
    var t := "45.67";
    assert IsDigit(t[0]) && IsDigit(t[1]) && !IsDigit(t[2]);
    assert DigitRunEnd(t, 0) == 2;
    assert t[5..] == "";
    assert t[..5] == t;
  }

  lemma SpacedTokens()
    ensures Tokens("12.34 45.67 ", 0) == ["12.34", "45.67"]
  {
    var u := "12.34 45.67 ";
    assert IsDigit(u[0]) && IsDigit(u[1]) && !IsDigit(u[2]) && IsDigit(u[3]) && IsDigit(u[4]) && !IsDigit(u[5]);
    assert DigitRunEnd(u, 0) == 2 && DigitRunEnd(u, 3) == 5;
    assert !IsDigit(u[5]) && IsDigit(u[6]) && IsDigit(u[7]) && !IsDigit(u[8]) && IsDigit(u[9]) && IsDigit(u[10]) && !IsDigit(u[11]);
    assert DigitRunEnd(u, 6) == 8 && DigitRunEnd(u, 9) == 11;
    assert Tokens(u, 12) == [];
    assert Tokens(u, 11) == [];
    assert u[6..11] == "45.67";
    assert Tokens(u, 6) == ["45.67"];
    assert Tokens(u, 5) == ["45.67"];
    assert u[0..5] == "12.34";
  }

  // ---- processAllETFs ----

  /** One configured index: the fund code, the index and the outcome of its factsheet. */
  datatype SpEtf = SpEtf(stock: string, indexCode: string, indexName: string)

  datatype Factsheet = PdfText(text: string) | PdfFailed(message: string)

  datatype SpResult = SpResult(stock: string, indexCode: string, indexName: string, outcome: SpOutcome)

  datatype SpOutcome = Read(metrics: Metrics) | Errored(error: string)

  function ResultFor(etf: SpEtf, sheet: Factsheet): SpResult {
    SpResult(etf.stock, etf.indexCode, etf.indexName,
             if sheet.PdfText? then Read(ExtractMetrics(sheet.text)) else Errored(sheet.message))
  }

  /** `processAllETFs`: one result per configured index, in order; a failed download or parse records its error. */
  method ProcessAllETFs(etfs: seq<SpEtf>, sheets: nat -> Factsheet) returns (results: seq<SpResult>)
    ensures |results| == |etfs|
    ensures forall k :: 0 <= k < |etfs| ==> results[k] == ResultFor(etfs[k], sheets(k))
  {
    results := [];
    var i := 0;
    while i < |etfs|
      invariant 0 <= i <= |etfs| && |results| == i
      invariant forall k :: 0 <= k < i ==> results[k] == ResultFor(etfs[k], sheets(k))
    {
      var etf := etfs[i];
      var sheet := sheets(i);
      if sheet.PdfText? {
        results := results + [SpResult(etf.stock, etf.indexCode, etf.indexName, Read(ExtractMetrics(sheet.text)))];
      } else {
        results := results + [SpResult(etf.stock, etf.indexCode, etf.indexName, Errored(sheet.message))];
      }
      i := i + 1;
    }
  }

  /** A result carries metrics exactly when its factsheet was read. */
  lemma ErrorsOnlyOnFailure(etf: SpEtf, sheet: Factsheet)
    ensures ResultFor(etf, sheet).outcome.Errored? <==> sheet.PdfFailed?
    ensures ResultFor(etf, sheet).stock == etf.stock && ResultFor(etf, sheet).indexCode == etf.indexCode
  {
  }

  /** `getETFResultByStock`: the first result for the fund code, or `undefined`. */
  function GetETFResultByStock(results: seq<SpResult>, stock: string): (r: Option<SpResult>)
    ensures r.Some? ==> r.value in results && r.value.stock == stock
    ensures r.None? <==> forall k :: 0 <= k < |results| ==> results[k].stock != stock
  {
    if |results| == 0 then None
    else if results[0].stock == stock then Some(results[0])
    else GetETFResultByStock(results[1..], stock)
  }

  /** The result found is the first one for that fund code. */
  lemma {:induction false} GetETFResultByStockIsFirst(results: seq<SpResult>, stock: string)
    requires GetETFResultByStock(results, stock).Some?
    ensures exists k :: (0 <= k < |results| && results[k] == GetETFResultByStock(results, stock).value
                         && forall j :: 0 <= j < k ==> results[j].stock != stock)
  {
    if results[0].stock != stock {
      GetETFResultByStockIsFirst(results[1..], stock);
      var k :| 0 <= k < |results[1..]| && results[1..][k] == GetETFResultByStock(results, stock).value
        && forall j :: 0 <= j < k ==> results[1..][j].stock != stock;
      assert results[k + 1] == GetETFResultByStock(results, stock).value;
      assert forall j :: 0 < j < k + 1 ==> results[j] == results[1..][j - 1];
    } else {
      assert results[0] == GetETFResultByStock(results, stock).value;
    }
  }
}
