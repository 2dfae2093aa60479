/**
 * `extractFundamentalsFromPage` of both HSI scrapers: the code evaluated in the
 * index page that looks for the dividend yield and the P/E ratio.
 *
 * Stage 1 reads the elements with the metric's CSS class; stage 2 (index scraper
 * only) reads table rows; stage 3 searches the flattened page text for the keyword,
 * then falls back to the first two numbers of the text. A later stage runs only
 * while a field is still falsy, and only fills falsy fields: a value of 0 counts
 * as missing.
 */
module PageCascade {
  import opened Wrappers
  import opened Text

  /** Which scraper's copy of the cascade. */
  datatype Variant = IndexScraper | FundamentalsScraper

  /** An element's `innerText` and `textContent`. */
  datatype TextNode = TextNode(innerText: string, textContent: string)

  /**
   * What the evaluated code can see of the page: the raw `textContent` of each
   * element with the dividend-yield and P/E classes, the cells' `textContent` of every
   * row of every matched table (tables in document order, then rows), the first
   * fundamentals container if there is one, and the body.
   */
  datatype PageSnapshot = PageSnapshot(
    dividendTexts: seq<string>,
    peTexts: seq<string>,
    tableRows: seq<seq<string>>,
    fundamentalsDiv: Option<TextNode>,
    body: TextNode)

  const DividendKind := "dividendYield"
  const PeKind := "peRatio"

  /** An entry of `foundData`: which metric, its value and the text it was read from. */
  datatype FoundItem = FoundItem(kind: string, value: real, text: string)

  /** The state the cascade accumulates. */
  datatype Fields = Fields(dividendYield: Option<real>, peRatio: Option<real>, foundData: seq<FoundItem>)

  /** The object the evaluated code returns; `pbRatio` is always `null`. */
  datatype PageFundamentals = PageFundamentals(
    dividendYield: Option<real>, peRatio: Option<real>, pbRatio: Option<real>, foundData: seq<FoundItem>)

  /** `!value`: `null` and 0 are both falsy. */
  predicate Missing(v: Option<real>) { v.None? || v.value == 0.0 }

  /** Element texts stage 1 passes over. */
  function DividendPlaceholders(variant: Variant): set<string> {
    if variant == IndexScraper then {"周息率", "", "-"} else {"周息率", ""}
  }

  function PePlaceholders(variant: Variant): set<string> {
    if variant == IndexScraper then {"市盈率 (倍)", "市盈率", "", "-"} else {"市盈率 (倍)", "市盈率", ""}
  }

  /** A value read from an element, and the element's trimmed text. */
  datatype Hit = Hit(value: real, text: string)

  /** Stage 1 for one metric, from element `i` on: the first number of the first non-placeholder element that has one. */
  function FirstElementNumber(texts: seq<string>, skipped: set<string>, i: nat): Option<Hit>
    decreases |texts| - i
  {
    if i >= |texts| then None
    else if Trim(texts[i]) in skipped then FirstElementNumber(texts, skipped, i + 1)
    else match FirstNumber(Trim(texts[i]))
      case Some(t) => Some(Hit(t.Value(), Trim(texts[i])))
      case None => FirstElementNumber(texts, skipped, i + 1)
  }

  function HitValue(h: Option<Hit>): Option<real> { if h.Some? then Some(h.value.value) else None }

  function HitItems(kind: string, h: Option<Hit>): seq<FoundItem> {
    if h.Some? then [FoundItem(kind, h.value.value, h.value.text)] else []
  }

  /** The fields after stage 1. */
  function ElementStage(variant: Variant, page: PageSnapshot): Fields {
    var d := FirstElementNumber(page.dividendTexts, DividendPlaceholders(variant), 0);
    var p := FirstElementNumber(page.peTexts, PePlaceholders(variant), 0);
    Fields(HitValue(d), HitValue(p), HitItems(DividendKind, d) + HitItems(PeKind, p))
  }

  /** A table row's text: the trimmed cell texts joined with spaces. */
  function RowText(cells: seq<string>): string {
    Join(seq(|cells|, k requires 0 <= k < |cells| => Trim(cells[k])), " ")
  }

  /** Fill a missing field from `kw[^\d]*(\d+\.?\d*)` in `text`. */
  function KeywordFill(f: Fields, text: string, dividend: bool): Fields {
    var kw := if dividend then "周息率" else "市盈率";
    var current := if dividend then f.dividendYield else f.peRatio;
    match KeywordNumber(text, kw)
    case Some(m) =>
      if Missing(current) then
        var v := Some(m.token.Value());
        var item := FoundItem(if dividend then DividendKind else PeKind, m.token.Value(), m.text);
        if dividend then f.(dividendYield := v, foundData := f.foundData + [item])
        else f.(peRatio := v, foundData := f.foundData + [item])
      else f
    case None => f
  }

  /** Stage 2 on one row: the row must mention the keyword and the field must be missing. */
  function RowStep(f: Fields, cells: seq<string>): Fields {
    var t := RowText(cells);
    var afterDividend := if Contains(t, "周息率") && Missing(f.dividendYield) then KeywordFill(f, t, true) else f;
    if Contains(t, "市盈率") && Missing(afterDividend.peRatio) then KeywordFill(afterDividend, t, false) else afterDividend
  }

  /** Stage 2 over the first `n` rows. */
  function TableUpTo(f: Fields, rows: seq<seq<string>>, n: nat): Fields
    requires n <= |rows|
  {
    if n == 0 then f else RowStep(TableUpTo(f, rows, n - 1), rows[n - 1])
  }

  /** The text stage 3 searches, before white space is collapsed. */
  function FallbackSource(variant: Variant, page: PageSnapshot): string {
    if variant == IndexScraper then
      (if page.body.innerText != "" then page.body.innerText else page.body.textContent)
    else if page.fundamentalsDiv.Some? then
      (if page.fundamentalsDiv.value.innerText != "" then page.fundamentalsDiv.value.innerText
       else page.fundamentalsDiv.value.textContent)
    else page.body.innerText
  }

  /** The positional fallback: with at least two numbers in the text, the first two fill the missing fields. */
  function PositionalFill(f: Fields, text: string): Fields {
    var nums := AllNumbers(text);
    if |nums| >= 2 then
      var afterDividend :=
        if Missing(f.dividendYield) then
          f.(dividendYield := Some(nums[0].Value()),
             foundData := f.foundData + [FoundItem(DividendKind, nums[0].Value(), "auto: " + nums[0].Text())])
        else f;
      if Missing(afterDividend.peRatio) then
        afterDividend.(peRatio := Some(nums[1].Value()),
                       foundData := afterDividend.foundData + [FoundItem(PeKind, nums[1].Value(), "auto: " + nums[1].Text())])
      else afterDividend
    else f
  }

  /** Stage 3 on the collapsed text. */
  function TextStage(f: Fields, text: string): Fields {
    var afterKeywords := KeywordFill(KeywordFill(f, text, true), text, false);
    if Missing(afterKeywords.dividendYield) || Missing(afterKeywords.peRatio) then PositionalFill(afterKeywords, text)
    else afterKeywords
  }

  /** The whole cascade. */
  function Cascade(variant: Variant, page: PageSnapshot): Fields {
    var s1 := ElementStage(variant, page);
    var s2 :=
      if variant == IndexScraper && (Missing(s1.dividendYield) || Missing(s1.peRatio)) then
        TableUpTo(s1, page.tableRows, |page.tableRows|)
      else s1;
    if Missing(s2.dividendYield) || Missing(s2.peRatio) then TextStage(s2, CollapseSpaces(FallbackSource(variant, page)))
    else s2
  }

  /** What `extractFundamentalsFromPage` returns: the fields, or `null` when nothing was found. */
  function CascadeResult(variant: Variant, page: PageSnapshot): Option<PageFundamentals> {
    var f := Cascade(variant, page);
    if |f.foundData| > 0 then Some(PageFundamentals(f.dividendYield, f.peRatio, None, f.foundData)) else None
  }

  /** One stage-1 loop: the first element past the placeholders whose text holds a number. */
  method ScanElements(texts: seq<string>, skipped: set<string>) returns (h: Option<Hit>)
    ensures h == FirstElementNumber(texts, skipped, 0)
  {
    h := None;
    var i := 0;
    while i < |texts|
      invariant 0 <= i <= |texts|
      invariant FirstElementNumber(texts, skipped, i) == FirstElementNumber(texts, skipped, 0)
    {
      var text := Trim(texts[i]);
      if text in skipped {
        i := i + 1;
        continue;
      }
      var m := FirstNumber(text);
      if m.Some? {
        h := Some(Hit(m.value.Value(), text));
        break;
      }
      i := i + 1;
    }
  }

  /** Stage 2: every row of every table, in order. */
  method ScanTables(start: Fields, rows: seq<seq<string>>) returns (f: Fields)
    ensures f == TableUpTo(start, rows, |rows|)
  {
    f := start;
    var k := 0;
    while k < |rows|
      invariant 0 <= k <= |rows|
      invariant f == TableUpTo(start, rows, k)
    {
      TableUpToStep(start, rows, k);
      f := RowStep(f, rows[k]);
      k := k + 1;
    }
  }

  /** One more row: the rows so far, then that row's step. */
  lemma TableUpToStep(start: Fields, rows: seq<seq<string>>, k: nat)
    requires k < |rows|
    ensures TableUpTo(start, rows, k + 1) == RowStep(TableUpTo(start, rows, k), rows[k])
  {
  }

  method ExtractFundamentalsFromPage(variant: Variant, page: PageSnapshot) returns (r: Option<PageFundamentals>)
    ensures r == CascadeResult(variant, page)
  {
    var dividend := ScanElements(page.dividendTexts, DividendPlaceholders(variant));
    var pe := ScanElements(page.peTexts, PePlaceholders(variant));
    var fields := Fields(HitValue(dividend), HitValue(pe), HitItems(DividendKind, dividend) + HitItems(PeKind, pe));

    if variant == IndexScraper && (Missing(fields.dividendYield) || Missing(fields.peRatio)) {
      fields := ScanTables(fields, page.tableRows);
    }

    if Missing(fields.dividendYield) || Missing(fields.peRatio) {
      var text := CollapseSpaces(FallbackSource(variant, page));
      fields := KeywordFill(fields, text, true);
      fields := KeywordFill(fields, text, false);
      if Missing(fields.dividendYield) || Missing(fields.peRatio) {
        fields := PositionalFill(fields, text);
      }
    }

    r := if |fields.foundData| > 0 then Some(PageFundamentals(fields.dividendYield, fields.peRatio, None, fields.foundData)) else None;
  }

  /** Stage 1 passes over element `t`: a placeholder, or no number in it. */
  predicate PassedOver(t: string, skipped: set<string>) { t in skipped || FirstNumber(t).None? }

  /** The hit element `t` gives. */
  function HitOf(t: string): Option<Hit> {
    if FirstNumber(t).Some? then Some(Hit(FirstNumber(t).value.Value(), t)) else None
  }

  lemma FirstElementNumberStep(texts: seq<string>, skipped: set<string>, i: nat)
    requires i < |texts|
    ensures PassedOver(Trim(texts[i]), skipped) ==>
      FirstElementNumber(texts, skipped, i) == FirstElementNumber(texts, skipped, i + 1)
    ensures !PassedOver(Trim(texts[i]), skipped) ==>
      FirstElementNumber(texts, skipped, i) == HitOf(Trim(texts[i])) && HitOf(Trim(texts[i])).Some?
  {
  }

  /** Stage 1 takes the first element that is not a placeholder and holds a number; without one it finds nothing. */
  lemma {:induction false} FirstElementNumberIsFirst(texts: seq<string>, skipped: set<string>, i: nat)
    ensures FirstElementNumber(texts, skipped, i).None? <==>
      forall k :: i <= k < |texts| ==> PassedOver(Trim(texts[k]), skipped)
    ensures FirstElementNumber(texts, skipped, i).Some? ==>
      exists k :: i <= k < |texts| && !PassedOver(Trim(texts[k]), skipped)
        && FirstElementNumber(texts, skipped, i) == HitOf(Trim(texts[k]))
        && forall j :: i <= j < k ==> PassedOver(Trim(texts[j]), skipped)
    decreases |texts| - i
  {
    if i < |texts| {
      FirstElementNumberStep(texts, skipped, i);
      FirstElementNumberIsFirst(texts, skipped, i + 1);
      if !PassedOver(Trim(texts[i]), skipped) {
        assert i <= i < |texts| && !PassedOver(Trim(texts[i]), skipped)
          && FirstElementNumber(texts, skipped, i) == HitOf(Trim(texts[i]));
      } else if FirstElementNumber(texts, skipped, i).Some? {
        var k :| i + 1 <= k < |texts| && !PassedOver(Trim(texts[k]), skipped)
          && FirstElementNumber(texts, skipped, i + 1) == HitOf(Trim(texts[k]))
          && forall j :: i + 1 <= j < k ==> PassedOver(Trim(texts[j]), skipped);
        assert forall j :: i <= j < k ==> PassedOver(Trim(texts[j]), skipped);
      }
    } else {
      assert FirstElementNumber(texts, skipped, i).None?;
    }
  }

  /** None of the placeholder texts holds a digit. */
  lemma PlaceholdersHaveNoNumber(variant: Variant)
    ensures forall t :: t in DividendPlaceholders(variant) ==> FirstNumber(t).None?
    ensures forall t :: t in PePlaceholders(variant) ==> FirstNumber(t).None?
  {
    assert FirstNumber("周息率").None? by { assert FirstDigitFrom("周息率", 0) == 3; }
    assert FirstNumber("市盈率").None? by { assert FirstDigitFrom("市盈率", 0) == 3; }
    assert FirstNumber("市盈率 (倍)").None? by { assert FirstDigitFrom("市盈率 (倍)", 0) == 7; }
    assert FirstNumber("-").None? by { assert FirstDigitFrom("-", 0) == 1; }
    assert FirstNumber("").None?;
  }

  /** Passing over texts without a digit changes nothing: stage 1 behaves as if there were no placeholders. */
  lemma {:induction false} DigitFreeSkipsAreRedundant(texts: seq<string>, skipped: set<string>, i: nat)
    requires forall t :: t in skipped ==> FirstNumber(t).None?
    ensures FirstElementNumber(texts, skipped, i) == FirstElementNumber(texts, {}, i)
    decreases |texts| - i
  {
    if i < |texts| {
      DigitFreeSkipsAreRedundant(texts, skipped, i + 1);
    }
  }

  /**
   * The two copies of stage 1 agree on every page: the fundamentals scraper does not
   * list '-' as a placeholder, but '-' holds no number, so it is passed over anyway.
   */
  lemma ElementStageSameInBothScrapers(page: PageSnapshot)
    ensures ElementStage(IndexScraper, page) == ElementStage(FundamentalsScraper, page)
  {
    PlaceholdersHaveNoNumber(IndexScraper);
    PlaceholdersHaveNoNumber(FundamentalsScraper);
    DigitFreeSkipsAreRedundant(page.dividendTexts, DividendPlaceholders(IndexScraper), 0);
    DigitFreeSkipsAreRedundant(page.dividendTexts, DividendPlaceholders(FundamentalsScraper), 0);
    DigitFreeSkipsAreRedundant(page.peTexts, PePlaceholders(IndexScraper), 0);
    DigitFreeSkipsAreRedundant(page.peTexts, PePlaceholders(FundamentalsScraper), 0);
  }

  /** `g` keeps every truthy field of `f` and extends its `foundData`. */
  predicate Keeps(f: Fields, g: Fields) {
    (!Missing(f.dividendYield) ==> g.dividendYield == f.dividendYield)
    && (!Missing(f.peRatio) ==> g.peRatio == f.peRatio)
    && |f.foundData| <= |g.foundData| && g.foundData[..|f.foundData|] == f.foundData
  }

  lemma KeepsTransitive(f: Fields, g: Fields, h: Fields)
    requires Keeps(f, g) && Keeps(g, h)
    ensures Keeps(f, h)
  {
    assert h.foundData[..|f.foundData|] == h.foundData[..|g.foundData|][..|f.foundData|];
  }

  /**
   * The keyword search fills only the field it is about, only when that field is
   * falsy (a 0 is replaced), and then with the captured number.
   */
  lemma KeywordFillOnlyFills(f: Fields, text: string, dividend: bool)
    ensures Keeps(f, KeywordFill(f, text, dividend))
    ensures dividend ==> KeywordFill(f, text, dividend).peRatio == f.peRatio
    ensures !dividend ==> KeywordFill(f, text, dividend).dividendYield == f.dividendYield
    ensures var kw := if dividend then "周息率" else "市盈率";
      var g := KeywordFill(f, text, dividend);
      (Missing(if dividend then f.dividendYield else f.peRatio) && KeywordNumber(text, kw).Some?) ==>
        (if dividend then g.dividendYield else g.peRatio) == Some(KeywordNumber(text, kw).value.token.Value())
  {
  }

  lemma RowStepKeeps(f: Fields, cells: seq<string>)
    ensures Keeps(f, RowStep(f, cells))
  {
    var t := RowText(cells);
    var afterDividend := if Contains(t, "周息率") && Missing(f.dividendYield) then KeywordFill(f, t, true) else f;
    KeywordFillOnlyFills(f, t, true);
    KeywordFillOnlyFills(afterDividend, t, false);
    if Contains(t, "市盈率") && Missing(afterDividend.peRatio) {
      KeepsTransitive(f, afterDividend, RowStep(f, cells));
    }
  }

  /** Stage 2 never overwrites a truthy field and only appends to `foundData`. */
  lemma {:induction false} TableStageKeeps(f: Fields, rows: seq<seq<string>>, n: nat)
    requires n <= |rows|
    ensures Keeps(f, TableUpTo(f, rows, n))
  {
    if n > 0 {
      TableStageKeeps(f, rows, n - 1);
      RowStepKeeps(TableUpTo(f, rows, n - 1), rows[n - 1]);
      KeepsTransitive(f, TableUpTo(f, rows, n - 1), TableUpTo(f, rows, n));
    }
  }

  /**
   * The positional fallback needs at least two numbers; it then gives a missing
   * dividend yield the first number and a missing P/E the second, tagged "auto: ".
   */
  lemma PositionalFillNeedsTwoNumbers(f: Fields, text: string)
    ensures Keeps(f, PositionalFill(f, text))
    ensures |AllNumbers(text)| < 2 ==> PositionalFill(f, text) == f
    ensures |AllNumbers(text)| >= 2 && Missing(f.dividendYield) ==>
      PositionalFill(f, text).dividendYield == Some(AllNumbers(text)[0].Value())
      && FoundItem(DividendKind, AllNumbers(text)[0].Value(), "auto: " + AllNumbers(text)[0].Text())
         == PositionalFill(f, text).foundData[|f.foundData|]
    ensures |AllNumbers(text)| >= 2 && Missing(f.peRatio) ==>
      PositionalFill(f, text).peRatio == Some(AllNumbers(text)[1].Value())
      && PositionalFill(f, text).foundData[|PositionalFill(f, text).foundData| - 1]
         == FoundItem(PeKind, AllNumbers(text)[1].Value(), "auto: " + AllNumbers(text)[1].Text())
  {
    var g := PositionalFill(f, text);
    if |AllNumbers(text)| >= 2 {
      assert g.foundData[..|f.foundData|] == f.foundData;
    }
  }

  lemma TextStageKeeps(f: Fields, text: string)
    ensures Keeps(f, TextStage(f, text))
  {
    var k1 := KeywordFill(f, text, true);
    var k2 := KeywordFill(k1, text, false);
    KeywordFillOnlyFills(f, text, true);
    KeywordFillOnlyFills(k1, text, false);
    KeepsTransitive(f, k1, k2);
    PositionalFillNeedsTwoNumbers(k2, text);
    if Missing(k2.dividendYield) || Missing(k2.peRatio) {
      KeepsTransitive(f, k2, PositionalFill(k2, text));
    }
  }

  /**
   * Later stages never overwrite what stage 1 found: a truthy value found on an
   * element is the final value, and stage 1's `foundData` starts the final list.
   */
  lemma CascadeKeepsElementStage(variant: Variant, page: PageSnapshot)
    ensures Keeps(ElementStage(variant, page), Cascade(variant, page))
  {
    var s1 := ElementStage(variant, page);
    var s2 :=
      if variant == IndexScraper && (Missing(s1.dividendYield) || Missing(s1.peRatio)) then
        TableUpTo(s1, page.tableRows, |page.tableRows|)
      else s1;
    TableStageKeeps(s1, page.tableRows, |page.tableRows|);
    var text := CollapseSpaces(FallbackSource(variant, page));
    TextStageKeeps(s2, text);
    if Missing(s2.dividendYield) || Missing(s2.peRatio) {
      KeepsTransitive(s1, s2, TextStage(s2, text));
    }
  }

  /** When stage 1 finds both fields truthy, nothing else is read. */
  lemma ElementStageSuffices(variant: Variant, page: PageSnapshot)
    requires !Missing(ElementStage(variant, page).dividendYield) && !Missing(ElementStage(variant, page).peRatio)
    ensures Cascade(variant, page) == ElementStage(variant, page)
  {
  }
}
