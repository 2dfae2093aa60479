/**
 * The static index page: the collection of index returns from the collector's
 * default file, the index names and the PE/DP figures fetched afresh, filled into
 * `template.html` and written to `index-data-static.html`. The reading of the
 * sheet, the table rows and the template filling are those of the report
 * (`IndexReport`); this page has no PE/DP cache and never runs the collector.
 */
module StaticHtml {
  import opened Wrappers
  import opened Cells
  import IR = IndexReturns
  import CF = CsIndexFetcher
  import R = IndexReport

  /** `loadJsonData`: the collector's default file, `[]` when it is missing or does not parse. */
  function LoadJsonData(files: map<string, R.ReturnsFile>): (data: seq<IR.IndexReturns>)
    ensures data != [] ==> IR.DefaultPath in files && files[IR.DefaultPath] == R.ReturnsSaved(data)
    ensures IR.DefaultPath in files && files[IR.DefaultPath].ReturnsSaved? ==> data == files[IR.DefaultPath].items
  {
    R.ReadReturns(files, Some(IR.DefaultPath))
  }

  /** After a collector run the page reads exactly the collection it wrote. */
  lemma ReadsCollectorOutput(files: map<string, R.ReturnsFile>, day: string, c: seq<IR.IndexReturns>)
    ensures LoadJsonData(R.CollectorRun(files, day, c).after) == c
  {
  }

  /** `loadPeDpData` of the page: the successes of fetching every code, `[]` when the sheet cannot be read. */
  method LoadPeDpData(sheet: Option<seq<seq<Cell>>>, outcome: nat -> R.Settled) returns (data: seq<CF.EtfResult>)
    ensures sheet.None? ==> data == []
    ensures sheet.Some? ==> data == R.Successes(outcome, |R.PeDpCodes(sheet.value)|)
    ensures forall x :: x in data ==> x.EtfOk?
  {
    if sheet.None? {
      return [];
    }
    var etfCodes := R.PeDpCodes(sheet.value);
    var successfulResults, failedResults := R.Partition(etfCodes, outcome);
    R.PartitionIff(etfCodes, outcome, |etfCodes|);
    data := successfulResults;
  }

  const OutputPath := "index-data-static.html"

  /** The index names and the PE/DP data the page is filled with. */
  function PageMapping(inputs: R.ReportInputs): map<string, Cell> {
    if inputs.indexSheet.None? then map[] else R.MappingOf(inputs.indexSheet.value)
  }

  function PagePeDp(inputs: R.ReportInputs): seq<CF.EtfResult> {
    if inputs.codeSheet.None? then [] else R.Successes(inputs.outcome, |R.PeDpCodes(inputs.codeSheet.value)|)
  }

  /** What `main` writes to `index-data-static.html`: nothing without data, without a page or with an empty one. */
  function StaticPage(files: map<string, R.ReturnsFile>, inputs: R.ReportInputs): Option<string> {
    var data := LoadJsonData(files);
    if data == [] then None
    else R.WrittenPage(R.PageOf(data, PageMapping(inputs), PagePeDp(inputs), inputs))
  }

  /** `main`: the data, the mapping, the PE/DP data and the page, in that order. */
  method GenerateStaticPage(files: map<string, R.ReturnsFile>, inputs: R.ReportInputs) returns (written: Option<string>)
    ensures written == StaticPage(files, inputs)
  {
    var jsonData := LoadJsonData(files);
    if |jsonData| == 0 {
      return None;
    }
    var indexMapping := R.LoadIndexList(inputs.indexSheet);
    var peDpData := LoadPeDpData(inputs.codeSheet, inputs.outcome);
    var tableRows := R.GenerateTableRows(jsonData);
    var htmlContent := R.GenerateHtml(inputs.template, tableRows, inputs.generationTime,
                                      inputs.showData(jsonData), inputs.showMapping(indexMapping), inputs.showPeDp(peDpData));
    if htmlContent.None? || htmlContent.value == "" {
      return None;
    }
    written := htmlContent;
  }

  /**
   * A page is written iff the collection file holds at least one index, the
   * template is a non-empty text and the filled page is not empty.
   */
  lemma PageNeedsDataAndTemplate(files: map<string, R.ReturnsFile>, inputs: R.ReportInputs)
    ensures StaticPage(files, inputs).Some? <==>
      IR.DefaultPath in files && files[IR.DefaultPath].ReturnsSaved? && files[IR.DefaultPath].items != []
      && inputs.template.Some? && inputs.template.value != ""
      && R.Fill(inputs.template.value, R.Concat(R.RowList(files[IR.DefaultPath].items)), inputs.generationTime,
                inputs.showData(files[IR.DefaultPath].items), inputs.showMapping(PageMapping(inputs)),
                inputs.showPeDp(PagePeDp(inputs))) != ""
  {
  }

  /** Indexes without records, in a template that is only the table placeholder, give an empty page: nothing is written. */
  lemma EmptyPageIsNotWritten(files: map<string, R.ReturnsFile>, inputs: R.ReportInputs)
    requires IR.DefaultPath in files && files[IR.DefaultPath].ReturnsSaved? && files[IR.DefaultPath].items != []
    requires forall k :: 0 <= k < |files[IR.DefaultPath].items| ==> files[IR.DefaultPath].items[k].data == []
    requires inputs.template == Some(R.TableRowsMark)
    ensures StaticPage(files, inputs).None?
  {
    var data := files[IR.DefaultPath].items;
    R.RowListOfEmptyItems(data);
    R.BareTableMarkEmptyPage(inputs.generationTime, inputs.showData(data), inputs.showMapping(PageMapping(inputs)),
                             inputs.showPeDp(PagePeDp(inputs)));
  }
}
