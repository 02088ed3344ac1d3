/**
 * `extract_table_data`, with the PDF already opened: a document is the
 * sequence of its pages, each the text pdfplumber extracts (nothing, when
 * the page has none) and the tables it finds. Each page is filed under the
 * first statement whose keywords its text holds, and that bucket is
 * extended with the records of the page's tables.
 */
module Extraction {
  import opened Wrappers
  import opened Seqs
  import opened PageClassifier
  import opened TableProcessor

  datatype Page = Page(text: Option<string>, tables: seq<Table>)

  /** The dictionary `extracted_data`, whose three keys are always present. */
  datatype ExtractedData = ExtractedData(balanceSheet: seq<Record>, profitLoss: seq<Record>, cashFlow: seq<Record>)

  /**
   * A page without text makes `text.lower()` raise; the handler logs and
   * re-raises, so the caller gets the exception and no data.
   */
  datatype ExtractionError = PageWithoutText

  /** The records of all of a page's tables, in table order. */
  function PageRecords(page: Page): seq<Record> {
    FlatMap(TableRecords, page.tables)
  }

  /** Adds one page's records to the bucket its text selects. */
  function File(data: ExtractedData, text: string, records: seq<Record>): ExtractedData {
    match Classify(text)
    case Some(BalanceSheet) => data.(balanceSheet := data.balanceSheet + records)
    case Some(ProfitLoss) => data.(profitLoss := data.profitLoss + records)
    case Some(CashFlow) => data.(cashFlow := data.cashFlow + records)
    case None => data
  }

  /** What `extract_table_data` returns or raises for the given pages. */
  function Extract(pages: seq<Page>): Result<ExtractedData, ExtractionError> {
    if pages == [] then Ok(ExtractedData([], [], []))
    else
      var last := pages[|pages| - 1];
      match Extract(pages[..|pages| - 1])
      case Err(e) => Err(e)
      case Ok(data) =>
        if last.text.None? then Err(PageWithoutText)
        else Ok(File(data, last.text.value, PageRecords(last)))
  }

  /** `extract_table_data(pdf_path)`. */
  method ExtractTableData(pages: seq<Page>) returns (result: Result<ExtractedData, ExtractionError>)
    ensures result == Extract(pages)
  {
    var data := ExtractedData([], [], []);
    var k := 0;
    while k < |pages|
      invariant 0 <= k <= |pages|
      invariant Extract(pages[..k]) == Ok(data)
    {
      var page := pages[k];
      assert pages[..k + 1][..k] == pages[..k];
      if page.text.None? {
        ExtractErrPersists(pages, k + 1);
        return Err(PageWithoutText);
      }
      data := FilePage(data, page.text.value, page.tables);
      k := k + 1;
    }
    assert pages[..|pages|] == pages;
    return Ok(data);
  }

  /** The `if` / `elif` / `elif` body for one page with text. */
  method FilePage(data: ExtractedData, text: string, tables: seq<Table>) returns (data': ExtractedData)
    ensures data' == File(data, text, FlatMap(TableRecords, tables))
  {
    data' := data;
    if IsBalanceSheetPage(text) {
      var bucket := ExtendWithTables(data.balanceSheet, tables);
      data' := data.(balanceSheet := bucket);
    } else if IsProfitLossPage(text) {
      var bucket := ExtendWithTables(data.profitLoss, tables);
      data' := data.(profitLoss := bucket);
    } else if IsCashFlowPage(text) {
      var bucket := ExtendWithTables(data.cashFlow, tables);
      data' := data.(cashFlow := bucket);
    }
  }

  /** The `for table in tables: ... .extend(data)` loop of one branch. */
  method ExtendWithTables(bucket: seq<Record>, tables: seq<Table>) returns (extended: seq<Record>)
    ensures extended == bucket + FlatMap(TableRecords, tables)
  {
    extended := bucket;
    var j := 0;
    while j < |tables|
      invariant 0 <= j <= |tables|
      invariant extended == bucket + FlatMap(TableRecords, tables[..j])
    {
      FlatMapPrefix(TableRecords, tables, j);
      var data := ProcessTable(tables[j]);
      AppendAssoc(bucket, FlatMap(TableRecords, tables[..j]), data);
      extended := extended + data;
      j := j + 1;
    }
    assert tables[..|tables|] == tables;
  }

  /** Once a prefix of the pages raises, the whole walk raises. */
  lemma {:induction false} ExtractErrPersists(pages: seq<Page>, k: nat)
    requires k <= |pages| && Extract(pages[..k]).Err?
    ensures Extract(pages) == Extract(pages[..k])
    decreases |pages| - k
  {
    if k < |pages| {
      assert pages[..k + 1][..k] == pages[..k];
      ExtractErrPersists(pages, k + 1);
    } else {
      assert pages[..k] == pages;
    }
  }

  /** The walk raises exactly when some page has no text. */
  lemma {:induction false} ExtractErrIff(pages: seq<Page>)
    ensures Extract(pages).Err? <==> exists k :: 0 <= k < |pages| && pages[k].text.None?
  {
    if pages != [] {
      var init := pages[..|pages| - 1];
      ExtractErrIff(init);
      assert forall k :: 0 <= k < |init| ==> init[k] == pages[k];
    }
  }

  /** The records a page adds to the bucket of `section`: all of its records if its text selects that bucket, none otherwise. */
  function SectionRecords(section: Section, page: Page): seq<Record> {
    if page.text.Some? && Classify(page.text.value) == Some(section) then PageRecords(page) else []
  }

  function BalanceSheetRecords(page: Page): seq<Record> {
    SectionRecords(BalanceSheet, page)
  }

  function ProfitLossRecords(page: Page): seq<Record> {
    SectionRecords(ProfitLoss, page)
  }

  function CashFlowRecords(page: Page): seq<Record> {
    SectionRecords(CashFlow, page)
  }

  /**
   * When the walk succeeds, each bucket is the concatenation, in page
   * order, of the records of exactly the pages filed under it.
   */
  lemma {:induction false} ExtractBuckets(pages: seq<Page>)
    requires Extract(pages).Ok?
    ensures Extract(pages).value.balanceSheet == FlatMap(BalanceSheetRecords, pages)
    ensures Extract(pages).value.profitLoss == FlatMap(ProfitLossRecords, pages)
    ensures Extract(pages).value.cashFlow == FlatMap(CashFlowRecords, pages)
  {
    if pages != [] {
      var init := pages[..|pages| - 1];
      ExtractBuckets(init);
      FileSections(Extract(init).value, pages[|pages| - 1]);
    }
  }

  /** Filing one page extends each bucket by that page's records for it. */
  lemma FileSections(data: ExtractedData, page: Page)
    requires page.text.Some?
    ensures File(data, page.text.value, PageRecords(page)).balanceSheet == data.balanceSheet + BalanceSheetRecords(page)
    ensures File(data, page.text.value, PageRecords(page)).profitLoss == data.profitLoss + ProfitLossRecords(page)
    ensures File(data, page.text.value, PageRecords(page)).cashFlow == data.cashFlow + CashFlowRecords(page)
  {
  }

  /** A page claimed by one statement contributes to no other bucket. */
  lemma AtMostOneBucket(page: Page)
    ensures BalanceSheetRecords(page) == [] || (ProfitLossRecords(page) == [] && CashFlowRecords(page) == [])
    ensures ProfitLossRecords(page) == [] || CashFlowRecords(page) == []
  {
  }

  /** Every page with text puts all of its records in the buckets, and a page no statement claims puts in none. */
  lemma PageContribution(page: Page)
    requires page.text.Some?
    ensures BalanceSheetRecords(page) + ProfitLossRecords(page) + CashFlowRecords(page) ==
            if Classify(page.text.value).Some? then PageRecords(page) else []
  {
    var r := PageRecords(page);
    match Classify(page.text.value)
    case Some(BalanceSheet) =>
      assert BalanceSheetRecords(page) == r && ProfitLossRecords(page) == [] && CashFlowRecords(page) == [];
      assert r + [] + [] == r;
    case Some(ProfitLoss) =>
      assert BalanceSheetRecords(page) == [] && ProfitLossRecords(page) == r && CashFlowRecords(page) == [];
      assert [] + r + [] == r;
    case Some(CashFlow) =>
      assert BalanceSheetRecords(page) == [] && ProfitLossRecords(page) == [] && CashFlowRecords(page) == r;
      assert [] + [] + r == r;
    case None =>
      assert BalanceSheetRecords(page) == [] && ProfitLossRecords(page) == [] && CashFlowRecords(page) == [];
  }
}
