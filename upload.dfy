/**
 * `/upload`: the checks on the uploaded file, then parsing and storing one
 * balance-sheet entry per extracted record. The company is given by its id
 * (its lookup or creation is a database query), and the stored PDF is
 * given as the pages the parser would read from it.
 */
module Upload {
  import opened Wrappers
  import opened Text
  import opened Seqs
  import MetricClassifier
  import opened TableProcessor
  import opened Extraction

  /** `max_file_size` of the settings: 10 MB. */
  const MaxFileSize: nat := 10 * 1024 * 1024

  datatype UploadError = NotPdf | FileTooLarge | ProcessingFailed

  function StatusCode(e: UploadError): int {
    match e
    case NotPdf => 400
    case FileTooLarge => 400
    case ProcessingFailed => 500
  }

  /** The two guards, in order: the name must end in ".pdf" in any letter case, then the size may not exceed the limit. */
  function CheckFile(filename: string, size: int): (r: Result<(), UploadError>)
    ensures r.Ok? <==> EndsWith(Lower(filename), ".pdf") && size <= MaxFileSize
    ensures r == Err(NotPdf) <==> !EndsWith(Lower(filename), ".pdf")
  {
    if !EndsWith(Lower(filename), ".pdf") then Err(NotPdf)
    else if size > MaxFileSize then Err(FileTooLarge)
    else Ok(())
  }

  /** The size limit is inclusive: exactly 10 MB is accepted, one byte more is refused. */
  lemma SizeLimitBoundary(filename: string)
    requires EndsWith(Lower(filename), ".pdf")
    ensures CheckFile(filename, 10485760).Ok?
    ensures CheckFile(filename, 10485761) == Err(FileTooLarge)
  {
  }

  /** The extension test ignores letter case. */
  lemma ExampleUpperCaseExtension(filename: string)
    requires Lower(filename) == "annual_report.pdf"
    ensures CheckFile(filename, 0).Ok?
  {
    var l := Lower(filename);
    EndsWithIff(l, ".pdf");
    assert l[|l| - 4..] == ".pdf";
  }

  /** A name without the extension is refused whatever the size. */
  lemma ShortNameRefused(filename: string, size: int)
    requires |filename| < 4
    ensures CheckFile(filename, size) == Err(NotPdf)
  {
  }

  /** A row of `balance_sheet_entries`. */
  datatype StoredEntry = StoredEntry(companyId: int, fiscalYear: string, metricType: string, value: real, description: string)

  /** `BalanceSheetEntry(company_id=..., fiscal_year=..., metric_type=..., value=..., description=...)`. */
  function Stored(companyId: int, r: Record): StoredEntry {
    StoredEntry(companyId, r.fiscalYear, MetricClassifier.Key(r.metricType), r.value, r.description)
  }

  function StoredAll(companyId: int, records: seq<Record>): (s: seq<StoredEntry>)
    ensures |s| == |records|
    ensures forall i :: 0 <= i < |records| ==> s[i] == Stored(companyId, records[i])
  {
    seq(|records|, i requires 0 <= i < |records| => Stored(companyId, records[i]))
  }

  /** `extracted_data.values()`, in the dictionary's order. */
  function Sections(data: ExtractedData): seq<seq<Record>> {
    [data.balanceSheet, data.profitLoss, data.cashFlow]
  }

  /** The records one value of `extracted_data` contributes: all of them, as they are. */
  function SectionRecords(section: seq<Record>): seq<Record> {
    section
  }

  /** `[entry for entries in extracted_data.values() for entry in entries]`. */
  function AllRecords(data: ExtractedData): seq<Record> {
    FlatMap(SectionRecords, Sections(data))
  }

  /** The comprehension walks the balance sheet, then profit and loss, then cash flow. */
  lemma AllRecordsInOrder(data: ExtractedData)
    ensures AllRecords(data) == data.balanceSheet + data.profitLoss + data.cashFlow
  {
    var s := Sections(data);
    assert s[..0] == [] && s[..3] == s;
    FlatMapPrefix(SectionRecords, s, 0);
    FlatMapPrefix(SectionRecords, s, 1);
    FlatMapPrefix(SectionRecords, s, 2);
  }

  /** `extracted_entries` is the sum of the three bucket lengths. */
  lemma ExtractedEntriesCount(data: ExtractedData)
    ensures |AllRecords(data)| == |data.balanceSheet| + |data.profitLoss| + |data.cashFlow|
  {
    AllRecordsInOrder(data);
  }

  /** The table of stored entries. */
  class EntryStore {
    var entries: seq<StoredEntry>

    constructor()
      ensures entries == []
    {
      entries := [];
    }
  }

  /** A `RawDocument` row; `processed` is "pending", then "processed" or "failed". */
  class RawDocument {
    var companyId: int
    var fileName: string
    var processed: string

    constructor(companyId: int, fileName: string)
      ensures this.companyId == companyId && this.fileName == fileName && processed == "pending"
    {
      this.companyId := companyId;
      this.fileName := fileName;
      processed := "pending";
    }
  }

  lemma StoredAllConcat(companyId: int, a: seq<Record>, b: seq<Record>)
    ensures StoredAll(companyId, a + b) == StoredAll(companyId, a) + StoredAll(companyId, b)
  {
  }

  /** The `for section, entries in extracted_data.items()` loop. */
  method PersistEntries(store: EntryStore, companyId: int, data: ExtractedData)
    modifies store
    ensures store.entries == old(store.entries) + StoredAll(companyId, AllRecords(data))
  {
    var sections := Sections(data);
    var k := 0;
    while k < |sections|
      invariant 0 <= k <= |sections|
      invariant store.entries == old(store.entries) + StoredAll(companyId, FlatMap(SectionRecords, sections[..k]))
    {
      FlatMapPrefix(SectionRecords, sections, k);
      StoredAllConcat(companyId, FlatMap(SectionRecords, sections[..k]), sections[k]);
      PersistSection(store, companyId, sections[k]);
      k := k + 1;
    }
    assert sections[..|sections|] == sections;
  }

  /** The inner `for entry_data in entries: db.add(entry)` loop. */
  method PersistSection(store: EntryStore, companyId: int, section: seq<Record>)
    modifies store
    ensures store.entries == old(store.entries) + StoredAll(companyId, section)
  {
    var j := 0;
    while j < |section|
      invariant 0 <= j <= |section|
      invariant store.entries == old(store.entries) + StoredAll(companyId, section[..j])
    {
      assert section[..j + 1] == section[..j] + [section[j]];
      StoredAllConcat(companyId, section[..j], [section[j]]);
      store.entries := store.entries + [Stored(companyId, section[j])];
      j := j + 1;
    }
    assert section[..|section|] == section;
  }

  /**
   * `upload_pdf`. Refused files change nothing. An accepted file gets a
   * document; a parser failure marks it "failed" and stores nothing, and a
   * successful parse stores every record and reports how many.
   */
  method UploadPdf(store: EntryStore, filename: string, size: int, companyId: int, pages: seq<Page>)
    returns (result: Result<nat, UploadError>, document: RawDocument?)
    modifies store
    ensures CheckFile(filename, size).Err? ==>
              result == Err(CheckFile(filename, size).error) && document == null && store.entries == old(store.entries)
    ensures CheckFile(filename, size).Ok? ==>
              document != null && fresh(document) && document.fileName == filename && document.companyId == companyId
    ensures CheckFile(filename, size).Ok? && Extract(pages).Err? ==>
              result == Err(ProcessingFailed) && document != null && document.processed == "failed" &&
              store.entries == old(store.entries)
    ensures CheckFile(filename, size).Ok? && Extract(pages).Ok? ==>
              result == Ok(|AllRecords(Extract(pages).value)|) && document != null && document.processed == "processed" &&
              store.entries == old(store.entries) + StoredAll(companyId, AllRecords(Extract(pages).value))
  {
    var check := CheckFile(filename, size);
    if check.Err? {
      return Err(check.error), null;
    }
    document := new RawDocument(companyId, filename);
    var extracted := ExtractTableData(pages);
    if extracted.Err? {
      document.processed := "failed";
      return Err(ProcessingFailed), document;
    }
    PersistEntries(store, companyId, extracted.value);
    document.processed := "processed";
    result := Ok(|AllRecords(extracted.value)|);
  }

  /** One stored entry per extracted record, each under the metric name of its record's type. */
  lemma PersistedEntries(companyId: int, data: ExtractedData, i: int)
    requires 0 <= i < |AllRecords(data)|
    ensures |StoredAll(companyId, AllRecords(data))| == |data.balanceSheet| + |data.profitLoss| + |data.cashFlow|
    ensures StoredAll(companyId, AllRecords(data))[i].metricType == MetricClassifier.Key(AllRecords(data)[i].metricType)
    ensures StoredAll(companyId, AllRecords(data))[i].companyId == companyId
  {
    ExtractedEntriesCount(data);
  }
}
