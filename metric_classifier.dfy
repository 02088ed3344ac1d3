/**
 * `BalanceSheetParser.metric_mappings` and `_find_metric_type`: a row label
 * is lower-cased and classified as the first metric type, in mapping order,
 * one of whose keywords occurs in it.
 */
module MetricClassifier {
  import opened Wrappers
  import opened Text

  /** The keys of `metric_mappings`, in declaration order. */
  datatype MetricType =
    | TotalAssets
    | TotalLiabilities
    | TotalEquity
    | Revenue
    | NetProfit
    | CashFlow
    | CurrentAssets
    | NonCurrentAssets
    | CurrentLiabilities
    | NonCurrentLiabilities

  /** The key string under which a metric type is stored. */
  function Key(m: MetricType): string {
    match m
    case TotalAssets => "total_assets"
    case TotalLiabilities => "total_liabilities"
    case TotalEquity => "total_equity"
    case Revenue => "revenue"
    case NetProfit => "net_profit"
    case CashFlow => "cash_flow"
    case CurrentAssets => "current_assets"
    case NonCurrentAssets => "non_current_assets"
    case CurrentLiabilities => "current_liabilities"
    case NonCurrentLiabilities => "non_current_liabilities"
  }

  /** One entry of the mapping: a metric type and its lower-case keywords. */
  datatype Mapping = Mapping(metric: MetricType, keywords: seq<string>)

  /** `metric_mappings`, in dictionary (insertion) order. */
  const MetricMappings: seq<Mapping> := [
    Mapping(TotalAssets, ["total assets", "total asset"]),
    Mapping(TotalLiabilities, ["total liabilities", "total liability"]),
    Mapping(TotalEquity, ["total equity", "shareholders equity", "shareholder equity"]),
    Mapping(Revenue, ["revenue", "total revenue", "sales"]),
    Mapping(NetProfit, ["net profit", "net income", "profit after tax"]),
    Mapping(CashFlow, ["cash flow", "net cash flow"]),
    Mapping(CurrentAssets, ["current assets"]),
    Mapping(NonCurrentAssets, ["non-current assets", "non current assets"]),
    Mapping(CurrentLiabilities, ["current liabilities"]),
    Mapping(NonCurrentLiabilities, ["non-current liabilities", "non current liabilities"])
  ]

  /** The entry at position `k` is the first whose keywords occur in `text`. */
  predicate FirstMatchAt(text: string, entries: seq<Mapping>, k: int) {
    0 <= k < |entries| && ContainsAny(text, entries[k].keywords) &&
    forall j :: 0 <= j < k ==> !ContainsAny(text, entries[j].keywords)
  }

  /** The `for ... in items(): if any(...): return` search over `entries`. */
  function FirstMatch(text: string, entries: seq<Mapping>): (r: Option<MetricType>)
    ensures r.None? <==> forall k :: 0 <= k < |entries| ==> !ContainsAny(text, entries[k].keywords)
    ensures r.Some? ==> exists k :: FirstMatchAt(text, entries, k) && entries[k].metric == r.value
    ensures forall k :: FirstMatchAt(text, entries, k) ==> r == Some(entries[k].metric)
  {
    if entries == [] then None
    else if ContainsAny(text, entries[0].keywords) then
      assert FirstMatchAt(text, entries, 0);
      Some(entries[0].metric)
    else
      var r := FirstMatch(text, entries[1..]);
      assert forall k :: 1 <= k < |entries| ==> entries[k] == entries[1..][k - 1];
      assert forall k :: FirstMatchAt(text, entries, k) ==> k >= 1 && FirstMatchAt(text, entries[1..], k - 1);
      if r.Some? then
        var k :| FirstMatchAt(text, entries[1..], k) && entries[1..][k].metric == r.value;
        assert FirstMatchAt(text, entries, k + 1);
        r
      else
        r
  }

  /** `_find_metric_type(metric_name)`. */
  function FindMetricType(name: string): (r: Option<MetricType>)
    ensures r.None? <==> forall k :: 0 <= k < |MetricMappings| ==> !ContainsAny(Lower(name), MetricMappings[k].keywords)
    ensures r.Some? ==> exists k :: FirstMatchAt(Lower(name), MetricMappings, k) && MetricMappings[k].metric == r.value
  {
    FirstMatch(Lower(name), MetricMappings)
  }

  /** Classification ignores letter case: the label is lower-cased first. */
  lemma FindMetricTypeIgnoresCase(a: string, b: string)
    requires Lower(a) == Lower(b)
    ensures FindMetricType(a) == FindMetricType(b)
  {
  }

  /** Lower-casing a label beforehand changes nothing. */
  lemma FindMetricTypeOfLower(name: string)
    ensures FindMetricType(Lower(name)) == FindMetricType(name)
  {
    LowerIdempotent(name);
  }

  /** A label classified as `m` holds one of `m`'s keywords, in some letter case. */
  lemma FindMetricTypeSound(name: string)
    requires FindMetricType(name).Some?
    ensures exists k :: 0 <= k < |MetricMappings| && MetricMappings[k].metric == FindMetricType(name).value &&
                        ContainsAny(Lower(name), MetricMappings[k].keywords)
  {
  }

  /** Both spellings of the non-current-assets keyword carry "current assets" from position 4 on. */
  lemma NonCurrentAssetsSpellings()
    ensures OccursAt("non-current assets", "current assets", 4)
    ensures OccursAt("non current assets", "current assets", 4)
  {
  }

  /** Both spellings of the non-current-liabilities keyword carry "current liabilities" from position 4 on. */
  lemma NonCurrentLiabilitiesSpellings()
    ensures OccursAt("non-current liabilities", "current liabilities", 4)
    ensures OccursAt("non current liabilities", "current liabilities", 4)
  {
  }

  lemma CurrentKeywords()
    ensures MetricMappings[6].keywords == ["current assets"]
    ensures MetricMappings[7].keywords == ["non-current assets", "non current assets"]
    ensures MetricMappings[8].keywords == ["current liabilities"]
    ensures MetricMappings[9].keywords == ["non-current liabilities", "non current liabilities"]
  {
  }

  /** A text holding either spelling of a non-current keyword holds the current keyword `c` inside it. */
  lemma KeywordInside(text: string, hyphen: string, spaced: string, c: string)
    requires OccursAt(hyphen, c, 4) && OccursAt(spaced, c, 4)
    requires ContainsAny(text, [hyphen, spaced])
    ensures ContainsAny(text, [c])
  {
    var i :| 0 <= i < 2 && Contains(text, [hyphen, spaced][i]);
    var nc := [hyphen, spaced][i];
    ContainsWitness(nc, c, 4);
    ContainsTransitive(text, nc, c);
    assert Contains(text, [c][0]);
  }

  /** A label holding a non-current-assets keyword also holds "current assets". */
  lemma NonCurrentAssetsKeyword(text: string)
    requires ContainsAny(text, MetricMappings[Position(NonCurrentAssets)].keywords)
    ensures ContainsAny(text, MetricMappings[Position(CurrentAssets)].keywords)
  {
    CurrentKeywords();
    NonCurrentAssetsSpellings();
    KeywordInside(text, "non-current assets", "non current assets", "current assets");
  }

  /** A label holding a non-current-liabilities keyword also holds "current liabilities". */
  lemma NonCurrentLiabilitiesKeyword(text: string)
    requires ContainsAny(text, MetricMappings[Position(NonCurrentLiabilities)].keywords)
    ensures ContainsAny(text, MetricMappings[Position(CurrentLiabilities)].keywords)
  {
    CurrentKeywords();
    NonCurrentLiabilitiesSpellings();
    KeywordInside(text, "non-current liabilities", "non current liabilities", "current liabilities");
  }

  /**
   * Every keyword of the non-current metrics contains "current assets" or
   * "current liabilities", which the current-metric entries just before
   * them test first, so those two metric types are never returned.
   */
  lemma NonCurrentUnreachable(name: string)
    ensures FindMetricType(name) != Some(NonCurrentAssets)
    ensures FindMetricType(name) != Some(NonCurrentLiabilities)
  {
    if FindMetricType(name) == Some(NonCurrentAssets) {
      MatchedEntry(name, NonCurrentAssets);
      NonCurrentAssetsKeyword(Lower(name));
    }
    if FindMetricType(name) == Some(NonCurrentLiabilities) {
      MatchedEntry(name, NonCurrentLiabilities);
      NonCurrentLiabilitiesKeyword(Lower(name));
    }
  }

  /** A label is classified as `m` exactly when `m`'s entry is the first whose keywords it holds. */
  lemma FindMetricTypeIff(name: string, m: MetricType)
    ensures FindMetricType(name) == Some(m) <==> FirstMatchAt(Lower(name), MetricMappings, Position(m))
  {
    if FindMetricType(name) == Some(m) {
      MatchedEntry(name, m);
    }
    if FirstMatchAt(Lower(name), MetricMappings, Position(m)) {
      PositionOf(Position(m));
    }
  }

  /** The position of each metric type in `metric_mappings`. */
  function Position(m: MetricType): nat {
    match m
    case TotalAssets => 0
    case TotalLiabilities => 1
    case TotalEquity => 2
    case Revenue => 3
    case NetProfit => 4
    case CashFlow => 5
    case CurrentAssets => 6
    case NonCurrentAssets => 7
    case CurrentLiabilities => 8
    case NonCurrentLiabilities => 9
  }

  /** Each metric type has exactly one entry in the mapping, found at its position. */
  lemma PositionOf(k: int)
    requires 0 <= k < |MetricMappings|
    ensures Position(MetricMappings[k].metric) == k
  {
  }

  /** The entry a classification comes from. */
  lemma MatchedEntry(name: string, m: MetricType)
    requires FindMetricType(name) == Some(m)
    ensures FirstMatchAt(Lower(name), MetricMappings, Position(m))
  {
    var k :| FirstMatchAt(Lower(name), MetricMappings, k) && MetricMappings[k].metric == m;
    PositionOf(k);
  }

  /** No keyword longer than the text can occur in it. */
  lemma ShorterThanKeywords(text: string, kws: seq<string>)
    requires forall i :: 0 <= i < |kws| ==> |text| < |kws[i]|
    ensures !ContainsAny(text, kws)
  {
  }

  /*
   * The labels the parser's own smoke test classifies. Each example takes
   * any label with the given lower-case form, so nothing has to be
   * evaluated on a literal.
   */

  lemma ExampleTotalAssets(name: string)
    requires Lower(name) == "total assets"
    ensures FindMetricType(name) == Some(TotalAssets)
  {
    var text := Lower(name);
    ContainsWitness(text, "total assets", 0);
    assert MetricMappings[0].keywords[0] == "total assets";
    assert FirstMatchAt(text, MetricMappings, 0);
  }

  lemma ExampleRevenue(name: string)
    requires Lower(name) == "revenue"
    ensures FindMetricType(name) == Some(Revenue)
  {
    var text := Lower(name);
    EarlierKeywordsTooLong(text);
    ContainsWitness(text, "revenue", 0);
    RevenueKeywordsAt(text);
    FindMetricTypeIff(name, Revenue);
  }

  lemma RevenueKeywordsAt(text: string)
    requires Contains(text, "revenue")
    ensures ContainsAny(text, MetricMappings[3].keywords)
  {
    assert MetricMappings[3].keywords[0] == "revenue";
  }

  lemma ExampleNetProfit(name: string)
    requires Lower(name) == "net profit"
    ensures FindMetricType(name) == Some(NetProfit)
  {
    var text := Lower(name);
    EarlierKeywordsTooLong(text);
    NoRevenueKeyword(text);
    ContainsWitness(text, "net profit", 0);
    NetProfitKeywordsAt(text);
    FindMetricTypeIff(name, NetProfit);
  }

  /** A text of at most ten characters holds none of the keywords of the first three entries. */
  lemma EarlierKeywordsTooLong(text: string)
    requires |text| <= 10
    ensures forall j :: 0 <= j < 3 ==> !ContainsAny(text, MetricMappings[j].keywords)
  {
    ShorterThanKeywords(text, MetricMappings[0].keywords);
    ShorterThanKeywords(text, MetricMappings[1].keywords);
    ShorterThanKeywords(text, MetricMappings[2].keywords);
  }

  lemma NoRevenueKeyword(text: string)
    requires 'v' !in text && 'l' !in text
    ensures !ContainsAny(text, MetricMappings[3].keywords)
  {
    MissingCharNotContained(text, "revenue", 2);
    MissingCharNotContained(text, "total revenue", 4);
    MissingCharNotContained(text, "sales", 2);
  }

  lemma NetProfitKeywordsAt(text: string)
    requires Contains(text, "net profit")
    ensures ContainsAny(text, MetricMappings[4].keywords)
  {
    assert MetricMappings[4].keywords[0] == "net profit";
  }
}
