/**
 * `get_relevant_data`: which metrics a question asks for, and how the
 * fetched entries are grouped into `data[metric][year]`. The query itself
 * is not modelled; its result is the sequence of entries it returns.
 */
module RelevantData {
  import opened Wrappers
  import opened Text
  import opened OrderedDict

  /** One `BalanceSheetEntry` row as the query returns it. */
  datatype Entry = Entry(metricType: string, fiscalYear: string, value: real, description: string)

  /** `{'value': ..., 'description': ...}`. */
  datatype Cell = Cell(value: real, description: string)

  /** `data[metric][year]`: metrics, then years, in insertion order. */
  type FinancialData = Dict<string, Dict<string, Cell>>

  /** A keyword group and the metric it selects. */
  datatype Group = Group(keywords: seq<string>, metric: string)

  /** The six `if any(word in question_lower ...)` tests, in source order. */
  const FetchGroups: seq<Group> := [
    Group(["profit", "income", "earnings"], "net_profit"),
    Group(["revenue", "sales", "income"], "revenue"),
    Group(["assets", "asset"], "total_assets"),
    Group(["liabilities", "liability", "debt"], "total_liabilities"),
    Group(["equity", "shareholder"], "total_equity"),
    Group(["cash", "flow"], "cash_flow")
  ]

  /** What is fetched when no keyword matches. */
  const DefaultMetrics: seq<string> := ["total_assets", "total_liabilities", "total_equity", "revenue", "net_profit"]

  /** The metrics of the groups whose keywords occur in `q`, in group order. */
  function Matching(q: string, groups: seq<Group>): seq<string> {
    if groups == [] then []
    else
      var last := groups[|groups| - 1];
      Matching(q, groups[..|groups| - 1]) + (if ContainsAny(q, last.keywords) then [last.metric] else [])
  }

  /** `metrics_to_fetch` for a question. */
  function MetricsToFetch(question: string): seq<string> {
    var selected := Matching(Lower(question), FetchGroups);
    if selected == [] then DefaultMetrics else selected
  }

  lemma MatchingPrefix(q: string, groups: seq<Group>, k: nat)
    requires k < |groups|
    ensures Matching(q, groups[..k + 1]) ==
            Matching(q, groups[..k]) + (if ContainsAny(q, groups[k].keywords) then [groups[k].metric] else [])
  {
    assert groups[..k + 1][..k] == groups[..k];
  }

  /**
   * The six `if any(...): metrics_to_fetch.append(...)` tests of
   * `get_relevant_data`, taken group by group in source order, then the
   * default when none matched.
   */
  method SelectMetrics(question: string) returns (metrics: seq<string>)
    ensures metrics == MetricsToFetch(question)
  {
    var q := Lower(question);
    metrics := [];
    var k := 0;
    while k < |FetchGroups|
      invariant 0 <= k <= |FetchGroups|
      invariant metrics == Matching(q, FetchGroups[..k])
    {
      MatchingPrefix(q, FetchGroups, k);
      if ContainsAny(q, FetchGroups[k].keywords) {
        metrics := metrics + [FetchGroups[k].metric];
      }
      k := k + 1;
    }
    assert FetchGroups[..|FetchGroups|] == FetchGroups;
    if metrics == [] {
      metrics := DefaultMetrics;
    }
  }

  lemma {:induction false} MatchingMembership(q: string, groups: seq<Group>, m: string)
    ensures m in Matching(q, groups) <==>
            exists k :: 0 <= k < |groups| && groups[k].metric == m && ContainsAny(q, groups[k].keywords)
  {
    if groups != [] {
      var init := groups[..|groups| - 1];
      MatchingMembership(q, init, m);
      assert forall k :: 0 <= k < |init| ==> init[k] == groups[k];
    }
  }

  lemma {:induction false} MatchingEmpty(q: string, groups: seq<Group>)
    ensures Matching(q, groups) == [] <==> forall k :: 0 <= k < |groups| ==> !ContainsAny(q, groups[k].keywords)
  {
    if groups != [] {
      var init := groups[..|groups| - 1];
      MatchingEmpty(q, init);
      assert forall k :: 0 <= k < |init| ==> init[k] == groups[k];
    }
  }

  /**
   * A metric is fetched exactly when one of its keyword groups matches, or
   * when no group matches and it is one of the five defaults.
   */
  lemma MetricsToFetchMembership(question: string, m: string)
    ensures m in MetricsToFetch(question) <==>
            (exists k :: 0 <= k < |FetchGroups| && FetchGroups[k].metric == m && ContainsAny(Lower(question), FetchGroups[k].keywords)) ||
            ((forall k :: 0 <= k < |FetchGroups| ==> !ContainsAny(Lower(question), FetchGroups[k].keywords)) && m in DefaultMetrics)
  {
    MatchingMembership(Lower(question), FetchGroups, m);
    MatchingEmpty(Lower(question), FetchGroups);
  }

  /** "income" is a keyword of two groups, so it fetches both net profit and revenue. */
  lemma IncomeSelectsProfitAndRevenue(question: string)
    requires Contains(Lower(question), "income")
    ensures "net_profit" in MetricsToFetch(question) && "revenue" in MetricsToFetch(question)
  {
    var q := Lower(question);
    assert FetchGroups[0].keywords[1] == "income" && FetchGroups[1].keywords[2] == "income";
    assert ContainsAny(q, FetchGroups[0].keywords) && ContainsAny(q, FetchGroups[1].keywords);
    MetricsToFetchMembership(question, "net_profit");
    MetricsToFetchMembership(question, "revenue");
  }

  predicate NoDuplicates(xs: seq<string>) {
    forall i, j :: 0 <= i < j < |xs| ==> xs[i] != xs[j]
  }

  lemma {:induction false} MatchingNoDuplicates(q: string, groups: seq<Group>)
    requires forall i, j :: 0 <= i < j < |groups| ==> groups[i].metric != groups[j].metric
    ensures NoDuplicates(Matching(q, groups))
  {
    if groups != [] {
      var init := groups[..|groups| - 1];
      var last := groups[|groups| - 1];
      MatchingNoDuplicates(q, init);
      MatchingMembership(q, init, last.metric);
    }
  }

  /** Some metric is always fetched, and none twice. */
  lemma MetricsToFetchWellFormed(question: string)
    ensures MetricsToFetch(question) != [] && NoDuplicates(MetricsToFetch(question))
  {
    MatchingNoDuplicates(Lower(question), FetchGroups);
  }

  /** The empty dictionary `data[metric]` starts from when the metric is new. */
  function MetricData(data: FinancialData, metric: string): Dict<string, Cell> {
    match Get(data, metric)
    case Some(d) => d
    case None => []
  }

  /** One iteration of the grouping loop. */
  function AddEntry(data: FinancialData, e: Entry): FinancialData {
    Put(data, e.metricType, Put(MetricData(data, e.metricType), e.fiscalYear, Cell(e.value, e.description)))
  }

  /** The dictionary the grouping loop builds from the entries. */
  function Grouped(entries: seq<Entry>): FinancialData {
    if entries == [] then [] else AddEntry(Grouped(entries[..|entries| - 1]), entries[|entries| - 1])
  }

  lemma GroupedPrefix(entries: seq<Entry>, k: nat)
    requires k < |entries|
    ensures Grouped(entries[..k + 1]) == AddEntry(Grouped(entries[..k]), entries[k])
  {
    assert entries[..k + 1][..k] == entries[..k];
  }

  /** The `for entry in entries` loop of `get_relevant_data`. */
  method GroupEntries(entries: seq<Entry>) returns (data: FinancialData)
    ensures data == Grouped(entries)
  {
    data := [];
    var k := 0;
    while k < |entries|
      invariant 0 <= k <= |entries|
      invariant data == Grouped(entries[..k])
    {
      GroupedPrefix(entries, k);
      data := StoreEntry(data, entries[k]);
      k := k + 1;
    }
    assert entries[..|entries|] == entries;
  }

  /** The loop body: create `data[metric]` when it is new, then set `data[metric][year]`. */
  method StoreEntry(data: FinancialData, entry: Entry) returns (data': FinancialData)
    ensures data' == AddEntry(data, entry)
  {
    data' := data;
    if Get(data', entry.metricType).None? {
      data' := Put(data', entry.metricType, []);
      GetPutSame(data, entry.metricType, []);
    }
    var metricData := Get(data', entry.metricType).value;
    var updated := Put(metricData, entry.fiscalYear, Cell(entry.value, entry.description));
    if Get(data, entry.metricType).None? {
      PutPut(data, entry.metricType, [], updated);
    }
    data' := Put(data', entry.metricType, updated);
  }

  /** `data[metric][year]`, if both keys are present. */
  function Lookup(data: FinancialData, metric: string, year: string): Option<Cell> {
    match Get(data, metric)
    case Some(d) => Get(d, year)
    case None => None
  }

  predicate IsFor(e: Entry, metric: string, year: string) {
    e.metricType == metric && e.fiscalYear == year
  }

  lemma LookupAddEntry(data: FinancialData, e: Entry, metric: string, year: string)
    ensures Lookup(AddEntry(data, e), metric, year) ==
            if IsFor(e, metric, year) then Some(Cell(e.value, e.description)) else Lookup(data, metric, year)
  {
    var inner := Put(MetricData(data, e.metricType), e.fiscalYear, Cell(e.value, e.description));
    if e.metricType == metric {
      GetPutSame(data, metric, inner);
      if e.fiscalYear == year {
        GetPutSame(MetricData(data, metric), year, Cell(e.value, e.description));
      } else {
        GetPutOther(MetricData(data, metric), e.fiscalYear, Cell(e.value, e.description), year);
      }
    } else {
      GetPutOther(data, e.metricType, inner, metric);
    }
  }

  /** Entry `i` is the last one for `(metric, year)`. */
  predicate LastFor(entries: seq<Entry>, i: int, metric: string, year: string) {
    0 <= i < |entries| && IsFor(entries[i], metric, year) &&
    forall j :: i < j < |entries| ==> !IsFor(entries[j], metric, year)
  }

  /** `data[metric][year]` holds the last entry for that metric and year. */
  lemma {:induction false} GroupedLastWins(entries: seq<Entry>, i: int, metric: string, year: string)
    requires LastFor(entries, i, metric, year)
    ensures Lookup(Grouped(entries), metric, year) == Some(Cell(entries[i].value, entries[i].description))
  {
    var n := |entries| - 1;
    var init := entries[..n];
    LookupAddEntry(Grouped(init), entries[n], metric, year);
    if i < n {
      LastForPrefix(entries, i, metric, year);
      GroupedLastWins(init, i, metric, year);
    }
  }

  lemma LastForPrefix(entries: seq<Entry>, i: int, metric: string, year: string)
    requires LastFor(entries, i, metric, year) && i < |entries| - 1
    ensures LastFor(entries[..|entries| - 1], i, metric, year)
  {
    var init := entries[..|entries| - 1];
    forall j | i < j < |init|
      ensures !IsFor(init[j], metric, year)
    {
      assert init[j] == entries[j];
    }
  }

  lemma {:induction false} GroupedNone(entries: seq<Entry>, metric: string, year: string)
    requires forall i :: 0 <= i < |entries| ==> !IsFor(entries[i], metric, year)
    ensures Lookup(Grouped(entries), metric, year).None?
  {
    if entries != [] {
      var n := |entries| - 1;
      var init := entries[..n];
      LookupAddEntry(Grouped(init), entries[n], metric, year);
      forall i | 0 <= i < n
        ensures !IsFor(init[i], metric, year)
      {
        assert init[i] == entries[i];
      }
      GroupedNone(init, metric, year);
    }
  }

  /** Among entries for `(metric, year)` there is a last one. */
  lemma {:induction false} LastExists(entries: seq<Entry>, i: int, metric: string, year: string) returns (last: int)
    requires 0 <= i < |entries| && IsFor(entries[i], metric, year)
    ensures LastFor(entries, last, metric, year)
    decreases |entries| - i
  {
    if exists j :: i < j < |entries| && IsFor(entries[j], metric, year) {
      var j :| i < j < |entries| && IsFor(entries[j], metric, year);
      last := LastExists(entries, j, metric, year);
    } else {
      last := i;
    }
  }

  /** And `data[metric][year]` is absent exactly when no entry is for that metric and year. */
  lemma GroupedAbsent(entries: seq<Entry>, metric: string, year: string)
    ensures Lookup(Grouped(entries), metric, year).None? <==>
            forall i :: 0 <= i < |entries| ==> !IsFor(entries[i], metric, year)
  {
    if exists i :: 0 <= i < |entries| && IsFor(entries[i], metric, year) {
      var i :| 0 <= i < |entries| && IsFor(entries[i], metric, year);
      var last := LastExists(entries, i, metric, year);
      GroupedLastWins(entries, last, metric, year);
    } else {
      GroupedNone(entries, metric, year);
    }
  }

  /** The metrics of the entries, each at its first appearance. */
  function FirstOccurrences(entries: seq<Entry>): seq<string> {
    if entries == [] then []
    else
      var before := FirstOccurrences(entries[..|entries| - 1]);
      var m := entries[|entries| - 1].metricType;
      if m in before then before else before + [m]
  }

  /** The metric keys are in the order the metrics first appear among the entries. */
  lemma {:induction false} GroupedKeys(entries: seq<Entry>)
    ensures Keys(Grouped(entries)) == FirstOccurrences(entries)
  {
    if entries != [] {
      GroupedKeys(entries[..|entries| - 1]);
    }
  }
}
