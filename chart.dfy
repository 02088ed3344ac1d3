/**
 * `generate_chart_data`: a chart of every metric of the grouped data over
 * the sorted union of their years.
 */
module ChartBuilder {
  import opened Wrappers
  import opened Text
  import opened OrderedDict
  import opened StringOrder
  import opened RelevantData

  datatype ChartKind = Line | Bar

  const TrendKeywords: seq<string> := ["trend", "over time", "growth", "change"]

  const CompareKeywords: seq<string> := ["compare", "vs", "versus"]

  /** The chart type a question asks for: a trend word wins over a comparison word, and a line is the default. */
  function ChartType(question: string): (k: ChartKind)
    ensures k == Bar <==> !ContainsAny(Lower(question), TrendKeywords) && ContainsAny(Lower(question), CompareKeywords)
  {
    var q := Lower(question);
    if ContainsAny(q, TrendKeywords) then Line
    else if ContainsAny(q, CompareKeywords) then Bar
    else Line
  }

  /** A comparison question with no trend word gets bars. */
  lemma ExampleCompareIsBar(question: string)
    requires Lower(question) == "compare revenue"
    ensures ChartType(question) == Bar
  {
    var q := Lower(question);
    MissingCharNotContained(q, TrendKeywords[0], 0);
    MissingCharNotContained(q, TrendKeywords[1], 5);
    MissingCharNotContained(q, TrendKeywords[2], 4);
    MissingCharNotContained(q, TrendKeywords[3], 1);
    ContainsWitness(q, CompareKeywords[0], 0);
  }

  /**
   * `str.title()` on ASCII text: a letter is upper-cased when the character
   * before it is not a letter, and lower-cased otherwise.
   */
  function TitleFrom(s: string, previousIsCased: bool): (t: string)
    ensures |t| == |s|
  {
    if s == [] then []
    else [if previousIsCased then LowerChar(s[0]) else UpperChar(s[0])] + TitleFrom(s[1..], IsLetter(s[0]))
  }

  function Title(s: string): string {
    TitleFrom(s, false)
  }

  lemma {:induction false} TitleFromAt(s: string, previousIsCased: bool, i: nat)
    requires i < |s|
    ensures TitleFrom(s, previousIsCased)[i] ==
            if (if i == 0 then previousIsCased else IsLetter(s[i - 1])) then LowerChar(s[i]) else UpperChar(s[i])
    decreases i
  {
    if i > 0 {
      TitleFromAt(s[1..], IsLetter(s[0]), i - 1);
    }
  }

  /** `metric.replace('_', ' ').title()`. */
  function DatasetLabel(metric: string): string {
    Title(ReplaceChar(metric, '_', ' '))
  }

  /**
   * Each underscore of the metric name becomes a space, every word starts
   * with a capital and the rest of each word is in lower case.
   */
  lemma DatasetLabelAt(metric: string, i: nat)
    requires i < |metric|
    ensures |DatasetLabel(metric)| == |metric|
    ensures DatasetLabel(metric)[i] ==
            if metric[i] == '_' then ' '
            else if i == 0 || !IsLetter(metric[i - 1]) then UpperChar(metric[i])
            else LowerChar(metric[i])
  {
    TitleFromAt(ReplaceChar(metric, '_', ' '), false, i);
  }

  /** The five colours the datasets take in turn. */
  const Colors: seq<string> := ["#FF6384", "#36A2EB", "#FFCE56", "#4BC0C0", "#9966FF"]

  datatype Dataset = Dataset(seriesLabel: string, data: seq<Option<real>>, borderColor: string, backgroundColor: string, fill: bool)

  datatype Chart = Chart(kind: ChartKind, labels: seq<string>, datasets: seq<Dataset>)

  /** `metric_data[year]['value']` if the year is present, `None` otherwise. */
  function ValueFor(metricData: Dict<string, Cell>, year: string): (v: Option<real>)
    ensures v.None? <==> year !in Keys(metricData)
  {
    match Get(metricData, year)
    case Some(c) => Some(c.value)
    case None => None
  }

  /** Some metric of the data has a value for `year`. */
  predicate HasYear(data: FinancialData, year: string) {
    exists i :: 0 <= i < |data| && year in Keys(data[i].1)
  }

  /** The `for metric_data in data.values(): all_years.update(...)` loop. */
  method CollectYears(data: FinancialData) returns (years: set<string>)
    ensures forall y :: y in years <==> HasYear(data, y)
  {
    years := {};
    var k := 0;
    while k < |data|
      invariant 0 <= k <= |data|
      invariant forall y :: y in years <==> exists i :: 0 <= i < k && y in Keys(data[i].1)
    {
      years := years + set y | y in Keys(data[k].1);
      k := k + 1;
    }
  }

  /** The inner `for year in all_years` loop of one metric. */
  method ValuesFor(metricData: Dict<string, Cell>, labels: seq<string>) returns (values: seq<Option<real>>)
    ensures |values| == |labels|
    ensures forall j :: 0 <= j < |labels| ==> values[j] == ValueFor(metricData, labels[j])
  {
    values := [];
    var j := 0;
    while j < |labels|
      invariant 0 <= j <= |labels|
      invariant |values| == j
      invariant forall l :: 0 <= l < j ==> values[l] == ValueFor(metricData, labels[l])
    {
      var cell := Get(metricData, labels[j]);
      if cell.Some? {
        values := values + [Some(cell.value.value)];
      } else {
        values := values + [None];
      }
      j := j + 1;
    }
  }

  /** Dataset `i`, for `metric`, over the chart's labels. */
  predicate DatasetFor(i: nat, metric: string, metricData: Dict<string, Cell>, labels: seq<string>, ds: Dataset) {
    ds.seriesLabel == DatasetLabel(metric) &&
    |ds.data| == |labels| &&
    (forall j :: 0 <= j < |labels| ==> ds.data[j] == ValueFor(metricData, labels[j])) &&
    ds.borderColor == Colors[i % |Colors|] && ds.backgroundColor == Colors[i % |Colors|] &&
    !ds.fill
  }

  /** `generate_chart_data(data, question)`. */
  method GenerateChartData(data: FinancialData, question: string) returns (chart: Chart)
    ensures chart.kind == ChartType(question)
    ensures StrictlySorted(chart.labels)
    ensures forall y :: y in chart.labels <==> HasYear(data, y)
    ensures |chart.datasets| == |data|
    ensures forall i :: 0 <= i < |data| ==> DatasetFor(i, data[i].0, data[i].1, chart.labels, chart.datasets[i])
  {
    var kind := ChartType(question);
    var years := CollectYears(data);
    var labels := SortedList(years);
    var datasets := BuildDatasets(data, labels);
    chart := Chart(kind, labels, datasets);
  }

  /** The `for i, (metric, metric_data) in enumerate(data.items())` loop. */
  method BuildDatasets(data: FinancialData, labels: seq<string>) returns (datasets: seq<Dataset>)
    ensures |datasets| == |data|
    ensures forall i :: 0 <= i < |data| ==> DatasetFor(i, data[i].0, data[i].1, labels, datasets[i])
  {
    datasets := [];
    var i := 0;
    while i < |data|
      invariant 0 <= i <= |data|
      invariant |datasets| == i
      invariant forall l :: 0 <= l < i ==> DatasetFor(l, data[l].0, data[l].1, labels, datasets[l])
    {
      var (metric, metricData) := data[i];
      var ds := MakeDataset(i, metric, metricData, labels);
      datasets := datasets + [ds];
      i := i + 1;
    }
  }

  /** The body of the dataset loop: the `datasets.append({...})` of metric number `i`. */
  method MakeDataset(i: nat, metric: string, metricData: Dict<string, Cell>, labels: seq<string>) returns (ds: Dataset)
    ensures DatasetFor(i, metric, metricData, labels, ds)
  {
    var values := ValuesFor(metricData, labels);
    var color := Colors[i % |Colors|];
    ds := Dataset(DatasetLabel(metric), values, color, color, false);
  }

  /** The labels do not depend on anything but the set of years present: any chart of the same data has the same labels. */
  lemma LabelsDetermined(data: FinancialData, a: seq<string>, b: seq<string>)
    requires StrictlySorted(a) && forall y :: y in a <==> HasYear(data, y)
    requires StrictlySorted(b) && forall y :: y in b <==> HasYear(data, y)
    ensures a == b
  {
    SortedUnique(a, b);
  }

  /** Every year a metric has gets a column, and that metric's dataset holds a value there. */
  lemma DatasetCoversItsYears(data: FinancialData, labels: seq<string>, i: nat, ds: Dataset, year: string)
    requires forall y :: y in labels <==> HasYear(data, y)
    requires i < |data| && DatasetFor(i, data[i].0, data[i].1, labels, ds)
    requires year in Keys(data[i].1)
    ensures exists j :: 0 <= j < |labels| && labels[j] == year && ds.data[j].Some?
  {
    assert HasYear(data, year);
    var j :| 0 <= j < |labels| && labels[j] == year;
    assert ds.data[j] == ValueFor(data[i].1, year);
  }

  /** The label of the net-profit dataset. */
  lemma ExampleNetProfitLabel(metric: string)
    requires metric == "net_profit"
    ensures DatasetLabel(metric) == "Net Profit"
  {
    forall i | 0 <= i < |metric|
      ensures DatasetLabel(metric)[i] == "Net Profit"[i]
    {
      DatasetLabelAt(metric, i);
    }
    DatasetLabelAt(metric, 0);
  }
}
