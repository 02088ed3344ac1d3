/**
 * `generate_fallback_response`: which answer is given when no language
 * model is available. The answer's wording and number formatting are not
 * modelled; its kind and the figures it quotes are.
 */
module FallbackAnswer {
  import opened Wrappers
  import opened Text
  import opened OrderedDict
  import opened RelevantData

  /**
   * A year-over-year comparison of one metric's first two years, the
   * listing of the metrics found, or the apology for finding nothing.
   */
  datatype Answer =
    | YearOverYear(metric: string, latestYear: string, previousYear: string, latest: real, previous: real, change: real)
    | MetricListing(metrics: seq<string>)
    | NoData

  /** The six branches in source order: their keywords and the metric each reports. */
  const AnswerGroups: seq<Group> := [
    Group(["profit", "income", "earnings"], "net_profit"),
    Group(["revenue", "sales"], "revenue"),
    Group(["assets"], "total_assets"),
    Group(["liabilities", "debt"], "total_liabilities"),
    Group(["equity", "shareholder"], "total_equity"),
    Group(["cash", "flow"], "cash_flow")
  ]

  /** A branch answers when one of its words is in the question and its metric has at least two years. */
  predicate Fires(q: string, data: FinancialData, g: Group) {
    ContainsAny(q, g.keywords) && Get(data, g.metric).Some? && |Get(data, g.metric).value| >= 2
  }

  /** `((latest - previous) / previous * 100) if previous != 0 else 0`, in exact arithmetic. */
  function PercentChange(latest: real, previous: real): (c: real)
    ensures previous != 0.0 ==> latest == previous + previous * c / 100.0
    ensures previous == 0.0 ==> c == 0.0
  {
    if previous != 0.0 then (latest - previous) / previous * 100.0 else 0.0
  }

  /** The comparison a firing branch reports: the metric's first two years, in dictionary order. */
  function Comparison(data: FinancialData, metric: string): Answer
    requires Get(data, metric).Some? && |Get(data, metric).value| >= 2
  {
    var years := Get(data, metric).value;
    var latest := years[0].1.value;
    var previous := years[1].1.value;
    YearOverYear(metric, years[0].0, years[1].0, latest, previous, PercentChange(latest, previous))
  }

  /** Branch `k` is the first to fire. */
  predicate FirstFiresAt(q: string, data: FinancialData, groups: seq<Group>, k: int) {
    0 <= k < |groups| && Fires(q, data, groups[k]) &&
    forall j :: 0 <= j < k ==> !Fires(q, data, groups[j])
  }

  /** The `if` chain: the first branch that fires gives the answer. */
  function FirstFiring(q: string, data: FinancialData, groups: seq<Group>): (r: Option<Answer>)
    ensures r.None? <==> forall k :: 0 <= k < |groups| ==> !Fires(q, data, groups[k])
  {
    if groups == [] then None
    else if Fires(q, data, groups[0]) then Some(Comparison(data, groups[0].metric))
    else
      var r := FirstFiring(q, data, groups[1..]);
      assert forall k :: 1 <= k < |groups| ==> groups[k] == groups[1..][k - 1];
      r
  }

  /** When the first branch does not fire, the first firing one is found among the rest. */
  lemma FirstFiresLater(q: string, data: FinancialData, groups: seq<Group>, k: int)
    requires FirstFiresAt(q, data, groups, k) && !Fires(q, data, groups[0])
    ensures k >= 1 && FirstFiresAt(q, data, groups[1..], k - 1)
  {
    forall j | 0 <= j < k - 1
      ensures !Fires(q, data, groups[1..][j])
    {
      assert groups[1..][j] == groups[j + 1];
    }
  }

  /** The answer of the chain is the comparison of the first branch that fires. */
  lemma {:induction false} FirstFiringAt(q: string, data: FinancialData, groups: seq<Group>, k: int)
    requires FirstFiresAt(q, data, groups, k)
    ensures FirstFiring(q, data, groups) == Some(Comparison(data, groups[k].metric))
  {
    if !Fires(q, data, groups[0]) {
      FirstFiresLater(q, data, groups, k);
      FirstFiringAt(q, data, groups[1..], k - 1);
    }
  }

  /** `generate_fallback_response(data, question)`. */
  function FallbackResponse(data: FinancialData, question: string): Answer {
    match FirstFiring(Lower(question), data, AnswerGroups)
    case Some(a) => a
    case None => if data != [] then MetricListing(Keys(data)) else NoData
  }

  /** When branch `k` is the first to fire, the answer compares its metric's first two years. */
  lemma FallbackComparison(data: FinancialData, question: string, k: int)
    requires FirstFiresAt(Lower(question), data, AnswerGroups, k)
    ensures FallbackResponse(data, question) == Comparison(data, AnswerGroups[k].metric)
  {
    FirstFiringAt(Lower(question), data, AnswerGroups, k);
  }

  /** Some branch fires exactly when the answer is a comparison, and that comparison is of the first firing branch's metric. */
  lemma FallbackComparisonIff(data: FinancialData, question: string)
    ensures FallbackResponse(data, question).YearOverYear? <==>
            exists k :: 0 <= k < |AnswerGroups| && Fires(Lower(question), data, AnswerGroups[k])
  {
    var q := Lower(question);
    if exists k :: 0 <= k < |AnswerGroups| && Fires(q, data, AnswerGroups[k]) {
      var k := FirstFiringIndex(q, data, AnswerGroups);
      FallbackComparison(data, question, k);
    }
  }

  /** If some branch fires, one of them fires first. */
  lemma FirstFiringIndex(q: string, data: FinancialData, groups: seq<Group>) returns (k: int)
    requires exists k :: 0 <= k < |groups| && Fires(q, data, groups[k])
    ensures FirstFiresAt(q, data, groups, k)
  {
    var fired := seq(|groups|, i requires 0 <= i < |groups| => Fires(q, data, groups[i]));
    var j :| 0 <= j < |groups| && Fires(q, data, groups[j]);
    assert fired[j];
    k := FirstTrue(fired);
    forall i | 0 <= i < k
      ensures !Fires(q, data, groups[i])
    {
      assert !fired[i];
    }
  }

  /** A sequence of flags with some flag set has a first one set. */
  lemma {:induction false} FirstTrue(flags: seq<bool>) returns (k: int)
    requires exists j :: 0 <= j < |flags| && flags[j]
    ensures 0 <= k < |flags| && flags[k] && forall j :: 0 <= j < k ==> !flags[j]
  {
    if flags[0] {
      k := 0;
    } else {
      var j :| 0 <= j < |flags| && flags[j];
      assert flags[1..][j - 1];
      var k' := FirstTrue(flags[1..]);
      k := k' + 1;
      assert forall i :: 1 <= i < k ==> flags[i] == flags[1..][i - 1];
    }
  }

  /** With no branch firing, the answer lists the metrics when there are any, and apologises otherwise. */
  lemma FallbackGeneric(data: FinancialData, question: string)
    requires forall k :: 0 <= k < |AnswerGroups| ==> !Fires(Lower(question), data, AnswerGroups[k])
    ensures data != [] ==> FallbackResponse(data, question) == MetricListing(Keys(data))
    ensures data == [] ==> FallbackResponse(data, question) == NoData
  {
  }

  /** A comparison is only ever made of a metric with at least two years, and quotes those years' values. */
  lemma ComparisonWellFormed(data: FinancialData, question: string)
    requires FallbackResponse(data, question).YearOverYear?
    ensures var a := FallbackResponse(data, question);
            Get(data, a.metric).Some? && |Get(data, a.metric).value| >= 2 &&
            a.latestYear == Keys(Get(data, a.metric).value)[0] && a.previousYear == Keys(Get(data, a.metric).value)[1] &&
            Get(Get(data, a.metric).value, a.latestYear) == Some(Cell(a.latest, Get(data, a.metric).value[0].1.description))
  {
    FallbackComparisonIff(data, question);
    var k := FirstFiringIndex(Lower(question), data, AnswerGroups);
    FallbackComparison(data, question, k);
  }

  /** The profit branch is tried first: a question mentioning profit, asked of data with two years of net profit, compares net profit. */
  lemma ProfitFirst(data: FinancialData, question: string)
    requires Contains(Lower(question), "profit")
    requires Get(data, "net_profit").Some? && |Get(data, "net_profit").value| >= 2
    ensures FallbackResponse(data, question) == Comparison(data, "net_profit")
  {
    assert AnswerGroups[0].keywords[0] == "profit";
    assert FirstFiresAt(Lower(question), data, AnswerGroups, 0);
    FallbackComparison(data, question, 0);
  }
}
