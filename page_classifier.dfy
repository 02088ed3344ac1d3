/**
 * `_is_balance_sheet_page`, `_is_profit_loss_page` and `_is_cash_flow_page`:
 * a page belongs to a statement when its lower-cased text holds one of that
 * statement's keywords. `extract_table_data` tries them in that order, so a
 * page is filed under the first statement that claims it.
 */
module PageClassifier {
  import opened Wrappers
  import opened Text

  const BalanceSheetKeywords: seq<string> :=
    ["consolidated balance sheet", "balance sheet as at", "assets and liabilities"]

  const ProfitLossKeywords: seq<string> :=
    ["consolidated statement of profit and loss", "profit and loss", "income statement"]

  const CashFlowKeywords: seq<string> :=
    ["consolidated statement of cash flow", "cash flow statement", "cash flows"]

  predicate IsBalanceSheetPage(text: string) {
    ContainsAny(Lower(text), BalanceSheetKeywords)
  }

  predicate IsProfitLossPage(text: string) {
    ContainsAny(Lower(text), ProfitLossKeywords)
  }

  predicate IsCashFlowPage(text: string) {
    ContainsAny(Lower(text), CashFlowKeywords)
  }

  /** The three buckets of `extracted_data`. */
  datatype Section = BalanceSheet | ProfitLoss | CashFlow

  /** The `if` / `elif` / `elif` choice of bucket for one page's text. */
  function Classify(text: string): (r: Option<Section>)
    ensures r == Some(BalanceSheet) <==> IsBalanceSheetPage(text)
    ensures r == Some(ProfitLoss) <==> !IsBalanceSheetPage(text) && IsProfitLossPage(text)
    ensures r == Some(CashFlow) <==> !IsBalanceSheetPage(text) && !IsProfitLossPage(text) && IsCashFlowPage(text)
    ensures r == None <==> !IsBalanceSheetPage(text) && !IsProfitLossPage(text) && !IsCashFlowPage(text)
  {
    if IsBalanceSheetPage(text) then Some(BalanceSheet)
    else if IsProfitLossPage(text) then Some(ProfitLoss)
    else if IsCashFlowPage(text) then Some(CashFlow)
    else None
  }

  /** Classification ignores letter case. */
  lemma ClassifyIgnoresCase(a: string, b: string)
    requires Lower(a) == Lower(b)
    ensures Classify(a) == Classify(b)
  {
  }

  /** The long profit-and-loss keyword ends with the short one. */
  lemma ShortInLongKeyword()
    ensures OccursAt("consolidated statement of profit and loss", "profit and loss", 26)
  {
  }

  lemma LongProfitLossKeyword(t: string)
    requires Contains(t, ProfitLossKeywords[0])
    ensures Contains(t, "profit and loss")
  {
    var long := ProfitLossKeywords[0];
    ShortInLongKeyword();
    ContainsWitness(long, "profit and loss", 26);
    ContainsTransitive(t, long, "profit and loss");
  }

  /**
   * The long profit-and-loss keyword contains the short one, so the
   * profit-and-loss test comes down to two keywords.
   */
  lemma ProfitLossTwoKeywords(text: string)
    ensures IsProfitLossPage(text) <==>
            Contains(Lower(text), "profit and loss") || Contains(Lower(text), "income statement")
  {
    var t := Lower(text);
    assert ProfitLossKeywords[1] == "profit and loss" && ProfitLossKeywords[2] == "income statement";
    if Contains(t, ProfitLossKeywords[0]) {
      LongProfitLossKeyword(t);
    }
  }

  /** A page with none of the letter `b` is never a balance sheet page. */
  lemma NoBNotBalanceSheet(text: string)
    requires 'b' !in Lower(text)
    ensures !IsBalanceSheetPage(text)
  {
    var t := Lower(text);
    MissingCharNotContained(t, BalanceSheetKeywords[0], 13);
    MissingCharNotContained(t, BalanceSheetKeywords[1], 0);
    MissingCharNotContained(t, BalanceSheetKeywords[2], 14);
  }

  lemma ContainsItself(t: string, keyword: string)
    requires t == keyword
    ensures Contains(t, keyword)
  {
    ContainsWitness(t, keyword, 0);
  }

  /*
   * The headings the parser's own smoke test checks. Each example takes any
   * text with the given lower-case form.
   */

  lemma ExampleBalanceSheetHeading(text: string)
    requires Lower(text) == "consolidated balance sheet as at 31st march, 2024"
    ensures Classify(text) == Some(BalanceSheet)
  {
    ContainsWitness(Lower(text), "consolidated balance sheet", 0);
    assert Contains(Lower(text), BalanceSheetKeywords[0]);
  }

  lemma ExampleProfitLossHeading(text: string)
    requires Lower(text) == "consolidated statement of profit and loss"
    ensures Classify(text) == Some(ProfitLoss)
  {
    NoBNotBalanceSheet(text);
    ContainsItself(Lower(text), ProfitLossKeywords[0]);
  }

  lemma ExampleCashFlowHeading(text: string)
    requires Lower(text) == "consolidated statement of cash flow"
    ensures IsCashFlowPage(text) && !IsBalanceSheetPage(text)
  {
    NoBNotBalanceSheet(text);
    ContainsItself(Lower(text), CashFlowKeywords[0]);
  }
}
