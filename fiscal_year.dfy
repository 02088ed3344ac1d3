/**
 * `extract_fiscal_year`: the three regular expressions, tried in order with
 * `re.search`, written as scanners. `\d` is read as an ASCII digit.
 */
module FiscalYear {
  import opened Wrappers
  import opened Text
  import opened ValueCleaner

  /** `\d{4}<sep>\d{2}` matches `text` at position `i`. */
  predicate YearAt(text: string, i: int, sep: char) {
    0 <= i && i + 7 <= |text| &&
    IsDigit(text[i]) && IsDigit(text[i + 1]) && IsDigit(text[i + 2]) && IsDigit(text[i + 3]) &&
    text[i + 4] == sep && IsDigit(text[i + 5]) && IsDigit(text[i + 6])
  }

  /** `re.search` for `(\d{4}<sep>\d{2})` from position `i`: the leftmost match at or after `i`. */
  function FindYear(text: string, sep: char, i: nat): (r: Option<nat>)
    ensures r.Some? ==> i <= r.value && YearAt(text, r.value, sep)
    ensures r.Some? ==> forall k :: i <= k < r.value ==> !YearAt(text, k, sep)
    ensures r.None? ==> forall k :: i <= k ==> !YearAt(text, k, sep)
    decreases |text| - i
  {
    if i + 7 > |text| then None
    else if YearAt(text, i, sep) then Some(i)
    else FindYear(text, sep, i + 1)
  }

  /** Where the group of `FY\s*(\d{4}-\d{2})` would start, for an `FY` at `i`: after the run of whitespace. */
  function GroupStart(text: string, i: nat): (g: nat)
    requires i + 2 <= |text|
    ensures i + 2 <= g <= |text|
    ensures forall k :: i + 2 <= k < g ==> IsSpace(text[k])
    ensures g < |text| ==> !IsSpace(text[g])
  {
    var rest := text[i + 2..];
    var n := LeadingSpaces(rest);
    assert forall k :: i + 2 <= k < i + 2 + n ==> text[k] == rest[k - (i + 2)];
    i + 2 + n
  }

  /**
   * `FY\s*(\d{4}-\d{2})` matches at position `i`. Whitespace is not a digit,
   * so the greedy `\s*` never has to give any back: it absorbs the whole run.
   */
  predicate FyAt(text: string, i: int) {
    0 <= i && i + 2 <= |text| && text[i] == 'F' && text[i + 1] == 'Y' && YearAt(text, GroupStart(text, i), '-')
  }

  /** The seven characters a year match at `i` captures. */
  function Group(text: string, i: int): string
    requires YearAt(text, i, '-') || YearAt(text, i, '/')
  {
    text[i..i + 7]
  }

  /** `re.search` for the `FY` pattern from `i`; yields its group. */
  function FindFy(text: string, i: nat): (r: Option<string>)
    ensures r.Some? ==> exists k :: i <= k && FyAt(text, k) && r.value == Group(text, GroupStart(text, k))
    ensures r.None? ==> forall k :: i <= k ==> !FyAt(text, k)
    decreases |text| - i
  {
    if i + 2 > |text| then None
    else if FyAt(text, i) then Some(Group(text, GroupStart(text, i)))
    else FindFy(text, i + 1)
  }

  /** `extract_fiscal_year(text)`. */
  function ExtractFiscalYear(text: string): Option<string> {
    match FindYear(text, '-', 0)
    case Some(i) => Some(Group(text, i))
    case None =>
      match FindFy(text, 0)
      case Some(y) => Some(y)
      case None =>
        match FindYear(text, '/', 0)
        case Some(i) => Some(Group(text, i))
        case None => None
  }

  /** The two patterns that can decide the outcome: `dddd-dd`, then `dddd/dd`. */
  function TwoPatternYear(text: string): Option<string> {
    match FindYear(text, '-', 0)
    case Some(i) => Some(Group(text, i))
    case None =>
      match FindYear(text, '/', 0)
      case Some(i) => Some(Group(text, i))
      case None => None
  }

  /** Every match of the `FY` pattern contains a match of the first pattern, which is tried before it. */
  lemma FyImpliesYear(text: string, k: int)
    requires FyAt(text, k)
    ensures FindYear(text, '-', 0).Some?
  {
  }

  /** So the `FY` pattern never changes the result. */
  lemma FyPatternRedundant(text: string)
    ensures ExtractFiscalYear(text) == TwoPatternYear(text)
  {
    if FindFy(text, 0).Some? {
      var k :| 0 <= k && FyAt(text, k) && FindFy(text, 0).value == Group(text, GroupStart(text, k));
      FyImpliesYear(text, k);
    }
  }

  /**
   * The result is the leftmost `dddd-dd` if there is one, else the leftmost
   * `dddd/dd`, else nothing.
   */
  lemma ExtractFiscalYearSpec(text: string)
    ensures (exists i :: YearAt(text, i, '-')) ==>
            exists i :: YearAt(text, i, '-') && (forall k :: 0 <= k < i ==> !YearAt(text, k, '-')) &&
                        ExtractFiscalYear(text) == Some(Group(text, i))
    ensures (forall i :: !YearAt(text, i, '-')) && (exists i :: YearAt(text, i, '/')) ==>
            exists i :: YearAt(text, i, '/') && (forall k :: 0 <= k < i ==> !YearAt(text, k, '/')) &&
                        ExtractFiscalYear(text) == Some(Group(text, i))
    ensures (forall i :: !YearAt(text, i, '-')) && (forall i :: !YearAt(text, i, '/')) ==>
            ExtractFiscalYear(text) == None
  {
    FyPatternRedundant(text);
  }

  /** Any result is seven characters of the text: four digits, a dash or a slash, two digits. */
  lemma ExtractFiscalYearShape(text: string)
    requires ExtractFiscalYear(text).Some?
    ensures exists i :: (YearAt(text, i, '-') || YearAt(text, i, '/')) && ExtractFiscalYear(text).value == Group(text, i)
  {
    FyPatternRedundant(text);
  }

  /** A financial-year heading such as "FY 2023-24" gives its year. */
  lemma ExampleFinancialYear(text: string)
    requires text == "FY 2023-24"
    ensures ExtractFiscalYear(text) == Some("2023-24")
  {
    assert YearAt(text, 3, '-');
    assert !YearAt(text, 0, '-') && !YearAt(text, 1, '-') && !YearAt(text, 2, '-');
    assert Group(text, 3) == "2023-24";
  }
}
