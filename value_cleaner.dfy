/**
 * `BalanceSheetParser.clean_value`: turns a table cell into a number.
 *
 * The cell is stripped and lower-cased; every `₹`, `$`, comma and whitespace
 * character is deleted; every "(...)" span is deleted; a residual that starts
 * with '-' or ends with ')' is negative and loses every '-', '(' and ')';
 * whatever is left is handed to Python's `float()`.
 *
 * `float()` is modelled on plain decimal literals: an optional sign, ASCII
 * digits and at most one '.', with at least one digit.
 */
module ValueCleaner {
  import opened Wrappers
  import opened Text

  predicate IsDigit(c: char) {
    '0' <= c <= '9'
  }

  predicate AllDigits(s: string) {
    forall i :: 0 <= i < |s| ==> IsDigit(s[i])
  }

  /** The value of a string of decimal digits, most significant first. */
  function DigitsValue(s: string): (n: nat)
    requires AllDigits(s)
  {
    if s == [] then 0 else 10 * DigitsValue(s[..|s| - 1]) + (s[|s| - 1] as int - '0' as int)
  }

  function Pow10(n: nat): (r: nat)
    ensures r >= 1
  {
    if n == 0 then 1 else 10 * Pow10(n - 1)
  }

  /** A literal `float()` accepts without sign: digits with at most one '.', and at least one digit. */
  predicate IsDecimal(s: string) {
    if '.' in s then
      var k := IndexOf(s, '.');
      AllDigits(s[..k]) && AllDigits(s[k + 1..]) && |s| > 1
    else
      AllDigits(s) && |s| > 0
  }

  /** The exact value of a decimal literal. */
  function DecimalValue(s: string): (v: real)
    requires IsDecimal(s)
    ensures v >= 0.0
  {
    if '.' in s then
      var k := IndexOf(s, '.');
      DigitsValue(s[..k]) as real + DigitsValue(s[k + 1..]) as real / Pow10(|s| - k - 1) as real
    else
      DigitsValue(s) as real
  }

  /** Python's `float(s)` on the literals this model covers; `None` stands for `ValueError`. */
  function ParseFloat(s: string): (r: Option<real>)
    ensures r.Some? <==> IsDecimal(s) || (|s| > 0 && (s[0] == '+' || s[0] == '-') && IsDecimal(s[1..]))
    ensures r.Some? && r.value < 0.0 ==> s[0] == '-'
  {
    if |s| > 0 && (s[0] == '+' || s[0] == '-') then
      if IsDecimal(s[1..]) then Some(if s[0] == '-' then -DecimalValue(s[1..]) else DecimalValue(s[1..]))
      else None
    else if IsDecimal(s) then Some(DecimalValue(s))
    else None
  }

  lemma DecimalDigits(t: string)
    requires IsDecimal(t)
    ensures forall i :: 0 <= i < |t| ==> IsDigit(t[i]) || t[i] == '.'
  {
    if '.' in t {
      var k := IndexOf(t, '.');
      forall i | 0 <= i < |t| ensures IsDigit(t[i]) || t[i] == '.' {
        if i < k {
          assert t[i] == t[..k][i];
        } else if i > k {
          assert t[i] == t[k + 1..][i - k - 1];
        }
      }
    }
  }

  /** Every character of a literal `float()` accepts is a digit, '.', or a sign. */
  lemma DecimalChars(s: string)
    requires ParseFloat(s).Some?
    ensures forall c :: c in s ==> IsDigit(c) || c == '.' || c == '+' || c == '-'
  {
    if IsDecimal(s) {
      DecimalDigits(s);
    } else {
      DecimalDigits(s[1..]);
      forall i | 1 <= i < |s| ensures IsDigit(s[i]) || s[i] == '.' {
        assert s[i] == s[1..][i - 1];
      }
    }
  }

  /** The characters of `re.sub(r'[₹$,\s]', '', ...)`. */
  predicate IsSeparator(c: char) {
    c == '\U{20B9}' || c == '$' || c == ',' || IsSpace(c)
  }

  function RemoveSeparators(s: string): string {
    if s == [] then [] else (if IsSeparator(s[0]) then [] else [s[0]]) + RemoveSeparators(s[1..])
  }

  /** The substitution keeps exactly the characters that are not separators. */
  lemma {:induction false} RemoveSeparatorsMembers(s: string)
    ensures forall c :: c in RemoveSeparators(s) <==> c in s && !IsSeparator(c)
  {
    if s != [] {
      RemoveSeparatorsMembers(s[1..]);
      assert s == [s[0]] + s[1..];
    }
  }

  lemma {:induction false} RemoveSeparatorsConcat(a: string, b: string)
    ensures RemoveSeparators(a + b) == RemoveSeparators(a) + RemoveSeparators(b)
  {
    if a == [] {
      assert a + b == b;
    } else {
      assert (a + b)[1..] == a[1..] + b;
      RemoveSeparatorsConcat(a[1..], b);
    }
  }

  /**
   * `re.sub(r'\(.*?\)', '', s)`: scanning left to right, each '(' that has a
   * ')' somewhere after it is deleted together with everything up to the first
   * such ')'; a '(' without a later ')' stays. (`.` does not match a newline,
   * but no whitespace is left when this runs.)
   */
  function RemoveParenthesised(s: string): string
    decreases |s|
  {
    if s == [] then []
    else if s[0] == '(' && ')' in s[1..] then RemoveParenthesised(s[IndexOf(s[1..], ')') + 2..])
    else [s[0]] + RemoveParenthesised(s[1..])
  }

  /** The string the sign test looks at. */
  function Residual(s: string): string {
    RemoveParenthesised(RemoveSeparators(Lower(Strip(s))))
  }

  /** `value_str.startswith('-') or value_str.endswith(')')`. */
  predicate IsNegative(s: string) {
    StartsWith(s, "-") || EndsWith(s, ")")
  }

  /** `.replace('-', '').replace('(', '').replace(')', '')`. */
  function RemoveSigns(s: string): string {
    if s == [] then []
    else (if s[0] == '-' || s[0] == '(' || s[0] == ')' then [] else [s[0]]) + RemoveSigns(s[1..])
  }

  /** The three replacements keep exactly the characters other than '-', '(' and ')'. */
  lemma {:induction false} RemoveSignsMembers(s: string)
    ensures forall c :: c in RemoveSigns(s) <==> c in s && c != '-' && c != '(' && c != ')'
  {
    if s != [] {
      RemoveSignsMembers(s[1..]);
      assert s == [s[0]] + s[1..];
    }
  }

  lemma {:induction false} RemoveSignsConcat(a: string, b: string)
    ensures RemoveSigns(a + b) == RemoveSigns(a) + RemoveSigns(b)
  {
    if a == [] {
      assert a + b == b;
    } else {
      assert (a + b)[1..] == a[1..] + b;
      RemoveSignsConcat(a[1..], b);
    }
  }

  predicate IsNumeral(c: char) {
    IsDigit(c) || c == '.' || c == '+' || c == '-' || c == '(' || c == ')'
  }

  /**
   * The second half of `clean_value`: the sign test and `float()` applied to
   * the residual. A number comes back only when the residual consists of
   * digits, '.', signs and parentheses, and its sign is the one the
   * negativity test chose.
   */
  function ParseResidual(s: string): (r: Option<real>)
    ensures r.Some? && IsNegative(s) ==> r.value <= 0.0
    ensures r.Some? && !IsNegative(s) ==> r.value >= 0.0
  {
    var negative := IsNegative(s);
    var unsigned := if negative then RemoveSigns(s) else s;
    match ParseFloat(unsigned)
    case None => None
    case Some(v) =>
      assert negative ==> '-' !in unsigned by {
        if negative {
          RemoveSignsMembers(s);
        }
      }
      Some(if negative then -v else v)
  }

  /** A number comes back only when the residual consists of digits, '.', signs and parentheses. */
  lemma ParseResidualNumeral(s: string)
    requires ParseResidual(s).Some?
    ensures forall c :: c in s ==> IsNumeral(c)
  {
    if IsNegative(s) {
      DecimalChars(RemoveSigns(s));
      RemoveSignsMembers(s);
    } else {
      DecimalChars(s);
    }
  }

  /**
   * `clean_value(cell)`; `None` covers both a missing (or empty) cell and a
   * residual `float()` rejects.
   */
  function CleanValue(cell: Option<string>): (r: Option<real>)
    ensures cell == None || cell == Some("") ==> r == None
  {
    if cell.None? || cell.value == "" then None else ParseResidual(Residual(cell.value))
  }

  /** A cell that cleans to a number has a residual of digits, '.', signs and parentheses only. */
  lemma CleanValueNumeral(cell: string)
    requires CleanValue(Some(cell)).Some?
    ensures forall c :: c in Residual(cell) ==> IsNumeral(c)
  {
    ParseResidualNumeral(Residual(cell));
  }

  // ---------------------------------------------------------------------------
  // Properties of clean_value
  // ---------------------------------------------------------------------------

  lemma {:induction false} SpacesVanish(t: string)
    requires forall i :: 0 <= i < |t| ==> IsSpace(t[i])
    ensures RemoveSeparators(Lower(t)) == []
  {
    if t != [] {
      SpacesVanish(t[1..]);
      assert Lower(t) == [t[0]] + Lower(t[1..]);
    }
  }

  /** Stripping first changes nothing once every whitespace character is deleted anyway. */
  lemma StripThenRemove(s: string)
    ensures RemoveSeparators(Lower(Strip(s))) == RemoveSeparators(Lower(s))
  {
    var a, b := StripSlice(s);
    assert s == s[..a] + s[a..b] + s[b..];
    LowerConcat(s[..a] + s[a..b], s[b..]);
    LowerConcat(s[..a], s[a..b]);
    RemoveSeparatorsConcat(Lower(s[..a]) + Lower(s[a..b]), Lower(s[b..]));
    RemoveSeparatorsConcat(Lower(s[..a]), Lower(s[a..b]));
    SpacesVanish(s[..a]);
    SpacesVanish(s[b..]);
  }

  lemma RemoveSeparatorsDrops(a: string, c: char, b: string)
    requires IsSeparator(c)
    ensures RemoveSeparators(a + [c] + b) == RemoveSeparators(a + b)
  {
    RemoveSeparatorsConcat(a + [c], b);
    RemoveSeparatorsConcat(a, [c]);
    RemoveSeparatorsConcat(a, b);
    assert [c][1..] == [];
    var ra := RemoveSeparators(a);
    assert RemoveSeparators(a + [c]) == ra + [] == ra;
  }

  lemma LowerAround(a: string, c: char, b: string)
    requires IsSeparator(c)
    ensures Lower(a + [c] + b) == Lower(a) + [c] + Lower(b)
    ensures Lower(a + b) == Lower(a) + Lower(b)
  {
    LowerConcat(a + [c], b);
    LowerConcat(a, [c]);
    LowerConcat(a, b);
  }

  lemma RemoveSeparatorsIgnores(a: string, c: char, b: string)
    requires IsSeparator(c)
    ensures RemoveSeparators(Lower(a + [c] + b)) == RemoveSeparators(Lower(a + b))
  {
    LowerAround(a, c, b);
    RemoveSeparatorsDrops(Lower(a), c, Lower(b));
  }

  /** Deleting a `₹`, `$`, comma or whitespace character anywhere leaves the residual unchanged. */
  lemma ResidualIgnoresSeparator(a: string, c: char, b: string)
    requires IsSeparator(c)
    ensures Residual(a + [c] + b) == Residual(a + b)
  {
    StripThenRemove(a + [c] + b);
    StripThenRemove(a + b);
    RemoveSeparatorsIgnores(a, c, b);
  }

  /**
   * The same amount written with or without currency symbols, thousands
   * separators or spaces cleans to the same value.
   */
  lemma CleanIgnoresSeparator(a: string, c: char, b: string)
    requires IsSeparator(c)
    ensures CleanValue(Some(a + [c] + b)) == CleanValue(Some(a + b))
  {
    ResidualIgnoresSeparator(a, c, b);
    if a + b == "" {
      assert Residual(a + b) == "";
    }
  }

  lemma {:induction false} RemoveParenthesisedNoOpen(s: string)
    requires '(' !in s
    ensures RemoveParenthesised(s) == s
  {
    if s != [] {
      RemoveParenthesisedNoOpen(s[1..]);
    }
  }

  lemma {:induction false} RemoveSeparatorsNone(s: string)
    requires forall i :: 0 <= i < |s| ==> !IsSeparator(s[i])
    ensures RemoveSeparators(s) == s
  {
    if s != [] {
      RemoveSeparatorsNone(s[1..]);
    }
  }

  lemma {:induction false} RemoveSignsNone(s: string)
    requires forall i :: 0 <= i < |s| ==> s[i] != '-' && s[i] != '(' && s[i] != ')'
    ensures RemoveSigns(s) == s
  {
    if s != [] {
      RemoveSignsNone(s[1..]);
    }
  }

  /** A string of digits, '.', '-' and ')' is its own residual. */
  lemma ResidualPlain(t: string)
    requires forall i :: 0 <= i < |t| ==> IsDigit(t[i]) || t[i] == '.' || t[i] == '-' || t[i] == ')'
    ensures Residual(t) == t
  {
    PlainFacts(t);
    StripNoop(t);
    LowerNoUpper(t);
    RemoveSeparatorsNone(t);
    RemoveParenthesisedNoOpen(t);
  }

  /** What the cleaning steps need to know of a string of digits, '.', '-' and ')'. */
  lemma PlainFacts(t: string)
    requires forall i :: 0 <= i < |t| ==> IsDigit(t[i]) || t[i] == '.' || t[i] == '-' || t[i] == ')'
    ensures t == [] || (!IsSpace(t[0]) && !IsSpace(t[|t| - 1]))
    ensures forall i :: 0 <= i < |t| ==> !('A' <= t[i] <= 'Z') && !IsSeparator(t[i])
    ensures '(' !in t
  {
  }

  lemma LowerNoUpper(t: string)
    requires forall i :: 0 <= i < |t| ==> !('A' <= t[i] <= 'Z')
    ensures Lower(t) == t
  {
  }

  lemma ParseDecimal(d: string)
    requires IsDecimal(d)
    ensures ParseFloat(d) == Some(DecimalValue(d))
  {
    DecimalDigits(d);
  }

  /** A plain decimal cleans to its value. */
  lemma CleanPlainDecimal(d: string)
    requires IsDecimal(d)
    ensures CleanValue(Some(d)) == Some(DecimalValue(d))
  {
    DecimalDigits(d);
    ResidualPlain(d);
    assert !IsNegative(d) by {
      EndsWithIff(d, ")");
    }
    ParseDecimal(d);
  }

  lemma ResidualPrefixedPlain(d: string, t: string)
    requires IsDecimal(d) && (t == "-" + d || t == d + ")")
    ensures Residual(t) == t
  {
    DecimalDigits(d);
    if t == "-" + d {
      assert forall i :: 1 <= i < |t| ==> t[i] == d[i - 1];
    } else {
      assert forall i :: 0 <= i < |d| ==> t[i] == d[i];
    }
    ResidualPlain(t);
  }

  lemma ParseResidualMinus(d: string)
    requires IsDecimal(d)
    ensures ParseResidual("-" + d) == Some(-DecimalValue(d))
  {
    DecimalDigits(d);
    var minus := "-" + d;
    assert IsNegative(minus);
    RemoveSignsNone(d);
    RemoveSignsConcat("-", d);
    assert RemoveSigns(minus) == d;
    ParseDecimal(d);
  }

  /** A leading '-' makes a plain decimal negative. */
  lemma CleanMinusDecimal(d: string)
    requires IsDecimal(d)
    ensures CleanValue(Some("-" + d)) == Some(-DecimalValue(d))
  {
    ResidualPrefixedPlain(d, "-" + d);
    ParseResidualMinus(d);
  }

  lemma ParseResidualTrailingParen(d: string)
    requires IsDecimal(d)
    ensures ParseResidual(d + ")") == Some(-DecimalValue(d))
  {
    DecimalDigits(d);
    var paren := d + ")";
    assert IsNegative(paren) by {
      EndsWithIff(paren, ")");
      assert paren[|paren| - 1..] == ")";
    }
    RemoveSignsNone(d);
    RemoveSignsConcat(d, ")");
    assert RemoveSigns(paren) == d;
    ParseDecimal(d);
  }

  /** A stray trailing ')' also makes a plain decimal negative. */
  lemma CleanTrailingParenDecimal(d: string)
    requires IsDecimal(d)
    ensures CleanValue(Some(d + ")")) == Some(-DecimalValue(d))
  {
    ResidualPrefixedPlain(d, d + ")");
    ParseResidualTrailingParen(d);
  }

  lemma RemoveSeparatorsWrapped(t: string)
    ensures RemoveSeparators(Lower("(" + t + ")")) == "(" + RemoveSeparators(Lower(t)) + ")"
  {
    LowerConcat("(" + t, ")");
    LowerConcat("(", t);
    assert Lower("(") == "(" && Lower(")") == ")";
    RemoveSeparatorsConcat("(" + Lower(t), ")");
    RemoveSeparatorsConcat("(", Lower(t));
  }

  lemma RemoveParenthesisedWhole(m: string)
    requires ')' !in m
    ensures RemoveParenthesised("(" + m + ")") == ""
  {
    var e := "(" + m + ")";
    assert e[1..] == m + ")";
    var k := IndexOf(e[1..], ')');
    assert k == |m|;
    assert e[k + 2..] == [];
  }

  /**
   * The "(...)" deletion runs before the sign test, so an amount written in
   * accounting parentheses is erased outright and cleans to `None`, not to a
   * negative number.
   */
  lemma CleanErasesParenthesised(t: string)
    requires ')' !in t
    ensures CleanValue(Some("(" + t + ")")) == None
  {
    ResidualOfWrapped(t);
    assert ParseResidual("") == None;
  }

  lemma ResidualOfWrapped(t: string)
    requires ')' !in t
    ensures Residual("(" + t + ")") == ""
  {
    var s := "(" + t + ")";
    StripNoop(s);
    RemoveSeparatorsWrapped(t);
    var m := RemoveSeparators(Lower(t));
    LowerKeepsOut(t, ')');
    RemoveSeparatorsMembers(Lower(t));
    assert ')' !in m;
    RemoveParenthesisedWhole(m);
  }

  /** Lower-casing never produces a character that is not a lower-case letter and was absent. */
  lemma LowerKeepsOut(t: string, c: char)
    requires c !in t && !('a' <= c <= 'z')
    ensures c !in Lower(t)
  {
  }

  /** The lower-cased letter at `i` survives into the residual when no '(' precedes anything. */
  lemma LetterInResidual(s: string, i: nat)
    requires i < |s| && IsLetter(s[i]) && '(' !in s
    ensures LowerChar(s[i]) in Residual(s) && !IsNumeral(LowerChar(s[i]))
  {
    var a, b := StripSlice(s);
    assert a <= i < b;
    var l := LetterInLowerStrip(s, a, b, i);
    var r := RemoveSeparators(l);
    RemoveSeparatorsMembers(l);
    assert LowerChar(s[i]) in r && '(' !in r;
    RemoveParenthesisedNoOpen(r);
  }

  lemma LetterInLowerStrip(s: string, a: nat, b: nat, i: nat) returns (l: string)
    requires a <= i < b <= |s| && Strip(s) == s[a..b] && '(' !in s
    ensures l == Lower(Strip(s)) && LowerChar(s[i]) in l && '(' !in l
  {
    l := Lower(s[a..b]);
    assert l[i - a] == LowerChar(s[i]);
  }

  /**
   * A letter outside any parentheses makes the cell unparseable. The letters
   * of exponents, "inf", "infinity" and "nan", which Python's `float()` reads,
   * are excluded.
   */
  lemma CleanRejectsLetter(s: string, i: nat)
    requires i < |s| && IsLetter(s[i]) && s[i] !in "aefintyAEFINTY" && '(' !in s
    ensures CleanValue(Some(s)) == None
  {
    LetterInResidual(s, i);
    if CleanValue(Some(s)).Some? {
      CleanValueNumeral(s);
    }
  }

  /** The decimal spelling of a natural number. */
  function NatToString(n: nat): (s: string)
    ensures |s| > 0 && AllDigits(s)
  {
    var d := ['0' + (n % 10) as char];
    if n < 10 then d else NatToString(n / 10) + d
  }

  lemma {:induction false} DigitsValueOfNatToString(n: nat)
    ensures DigitsValue(NatToString(n)) == n
  {
    if n >= 10 {
      DigitsValueOfNatToString(n / 10);
      var s := NatToString(n);
      assert s[..|s| - 1] == NatToString(n / 10);
    }
  }

  /** A string of digits is a decimal literal whose value is the digits' value. */
  lemma DigitsAreDecimal(s: string)
    requires |s| > 0 && AllDigits(s)
    ensures IsDecimal(s) && DecimalValue(s) == DigitsValue(s) as real
  {
    assert '.' !in s;
  }

  lemma CleanDigits(s: string, v: nat)
    requires |s| > 0 && AllDigits(s) && DigitsValue(s) == v
    ensures CleanValue(Some(s)) == Some(v as real)
  {
    DigitsAreDecimal(s);
    CleanPlainDecimal(s);
  }

  /** Cleaning the decimal spelling of a number gives back that number. */
  lemma CleanNatToString(n: nat)
    ensures CleanValue(Some(NatToString(n))) == Some(n as real)
  {
    DigitsValueOfNatToString(n);
    CleanDigits(NatToString(n), n);
  }

  // The worked examples take the cell as a parameter fixed by `requires`: a
  // literal argument would make the verifier try to evaluate the whole
  // cleaning pipeline symbolically.

  /** "1755986" cleans to 1755986 (and with the general separator lemma, so do "1,755,986" and "₹1,755,986"). */
  lemma CleanExamplePlain(s: string)
    requires s == "1755986"
    ensures CleanValue(Some(s)) == Some(1755986.0)
  {
    ExampleSpelling(s);
    CleanNatToString(1755986);
  }

  lemma ExampleSpelling(s: string)
    requires s == "1755986"
    ensures s == NatToString(1755986)
  {
    assert s == NatToString(175598) + "6";
  }

  /** "₹1,755,986 Cr" keeps the letters of "cr" and cleans to `None`. */
  lemma CleanExampleCrore(s: string)
    requires s == "\U{20B9}1,755,986 Cr"
    ensures CleanValue(Some(s)) == None
  {
    assert IsLetter(s[11]) && '(' !in s;
    CleanRejectsLetter(s, 11);
  }

  /** "(1,755,986)" is erased by the parenthesis deletion and cleans to `None`. */
  lemma CleanExampleParenthesised(s: string)
    requires s == "(1,755,986)"
    ensures CleanValue(Some(s)) == None
  {
    var t := s[1..|s| - 1];
    assert ')' !in t;
    assert s == "(" + t + ")";
    CleanErasesParenthesised(t);
  }
}
