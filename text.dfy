/**
 * The handful of Python `str` operations the parser relies on, over Dafny
 * strings (`seq<char>`): `lower()`, `strip()`, the `in` substring test,
 * `startswith`/`endswith`, and deleting characters.
 *
 * `lower()` is modelled on ASCII letters only; whitespace is the set Python's
 * `str.isspace()` (and the regular expression class `\s`) recognises.
 */
module Text {

  /** Lower-cases an ASCII letter and leaves every other character alone. */
  function LowerChar(c: char): (r: char)
    ensures 'A' <= c <= 'Z' ==> r != c && 'a' <= r <= 'z'
    ensures !('A' <= c <= 'Z') ==> r == c
  {
    if 'A' <= c <= 'Z' then (c as int + 32) as char else c
  }

  function UpperChar(c: char): (r: char)
    ensures 'a' <= c <= 'z' ==> r != c && 'A' <= r <= 'Z'
    ensures !('a' <= c <= 'z') ==> r == c
  {
    if 'a' <= c <= 'z' then (c as int - 32) as char else c
  }

  predicate IsLetter(c: char) {
    'a' <= c <= 'z' || 'A' <= c <= 'Z'
  }

  /** `str.lower()`, position by position. */
  function Lower(s: string): (r: string)
    ensures |r| == |s|
    ensures forall i :: 0 <= i < |s| ==> r[i] == LowerChar(s[i])
  {
    seq(|s|, i requires 0 <= i < |s| => LowerChar(s[i]))
  }

  lemma LowerIdempotent(s: string)
    ensures Lower(Lower(s)) == Lower(s)
  {
  }

  lemma LowerConcat(a: string, b: string)
    ensures Lower(a + b) == Lower(a) + Lower(b)
  {
  }

  /** The characters `str.isspace()` and `\s` accept. */
  predicate IsSpace(c: char) {
    ('\t' <= c <= '\r') || ('\U{1C}' <= c <= ' ') || c == '\U{85}' || c == '\U{A0}' ||
    c == '\U{1680}' || ('\U{2000}' <= c <= '\U{200A}') || c == '\U{2028}' || c == '\U{2029}' ||
    c == '\U{202F}' || c == '\U{205F}' || c == '\U{3000}'
  }

  /** Number of leading whitespace characters. */
  function LeadingSpaces(s: string): (n: nat)
    ensures n <= |s|
    ensures forall i :: 0 <= i < n ==> IsSpace(s[i])
    ensures n < |s| ==> !IsSpace(s[n])
  {
    if s != [] && IsSpace(s[0]) then 1 + LeadingSpaces(s[1..]) else 0
  }

  /** Number of trailing whitespace characters. */
  function TrailingSpaces(s: string): (n: nat)
    ensures n <= |s|
    ensures forall i :: |s| - n <= i < |s| ==> IsSpace(s[i])
    ensures n < |s| ==> !IsSpace(s[|s| - n - 1])
  {
    if s != [] && IsSpace(s[|s| - 1]) then 1 + TrailingSpaces(s[..|s| - 1]) else 0
  }

  /** `str.strip()`: the input without whitespace at either end. */
  function Strip(s: string): (r: string)
    ensures r == [] || (!IsSpace(r[0]) && !IsSpace(r[|r| - 1]))
  {
    var t := s[LeadingSpaces(s)..];
    t[..|t| - TrailingSpaces(t)]
  }

  /** What `Strip` keeps is one slice of its input, with only whitespace cut off either side. */
  lemma StripSlice(s: string) returns (a: nat, b: nat)
    ensures a <= b <= |s| && Strip(s) == s[a..b]
    ensures forall i :: 0 <= i < a ==> IsSpace(s[i])
    ensures forall i :: b <= i < |s| ==> IsSpace(s[i])
  {
    a := LeadingSpaces(s);
    var t := s[a..];
    b := a + |t| - TrailingSpaces(t);
    assert s[a..b] == t[..|t| - TrailingSpaces(t)];
    forall i | b <= i < |s| ensures IsSpace(s[i]) {
      assert s[i] == t[i - a];
    }
  }

  /** A string that neither starts nor ends with whitespace is its own strip. */
  lemma StripNoop(s: string)
    requires s == [] || (!IsSpace(s[0]) && !IsSpace(s[|s| - 1]))
    ensures Strip(s) == s
  {
    var a, b := StripSlice(s);
  }

  /** Position of the first `c` in `s` (Python's `str.index`). */
  function IndexOf(s: string, c: char): (k: nat)
    requires c in s
    ensures k < |s| && s[k] == c && c !in s[..k]
  {
    if s[0] == c then 0 else 1 + IndexOf(s[1..], c)
  }

  /** `p` occurs in `s` starting at position `i` (compared character by character). */
  predicate PrefixAt(s: string, p: string, i: nat)
    decreases |p|
  {
    |p| == 0 || (i < |s| && s[i] == p[0] && PrefixAt(s, p[1..], i + 1))
  }

  /** `p` occurs in `s` at some position `j >= i`. */
  predicate ContainsFrom(s: string, p: string, i: nat)
    decreases |s| - i
  {
    i + |p| <= |s| && (PrefixAt(s, p, i) || ContainsFrom(s, p, i + 1))
  }

  /** Python's `p in s` for strings. */
  predicate Contains(s: string, p: string) {
    ContainsFrom(s, p, 0)
  }

  /** `p` is the slice of `s` at `i`: the declarative reading of an occurrence. */
  predicate OccursAt(s: string, p: string, i: int) {
    0 <= i && i + |p| <= |s| && s[i..i + |p|] == p
  }

  lemma {:induction false} PrefixAtIff(s: string, p: string, i: nat)
    requires i <= |s|
    ensures PrefixAt(s, p, i) <==> OccursAt(s, p, i)
    decreases |p|
  {
    if |p| > 0 && i < |s| {
      PrefixAtIff(s, p[1..], i + 1);
      if OccursAt(s, p, i) {
        assert s[i + 1..i + 1 + |p[1..]|] == s[i..i + |p|][1..];
      }
      if i < |s| && s[i] == p[0] && OccursAt(s, p[1..], i + 1) {
        assert s[i..i + |p|] == [s[i]] + s[i + 1..i + 1 + |p[1..]|];
      }
    }
  }

  lemma {:induction false} ContainsFromIff(s: string, p: string, i: nat)
    ensures ContainsFrom(s, p, i) <==> exists j :: i <= j && OccursAt(s, p, j)
    decreases |s| - i
  {
    if i + |p| <= |s| {
      PrefixAtIff(s, p, i);
      ContainsFromIff(s, p, i + 1);
      if exists j :: i <= j && OccursAt(s, p, j) {
        var j :| i <= j && OccursAt(s, p, j);
        assert j == i || (i + 1 <= j && OccursAt(s, p, j));
      }
    }
  }

  /** `p in s` holds exactly when `p` is a slice of `s`. */
  lemma ContainsIff(s: string, p: string)
    ensures Contains(s, p) <==> exists j :: OccursAt(s, p, j)
  {
    ContainsFromIff(s, p, 0);
  }

  lemma ContainsWitness(s: string, p: string, j: int)
    requires OccursAt(s, p, j)
    ensures Contains(s, p)
  {
    ContainsIff(s, p);
  }

  /** A substring of a substring is a substring. */
  lemma ContainsTransitive(s: string, p: string, q: string)
    requires Contains(s, p) && Contains(p, q)
    ensures Contains(s, q)
  {
    ContainsIff(s, p);
    ContainsIff(p, q);
    var i :| OccursAt(s, p, i);
    var j :| OccursAt(p, q, j);
    assert forall k :: 0 <= k < |q| ==> q[k] == p[j + k] == s[i + j + k];
    assert s[i + j..i + j + |q|] == q;
    ContainsWitness(s, q, i + j);
  }

  /** A pattern holding a character the text lacks cannot occur in it. */
  lemma MissingCharNotContained(s: string, p: string, k: nat)
    requires k < |p| && p[k] !in s
    ensures !Contains(s, p)
  {
    ContainsIff(s, p);
  }

  /** `any(p in s for p in ps)`. */
  predicate ContainsAny(s: string, ps: seq<string>) {
    exists k :: 0 <= k < |ps| && Contains(s, ps[k])
  }

  /** `str.startswith(p)`. */
  predicate StartsWith(s: string, p: string) {
    |p| <= |s| && PrefixAt(s, p, 0)
  }

  /** `str.endswith(p)`. */
  predicate EndsWith(s: string, p: string) {
    |p| <= |s| && PrefixAt(s, p, |s| - |p|)
  }

  lemma EndsWithIff(s: string, p: string)
    ensures EndsWith(s, p) <==> |p| <= |s| && s[|s| - |p|..] == p
  {
    if |p| <= |s| {
      PrefixAtIff(s, p, |s| - |p|);
    }
  }

  /** `str.replace(old, new)` for single characters. */
  function ReplaceChar(s: string, from: char, to: char): (r: string)
    ensures |r| == |s|
    ensures forall i :: 0 <= i < |s| ==> r[i] == if s[i] == from then to else s[i]
  {
    seq(|s|, i requires 0 <= i < |s| => if s[i] == from then to else s[i])
  }
}
