/**
 * Python's ordering of `str` values, by code point, and `sorted` of a set
 * of strings.
 */
module StringOrder {

  /** `a < b` on Python strings: the first differing character decides, and a proper prefix comes first. */
  predicate Less(a: string, b: string)
    decreases |a|
  {
    if a == [] then b != []
    else b != [] && (a[0] < b[0] || (a[0] == b[0] && Less(a[1..], b[1..])))
  }

  lemma {:induction false} LessIrreflexive(a: string)
    ensures !Less(a, a)
    decreases |a|
  {
    if a != [] {
      LessIrreflexive(a[1..]);
    }
  }

  lemma {:induction false} LessTransitive(a: string, b: string, c: string)
    requires Less(a, b) && Less(b, c)
    ensures Less(a, c)
    decreases |a|
  {
    if a != [] && a[0] == b[0] && b[0] == c[0] {
      LessTransitive(a[1..], b[1..], c[1..]);
    }
  }

  lemma {:induction false} LessTotal(a: string, b: string)
    requires a != b
    ensures Less(a, b) || Less(b, a)
    decreases |a|
  {
    if a != [] && b != [] && a[0] == b[0] {
      assert a == [a[0]] + a[1..] && b == [b[0]] + b[1..];
      LessTotal(a[1..], b[1..]);
    }
  }

  predicate StrictlySorted(s: seq<string>) {
    forall i, j :: 0 <= i < j < |s| ==> Less(s[i], s[j])
  }

  /** Inserts `y` at its place in a sorted sequence. */
  function Insert(s: seq<string>, y: string): seq<string> {
    if s == [] then [y]
    else if Less(y, s[0]) then [y] + s
    else [s[0]] + Insert(s[1..], y)
  }

  lemma {:induction false} InsertMembers(s: seq<string>, y: string)
    ensures forall x :: x in Insert(s, y) <==> x in s || x == y
  {
    if s != [] && !Less(y, s[0]) {
      InsertMembers(s[1..], y);
      assert s == [s[0]] + s[1..];
    }
  }

  lemma {:induction false} InsertSorted(s: seq<string>, y: string)
    requires StrictlySorted(s) && y !in s
    ensures StrictlySorted(Insert(s, y))
  {
    if s == [] {
    } else if Less(y, s[0]) {
      forall j | 0 < j < |s|
        ensures Less(y, s[j])
      {
        LessTransitive(y, s[0], s[j]);
      }
    } else {
      LessTotal(y, s[0]);
      var tail := Insert(s[1..], y);
      InsertSorted(s[1..], y);
      InsertMembers(s[1..], y);
      forall j | 0 <= j < |tail|
        ensures Less(s[0], tail[j])
      {
        assert tail[j] in s[1..] || tail[j] == y;
      }
    }
  }

  /** `sorted(list(years))`. */
  method SortedList(years: set<string>) returns (labels: seq<string>)
    ensures StrictlySorted(labels)
    ensures forall y :: y in labels <==> y in years
  {
    labels := [];
    var rest := years;
    while rest != {}
      invariant rest <= years
      invariant StrictlySorted(labels)
      invariant forall y :: y in labels <==> y in years && y !in rest
      decreases |rest|
    {
      var y :| y in rest;
      InsertSorted(labels, y);
      InsertMembers(labels, y);
      labels := Insert(labels, y);
      rest := rest - {y};
    }
  }

  /** A strictly sorted sequence holds each of its elements once. */
  lemma StrictlySortedDistinct(s: seq<string>)
    requires StrictlySorted(s)
    ensures forall i, j :: 0 <= i < j < |s| ==> s[i] != s[j]
  {
    forall i, j | 0 <= i < j < |s|
      ensures s[i] != s[j]
    {
      LessIrreflexive(s[i]);
    }
  }

  lemma SameElementsEmpty(a: seq<string>, b: seq<string>)
    requires forall x :: x in a <==> x in b
    ensures a == [] <==> b == []
  {
    if a != [] {
      assert a[0] in b;
    }
    if b != [] {
      assert b[0] in a;
    }
  }

  /** Only one strictly sorted sequence has a given set of elements: the labels are fully determined. */
  lemma {:induction false} SortedUnique(a: seq<string>, b: seq<string>)
    requires StrictlySorted(a) && StrictlySorted(b)
    requires forall x :: x in a <==> x in b
    ensures a == b
    decreases |a|
  {
    SameElementsEmpty(a, b);
    if a != [] {
      assert b[0] in a && a[0] in b;
      if a[0] != b[0] {
        LessTransitive(a[0], b[0], a[0]);
        LessIrreflexive(a[0]);
        assert false;
      }
      StrictlySortedDistinct(a);
      StrictlySortedDistinct(b);
      forall x
        ensures x in a[1..] <==> x in b[1..]
      {
        if x in a[1..] {
          var i :| 0 <= i < |a| - 1 && a[1..][i] == x;
          assert a[i + 1] == x && x != a[0] && x in a && x in b;
          var j :| 0 <= j < |b| && b[j] == x;
          assert j != 0 && b[1..][j - 1] == x;
        }
        if x in b[1..] {
          var j :| 0 <= j < |b| - 1 && b[1..][j] == x;
          assert b[j + 1] == x && x != b[0] && x in b && x in a;
          var i :| 0 <= i < |a| && a[i] == x;
          assert i != 0 && a[1..][i - 1] == x;
        }
      }
      SortedUnique(a[1..], b[1..]);
      assert a == [a[0]] + a[1..] && b == [b[0]] + b[1..];
    }
  }
}
