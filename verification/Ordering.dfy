/** The order Python gives `str` and `bytes`, and what `sorted` over a set of strings returns.

Strings are compared by code point and byte strings by byte value, position by position, with a
proper prefix first; both are the order below over integer sequences. */
module Ordering {

  /** Strict lexicographic order. */
  predicate Less(a: seq<int>, b: seq<int>) {
    |b| > 0 && (|a| == 0 || a[0] < b[0] || (a[0] == b[0] && Less(a[1..], b[1..])))
  }

  lemma {:induction false} LessTransitive(a: seq<int>, b: seq<int>, c: seq<int>)
    requires Less(a, b) && Less(b, c)
    ensures Less(a, c)
  {
    if |a| > 0 && a[0] == b[0] && b[0] == c[0] {
      LessTransitive(a[1..], b[1..], c[1..]);
    }
  }

  /** The first `i` positions agree, and the next one decides. */
  predicate DecidedAt(a: seq<int>, b: seq<int>, i: nat) {
    i <= |a| && i < |b| && a[..i] == b[..i] && (i == |a| || a[i] < b[i])
  }

  /** The order is the one of the first difference, a proper prefix coming first. */
  lemma {:induction false} LessExactly(a: seq<int>, b: seq<int>)
    ensures Less(a, b) <==> exists i: nat :: DecidedAt(a, b, i)
  {
    if i: nat :| DecidedAt(a, b, i) {
      if i > 0 {
        assert a[0] == a[..i][0] == b[..i][0] == b[0];
        assert a[1..][..i - 1] == a[..i][1..] && b[1..][..i - 1] == b[..i][1..];
        assert DecidedAt(a[1..], b[1..], i - 1);
        LessExactly(a[1..], b[1..]);
      }
    }
    if Less(a, b) {
      if |a| == 0 || a[0] < b[0] {
        assert DecidedAt(a, b, 0);
      } else {
        LessExactly(a[1..], b[1..]);
        var i: nat :| DecidedAt(a[1..], b[1..], i);
        assert a[..i + 1] == [a[0]] + a[1..][..i] && b[..i + 1] == [b[0]] + b[1..][..i];
        assert DecidedAt(a, b, i + 1);
      }
    }
  }

  /** Exactly one of `a == b`, `a < b`, `b < a`. */
  lemma {:induction false} LessTrichotomy(a: seq<int>, b: seq<int>)
    ensures a == b || Less(a, b) || Less(b, a)
    ensures !(Less(a, b) && Less(b, a))
    ensures !Less(a, a)
  {
    if |a| > 0 {
      LessTrichotomy(a[1..], a[1..]);
      if |b| > 0 {
        LessTrichotomy(a[1..], b[1..]);
        assert a == [a[0]] + a[1..] && b == [b[0]] + b[1..];
      }
    }
  }

  function CodePoints(s: string): (r: seq<int>)
    ensures |r| == |s| && forall i :: 0 <= i < |s| ==> r[i] == s[i] as int
  {
    seq(|s|, i requires 0 <= i < |s| => s[i] as int)
  }

  predicate StringLess(a: string, b: string) {
    Less(CodePoints(a), CodePoints(b))
  }

  lemma StringLessTrichotomy(a: string, b: string)
    ensures a == b || StringLess(a, b) || StringLess(b, a)
    ensures !(StringLess(a, b) && StringLess(b, a))
    ensures !StringLess(a, a)
  {
    LessTrichotomy(CodePoints(a), CodePoints(b));
    if CodePoints(a) == CodePoints(b) {
      assert forall i :: 0 <= i < |a| ==> CodePoints(a)[i] == CodePoints(b)[i];
      assert a == b;
    }
  }

  lemma StringLessTransitive(a: string, b: string, c: string)
    requires StringLess(a, b) && StringLess(b, c)
    ensures StringLess(a, c)
  {
    LessTransitive(CodePoints(a), CodePoints(b), CodePoints(c));
  }

  predicate IsLeast(m: string, s: set<string>) {
    m in s && forall x :: x in s ==> x == m || StringLess(m, x)
  }

  lemma LeastExists(s: set<string>)
    requires s != {}
    ensures exists m :: IsLeast(m, s)
  {
    var x :| x in s;
    if s == {x} {
      assert IsLeast(x, s);
    } else {
      var rest := s - {x};
      LeastExists(rest);
      var m :| IsLeast(m, rest);
      StringLessTrichotomy(x, m);
      var least := if StringLess(x, m) then x else m;
      forall y | y in s ensures y == least || StringLess(least, y) {
        if least == x && y != x && y != m {
          StringLessTransitive(x, m, y);
        }
      }
      assert IsLeast(least, s);
    }
  }

  lemma LeastUnique(s: set<string>, a: string, b: string)
    requires IsLeast(a, s) && IsLeast(b, s)
    ensures a == b
  {
    StringLessTrichotomy(a, b);
  }

  function Least(s: set<string>): (m: string)
    requires s != {}
    ensures IsLeast(m, s)
  {
    LeastExists(s);
    assert forall a, b | IsLeast(a, s) && IsLeast(b, s) :: a == b by {
      forall a, b | IsLeast(a, s) && IsLeast(b, s) ensures a == b { LeastUnique(s, a, b); }
    }
    var m :| m in s && IsLeast(m, s);
    m
  }

  predicate StrictlySorted(xs: seq<string>) {
    forall i, j :: 0 <= i < j < |xs| ==> StringLess(xs[i], xs[j])
  }

  function Elements(xs: seq<string>): set<string> {
    set x | x in xs
  }

  lemma ConsLeast(m: string, s: set<string>, rest: seq<string>)
    requires IsLeast(m, s) && StrictlySorted(rest) && Elements(rest) == s - {m}
    ensures StrictlySorted([m] + rest) && Elements([m] + rest) == s
  {
    var r := [m] + rest;
    forall i, j | 0 <= i < j < |r| ensures StringLess(r[i], r[j]) {
      if i == 0 {
        assert rest[j - 1] in Elements(rest);
      } else {
        assert StringLess(rest[i - 1], rest[j - 1]);
      }
    }
    assert Elements(r) == {m} + Elements(rest);
  }

  /** `sorted(s)` for a set of strings. */
  function SortedStrings(s: set<string>): (r: seq<string>)
    ensures StrictlySorted(r) && Elements(r) == s && |r| == |s|
  {
    if s == {} then [] else
      var m := Least(s);
      var rest := SortedStrings(s - {m});
      ConsLeast(m, s, rest);
      [m] + rest
  }

  lemma NoElements(xs: seq<string>)
    ensures Elements(xs) == {} <==> xs == []
  {
    if xs != [] {
      assert xs[0] in Elements(xs);
    }
  }

  /** A set has one strictly sorted listing. */
  lemma {:induction false} SortedUnique(xs: seq<string>, ys: seq<string>)
    requires StrictlySorted(xs) && StrictlySorted(ys) && Elements(xs) == Elements(ys)
    ensures xs == ys
  {
    NoElements(xs);
    NoElements(ys);
    if xs != [] {
      assert xs[0] in Elements(ys);
      assert ys[0] in Elements(xs);
      StringLessTrichotomy(xs[0], ys[0]);
      assert xs[0] == ys[0];
      HeadNotInTail(xs);
      HeadNotInTail(ys);
      SortedUnique(xs[1..], ys[1..]);
      assert xs == [xs[0]] + xs[1..] && ys == [ys[0]] + ys[1..];
    }
  }

  lemma HeadNotInTail(xs: seq<string>)
    requires StrictlySorted(xs) && xs != []
    ensures Elements(xs[1..]) == Elements(xs) - {xs[0]}
  {
    forall x ensures x in Elements(xs[1..]) <==> x in Elements(xs) - {xs[0]} {
      StringLessTrichotomy(xs[0], xs[0]);
      if x in Elements(xs) && x != xs[0] {
        var i :| 0 <= i < |xs| && xs[i] == x;
        assert xs[1..][i - 1] == x;
      }
    }
  }

  /** Sort and deduplicate a set-like collection: `tuple(sorted(set(values)))`. */
  function Normalize(values: seq<string>): seq<string> {
    SortedStrings(Elements(values))
  }

  /** Normalising depends only on which elements occur, and a second pass changes nothing. */
  lemma NormalizeCanonical(values: seq<string>, others: seq<string>)
    ensures Normalize(values) == Normalize(others) <==> Elements(values) == Elements(others)
    ensures Normalize(Normalize(values)) == Normalize(values)
  {
    assert Elements(Normalize(values)) == Elements(values);
    assert Elements(Normalize(others)) == Elements(others);
  }
}
