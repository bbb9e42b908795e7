/** The string operations the picker uses on server names: ASCII lower-casing and ordering. */
module Text {

  function LowerChar(c: char): char {
    if 'A' <= c <= 'Z' then (c as int + 32) as char else c
  }

  function Lower(s: string): (l: string)
    ensures |l| == |s|
  {
    seq(|s|, i requires 0 <= i < |s| => LowerChar(s[i]))
  }

  /** Two names are one when they are equal up to the case of ASCII letters. */
  lemma SameWhenLowered(a: string, b: string)
    ensures Lower(a) == Lower(b)
            <==> |a| == |b| && forall i :: 0 <= i < |a| ==>
                   || a[i] == b[i]
                   || ('A' <= a[i] <= 'Z' && b[i] as int == a[i] as int + 32)
                   || ('A' <= b[i] <= 'Z' && a[i] as int == b[i] as int + 32)
  {
    forall i | 0 <= i < |a| && |a| == |b|
      ensures Lower(a)[i] == Lower(b)[i]
              <==> || a[i] == b[i]
                   || ('A' <= a[i] <= 'Z' && b[i] as int == a[i] as int + 32)
                   || ('A' <= b[i] <= 'Z' && a[i] as int == b[i] as int + 32)
    {
      assert Lower(a)[i] as int == LowerChar(a[i]) as int && Lower(b)[i] as int == LowerChar(b[i]) as int;
    }
  }

  /** Lexicographic order, as Python compares strings. */
  predicate AtMost(a: string, b: string) {
    a == [] || (b != [] && (a[0] < b[0] || (a[0] == b[0] && AtMost(a[1..], b[1..]))))
  }

  lemma SameBeginning(a: string, b: string, i: nat)
    requires 0 < i <= |a| && i <= |b| && a[..i] == b[..i]
    ensures a[0] == b[0]
  {
    assert a[..i][0] == a[0] && b[..i][0] == b[0];
  }

  /** Does the first difference, at a place both have, put `a` before `b`? */
  ghost predicate DiffersBelow(a: string, b: string) {
    exists i :: DiffersBelowAt(a, b, i)
  }

  predicate DiffersBelowAt(a: string, b: string, i: int) {
    0 <= i < |a| && i < |b| && a[..i] == b[..i] && a[i] < b[i]
  }

  /** A prefix comes first, and otherwise the first difference decides. */
  lemma {:induction false} AtMostIsLexicographic(a: string, b: string)
    ensures AtMost(a, b) <==> a <= b || DiffersBelow(a, b)
  {
    if a != [] && b != [] {
      if a[0] == b[0] {
        AtMostIsLexicographic(a[1..], b[1..]);
        TailsDiffer(a, b);
        assert a <= b <==> a[1..] <= b[1..];
      } else {
        assert DiffersBelowAt(a, b, 0) <==> a[0] < b[0];
        forall i | DiffersBelowAt(a, b, i) ensures i == 0 {
          if i > 0 { SameBeginning(a, b, i); }
        }
      }
    }
  }

  lemma TailsDiffer(a: string, b: string)
    requires a != [] && b != [] && a[0] == b[0]
    ensures DiffersBelow(a, b) <==> DiffersBelow(a[1..], b[1..])
  {
    forall i | DiffersBelowAt(a[1..], b[1..], i) ensures DiffersBelowAt(a, b, i + 1) {
      assert a[..i + 1] == [a[0]] + a[1..][..i] && b[..i + 1] == [b[0]] + b[1..][..i];
    }
    forall i | DiffersBelowAt(a, b, i) ensures i > 0 && DiffersBelowAt(a[1..], b[1..], i - 1) {
      assert i > 0;
      assert a[1..][..i - 1] == a[..i][1..] && b[1..][..i - 1] == b[..i][1..];
    }
  }

  lemma {:induction false} AtMostIsTotal(a: string, b: string)
    ensures AtMost(a, b) || AtMost(b, a)
  {
    if a != [] && b != [] && a[0] == b[0] { AtMostIsTotal(a[1..], b[1..]); }
  }

  lemma {:induction false} AtMostIsAntisymmetric(a: string, b: string)
    requires AtMost(a, b) && AtMost(b, a)
    ensures a == b
  {
    if a != [] {
      AtMostIsAntisymmetric(a[1..], b[1..]);
      assert a == [a[0]] + a[1..] && b == [b[0]] + b[1..];
    }
  }

  lemma {:induction false} AtMostIsTransitive(a: string, b: string, c: string)
    requires AtMost(a, b) && AtMost(b, c)
    ensures AtMost(a, c)
  {
    if a != [] && b[0] == a[0] == c[0] { AtMostIsTransitive(a[1..], b[1..], c[1..]); }
  }
}
