/** The string operations of the source: prefixes, suffixes, cutting, substituting, comparing. */
module Strings {
  import opened Wrappers
  import opened Sorting

  predicate HasPrefix(s: string, prefix: string) {
    |prefix| <= |s| && s[..|prefix|] == prefix
  }

  predicate HasSuffix(s: string, suffix: string) {
    |suffix| <= |s| && s[|s| - |suffix|..] == suffix
  }

  /** strings.Cut on one character: the text before and after its first occurrence. */
  function Cut(s: string, c: char): (r: Option<(string, string)>)
    ensures r.None? <==> c !in s
    ensures r.Some? ==> s == r.value.0 + [c] + r.value.1 && c !in r.value.0
  {
    if s == [] then None
    else if s[0] == c then Some(("", s[1..]))
    else
      var r := Cut(s[1..], c);
      if r.None? then None else Some(([s[0]] + r.value.0, r.value.1))
  }

  lemma {:induction false} CutIsUnique(s: string, c: char, a: string, b: string)
    requires s == a + [c] + b && c !in a
    ensures Cut(s, c) == Some((a, b))
  {
    if a == [] {
      assert s[1..] == b;
    } else {
      assert s[1..] == a[1..] + [c] + b;
      CutIsUnique(s[1..], c, a[1..], b);
      assert a == [s[0]] + a[1..];
    }
  }

  function ReplaceAll(s: string, c: char, sub: string): string {
    if s == [] then []
    else (if s[0] == c then sub else [s[0]]) + ReplaceAll(s[1..], c, sub)
  }

  /** Every occurrence is replaced and nothing else. */
  lemma {:induction false} ReplaceAllReplaces(s: string, c: char, sub: string, a: string, b: string)
    requires c !in a
    ensures c !in s ==> ReplaceAll(s, c, sub) == s
    ensures ReplaceAll(a + [c] + b, c, sub) == a + sub + ReplaceAll(b, c, sub)
    decreases |s| + |a|
  {
    if s != [] {
      ReplaceAllReplaces(s[1..], c, sub, a, b);
    } else if a != [] {
      assert (a + [c] + b)[1..] == a[1..] + [c] + b;
      ReplaceAllReplaces(s, c, sub, a[1..], b);
      assert a == [a[0]] + a[1..];
    } else {
      assert (a + [c] + b)[1..] == b;
    }
  }

  function ReplaceFirst(s: string, c: char, sub: string): string {
    match Cut(s, c)
    case None => s
    case Some((before, after)) => before + sub + after
  }

  /** The first occurrence is replaced and nothing else. */
  lemma ReplaceFirstReplaces(s: string, c: char, sub: string, a: string, b: string)
    requires c !in a
    ensures c !in s ==> ReplaceFirst(s, c, sub) == s
    ensures ReplaceFirst(a + [c] + b, c, sub) == a + sub + b
  {
    CutIsUnique(a + [c] + b, c, a, b);
  }

  /** Byte order, the order of strings.Compare and slices.Sort. */
  predicate Leq(a: string, b: string) {
    a == [] || (b != [] && (a[0] < b[0] || (a[0] == b[0] && Leq(a[1..], b[1..]))))
  }

  /** It is decided by the first difference; a text comes after its prefixes. */
  lemma {:induction false} LeqByFirstDifference(a: string, b: string)
    ensures Leq(a, b) <==> a <= b || exists i :: 0 <= i < |a| && i < |b| && a[..i] == b[..i] && a[i] < b[i]
  {
    if a != [] && b != [] && a[0] == b[0] {
      LeqByFirstDifference(a[1..], b[1..]);
      forall i | 0 < i < |a| && i < |b|
        ensures a[..i] == b[..i] && a[i] < b[i] <==> a[1..][..i - 1] == b[1..][..i - 1] && a[1..][i - 1] < b[1..][i - 1]
      {
        assert a[..i] == [a[0]] + a[1..][..i - 1] && b[..i] == [b[0]] + b[1..][..i - 1];
        assert a[..i][1..] == a[1..][..i - 1] && b[..i][1..] == b[1..][..i - 1];
      }
      assert a <= b <==> a[1..] <= b[1..] by {
        assert a == [a[0]] + a[1..] && b == [b[0]] + b[1..];
      }
      if i :| 0 <= i < |a[1..]| && i < |b[1..]| && a[1..][..i] == b[1..][..i] && a[1..][i] < b[1..][i] {
        assert a[..i + 1] == b[..i + 1] && a[i + 1] < b[i + 1];
      }
    } else if a != [] && b != [] && a[0] < b[0] {
      assert a[..0] == b[..0];
    }
  }

  lemma {:induction false} LeqIsTotal(a: string, b: string)
    ensures Leq(a, b) || Leq(b, a)
  {
    if a != [] && b != [] {
      LeqIsTotal(a[1..], b[1..]);
    }
  }

  lemma {:induction false} LeqIsTransitive(a: string, b: string, c: string)
    requires Leq(a, b) && Leq(b, c)
    ensures Leq(a, c)
  {
    if a != [] && a[0] == b[0] == c[0] {
      LeqIsTransitive(a[1..], b[1..], c[1..]);
    }
  }

  lemma {:induction false} LeqIsAntisymmetric(a: string, b: string)
    requires Leq(a, b) && Leq(b, a)
    ensures a == b
  {
    if a != [] {
      LeqIsAntisymmetric(a[1..], b[1..]);
      assert a == [a[0]] + a[1..] && b == [b[0]] + b[1..];
    }
  }

  lemma LeqIsTotalOrder()
    ensures TotalPreorder(Leq) && Antisymmetric(Leq)
  {
    forall a, b ensures Leq(a, b) || Leq(b, a) {
      LeqIsTotal(a, b);
    }
    forall a, b, c | Leq(a, b) && Leq(b, c) ensures Leq(a, c) {
      LeqIsTransitive(a, b, c);
    }
    forall a, b | Leq(a, b) && Leq(b, a) ensures a == b {
      LeqIsAntisymmetric(a, b);
    }
  }
}
