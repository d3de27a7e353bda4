/** Keys with one "*": their parts, when they match, and how they are ranked. */
module StarPatterns {
  import opened Wrappers
  import opened Strings
  import opened Sorting

  datatype Star = Star(prefix: string, suffix: string)

  function KeyOf(s: Star): string {
    s.prefix + "*" + s.suffix
  }

  /** The parts of a key around its first "*". */
  function StarOf(key: string): (r: Option<Star>)
    ensures r.None? <==> '*' !in key
    ensures r.Some? ==> key == KeyOf(r.value) && '*' !in r.value.prefix
  {
    match Cut(key, '*')
    case None => None
    case Some((before, after)) => Some(Star(before, after))
  }

  predicate Fits(s: Star, p: string) {
    HasPrefix(p, s.prefix) && HasSuffix(p, s.suffix)
  }

  /** a goes before b: a longer prefix, or an equally long one and a longer suffix. */
  predicate Outranks(a: Star, b: Star) {
    |a.prefix| > |b.prefix| || (|a.prefix| == |b.prefix| && |a.suffix| > |b.suffix|)
  }

  /** Two keys of equal rank that match the same text are the same key. */
  lemma EqualRankNeverBothFit(a: Star, b: Star, p: string)
    requires Fits(a, p) && Fits(b, p) && !Outranks(a, b) && !Outranks(b, a)
    ensures a == b
  {
  }

  /** What "*" stands for; the parts may not overlap in the text. */
  function Matched(s: Star, p: string): (r: string)
    requires Fits(s, p) && |s.prefix| + |s.suffix| <= |p|
    ensures p == s.prefix + r + s.suffix
  {
    p[|s.prefix|..|p| - |s.suffix|]
  }

  /******* Lists of the entries of a map, made in any order *******/

  datatype Entry = Entry(star: Star, targets: seq<string>)

  ghost predicate Distinct(s: seq<Entry>) {
    forall i, j :: 0 <= i < j < |s| ==> s[i].star != s[j].star
  }

  /** Every entry of the map is listed, once, and nothing else. */
  ghost predicate Lists(wanted: map<string, Entry>, list: seq<Entry>) {
    && (forall e :: e in list ==> KeyOf(e.star) in wanted && wanted[KeyOf(e.star)] == e)
    && (forall key :: key in wanted ==> KeyOf(wanted[key].star) == key && wanted[key] in list)
    && Distinct(list)
  }

  lemma ListOneMore(wanted: map<string, Entry>, list: seq<Entry>, e: Entry)
    requires Lists(wanted, list) && KeyOf(e.star) !in wanted
    ensures Lists(wanted[KeyOf(e.star) := e], list + [e])
  {
    var more := list + [e];
    forall i | 0 <= i < |list| ensures list[i].star != e.star {
      assert list[i] in list;
    }
    assert more[|list|] in more;
    forall key | key in wanted ensures wanted[key] in more {
      assert wanted[key] in list;
    }
  }

  lemma TwiceInMultiset(s: seq<Entry>, i: nat, j: nat)
    requires i < j < |s| && s[i] == s[j]
    ensures multiset(s)[s[i]] >= 2
  {
    assert s == s[..j] + [s[j]] + s[j + 1..];
    assert s[..j][i] == s[i] && s[i] in multiset(s[..j]);
  }

  lemma OnceInMultiset(s: seq<Entry>, k: nat)
    requires k < |s| && Distinct(s)
    ensures multiset(s)[s[k]] == 1
  {
    assert s == s[..k] + [s[k]] + s[k + 1..];
    assert s[k] !in s[..k] && s[k] !in s[k + 1..];
  }

  lemma ListIsPermuted(wanted: map<string, Entry>, a: seq<Entry>, b: seq<Entry>)
    requires Lists(wanted, a) && Permutation(b, a)
    ensures Lists(wanted, b)
  {
    forall e ensures e in a <==> e in b {
      assert e in a <==> e in multiset(a);
      assert e in b <==> e in multiset(b);
    }
    forall i, j | 0 <= i < j < |b| ensures b[i].star != b[j].star {
      assert b[i] in b && b[j] in b;
      if b[i] == b[j] {
        TwiceInMultiset(b, i, j);
        var k :| 0 <= k < |a| && a[k] == b[i];
        OnceInMultiset(a, k);
      }
    }
  }

  lemma SameElementsPermute(a: seq<Entry>, b: seq<Entry>)
    requires Distinct(a) && Distinct(b) && forall e :: e in a <==> e in b
    ensures Permutation(a, b)
  {
    forall e ensures multiset(a)[e] == multiset(b)[e] {
      if e in a {
        var i, j :| 0 <= i < |a| && a[i] == e && 0 <= j < |b| && b[j] == e;
        OnceInMultiset(a, i);
        OnceInMultiset(b, j);
      } else {
        assert e !in multiset(a) && e !in multiset(b);
      }
    }
  }

  /** Without ties, the sorted list depends neither on the order of the map nor on the sort. */
  lemma SortedListIsUnique(leq: (Entry, Entry) -> bool, wanted: map<string, Entry>, a: seq<Entry>, b: seq<Entry>)
    requires Lists(wanted, a) && Lists(wanted, b)
    requires TotalPreorder(leq) && SortedBy(leq, a) && SortedBy(leq, b) && NoTies(leq, a)
    ensures a == b
  {
    forall e ensures e in a <==> e in b {
      SameEntry(wanted, a, b, e);
      SameEntry(wanted, b, a, e);
    }
    SameElementsPermute(a, b);
    SortedPermutationIsUnique(leq, a, b);
  }

  lemma SameEntry(wanted: map<string, Entry>, a: seq<Entry>, b: seq<Entry>, e: Entry)
    requires Lists(wanted, a) && Lists(wanted, b)
    ensures e in a ==> e in b
  {
  }

  /** Any sort by a total preorder. */
  method SortEntries(leq: (Entry, Entry) -> bool, list: seq<Entry>) returns (r: seq<Entry>)
    requires TotalPreorder(leq)
    ensures SortedBy(leq, r) && Permutation(r, list)
  {
    SortSorts(leq, list);
    r := Sort(leq, list);
  }
}
