/** Sorting by a total preorder; the library sorts of the source are modelled by Sort. */
module Sorting {

  ghost predicate TotalPreorder<T(!new)>(leq: (T, T) -> bool) {
    && (forall a, b :: leq(a, b) || leq(b, a))
    && (forall a, b, c :: leq(a, b) && leq(b, c) ==> leq(a, c))
  }

  ghost predicate Antisymmetric<T(!new)>(leq: (T, T) -> bool) {
    forall a, b :: leq(a, b) && leq(b, a) ==> a == b
  }

  ghost predicate SortedBy<T(!new)>(leq: (T, T) -> bool, s: seq<T>) {
    forall i, j :: 0 <= i < j < |s| ==> leq(s[i], s[j])
  }

  ghost predicate Permutation<T>(s: seq<T>, t: seq<T>) {
    multiset(s) == multiset(t)
  }

  function Insert<T>(leq: (T, T) -> bool, s: seq<T>, x: T): seq<T> {
    if s == [] || leq(s[|s| - 1], x) then s + [x]
    else Insert(leq, s[..|s| - 1], x) + [s[|s| - 1]]
  }

  function Sort<T>(leq: (T, T) -> bool, s: seq<T>): seq<T> {
    if s == [] then [] else Insert(leq, Sort(leq, s[..|s| - 1]), s[|s| - 1])
  }

  lemma {:induction false} InsertKeepsElements<T>(leq: (T, T) -> bool, s: seq<T>, x: T)
    ensures multiset(Insert(leq, s, x)) == multiset(s) + multiset{x}
  {
    if !(s == [] || leq(s[|s| - 1], x)) {
      InsertKeepsElements(leq, s[..|s| - 1], x);
      assert s == s[..|s| - 1] + [s[|s| - 1]];
    }
  }

  lemma {:induction false} InsertIsSorted<T(!new)>(leq: (T, T) -> bool, s: seq<T>, x: T)
    requires TotalPreorder(leq) && SortedBy(leq, s)
    ensures SortedBy(leq, Insert(leq, s, x))
  {
    if !(s == [] || leq(s[|s| - 1], x)) {
      var front, last := s[..|s| - 1], s[|s| - 1];
      InsertIsSorted(leq, front, x);
      InsertKeepsElements(leq, front, x);
      var r := Insert(leq, front, x);
      forall i | 0 <= i < |r| ensures leq(r[i], last) {
        assert r[i] in multiset(r);
        if r[i] != x {
          assert r[i] in front;
        }
      }
    }
  }

  /** Sort is what slices.Sort and its relatives promise: a sorted permutation. */
  lemma {:induction false} SortSorts<T(!new)>(leq: (T, T) -> bool, s: seq<T>)
    requires TotalPreorder(leq)
    ensures SortedBy(leq, Sort(leq, s)) && Permutation(Sort(leq, s), s)
  {
    if s != [] {
      SortSorts(leq, s[..|s| - 1]);
      InsertIsSorted(leq, Sort(leq, s[..|s| - 1]), s[|s| - 1]);
      InsertKeepsElements(leq, Sort(leq, s[..|s| - 1]), s[|s| - 1]);
      assert s == s[..|s| - 1] + [s[|s| - 1]];
    }
  }

  lemma LastIsGreatest<T(!new)>(leq: (T, T) -> bool, s: seq<T>, x: T)
    requires SortedBy(leq, s) && TotalPreorder(leq) && x in s
    ensures leq(x, s[|s| - 1])
  {
    var i :| 0 <= i < |s| && s[i] == x;
    assert leq(x, x) || leq(x, x);
  }

  ghost predicate NoTies<T(!new)>(leq: (T, T) -> bool, s: seq<T>) {
    forall a, b :: a in s && b in s && leq(a, b) && leq(b, a) ==> a == b
  }

  lemma SameLast<T(!new)>(leq: (T, T) -> bool, s: seq<T>, t: seq<T>)
    requires TotalPreorder(leq) && SortedBy(leq, s) && SortedBy(leq, t) && Permutation(s, t)
    requires NoTies(leq, s) && s != []
    ensures t != [] && t[|t| - 1] == s[|s| - 1]
  {
    assert s[0] in multiset(t);
    var a, b := s[|s| - 1], t[|t| - 1];
    assert b in multiset(s) && a in multiset(t);
    LastIsGreatest(leq, s, b);
    LastIsGreatest(leq, t, a);
  }

  lemma DropLastPermutes<T>(s: seq<T>, t: seq<T>)
    requires Permutation(s, t) && s != [] && t != [] && s[|s| - 1] == t[|t| - 1]
    ensures Permutation(s[..|s| - 1], t[..|t| - 1])
  {
    assert s == s[..|s| - 1] + [s[|s| - 1]] && t == t[..|t| - 1] + [t[|t| - 1]];
    assert multiset(s[..|s| - 1]) == multiset(s) - multiset{s[|s| - 1]};
    assert multiset(t[..|t| - 1]) == multiset(t) - multiset{t[|t| - 1]};
  }

  /** When ties are impossible among the elements, every sort gives the same list. */
  lemma {:induction false} SortedPermutationIsUnique<T(!new)>(leq: (T, T) -> bool, s: seq<T>, t: seq<T>)
    requires TotalPreorder(leq) && SortedBy(leq, s) && SortedBy(leq, t) && Permutation(s, t)
    requires NoTies(leq, s)
    ensures s == t
  {
    if s == [] {
      assert |multiset(t)| == 0;
    } else {
      SameLast(leq, s, t);
      DropLastPermutes(s, t);
      SortedPermutationIsUnique(leq, s[..|s| - 1], t[..|t| - 1]);
      assert s == s[..|s| - 1] + [s[|s| - 1]] && t == t[..|t| - 1] + [t[|t| - 1]];
    }
  }
}
