/** Sums and bags over sequences, and what one update of the sequence does to them. */
module Bags {

  ghost function Sum<A(!new)>(f: A -> nat, s: seq<A>): nat {
    if s == [] then 0 else Sum(f, s[..|s| - 1]) + f(s[|s| - 1])
  }

  ghost function Bag<A(!new), T>(f: A -> multiset<T>, s: seq<A>): multiset<T> {
    if s == [] then multiset{} else Bag(f, s[..|s| - 1]) + f(s[|s| - 1])
  }

  lemma {:induction false} SumUpdate<A(!new)>(f: A -> nat, s: seq<A>, i: nat, a: A)
    requires i < |s|
    ensures Sum(f, s[i := a]) + f(s[i]) == Sum(f, s) + f(a)
    decreases |s|
  {
    var t := s[i := a];
    if i == |s| - 1 {
      assert t[..|s| - 1] == s[..|s| - 1];
    } else {
      assert t[..|s| - 1] == s[..|s| - 1][i := a];
      SumUpdate(f, s[..|s| - 1], i, a);
    }
  }

  lemma SumAppend<A(!new)>(f: A -> nat, s: seq<A>, a: A)
    ensures Sum(f, s + [a]) == Sum(f, s) + f(a)
  {
    assert (s + [a])[..|s|] == s;
  }

  lemma {:induction false} SumAtLeast<A(!new)>(f: A -> nat, s: seq<A>, i: nat)
    requires i < |s|
    ensures f(s[i]) <= Sum(f, s)
    decreases |s|
  {
    if i < |s| - 1 {
      SumAtLeast(f, s[..|s| - 1], i);
    }
  }

  lemma {:induction false} SumZero<A(!new)>(f: A -> nat, s: seq<A>)
    ensures Sum(f, s) == 0 <==> forall i :: 0 <= i < |s| ==> f(s[i]) == 0
    decreases |s|
  {
    if s != [] {
      var t := s[..|s| - 1];
      SumZero(f, t);
      if Sum(f, s) == 0 {
        forall i | 0 <= i < |s| ensures f(s[i]) == 0 {
          if i < |t| {
            assert t[i] == s[i];
          }
        }
      } else if Sum(f, t) != 0 {
        var i :| 0 <= i < |t| && f(t[i]) != 0;
        assert f(s[i]) != 0;
      }
    }
  }

  lemma {:induction false} BagUpdate<A(!new), T>(f: A -> multiset<T>, s: seq<A>, i: nat, a: A)
    requires i < |s|
    ensures Bag(f, s[i := a]) + f(s[i]) == Bag(f, s) + f(a)
    decreases |s|
  {
    var t, last := s[i := a], f(s[|s| - 1]);
    if i == |s| - 1 {
      assert t[..|s| - 1] == s[..|s| - 1];
    } else {
      var front := s[..|s| - 1];
      assert t[..|s| - 1] == front[i := a];
      BagUpdate(f, front, i, a);
      assert Bag(f, t) + f(s[i]) == (Bag(f, front[i := a]) + f(front[i])) + last;
    }
  }

  /** The update adds x to, or takes x from, what element i contributes. */
  lemma BagGain<A(!new), T>(f: A -> multiset<T>, s: seq<A>, i: nat, a: A, x: multiset<T>)
    requires i < |s| && f(a) == f(s[i]) + x
    ensures Bag(f, s[i := a]) == Bag(f, s) + x
  {
    BagUpdate(f, s, i, a);
    Cancel(Bag(f, s[i := a]), Bag(f, s) + x, f(s[i]));
  }

  lemma BagLoss<A(!new), T>(f: A -> multiset<T>, s: seq<A>, i: nat, a: A, x: multiset<T>)
    requires i < |s| && f(s[i]) == f(a) + x
    ensures Bag(f, s) == Bag(f, s[i := a]) + x
  {
    BagUpdate(f, s, i, a);
    Cancel(Bag(f, s), Bag(f, s[i := a]) + x, f(a));
  }

  lemma Cancel<T>(a: multiset<T>, b: multiset<T>, c: multiset<T>)
    requires a + c == b + c
    ensures a == b
  {
    forall t ensures a[t] == b[t] {
      assert (a + c)[t] == (b + c)[t];
    }
  }

  /** One part of a sum gives the amount x to another. */
  lemma Transfer<T>(rest: multiset<T>, gains: multiset<T>, gains': multiset<T>, loses: multiset<T>, loses': multiset<T>, x: multiset<T>)
    requires gains' == gains + x && loses == loses' + x
    ensures rest + gains' + loses' == rest + gains + loses
  {}

  lemma BagAppend<A(!new), T>(f: A -> multiset<T>, s: seq<A>, a: A)
    ensures Bag(f, s + [a]) == Bag(f, s) + f(a)
  {
    assert (s + [a])[..|s|] == s;
  }

  lemma {:induction false} BagEmpty<A(!new), T>(f: A -> multiset<T>, s: seq<A>)
    requires forall i :: 0 <= i < |s| ==> f(s[i]) == multiset{}
    ensures Bag(f, s) == multiset{}
    decreases |s|
  {
    if s != [] {
      BagEmpty(f, s[..|s| - 1]);
    }
  }

  /** Element i hands part of its contribution to a new element. */
  lemma BagSplit<A(!new), T>(f: A -> multiset<T>, s: seq<A>, i: nat, a: A, b: A)
    requires i < |s| && f(s[i]) == f(a) + f(b)
    ensures Bag(f, s[i := a] + [b]) == Bag(f, s)
  {
    BagLoss(f, s, i, a, f(b));
    BagAppend(f, s[i := a], b);
  }
}
