/** Facts about sequences and their multisets that several modules use. */
module Seqs {
  ghost predicate NoRepeats<T>(s: seq<T>) {
    forall i, j :: 0 <= i < j < |s| ==> s[i] != s[j]
  }

  lemma {:induction false} NoRepeatsCounts<T>(s: seq<T>)
    requires NoRepeats(s)
    ensures forall x :: x in s ==> multiset(s)[x] == 1
  {
    if s != [] {
      var r, y := s[..|s| - 1], s[|s| - 1];
      assert s == r + [y];
      NoRepeatsCounts(r);
      assert y !in r;
      assert y !in multiset(r);
    }
  }

  lemma RepeatCounts<T>(s: seq<T>, i: nat, j: nat)
    requires i < j < |s| && s[i] == s[j]
    ensures multiset(s)[s[j]] >= 2
  {
    assert s == s[..j] + [s[j]] + s[j + 1..];
    assert s[..j][i] in s[..j];
    assert s[j] in multiset(s[..j]);
  }

  lemma CountsNoRepeats<T>(s: seq<T>)
    requires forall x :: x in s ==> multiset(s)[x] <= 1
    ensures NoRepeats(s)
  {
    forall i, j | 0 <= i < j < |s|
      ensures s[i] != s[j]
    {
      assert s[j] in s;
      if s[i] == s[j] {
        RepeatCounts(s, i, j);
      }
    }
  }

  lemma SameMembers<T>(s: seq<T>, t: seq<T>)
    requires multiset(s) == multiset(t)
    ensures |s| == |t|
    ensures forall x :: x in s <==> x in t
    ensures NoRepeats(s) ==> NoRepeats(t)
  {
    assert |multiset(s)| == |s| && |multiset(t)| == |t|;
    forall x
      ensures x in s <==> x in t
    {
      assert x in s <==> x in multiset(s);
      assert x in t <==> x in multiset(t);
    }
    if NoRepeats(s) {
      NoRepeatsCounts(s);
      CountsNoRepeats(t);
    }
  }

  /** Two sequences without repeats that hold the same elements are permutations of each other. */
  lemma SameSetSameMultiset<T>(s: seq<T>, t: seq<T>)
    requires NoRepeats(s) && NoRepeats(t)
    requires forall x :: x in s <==> x in t
    ensures multiset(s) == multiset(t)
  {
    NoRepeatsCounts(s);
    NoRepeatsCounts(t);
    forall x
      ensures multiset(s)[x] == multiset(t)[x]
    {
      assert x in multiset(s) <==> x in s;
      assert x in multiset(t) <==> x in t;
    }
  }

  lemma WithoutCounts<T>(s: seq<T>, t: nat)
    requires t < |s|
    ensures multiset(s) == multiset(s[..t] + s[t + 1..]) + multiset{s[t]}
  {
    assert s == s[..t] + [s[t]] + s[t + 1..];
  }

  lemma Cancel<T>(m: multiset<T>, n: multiset<T>, x: T)
    requires m + multiset{x} == n + multiset{x}
    ensures m == n
  {
    assert m == m + multiset{x} - multiset{x};
    assert n == n + multiset{x} - multiset{x};
  }
}
