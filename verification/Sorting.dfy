/**
 The contract of Go's sort.Sort and sort.Strings: some ordering of the elements in
 which none is less than an earlier one. Callers know only the contract, so what is
 proved of them holds whatever order equal elements come out in.
 */
module Sorting {
  ghost predicate Ordering<T(!new)>(less: (T, T) -> bool) {
    && (forall x, y :: less(x, y) ==> !less(y, x))
    && (forall x, y, z :: less(x, z) ==> less(x, y) || less(y, z))
  }

  ghost predicate Sorted<T>(s: seq<T>, less: (T, T) -> bool) {
    forall i, j :: 0 <= i < j < |s| ==> !less(s[j], s[i])
  }

  method Sort<T(!new)>(s: seq<T>, less: (T, T) -> bool) returns (r: seq<T>)
    requires Ordering(less)
    ensures Sorted(r, less)
    ensures multiset(r) == multiset(s)
  {
    r := [];
    for i := 0 to |s|
      invariant Sorted(r, less)
      invariant multiset(r) == multiset(s[..i])
    {
      r := Insert(r, s[i], less);
      assert s[..i + 1] == s[..i] + [s[i]];
    }
    assert s[..|s|] == s;
  }

  method Insert<T(!new)>(s: seq<T>, x: T, less: (T, T) -> bool) returns (r: seq<T>)
    requires Ordering(less) && Sorted(s, less)
    ensures Sorted(r, less)
    ensures multiset(r) == multiset(s) + multiset{x}
  {
    var k := |s|;
    while k > 0 && less(x, s[k - 1])
      invariant 0 <= k <= |s|
      invariant forall j :: k <= j < |s| ==> less(x, s[j])
    {
      k := k - 1;
    }
    r := s[..k] + [x] + s[k..];
    InsertedSorted(s, x, k, less);
    InsertedCounts(s, x, k);
  }

  lemma InsertedCounts<T>(s: seq<T>, x: T, k: nat)
    requires k <= |s|
    ensures multiset(s[..k] + [x] + s[k..]) == multiset(s) + multiset{x}
  {
    assert s == s[..k] + s[k..];
  }

  /** Some sorted permutation exists. */
  lemma SortExists<T(!new)>(s: seq<T>, less: (T, T) -> bool) returns (r: seq<T>)
    requires Ordering(less)
    ensures Sorted(r, less) && multiset(r) == multiset(s)
  {
    r := [];
    for i := 0 to |s|
      invariant Sorted(r, less) && multiset(r) == multiset(s[..i])
    {
      var k := |r|;
      while k > 0 && less(s[i], r[k - 1])
        invariant 0 <= k <= |r| && forall j :: k <= j < |r| ==> less(s[i], r[j])
      {
        k := k - 1;
      }
      InsertedSorted(r, s[i], k, less);
      assert r == r[..k] + r[k..] && s[..i + 1] == s[..i] + [s[i]];
      r := r[..k] + [s[i]] + r[k..];
    }
    assert s[..|s|] == s;
  }

  lemma InsertedSorted<T(!new)>(s: seq<T>, x: T, k: nat, less: (T, T) -> bool)
    requires Ordering(less) && Sorted(s, less) && k <= |s|
    requires k > 0 ==> !less(x, s[k - 1])
    requires forall j :: k <= j < |s| ==> less(x, s[j])
    ensures Sorted(s[..k] + [x] + s[k..], less)
  {
    var r := s[..k] + [x] + s[k..];
    forall j | 0 <= j < k
      ensures !less(x, s[j])
    {
      assert !less(x, s[k - 1]) && !less(s[k - 1], s[j]);
    }
    forall i, j | 0 <= i < j < |r|
      ensures !less(r[j], r[i])
    {
      if j == k {
        assert r[i] == s[i];
      } else if i == k {
        assert r[j] == s[j - 1];
      }
    }
  }

  // ----- Strings, compared byte by byte

  predicate Less(s: string, t: string) {
    if t == [] then false
    else if s == [] then true
    else s[0] < t[0] || (s[0] == t[0] && Less(s[1..], t[1..]))
  }

  /** The first place where two strings differ decides, and a proper prefix is less. */
  lemma {:induction false} LessAt(s: string, t: string, i: nat)
    requires i <= |s| && i < |t| && s[..i] == t[..i] && (i == |s| || s[i] < t[i])
    ensures Less(s, t)
  {
    if i > 0 {
      assert s[0] == s[..i][0] == t[..i][0] == t[0];
      assert s[1..][..i - 1] == s[..i][1..] && t[1..][..i - 1] == t[..i][1..];
      LessAt(s[1..], t[1..], i - 1);
    }
  }

  lemma {:induction false} LessAsymmetric(s: string, t: string)
    requires Less(s, t)
    ensures !Less(t, s)
  {
    if s != [] && s[0] == t[0] {
      LessAsymmetric(s[1..], t[1..]);
    }
  }

  lemma {:induction false} LessSplits(s: string, t: string, u: string)
    requires Less(s, u)
    ensures Less(s, t) || Less(t, u)
  {
    if s != [] && t != [] && s[0] == t[0] == u[0] {
      LessSplits(s[1..], t[1..], u[1..]);
    }
  }

  /** Strings are totally ordered: two of which neither is less are the same. */
  lemma {:induction false} LessTotal(s: string, t: string)
    ensures s == t || Less(s, t) || Less(t, s)
  {
    if s != [] && t != [] && s[0] == t[0] {
      LessTotal(s[1..], t[1..]);
      assert s == [s[0]] + s[1..] && t == [t[0]] + t[1..];
    }
  }

  lemma LessIsOrdering()
    ensures Ordering(Less)
  {
    forall s, t | Less(s, t)
      ensures !Less(t, s)
    {
      LessAsymmetric(s, t);
    }
    forall s, t, u | Less(s, u)
      ensures Less(s, t) || Less(t, u)
    {
      LessSplits(s, t, u);
    }
  }
}
