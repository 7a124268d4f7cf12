/**
 Why the search of checkSingle terminates. Its stack and its place in the list
 are the digits of a number that every iteration makes smaller: the further the
 walk is at each depth, the smaller the digit, and depths not reached yet hold
 the largest digit. Neither the cache nor the model plays a part.
 */
module Progress {
  import opened History

  function Number(digits: seq<nat>, base: nat): nat {
    if digits == [] then 0 else Number(digits[..|digits| - 1], base) * base + digits[|digits| - 1]
  }

  /** The number is smaller when the first digit that differs is smaller. */
  lemma {:induction false} FirstDifference(a: seq<nat>, b: seq<nat>, base: nat, k: nat)
    requires |a| == |b| && k < |a|
    requires a[..k] == b[..k] && a[k] < b[k]
    requires forall i :: 0 <= i < |a| ==> a[i] < base
    ensures Number(a, base) < Number(b, base)
    decreases |a|
  {
    var n := |a| - 1;
    if k < n {
      assert a[..n][..k] == a[..k] && b[..n][..k] == b[..k];
      FirstDifference(a[..n], b[..n], base, k);
      Carry(Number(a[..n], base), Number(b[..n], base), base);
    }
  }

  lemma Carry(x: nat, y: nat, base: nat)
    requires x < y
    ensures x * base + base <= y * base
  {
    assert (x + 1) * base <= y * base;
  }

  /** The digit at depth j: how much of the list of n operations is left there. */
  ghost function Digit<I, O>(ops: seq<Operation<I, O>>, path: seq<nat>, cur: int, j: nat): int {
    if j < |path| then (if path[j] < |ops| then 2 * |ops| - ops[path[j]].call else 0)
    else if j == |path| then 2 * |ops| - cur
    else 2 * |ops| + 1
  }

  ghost function Digits<I, O>(ops: seq<Operation<I, O>>, path: seq<nat>, cur: int): (ds: seq<nat>)
    ensures |ds| == |ops| + 1
  {
    seq(|ops| + 1, j requires 0 <= j => var d := Digit(ops, path, cur, j); if d < 0 then 0 else d)
  }

  ghost function Rank<I, O>(ops: seq<Operation<I, O>>, path: seq<nat>, cur: int): nat {
    Number(Digits(ops, path, cur), 2 * |ops| + 2)
  }

  /** Times are positions in a history of 2n entries. */
  ghost predicate Bounded<I, O>(ops: seq<Operation<I, O>>) {
    forall a :: 0 <= a < |ops| ==> 0 <= ops[a].call < 2 * |ops|
  }

  lemma AdvanceDecreases<I, O>(ops: seq<Operation<I, O>>, path: seq<nat>, cur: int, cur': int)
    requires Bounded(ops) && |path| <= |ops| && 0 <= cur < cur' <= 2 * |ops|
    ensures Rank(ops, path, cur') < Rank(ops, path, cur)
  {
    FirstDifference(Digits(ops, path, cur'), Digits(ops, path, cur), 2 * |ops| + 2, |path|);
  }

  lemma PushDecreases<I, O>(ops: seq<Operation<I, O>>, path: seq<nat>, cur: int, x: nat, cur': int)
    requires Bounded(ops) && |path| < |ops| && x < |ops| && ops[x].call == cur && 0 <= cur' <= 2 * |ops|
    ensures Rank(ops, path + [x], cur') < Rank(ops, path, cur)
  {
    FirstDifference(Digits(ops, path + [x], cur'), Digits(ops, path, cur), 2 * |ops| + 2, |path| + 1);
  }

  lemma PopDecreases<I, O>(ops: seq<Operation<I, O>>, path: seq<nat>, cur: int, x: nat, cur': int)
    requires Bounded(ops) && |path| < |ops| && x < |ops| && ops[x].call < cur' <= 2 * |ops|
    ensures Rank(ops, path, cur') < Rank(ops, path + [x], cur)
  {
    var a, b := Digits(ops, path, cur'), Digits(ops, path + [x], cur);
    assert forall i :: 0 <= i < |path| ==> a[i] == b[i];
    FirstDifference(a, b, 2 * |ops| + 2, |path|);
  }
}
