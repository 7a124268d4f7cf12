/**
 When a call is at the time of a return (porcupine/checker.go:39-41): whatever the times of a history are, with such a
 tie the sorted entries may have another answer than the history, and only then.
 */
module Ties {
  import opened Options
  import opened History
  import opened KvModel
  import opened KvPartition
  import opened Entries
  import opened Seqs
  import Sorting

  /** Operation a reads "v", b puts it, and all others append nothing. */
  function Role(a: nat, b: nat, x: nat): (KvInput, KvOutput) {
    if x == a then (KvInput(0, "", ""), KvOutput("v"))
    else if x == b then (KvInput(1, "", "v"), KvOutput(""))
    else (KvInput(2, "", ""), KvOutput(""))
  }

  ghost predicate PlaysRoles(ops: seq<KvOp>, a: nat, b: nat) {
    a != b && a < |ops| && b < |ops| && forall x :: 0 <= x < |ops| ==> (ops[x].input, ops[x].output) == Role(a, b, x)
  }

  /** The same times. */
  ghost predicate SameTimes(history: seq<KvOp>, ops: seq<KvOp>) {
    |ops| == |history| && forall x :: 0 <= x < |ops| ==> ops[x].call == history[x].call && ops[x].ret == history[x].ret
  }

  /** A history of these roles at given times. */
  function Played(history: seq<KvOp>, a: nat, b: nat): (ops: seq<KvOp>)
    ensures SameTimes(history, ops)
    ensures a != b && a < |history| && b < |history| ==> PlaysRoles(ops, a, b)
  {
    seq(|history|, x requires 0 <= x < |history| =>
      Operation(Role(a, b, x).0, history[x].call, Role(a, b, x).1, history[x].ret))
  }

  /** Wherever a is, b is before it. */
  ghost predicate BeforeReads(p: seq<nat>, a: nat, b: nat) {
    forall j :: 0 <= j < |p| && p[j] == a ==> b in p[..j]
  }

  lemma RoleValue(a: nat, b: nat, x: nat, written: bool)
    requires a != b && (x == a ==> written)
    ensures Step(if written then "v" else "", Role(a, b, x).0, Role(a, b, x).1) == (true, if written || x == b then "v" else "")
  {
    assert "" + "" == "" && "v" + "" == "v";
  }

  /** One operation more. */
  lemma RoleStep(ops: seq<KvOp>, a: nat, b: nat, q: seq<nat>, x: nat)
    requires PlaysRoles(ops, a, b) && Ids(q, |ops|) && Ids(q + [x], |ops|) && (x == a ==> b in q)
    requires Replay(KV, ops, q) == Some(if b in q then "v" else "")
    ensures Replay(KV, ops, q + [x]) == Some(if b in q + [x] then "v" else "")
  {
    hide Role, Step;
    var p := q + [x];
    assert p[..|p| - 1] == q && p[|p| - 1] == x;
    assert b in p <==> b in q || x == b;
    assert (ops[x].input, ops[x].output) == Role(a, b, x);
    RoleValue(a, b, x, b in q);
  }

  /** Running such operations: before b the value is "", after it "v". */
  lemma {:induction false} RolesRun(ops: seq<KvOp>, a: nat, b: nat, p: seq<nat>)
    requires PlaysRoles(ops, a, b) && Ids(p, |ops|) && BeforeReads(p, a, b)
    ensures Replay(KV, ops, p) == Some(if b in p then "v" else "")
  {
    hide PlaysRoles, Replay;
    if p == [] {
      NothingRun(ops);
    } else {
      var q, x := p[..|p| - 1], p[|p| - 1];
      assert p == q + [x];
      forall j | 0 <= j < |q| && q[j] == a
        ensures b in q[..j]
      {
        assert p[j] == a && q[..j] == p[..j];
      }
      RolesRun(ops, a, b, q);
      RoleStep(ops, a, b, q, x);
    }
  }

  lemma NothingRun(ops: seq<KvOp>)
    ensures Replay(KV, ops, []) == Some("")
  {
  }

  /** An order in which a comes before b is refused. */
  lemma {:induction false} WrongOrderFails(ops: seq<KvOp>, a: nat, b: nat, p: seq<nat>, i: nat)
    requires PlaysRoles(ops, a, b) && Ids(p, |ops|) && i < |p| && p[i] == a && b !in p[..i]
    ensures Replay(KV, ops, p).None?
  {
    if i == |p| - 1 {
      var q := p[..i];
      assert p == q + [a];
      assert a !in q && BeforeReads(q, a, b);
      RolesRun(ops, a, b, q);
    } else {
      var q := p[..|p| - 1];
      assert q[..i] == p[..i];
      WrongOrderFails(ops, a, b, q, i);
    }
  }

  /** The moment that an operation is put at: its call, but for a its return. */
  function Moment(ops: seq<KvOp>, a: nat, x: nat): int {
    if x >= |ops| then 0 else if x == a then ops[x].ret else ops[x].call
  }

  /** Order by moments, with b before a when they are the same. */
  predicate Before(ops: seq<KvOp>, a: nat, b: nat, x: nat, y: nat) {
    Moment(ops, a, x) < Moment(ops, a, y) || (Moment(ops, a, x) == Moment(ops, a, y) && Rank(a, b, x) < Rank(a, b, y))
  }

  function Rank(a: nat, b: nat, x: nat): nat {
    if x == b then 0 else if x == a then 2 else 1
  }

  /** With a tie between the return of a and the call of b, the history is linearizable: b may take effect before a. */
  lemma {:induction false} TiedIsLinearizable(ops: seq<KvOp>, a: nat, b: nat)
    requires Proper(ops) && PlaysRoles(ops, a, b) && ops[a].ret == ops[b].call
    ensures Linearizable(KV, ops)
  {
    var p := Sorting.SortExists(Numbers(|ops|), (x: nat, y: nat) => Before(ops, a, b, x, y));
    NumbersShuffled(p, |ops|);
    forall j, k | 0 <= j < k < |p|
      ensures !Precedes(ops, p[k], p[j])
    {
      assert !Before(ops, a, b, p[k], p[j]);
    }
    forall j | 0 <= j < |p| && p[j] == a
      ensures b in p[..j]
    {
      assert b in p;
      var k :| 0 <= k < |p| && p[k] == b;
      assert Before(ops, a, b, p[k], p[j]);
      assert p[..j][k] == b;
    }
    RolesRun(ops, a, b, p);
    assert Linearization(KV, ops, p);
  }

  lemma {:induction false} NumbersShuffled(p: seq<nat>, n: nat)
    requires multiset(p) == multiset(Numbers(n))
    ensures |p| == n && Ids(p, n) && forall x: nat :: x < n ==> x in p
  {
    assert |p| == |multiset(p)| && n == |multiset(Numbers(n))|;
    assert NoRepeats(Numbers(n));
    SameMembers(Numbers(n), p);
    forall k | 0 <= k < |p|
      ensures p[k] < n
    {
      assert p[k] in p && p[k] in Numbers(n);
    }
    forall x: nat | x < n
      ensures x in p
    {
      assert Numbers(n)[x] in Numbers(n);
    }
  }

  /** With every order of the entries that puts the return first, they are not. */
  lemma {:induction false} TiedEntriesFail(ops: seq<KvOp>, es: seq<Entry<KvInput, KvOutput>>, a: nat, b: nat)
    requires PlaysRoles(ops, a, b) && StandFor(ops, es) && Precedes(Operations(es), a, b)
    ensures !Linearizable(KV, Operations(es))
  {
    var os := Operations(es);
    assert PlaysRoles(os, a, b);
    hide StandFor;
    forall p: seq<nat>
      ensures !Linearization(KV, os, p)
    {
      if Linearization(KV, os, p) {
        PermutationCovers(p, |os|);
        assert a in Elements(p);
        var i :| 0 <= i < |p| && p[i] == a;
        forall k | 0 <= k < i
          ensures p[k] != b
        {
          assert !Precedes(os, p[i], p[k]);
        }
        WrongOrderFails(os, a, b, p, i);
        assert false;
      }
    }
  }

  /** Whatever the operations at these times are, if they are linearizable so are their entries, in every order that sorting may leave. */
  ghost predicate AnswerKept(history: seq<KvOp>) {
    forall ops, es :: SameTimes(history, ops) && SortedFrom(ops, es) && Linearizable(KV, ops) ==>
      WellFormed(es) && Linearizable(KV, Operations(es))
  }

  /** For given times, sorting never turns a linearizable history into one that is not exactly when there is no tie. */
  lemma {:induction false} NoTiesKeepsAnswer(history: seq<KvOp>)
    requires Proper(history)
    ensures NoTies(history) <==> AnswerKept(history)
  {
    hide StandFor, SortedFrom, Linearizable, WellFormed, Pairs;
    if NoTies(history) {
      forall ops, es | SameTimes(history, ops) && SortedFrom(ops, es) && Linearizable(KV, ops)
        ensures WellFormed(es) && Linearizable(KV, Operations(es))
      {
        SortedPairs(ops, es);
        StandsWellFormed(ops, es);
        EntriesDecide(KV, ops, es);
      }
    } else {
      var a: int, b: int :| 0 <= a < |history| && 0 <= b < |history| && history[a].ret == history[b].call;
      var ops := Played(history, a, b);
      TiedIsLinearizable(ops, a, b);
      var es := TieAdds(ops, a, b);
      StandsWellFormed(ops, es);
      TiedEntriesFail(ops, es, a, b);
    }
  }
}
