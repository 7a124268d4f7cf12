/**
 What the replicas serve and write, in the order of the committed log, is a legal run of
 the specification that the checker uses
 (kvraft/server.go:250-275, kvraft/client.go:94-98, models/kv.go:37-56).
 */
module KvLinear {
  import opened Options
  import opened History
  import opened KvModel
  import opened KvMachine
  import opened Locality
  import opened KvPartition

  /** Entry i takes part: a write that is not a repeat, or a read whose answer a client got. */
  ghost predicate TakesPart(g: Log, answered: nat -> bool, i: nat)
    requires i < |g| && Commands(g)
  {
    !g[i].internal && if IsWrite(g[i].command.value) then !Repeated(g, i) else answered(i)
  }

  function InputOf(op: Op): KvInput {
    KvInput(if op.kind == PUT then 1 else if op.kind == APPEND then 2 else 0, op.key, op.value)
  }

  /** What the client sees: a read gets the value, or the empty string when there is no such key. */
  function OutputAt(g: Log, i: nat): KvOutput
    requires i < |g| && Commands(g) && !g[i].internal
  {
    KvOutput(if IsWrite(g[i].command.value) then "" else Lookup(Fold(g, i).store, g[i].command.value.key))
  }

  /** When a client called for entry i, and when it got its answer. */
  datatype Times = Times(call: nat -> int, ret: nat -> int)

  /** The clients' history, in the order of the log. */
  ghost function Served(g: Log, answered: nat -> bool, t: Times, n: nat): seq<KvOp>
    requires n <= |g| && Commands(g)
  {
    if n == 0 then [] else
    var rest, i := Served(g, answered, t, n - 1), n - 1;
    if TakesPart(g, answered, i)
    then rest + [Operation(InputOf(g[i].command.value), t.call(i), OutputAt(g, i), t.ret(i))]
    else rest
  }

  /** Among the first n entries, nobody's request is ahead of one answered before it was made. */
  ghost predicate Consistent(g: Log, answered: nat -> bool, t: Times, n: nat)
    requires n <= |g| && Commands(g)
  {
    forall i: nat, j: nat :: i < j < n && TakesPart(g, answered, i) && TakesPart(g, answered, j) ==> !(t.ret(j) < t.call(i))
  }

  lemma {:induction false} ReplayLonger(ops: seq<KvOp>, x: KvOp, p: seq<nat>)
    requires InRange(ops, p)
    ensures Replay(STORE, ops + [x], p) == Replay(STORE, ops, p)
  {
    if p != [] {
      ReplayLonger(ops, x, p[..|p| - 1]);
    }
  }

  ghost predicate SameValues(store: Store, live: Store) {
    forall k: Key :: Lookup(store, k) == Lookup(live, k)
  }

  /** One operation of the specification, and the request that the replicas carry out. */
  lemma SameStep(store: Store, live: Machine, op: Op, out: KvOutput)
    requires SameValues(store, live.store)
    requires if IsWrite(op) then Fresh(live, op) else out.value == Lookup(live.store, op.key)
    ensures StoreStep(store, InputOf(op), out).0
    ensures SameValues(StoreStep(store, InputOf(op), out).1, Exec(live, op).store)
  {
    assert Lookup(store, op.key) == Lookup(live.store, op.key);
    assert "" + op.value == op.value;
    forall k: Key
      ensures Lookup(StoreStep(store, InputOf(op), out).1, k) == Lookup(Exec(live, op).store, k)
    {
      assert Lookup(store, k) == Lookup(live.store, k);
    }
  }

  /** A run of one more operation. */
  lemma ReplayOneMore(rest: seq<KvOp>, x: KvOp)
    requires Replay(STORE, rest, Numbers(|rest|)).Some?
    ensures var ops := rest + [x];
            var (ok, after) := StoreStep(Replay(STORE, rest, Numbers(|rest|)).value, x.input, x.output);
            ok ==> Replay(STORE, ops, Numbers(|ops|)) == Some(after)
  {
    hide StoreStep;
    ReplayLonger(rest, x, Numbers(|rest|));
    assert Numbers(|rest| + 1)[..|rest|] == Numbers(|rest|);
  }

  ghost predicate RunsTo(ops: seq<KvOp>, live: Store) {
    var r := Replay(STORE, ops, Numbers(|ops|));
    r.Some? && SameValues(r.value, live)
  }

  /** In the order of the log every step is allowed, and each key ends with the value the replicas hold. */
  lemma {:induction false} ServedRuns(g: Log, answered: nat -> bool, t: Times, n: nat)
    requires n <= |g| && Commands(g) && WritesTold(g, n)
    ensures RunsTo(Served(g, answered, t, n), Fold(g, n).store)
  {
    hide Lookup, StoreStep, Repeated, Fresh, Replay, Told, SameValues, InputOf, Write;
    if n > 0 {
      ServedRuns(g, answered, t, n - 1);
      var rest, i := Served(g, answered, t, n - 1), n - 1;
      if !g[i].internal {
        var op := g[i].command.value;
        FreshIffNotRepeated(g, i);
        if TakesPart(g, answered, i) {
          ReplayOneMore(rest, Served(g, answered, t, n)[|rest|]);
          SameStep(Replay(STORE, rest, Numbers(|rest|)).value, Fold(g, i), op, OutputAt(g, i));
        }
      }
    } else {
      NothingRuns();
    }
  }

  lemma NothingRuns()
    ensures RunsTo([], EMPTY.store)
  {
  }

  /** The operation is timed by one of the first n entries that take part. */
  ghost predicate TimedBelow(g: Log, answered: nat -> bool, t: Times, op: KvOp, n: nat)
    requires n <= |g| && Commands(g)
  {
    exists i: nat :: i < n && TakesPart(g, answered, i) && op.call == t.call(i) && op.ret == t.ret(i)
  }

  ghost predicate AllTimedBelow(g: Log, answered: nat -> bool, t: Times, ops: seq<KvOp>, n: nat)
    requires n <= |g| && Commands(g)
  {
    forall a :: 0 <= a < |ops| ==> TimedBelow(g, answered, t, ops[a], n)
  }

  ghost predicate NeverBack(ops: seq<KvOp>) {
    forall a, b :: 0 <= a < b < |ops| ==> !(ops[b].ret < ops[a].call)
  }

  lemma {:induction false} TimesLonger(g: Log, answered: nat -> bool, t: Times, ops: seq<KvOp>, n: nat)
    requires n < |g| && Commands(g) && AllTimedBelow(g, answered, t, ops, n)
    ensures AllTimedBelow(g, answered, t, ops, n + 1)
  {
    hide TakesPart;
    forall a | 0 <= a < |ops|
      ensures TimedBelow(g, answered, t, ops[a], n + 1)
    {
      assert TimedBelow(g, answered, t, ops[a], n);
    }
  }

  lemma {:induction false} TimesSnoc(g: Log, answered: nat -> bool, t: Times, rest: seq<KvOp>, op: KvOp, i: nat)
    requires i < |g| && Commands(g) && Consistent(g, answered, t, i + 1) && TakesPart(g, answered, i)
    requires AllTimedBelow(g, answered, t, rest, i) && NeverBack(rest)
    requires op.call == t.call(i) && op.ret == t.ret(i)
    ensures AllTimedBelow(g, answered, t, rest + [op], i + 1) && NeverBack(rest + [op])
  {
    hide TakesPart;
    TimesLonger(g, answered, t, rest, i);
    assert TimedBelow(g, answered, t, op, i + 1);
    forall a | 0 <= a < |rest|
      ensures !(op.ret < rest[a].call)
    {
      assert TimedBelow(g, answered, t, rest[a], i);
    }
  }

  lemma {:induction false} ServedTimes(g: Log, answered: nat -> bool, t: Times, n: nat)
    requires n <= |g| && Commands(g) && Consistent(g, answered, t, n)
    ensures AllTimedBelow(g, answered, t, Served(g, answered, t, n), n) && NeverBack(Served(g, answered, t, n))
  {
    hide TakesPart, AllTimedBelow, NeverBack;
    if n > 0 {
      var rest, i := Served(g, answered, t, n - 1), n - 1;
      ServedTimes(g, answered, t, i);
      TimesLonger(g, answered, t, rest, i);
      if TakesPart(g, answered, i) {
        NotInternal(g, answered, i);
        TimesSnoc(g, answered, t, rest, Operation(InputOf(g[i].command.value), t.call(i), OutputAt(g, i), t.ret(i)), i);
      }
    } else {
      NothingTimed(g, answered, t);
    }
  }

  lemma NotInternal(g: Log, answered: nat -> bool, i: nat)
    requires i < |g| && Commands(g) && TakesPart(g, answered, i)
    ensures !g[i].internal
  {
  }

  lemma NothingTimed(g: Log, answered: nat -> bool, t: Times)
    requires Commands(g)
    ensures AllTimedBelow(g, answered, t, [], 0) && NeverBack([])
  {
  }

  /** If times are consistent with the log, the clients' history is linearizable, with the log as its linearization. */
  lemma LogOrderLinearizes(g: Log, answered: nat -> bool, t: Times, n: nat)
    requires n <= |g| && Commands(g) && WritesTold(g, n) && Consistent(g, answered, t, n)
    ensures var ops := Served(g, answered, t, n);
            Linearization(STORE, ops, Numbers(|ops|))
  {
    ServedRuns(g, answered, t, n);
    ServedTimes(g, answered, t, n);
  }

  /** Each key on its own is a legal run of the model that the checker uses. */
  lemma EachKeyRuns(g: Log, answered: nat -> bool, t: Times, k: Key)
    requires Commands(g) && WritesTold(g, |g|)
    ensures var ops := Served(g, answered, t, |g|);
            Replay(KV, ops, OnKey(ops, Numbers(|ops|), k)) == Some(Lookup(Fold(g, |g|).store, k))
  {
    ServedRuns(g, answered, t, |g|);
    var ops := Served(g, answered, t, |g|);
    StoreRunIsKeyRuns(ops, Numbers(|ops|));
  }
}
