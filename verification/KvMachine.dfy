/**
 The replicated key/value store (kvraft/server.go:216-316): what applying the
 committed log, entry by entry, does to the store and to the table of the last
 request of each client.
 */
module KvMachine {
  import opened Options
  import opened RaftNode
  import opened KvModel

  const GET := "Get"
  const PUT := "Put"
  const APPEND := "Append"

  datatype Op = Op(key: string, value: string, kind: string, cmdIndex: int, term: int, clientId: int, seqId: int)

  /** kvStore and seqMap. */
  datatype Machine = Machine(store: Store, seqs: map<int, int>)

  const EMPTY := Machine(map[], map[])

  type Log = seq<LogEntry<Op>>

  predicate IsWrite(op: Op) {
    op.kind == PUT || op.kind == APPEND
  }

  /** A write as if no request ever came twice. */
  function Write(store: Store, op: Op): Store {
    if op.kind == PUT then store[op.key := op.value]
    else if op.key in store then store[op.key := store[op.key] + op.value]
    else store[op.key := op.value]
  }

  /** The table says that this client's request is new. */
  predicate Fresh(m: Machine, op: Op) {
    op.clientId !in m.seqs || op.seqId > m.seqs[op.clientId]
  }

  function Exec(m: Machine, op: Op): Machine {
    Machine(if IsWrite(op) && Fresh(m, op) then Write(m.store, op) else m.store,
            m.seqs[op.clientId := op.seqId])
  }

  /**
   What Exec looks at. A request is modelled with the index and the term that its handler writes into
   it once Start has returned. A copy encoded before that holds 0 in both places.
   */
  function Core(op: Op): Op {
    op.(cmdIndex := 0, term := 0)
  }

  /** What a server reads in its copy of a request. */
  function Copy(op: Op, filled: bool): Op {
    if filled then op else Core(op)
  }

  lemma ExecReadsCore(m: Machine, op: Op, op': Op)
    requires Core(op) == Core(op')
    ensures Exec(m, op) == Exec(m, op') && Fresh(m, op) == Fresh(m, op')
  {
    assert Core(op).key == op.key && Core(op).value == op.value && Core(op).kind == op.kind;
    assert Core(op).clientId == op.clientId && Core(op).seqId == op.seqId;
    assert Core(op').key == op'.key && Core(op').value == op'.value && Core(op').kind == op'.kind;
    assert Core(op').clientId == op'.clientId && Core(op').seqId == op'.seqId;
  }

  /** Entries that are not internal carry a command. */
  ghost predicate Commands(g: Log) {
    forall i :: 0 <= i < |g| && !g[i].internal ==> g[i].command.Some?
  }

  /** The machine after the entries with index 1 to n of the committed log; index i is g[i - 1]. */
  function Fold(g: Log, n: nat): Machine
    requires n <= |g| && Commands(g)
  {
    if n == 0 then EMPTY else
    var m := Fold(g, n - 1);
    if g[n - 1].internal then m else Exec(m, g[n - 1].command.value)
  }

  /** No entry after index a up to index c needs to be applied. */
  ghost predicate Quiet(g: Log, a: int, c: int) {
    0 <= a && c <= |g| && forall j :: a <= j < c ==> g[j].internal
  }

  lemma {:induction false} FoldSkipsQuiet(g: Log, a: nat, c: nat)
    requires Commands(g) && a <= c <= |g| && Quiet(g, a, c)
    ensures Fold(g, c) == Fold(g, a)
    decreases c - a
  {
    if a < c {
      FoldSkipsQuiet(g, a, c - 1);
      assert g[c - 1].internal;
    }
  }

  // ----- Snapshots

  /** What decoding a snapshot into maps that already hold something gives: gob merges key by key. */
  function Merge(live: Machine, snap: Machine): Machine {
    Machine(live.store + snap.store, live.seqs + snap.seqs)
  }

  lemma {:induction false} KeysOnlyGrow(g: Log, a: nat, c: nat)
    requires Commands(g) && a <= c <= |g|
    ensures Fold(g, a).store.Keys <= Fold(g, c).store.Keys
    ensures Fold(g, a).seqs.Keys <= Fold(g, c).seqs.Keys
    decreases c - a
  {
    if a < c {
      KeysOnlyGrow(g, a, c - 1);
    }
  }

  /** Nothing is ever deleted, so a later state decoded over an earlier one is the later state. */
  lemma {:induction false} MergeInstalls(g: Log, a: nat, c: nat)
    requires Commands(g) && a <= c <= |g|
    ensures Merge(Fold(g, a), Fold(g, c)) == Fold(g, c)
  {
    KeysOnlyGrow(g, a, c);
  }

  /** Over a later state it is not, in general: a key written since then stays. */
  lemma {:induction false} MergeOverLaterKeeps(g: Log, op: Op)
    requires g == [LogEntry(1, 1, Some(op), 1, false)] && op.kind == PUT
    ensures Commands(g) && Merge(Fold(g, 1), Fold(g, 0)) != Fold(g, 0)
  {
    assert op.key in Fold(g, 1).store;
  }

  // ----- The table of last requests does what removing repeated requests would do

  /** The entry is a request of client c. */
  ghost predicate From(e: LogEntry<Op>, c: int) {
    !e.internal && e.command.Some? && e.command.value.clientId == c
  }

  ghost predicate SameRequest(x: LogEntry<Op>, y: LogEntry<Op>) {
    exists c :: From(x, c) && From(y, c) && x.command.value.seqId == y.command.value.seqId
  }

  /** The request of entry i (from 0) occurred before. */
  ghost predicate Repeated(g: Log, i: nat)
    requires i < |g|
  {
    exists j :: 0 <= j < i && SameRequest(g[j], g[i])
  }

  /** Each client's requests, reads included, occur in the order of their numbers. */
  ghost predicate InOrder(g: Log) {
    forall i, j, c :: 0 <= i < j < |g| && From(g[i], c) && From(g[j], c) ==>
      g[i].command.value.seqId <= g[j].command.value.seqId
  }

  /** The commands of the first n entries, without the writes whose request occurred before. */
  ghost function Unrepeated(g: Log, n: nat): seq<Op>
    requires n <= |g| && Commands(g)
  {
    if n == 0 then [] else
    var rest := Unrepeated(g, n - 1);
    if g[n - 1].internal || (IsWrite(g[n - 1].command.value) && Repeated(g, n - 1)) then rest
    else rest + [g[n - 1].command.value]
  }

  /** Applying commands with no table at all. */
  function Plain(ops: seq<Op>): Store {
    if ops == [] then map[] else
    var s, op := Plain(ops[..|ops| - 1]), ops[|ops| - 1];
    if IsWrite(op) then Write(s, op) else s
  }

  /** seqs holds, for each client, the number of its latest request. */
  ghost predicate Latest(g: Log, n: nat, seqs: map<int, int>)
    requires n <= |g|
  {
    && (forall i, c :: 0 <= i < n && From(g[i], c) ==> c in seqs)
    && (forall c :: c in seqs ==> exists i :: LatestAt(g, n, c, seqs[c], i))
  }

  /** Entry i is the latest request of client c among the first n, and s is its number. */
  ghost predicate LatestAt(g: Log, n: nat, c: int, s: int, i: int)
    requires n <= |g|
  {
    && 0 <= i < n
    && From(g[i], c) && g[i].command.value.seqId == s
    && forall j :: i < j < n ==> !From(g[j], c)
  }

  lemma {:induction false} TableIsLatest(g: Log, n: nat)
    requires n <= |g| && Commands(g)
    ensures Latest(g, n, Fold(g, n).seqs)
  {
    if n > 0 {
      TableIsLatest(g, n - 1);
      var before, after := Fold(g, n - 1).seqs, Fold(g, n).seqs;
      forall c | c in after
        ensures exists i :: LatestAt(g, n, c, after[c], i)
      {
        if From(g[n - 1], c) {
          assert LatestAt(g, n, c, after[c], n - 1);
        } else {
          var i :| LatestAt(g, n - 1, c, before[c], i);
          assert LatestAt(g, n, c, after[c], i);
        }
      }
    }
  }

  /** Entry l is the latest request, before entry i, of the client of entry i. */
  ghost predicate Previous(g: Log, i: nat, l: int)
    requires i < |g| && Commands(g) && !g[i].internal
  {
    0 <= l < i && LatestAt(g, i, g[i].command.value.clientId, SeqOf(g, l), l)
  }

  ghost function SeqOf(g: Log, l: int): int {
    if 0 <= l < |g| && g[l].command.Some? then g[l].command.value.seqId else 0
  }

  /** The client's previous request tells whether this one occurred before: its number is smaller exactly when not. */
  ghost predicate Told(g: Log, i: nat)
    requires i < |g| && Commands(g) && !g[i].internal
  {
    forall l :: Previous(g, i, l) ==> (SeqOf(g, l) < SeqOf(g, i) <==> !Repeated(g, i))
  }

  /** For any log, the table's verdict is that of looking through the whole log exactly when the previous request tells. */
  lemma {:induction false} FreshIffNotRepeated(g: Log, i: nat)
    requires i < |g| && Commands(g) && !g[i].internal
    ensures (Fresh(Fold(g, i), g[i].command.value) <==> !Repeated(g, i)) <==> Told(g, i)
  {
    hide Fold;
    TableIsLatest(g, i);
    var op, seqs := g[i].command.value, Fold(g, i).seqs;
    var c := op.clientId;
    assert From(g[i], c);
    if c in seqs {
      var l :| LatestAt(g, i, c, seqs[c], l);
      assert Previous(g, i, l);
      assert forall k :: Previous(g, i, k) ==> k == l;
    } else {
      assert !Repeated(g, i);
      assert forall l :: !Previous(g, i, l);
    }
  }

  /** Numbers in order are enough. */
  lemma InOrderIsTold(g: Log, i: nat)
    requires i < |g| && Commands(g) && !g[i].internal && InOrder(g)
    ensures Told(g, i)
  {
    var c := g[i].command.value.clientId;
    assert From(g[i], c);
    forall l | Previous(g, i, l)
      ensures SeqOf(g, l) < SeqOf(g, i) <==> !Repeated(g, i)
    {
      assert SeqOf(g, l) <= SeqOf(g, i);
      if SeqOf(g, l) == SeqOf(g, i) {
        assert SameRequest(g[l], g[i]);
      }
      if Repeated(g, i) {
        var j :| 0 <= j < i && SameRequest(g[j], g[i]);
        assert From(g[j], c);
        assert j == l || j < l;
      }
    }
  }

  /** The previous request tells, at each of the first n entries that writes. */
  ghost predicate WritesTold(g: Log, n: nat)
    requires n <= |g| && Commands(g)
  {
    forall i :: 0 <= i < n && !g[i].internal && IsWrite(g[i].command.value) ==> Told(g, i)
  }

  lemma InOrderWritesTold(g: Log, n: nat)
    requires n <= |g| && Commands(g) && InOrder(g)
    ensures WritesTold(g, n)
  {
    forall i | 0 <= i < n && !g[i].internal && IsWrite(g[i].command.value)
      ensures Told(g, i)
    {
      InOrderIsTold(g, i);
    }
  }

  /** The places of the writes that the table lets through. */
  ghost function Executed(g: Log, n: nat): seq<nat>
    requires n <= |g| && Commands(g)
  {
    if n == 0 then [] else
    var rest, e := Executed(g, n - 1), g[n - 1];
    if !e.internal && IsWrite(e.command.value) && Fresh(Fold(g, n - 1), e.command.value) then rest + [n - 1] else rest
  }

  /** The places of the writes that did not occur before. */
  ghost function FirstTimes(g: Log, n: nat): seq<nat>
    requires n <= |g| && Commands(g)
  {
    if n == 0 then [] else
    var rest, e := FirstTimes(g, n - 1), g[n - 1];
    if !e.internal && IsWrite(e.command.value) && !Repeated(g, n - 1) then rest + [n - 1] else rest
  }

  lemma {:induction false} PlacesBelow(g: Log, n: nat)
    requires n <= |g| && Commands(g)
    ensures forall k :: 0 <= k < |Executed(g, n)| ==> Executed(g, n)[k] < n
    ensures forall k :: 0 <= k < |FirstTimes(g, n)| ==> FirstTimes(g, n)[k] < n
  {
    if n > 0 {
      PlacesBelow(g, n - 1);
    }
  }

  /** Every write is carried out once, at its first occurrence, exactly when at every write the previous request tells. */
  lemma {:induction false} OnceIffTold(g: Log, n: nat)
    requires n <= |g| && Commands(g)
    ensures Executed(g, n) == FirstTimes(g, n) <==> WritesTold(g, n)
  {
    hide Fold, Fresh, Repeated, Told;
    if n > 0 {
      OnceIffTold(g, n - 1);
      PlacesBelow(g, n - 1);
      if !g[n - 1].internal {
        FreshIffNotRepeated(g, n - 1);
      }
      SnocSame(Executed(g, n - 1), FirstTimes(g, n - 1), n - 1, Executed(g, n), FirstTimes(g, n));
    }
  }

  /** Two sequences of numbers below x stay equal exactly when both or neither get x. */
  lemma SnocSame(a: seq<nat>, b: seq<nat>, x: nat, a': seq<nat>, b': seq<nat>)
    requires forall k :: 0 <= k < |a| ==> a[k] < x
    requires forall k :: 0 <= k < |b| ==> b[k] < x
    requires (a' == a || a' == a + [x]) && (b' == b || b' == b + [x])
    ensures a' == b' <==> a == b && (a' == a <==> b' == b)
  {
    if a' == b' {
      if a' == a + [x] {
        assert a'[|a|] == x;
        assert b' == b + [x];
        assert a == a'[..|a|] && b == b'[..|b|];
      }
      if b' == b + [x] {
        assert b'[|b|] == x;
      }
    }
  }

  /** Exactly once: then the store is what the log without repeated writes gives when applied plainly. */
  lemma {:induction false} ExactlyOnce(g: Log, n: nat)
    requires n <= |g| && Commands(g) && WritesTold(g, n)
    ensures Fold(g, n).store == Plain(Unrepeated(g, n))
  {
    if n > 0 {
      ExactlyOnce(g, n - 1);
      if !g[n - 1].internal {
        FreshIffNotRepeated(g, n - 1);
        var rest, op := Unrepeated(g, n - 1), g[n - 1].command.value;
        assert (rest + [op])[..|rest|] == rest;
      }
    }
  }

  /** A log where it fails: a late old request resets the table, and a repeat after it is applied again. */
  lemma OutOfOrderAppliesTwice()
    ensures Commands(LATE) && !WritesTold(LATE, 3) && Executed(LATE, 3) != FirstTimes(LATE, 3)
    ensures Fold(LATE, 3).store != Plain(Unrepeated(LATE, 3))
  {
    LateFold();
    LateUnrepeated();
    assert [AGAIN, OLD][..1] == [AGAIN];
    assert Plain([AGAIN][..0]) == map[];
    assert Plain([AGAIN]) == map["k" := "v"];
    assert Plain([AGAIN, OLD]) == Plain([AGAIN]);
    if WritesTold(LATE, 3) {
      ExactlyOnce(LATE, 3);
      assert false;
    }
    OnceIffTold(LATE, 3);
  }

  lemma LateFold()
    ensures Commands(LATE) && "k" in Fold(LATE, 3).store && Fold(LATE, 3).store["k"] == "v" + "v"
  {
    assert Fold(LATE, 1) == Machine(map["k" := "v"], map[7 := 2]);
    assert Fold(LATE, 2) == Machine(map["k" := "v"], map[7 := 1]);
  }

  lemma LateUnrepeated()
    ensures Commands(LATE) && Unrepeated(LATE, 3) == [AGAIN, OLD]
  {
    assert From(LATE[0], 7) && From(LATE[2], 7);
    assert SameRequest(LATE[0], LATE[2]);
    assert Repeated(LATE, 2);
    assert !Repeated(LATE, 0);
    assert Unrepeated(LATE, 1) == [AGAIN];
    assert Unrepeated(LATE, 2) == [AGAIN, OLD];
  }

  const AGAIN := Op("k", "v", APPEND, 0, 0, 7, 2)
  const OLD := Op("k", "", GET, 0, 0, 7, 1)
  const LATE: Log := [LogEntry(1, 1, Some(AGAIN), 1, false), LogEntry(1, 2, Some(OLD), 2, false), LogEntry(1, 3, Some(AGAIN), 3, false)]
}
