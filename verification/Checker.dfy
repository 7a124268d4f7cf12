/**
 The checker as clients call it: partitions are searched in parallel, their
 results arrive in any order, and a timer may cut the search short
 (porcupine/checker.go:269-368, porcupine/porcupine.go).
 */
module Checker {
  import opened Options
  import opened History
  import opened Search
  import opened Entries
  import opened KvModel
  import opened KvPartition
  import CheckSingle

  datatype CheckResult = Unknown | Ok | Illegal

  /** What `select` sees: the results of the partitions in `order`, then the timer if `timeout`. */
  datatype Schedule = Schedule(order: seq<nat>, timeout: bool)

  /** The loop that reads results does not wait for ever: either all n results arrive, and there are some, or the timer fires. */
  ghost predicate Legal(s: Schedule, n: nat) {
    Ids(s.order, n) && (s.timeout || (|s.order| == n && n > 0))
  }

  ghost predicate AllWellFormed<I, O>(history: seq<seq<Entry<I, O>>>) {
    forall i :: 0 <= i < |history| ==> WellFormed(history[i])
  }

  ghost predicate AllLinearizable<S, I, O>(m: Model<S, I, O>, history: seq<seq<Entry<I, O>>>)
    requires AllWellFormed(history)
  {
    forall i :: 0 <= i < |history| ==> Linearizable(m, Operations(history[i]))
  }

  /** The recorded orders of each partition can be replayed. */
  ghost predicate PartialsSound<S, I, O>(m: Model<S, I, O>, history: seq<seq<Entry<I, O>>>, partials: seq<set<seq<nat>>>)
    requires AllWellFormed(history)
  {
    && |partials| == |history|
    && forall i, p :: 0 <= i < |history| && p in partials[i] ==> Partial(m, Operations(history[i]), p)
  }

  /** For each operation, the collected orders hold one at least as long as any linearizable prefix with it. */
  ghost predicate Tells<S, I, O>(m: Model<S, I, O>, ops: seq<Operation<I, O>>, partials: set<seq<nat>>) {
    forall p, x :: Partial(m, ops, p) && x in Elements(p) ==> HasLonger(partials, x, |p|)
  }

  ghost predicate HasLonger(partials: set<seq<nat>>, x: nat, size: nat) {
    exists q :: q in partials && x in Elements(q) && |q| >= size
  }

  /** So a partition that is linearizable and holds an operation has a linearization among them. */
  lemma TellsLinearization<S, I, O>(m: Model<S, I, O>, h: seq<Entry<I, O>>, partials: set<seq<nat>>)
    requires WellFormed(h) && Tells(m, Operations(h), partials) && Linearizable(m, Operations(h)) && h != []
    requires forall p :: p in partials ==> Partial(m, Operations(h), p)
    ensures exists q :: q in partials && Linearization(m, Operations(h), q)
  {
    hide WellFormed, Operations;
    var ops := Operations(h);
    CheckSingle.OperationsTimed(h);
    var p :| Linearization(m, ops, p);
    LinearizationIsFullPartial(m, ops, p);
    NotEmpty(h);
    assert p[0] in Elements(p);
    var q :| q in partials && p[0] in Elements(q) && |q| >= |p|;
    PermutationCovers(q, |ops|);
    LinearizationIsFullPartial(m, ops, q);
  }

  lemma NotEmpty<I, O>(h: seq<Entry<I, O>>)
    requires WellFormed(h) && h != []
    ensures |Operations(h)| > 0
  {
  }

  /** Some partition among those whose results are read is not linearizable. */
  ghost predicate ReadsViolation<S, I, O>(m: Model<S, I, O>, history: seq<seq<Entry<I, O>>>, order: seq<nat>)
    requires AllWellFormed(history) && Ids(order, |history|)
  {
    exists k :: 0 <= k < |order| && !Linearizable(m, Operations(history[order[k]]))
  }

  /**
   Illegal exactly when a result that is read says so, whether or not the timer fires later; Ok exactly when there
   are results, all are read and all are good; otherwise Unknown.
   */
  method CheckParallel<S(!new), I(!new), O(!new)>(
    m: Model<S, I, O>, history: seq<seq<Entry<I, O>>>, computeInfo: bool, schedule: Schedule, kill: nat -> nat -> bool)
    returns (result: CheckResult, partials: seq<set<seq<nat>>>)
    requires SoundEquality(m) && AllWellFormed(history) && Legal(schedule, |history|)
    ensures result == Illegal <==> ReadsViolation(m, history, schedule.order)
    ensures result == Ok <==> |schedule.order| == |history| > 0 && AllLinearizable(m, history)
    ensures result == Unknown ==> schedule.timeout
    ensures computeInfo ==> PartialsSound(m, history, partials)
    ensures computeInfo ==> forall i :: 0 <= i < |history| && (i in schedule.order || NeverKilled(kill, i)) ==>
              Tells(m, Operations(history[i]), partials[i])
  {
    hide SoundEquality, WellFormed, Linearizable, Partial, Operations, PartialsSound, RecordsSound, Longest, Linearization, Tells;
    var ok, timedOut, count := true, false, 0;
    var longest: map<nat, seq<Option<seq<nat>>>> := map[];
    while true
      invariant 0 <= count <= |schedule.order| && (|history| > 0 ==> count < |history|)
      invariant ok ==> forall k :: 0 <= k < count ==> Linearizable(m, Operations(history[schedule.order[k]]))
      invariant !ok ==> computeInfo && ReadsViolation(m, history, schedule.order)
      invariant RecordedSound(m, history, longest)
      invariant computeInfo ==> RecordedLongest(m, history, longest)
      invariant forall k :: 0 <= k < count ==> schedule.order[k] in longest
      decreases |schedule.order| - count
    {
      if count < |schedule.order| {
        // no result is read after kill is set, so this run was not cut short
        var i := schedule.order[count];
        var single, l, _ := CheckSingle.Check(m, history[i], computeInfo, t => false);
        if computeInfo {
          CheckedLongest(m, history[i], l, single);
        }
        longest := longest[i := l];
        count := count + 1;
        ok := ok && single;
        if !ok && !computeInfo {
          break;
        }
        if count >= |history| {
          break;
        }
      } else {
        timedOut := true;
        break;
      }
    }
    OrderFits(schedule.order, |history|);
    if ok && !timedOut {
      AllArrived(m, history, schedule.order, count);
    }
    partials := [];
    if computeInfo {
      assert forall i :: i in schedule.order ==> i in longest;
      partials := WaitForAll(m, history, longest, kill);
    }
    result := if !ok then Illegal else if timedOut then Unknown else Ok;
    if !ok {
      ViolationRefutes(m, history, schedule.order);
    }
  }

  lemma OrderFits(order: seq<nat>, n: nat)
    requires Ids(order, n)
    ensures |order| <= n
  {
    PermutationCovers(order, n);
  }

  lemma ViolationRefutes<S, I, O>(m: Model<S, I, O>, history: seq<seq<Entry<I, O>>>, order: seq<nat>)
    requires AllWellFormed(history) && Ids(order, |history|) && ReadsViolation(m, history, order)
    ensures !AllLinearizable(m, history)
  {
  }

  ghost predicate NeverKilled(kill: nat -> nat -> bool, i: nat) {
    forall t: nat :: !kill(i)(t)
  }

  /** A search that was not cut short leaves the longest prefixes, whatever its answer. */
  lemma CheckedLongest<S(!new), I(!new), O(!new)>(m: Model<S, I, O>, h: seq<Entry<I, O>>, l: seq<Option<seq<nat>>>, ok: bool)
    requires WellFormed(h) && RecordsSound(m, Operations(h), l)
    requires ok ==> forall x :: 0 <= x < |l| ==> l[x].Some? && Linearization(m, Operations(h), l[x].value)
    requires !ok ==> Longest(m, Operations(h), l)
    ensures Longest(m, Operations(h), l)
  {
    hide WellFormed, Operations, Replay, RespectsTime, Enabled;
    if ok {
      forall p, x | Partial(m, Operations(h), p) && x in Elements(p)
        ensures Recorded(l, x, |p|)
      {
        PermutationCovers(p, |Operations(h)|);
      }
    }
  }

  /** The records, as a set, tell as much. */
  lemma CollectedTells<S, I, O>(m: Model<S, I, O>, ops: seq<Operation<I, O>>, l: seq<Option<seq<nat>>>, partials: set<seq<nat>>)
    requires RecordsSound(m, ops, l) && Longest(m, ops, l)
    requires forall x :: 0 <= x < |l| && l[x].Some? ==> l[x].value in partials
    ensures Tells(m, ops, partials)
  {
    hide Partial;
    forall p, x | Partial(m, ops, p) && x in Elements(p)
      ensures HasLonger(partials, x, |p|)
    {
      assert Recorded(l, x, |p|);
    }
  }

  /** The rest are waited for, which may have seen kill at any point; then the recorded orders are collected. */
  method WaitForAll<S(!new), I(!new), O(!new)>(
    m: Model<S, I, O>, history: seq<seq<Entry<I, O>>>, arrived: map<nat, seq<Option<seq<nat>>>>, kill: nat -> nat -> bool)
    returns (partials: seq<set<seq<nat>>>)
    requires SoundEquality(m) && AllWellFormed(history) && RecordedSound(m, history, arrived) && RecordedLongest(m, history, arrived)
    ensures PartialsSound(m, history, partials)
    ensures forall i :: 0 <= i < |history| && (i in arrived || NeverKilled(kill, i)) ==> Tells(m, Operations(history[i]), partials[i])
  {
    hide SoundEquality, WellFormed, Linearizable, Linearization, Partial, Operations, Longest, Tells;
    partials := [];
    for i := 0 to |history|
      invariant |partials| == i
      invariant forall j, p :: 0 <= j < i && p in partials[j] ==> Partial(m, Operations(history[j]), p)
      invariant forall j :: 0 <= j < i && (j in arrived || NeverKilled(kill, j)) ==> Tells(m, Operations(history[j]), partials[j])
    {
      var l;
      if i in arrived {
        l := arrived[i];
      } else {
        var ok, records, _ := CheckSingle.Check(m, history[i], true, kill(i));
        l := records;
        if NeverKilled(kill, i) {
          CheckedLongest(m, history[i], l, ok);
        }
      }
      var orders := set x | 0 <= x < |l| && l[x].Some? :: l[x].value;
      if i in arrived || NeverKilled(kill, i) {
        CollectedTells(m, Operations(history[i]), l, orders);
      }
      partials := partials + [orders];
    }
  }

  ghost predicate RecordedLongest<S, I, O>(m: Model<S, I, O>, history: seq<seq<Entry<I, O>>>, longest: map<nat, seq<Option<seq<nat>>>>)
    requires AllWellFormed(history)
  {
    forall i :: i in longest ==> i < |history| && Longest(m, Operations(history[i]), longest[i])
  }

  ghost predicate RecordedSound<S, I, O>(m: Model<S, I, O>, history: seq<seq<Entry<I, O>>>, longest: map<nat, seq<Option<seq<nat>>>>)
    requires AllWellFormed(history)
  {
    forall i :: i in longest ==> i < |history| && RecordsSound(m, Operations(history[i]), longest[i])
  }

  lemma AllArrived<S, I, O>(m: Model<S, I, O>, history: seq<seq<Entry<I, O>>>, order: seq<nat>, count: nat)
    requires AllWellFormed(history) && Ids(order, |history|) && |history| <= count <= |order|
    requires forall k :: 0 <= k < count ==> Linearizable(m, Operations(history[order[k]]))
    ensures AllLinearizable(m, history)
  {
    PermutationCovers(order, |history|);
    forall i: nat | i < |history|
      ensures Linearizable(m, Operations(history[i]))
    {
      assert i in Elements(order);
    }
  }

  // ----- The select loop, step by step

  /** The loop waits in `select`, or it has been left. */
  datatype Loop = Waiting(arrived: seq<nat>, ok: bool) | Left(timedOut: bool, ok: bool)

  const BEGIN := Waiting([], true)

  /** The result of partition i is received. */
  function Received(n: nat, computeInfo: bool, l: Loop, i: nat, result: bool): Loop
    requires l.Waiting?
  {
    var ok, arrived := l.ok && result, l.arrived + [i];
    if (!ok && !computeInfo) || |arrived| >= n then Left(false, ok) else Waiting(arrived, ok)
  }

  /** One step of the loop: a result that has not been received yet, or the timer if there is one. */
  ghost predicate Select(n: nat, computeInfo: bool, results: nat -> bool, timer: bool, l: Loop, l': Loop) {
    l.Waiting? &&
    ((exists i: nat :: i < n && i !in l.arrived && l' == Received(n, computeInfo, l, i, results(i))) ||
     (timer && l' == Left(true, l.ok)))
  }

  ghost predicate CanGoOn(n: nat, computeInfo: bool, results: nat -> bool, timer: bool, l: Loop) {
    exists l' :: Select(n, computeInfo, results, timer, l, l')
  }

  /** Results received, each once, and not yet all of them. */
  ghost predicate StillWaiting(n: nat, l: Loop) {
    l.Waiting? && Ids(l.arrived, n) && (n > 0 ==> |l.arrived| < n)
  }

  /** With no partition and no timer the loop waits for ever; otherwise it can always go on, and every step brings it nearer to its end. */
  lemma EmptyHistoryBlocks(n: nat, computeInfo: bool, results: nat -> bool, timer: bool, l: Loop)
    requires StillWaiting(n, l)
    ensures CanGoOn(n, computeInfo, results, timer, l) <==> n > 0 || timer
    ensures forall l' :: Select(n, computeInfo, results, timer, l, l') ==>
              l'.Left? || (StillWaiting(n, l') && |l'.arrived| == |l.arrived| + 1)
  {
    if timer {
      assert Select(n, computeInfo, results, timer, l, Left(true, l.ok));
    } else if n > 0 {
      var i := Missing(l.arrived, n);
      assert Select(n, computeInfo, results, timer, l, Received(n, computeInfo, l, i, results(i)));
    }
  }

  lemma Missing(arrived: seq<nat>, n: nat) returns (i: nat)
    requires Ids(arrived, n) && |arrived| < n
    ensures i < n && i !in arrived
  {
    ElementsCardinality(arrived, n);
    if forall i: nat :: i < n ==> i in Elements(arrived) {
      AtLeast(Elements(arrived), n);
      assert false;
    }
    i :| i < n && i !in Elements(arrived);
    assert forall k :: 0 <= k < |arrived| ==> arrived[k] in Elements(arrived);
  }

  /** The loop after results in this order, as long as it is not left. */
  ghost function Fed(n: nat, computeInfo: bool, results: nat -> bool, order: seq<nat>): Loop {
    if order == [] then BEGIN else
    var l := Fed(n, computeInfo, results, order[..|order| - 1]);
    var i := order[|order| - 1];
    if l.Left? then l else Received(n, computeInfo, l, i, results(i))
  }

  /** What checkParallel makes of the loop, left or cut short by the timer. */
  function Verdict(l: Loop): CheckResult {
    if !l.ok then Illegal else if l.Waiting? || l.timedOut then Unknown else Ok
  }

  /** A result in this order is false. */
  ghost predicate SomeFalse(results: nat -> bool, order: seq<nat>) {
    exists k :: 0 <= k < |order| && !results(order[k])
  }

  lemma SomeFalseSnoc(results: nat -> bool, rest: seq<nat>, i: nat)
    ensures SomeFalse(results, rest + [i]) <==> SomeFalse(results, rest) || !results(i)
  {
    var order := rest + [i];
    assert order[|rest|] == i;
    if k :| 0 <= k < |rest| && !results(rest[k]) {
      assert !results(order[k]);
    }
    if k :| 0 <= k < |order| && !results(order[k]) {
      assert k < |rest| ==> !results(rest[k]);
    }
  }

  /** The loop is left as soon as all results are in, or, without info, one of them is false; ok says whether none was. */
  lemma {:induction false} FedEnds(n: nat, computeInfo: bool, results: nat -> bool, order: seq<nat>)
    requires Ids(order, n)
    ensures var l := Fed(n, computeInfo, results, order);
            && (!l.ok <==> SomeFalse(results, order))
            && (l.Left? <==> |order| == n > 0 || (!computeInfo && !l.ok))
            && (l.Left? ==> !l.timedOut)
  {
    OrderFits(order, n);
    if order != [] {
      var rest, i := order[..|order| - 1], order[|order| - 1];
      assert order == rest + [i];
      FedEnds(n, computeInfo, results, rest);
      FedCounts(n, computeInfo, results, rest);
      SomeFalseSnoc(results, rest, i);
      hide SomeFalse, Ids;
    }
  }

  /** So the verdict is the one that CheckParallel gives, with the results of the partitions for `results`. */
  lemma VerdictIff(n: nat, computeInfo: bool, results: nat -> bool, order: seq<nat>)
    requires Ids(order, n)
    ensures var v := Verdict(Fed(n, computeInfo, results, order));
            && (v == Illegal <==> SomeFalse(results, order))
            && (v == Ok <==> |order| == n > 0 && forall i: nat :: i < n ==> results(i))
  {
    FedEnds(n, computeInfo, results, order);
    PermutationCovers(order, n);
    if |order| == n && !SomeFalse(results, order) {
      forall i: nat | i < n
        ensures results(i)
      {
        assert i in Elements(order);
        var k :| 0 <= k < |order| && order[k] == i;
      }
    }
  }

  /** The schedules called legal are those that take the loop to its end whatever the results are. */
  lemma {:induction false} LegalIffEnds(s: Schedule, n: nat)
    requires Ids(s.order, n)
    ensures Legal(s, n) <==>
            s.timeout || forall computeInfo, results :: Fed(n, computeInfo, results, s.order).Left?
  {
    PermutationCovers(s.order, n);
    if |s.order| == n && n > 0 {
      forall computeInfo, results
        ensures Fed(n, computeInfo, results, s.order).Left?
      {
        FedCounts(n, computeInfo, results, s.order);
      }
    } else {
      FedAllTrue(n, s.order);
      assert !Fed(n, true, i => true, s.order).Left?;
    }
  }

  lemma {:induction false} FedCounts(n: nat, computeInfo: bool, results: nat -> bool, order: seq<nat>)
    ensures var l := Fed(n, computeInfo, results, order);
            l.Waiting? ==> l.arrived == order && (order == [] || |order| < n)
  {
    hide Received;
    if order != [] {
      var rest, i := order[..|order| - 1], order[|order| - 1];
      FedCounts(n, computeInfo, results, rest);
      assert order == rest + [i];
      var l := Fed(n, computeInfo, results, rest);
      if l.Waiting? {
        ReceivedCounts(n, computeInfo, l, i, results(i));
      }
    }
  }

  lemma ReceivedCounts(n: nat, computeInfo: bool, l: Loop, i: nat, result: bool)
    requires l.Waiting?
    ensures var l' := Received(n, computeInfo, l, i, result);
            l'.Waiting? ==> l'.arrived == l.arrived + [i] && |l'.arrived| < n
  {
  }

  lemma {:induction false} FedAllTrue(n: nat, order: seq<nat>)
    requires order == [] || |order| < n
    ensures Fed(n, true, i => true, order) == Waiting(order, true)
  {
    if order != [] {
      FedAllTrue(n, order[..|order| - 1]);
      assert order == order[..|order| - 1] + [order[|order| - 1]];
    }
  }

  // ----- The entry points

  /** One partition of a key/value history, as entries. */
  method PartEntries(part: seq<KvOp>) returns (es: seq<Entry<KvInput, KvOutput>>)
    requires Proper(part)
    ensures WellFormed(es)
    ensures Linearizable(KV, Operations(es)) ==> Linearizable(KV, part)
    ensures NoTies(part) ==> (Linearizable(KV, Operations(es)) <==> Linearizable(KV, part))
  {
    hide WellFormed, Linearizable, NoTies, Proper, Precedes, Operations, StandFor, NothingAdded, SortedFrom;
    es := MakeEntries(part);
    StandsWellFormed(part, es);
    EntriesDecide(KV, part, es);
  }

  /** The partitions of a key/value history, as entries. */
  method KvEntries(parts: seq<seq<KvOp>>) returns (l: seq<seq<Entry<KvInput, KvOutput>>>)
    requires forall i :: 0 <= i < |parts| ==> Proper(parts[i])
    ensures |l| == |parts| && AllWellFormed(l)
    ensures forall i :: 0 <= i < |l| ==> Linearizable(KV, Operations(l[i])) ==> Linearizable(KV, parts[i])
    ensures forall i :: 0 <= i < |l| ==> NoTies(parts[i]) ==>
              (Linearizable(KV, Operations(l[i])) <==> Linearizable(KV, parts[i]))
  {
    hide WellFormed, Linearizable, NoTies, Proper, Operations;
    l := [];
    for i := 0 to |parts|
      invariant |l| == i && AllWellFormed(l)
      invariant forall j :: 0 <= j < i ==> Linearizable(KV, Operations(l[j])) ==> Linearizable(KV, parts[j])
      invariant forall j :: 0 <= j < i ==> NoTies(parts[j]) ==>
                  (Linearizable(KV, Operations(l[j])) <==> Linearizable(KV, parts[j]))
    {
      var es := PartEntries(parts[i]);
      l := l + [es];
    }
  }

  lemma {:induction false} SubHistoryKeeps(history: seq<KvOp>, k: Key)
    ensures forall i :: 0 <= i < |SubHistory(history, k)| ==> SubHistory(history, k)[i] in history
    ensures Proper(history) ==> Proper(SubHistory(history, k))
  {
    if history != [] {
      SubHistoryKeeps(history[..|history| - 1], k);
    }
  }

  /** Some sub-history among those whose results are read is not linearizable. */
  ghost predicate ReadsBadKey(history: seq<KvOp>, keys: seq<Key>, order: seq<nat>)
    requires Ids(order, |keys|)
  {
    exists k :: 0 <= k < |order| && !Linearizable(KV, SubHistory(history, keys[order[k]]))
  }

  ghost predicate NoTiesOnKeys(history: seq<KvOp>) {
    forall k: Key :: NoTies(SubHistory(history, k))
  }

  /**
   CheckOperations on a key/value history. Ok is never wrong, and a violation in a key whose result is read is never
   missed. If no operation is called when another one on the same key returns, the answer is exact: Illegal if and
   only if there is such a key, and Ok if and only if there are keys, all results are read and the history is
   linearizable against the whole store.
   */
  method CheckKv(history: seq<KvOp>, verbose: bool, schedule: Schedule, kill: nat -> nat -> bool)
    returns (result: CheckResult, partials: seq<set<seq<nat>>>, ghost keys: seq<Key>)
    requires Proper(history)
    requires forall keys :: KeysOf(history, keys) ==> Legal(schedule, |keys|)
    ensures KeysOf(history, keys) && Ids(schedule.order, |keys|)
    ensures ReadsBadKey(history, keys, schedule.order) ==> result == Illegal
    ensures result == Illegal && NoTiesOnKeys(history) ==> ReadsBadKey(history, keys, schedule.order) && !Linearizable(STORE, history)
    ensures result == Ok ==> |schedule.order| == |keys| > 0 && Linearizable(STORE, history)
    ensures |schedule.order| == |keys| > 0 && Linearizable(STORE, history) && NoTiesOnKeys(history) ==> result == Ok
    ensures result == Unknown ==> schedule.timeout
  {
    hide Linearizable;
    ShallowEqualityIsSound();
    var parts;
    parts, keys := Partition(history);
    forall i | 0 <= i < |parts|
      ensures Proper(parts[i])
    {
      SubHistoryKeeps(history, keys[i]);
    }
    var l := KvEntries(parts);
    result, partials := CheckParallel(KV, l, verbose, schedule, kill);
    PartitionDecides(history, keys);
    KeysAnswer(history, keys, l, schedule.order);
  }

  /** What the partitions' entries say of the keys. */
  lemma KeysAnswer(history: seq<KvOp>, keys: seq<Key>, l: seq<seq<Entry<KvInput, KvOutput>>>, order: seq<nat>)
    requires |l| == |keys| && AllWellFormed(l) && Ids(order, |keys|)
    requires forall i :: 0 <= i < |l| ==> Linearizable(KV, Operations(l[i])) ==> Linearizable(KV, SubHistory(history, keys[i]))
    requires forall i :: 0 <= i < |l| ==> NoTies(SubHistory(history, keys[i])) ==>
               (Linearizable(KV, Operations(l[i])) <==> Linearizable(KV, SubHistory(history, keys[i])))
    ensures ReadsBadKey(history, keys, order) ==> ReadsViolation(KV, l, order)
    ensures NoTiesOnKeys(history) ==> (ReadsViolation(KV, l, order) <==> ReadsBadKey(history, keys, order))
    ensures NoTiesOnKeys(history) && (forall i :: 0 <= i < |keys| ==> Linearizable(KV, SubHistory(history, keys[i]))) ==>
              AllLinearizable(KV, l)
    ensures AllLinearizable(KV, l) ==> forall i :: 0 <= i < |keys| ==> Linearizable(KV, SubHistory(history, keys[i]))
    ensures ReadsBadKey(history, keys, order) ==> exists i :: 0 <= i < |keys| && !Linearizable(KV, SubHistory(history, keys[i]))
  {
    hide Linearizable, WellFormed, Operations, NoTies, SubHistory;
    if k :| 0 <= k < |order| && !Linearizable(KV, SubHistory(history, keys[order[k]])) {
      assert !Linearizable(KV, Operations(l[order[k]]));
    }
    if NoTiesOnKeys(history) {
      if k :| 0 <= k < |order| && !Linearizable(KV, Operations(l[order[k]])) {
        assert !Linearizable(KV, SubHistory(history, keys[order[k]]));
      }
    }
  }

  /** CheckOperations with any model and no partition of its own (NoPartition). */
  method CheckOperations<S(!new), I(!new), O(!new)>(
    m: Model<S, I, O>, history: seq<Operation<I, O>>, verbose: bool, schedule: Schedule, kill: nat -> nat -> bool)
    returns (result: CheckResult, partials: seq<set<seq<nat>>>)
    requires SoundEquality(m) && Proper(history) && Legal(schedule, 1)
    ensures schedule.order != [] && !Linearizable(m, history) ==> result == Illegal
    ensures NoTies(history) ==> (result == Illegal <==> schedule.order != [] && !Linearizable(m, history))
    ensures result == Ok ==> schedule.order != [] && Linearizable(m, history)
    ensures NoTies(history) ==> (result == Ok <==> schedule.order != [] && Linearizable(m, history))
    ensures result == Unknown <==> schedule.order == []
  {
    hide StandFor, NothingAdded, SortedFrom, Precedes;
    var es := MakeEntries(history);
    StandsWellFormed(history, es);
    EntriesDecide(m, history, es);
    assert AllWellFormed([es]);
    result, partials := CheckParallel(m, [es], verbose, schedule, kill);
    OnePartition(m, es, schedule.order);
  }

  /** With one partition, its result is read or not. */
  lemma OnePartition<S, I, O>(m: Model<S, I, O>, es: seq<Entry<I, O>>, order: seq<nat>)
    requires WellFormed(es) && Ids(order, 1)
    ensures AllWellFormed([es]) && (AllLinearizable(m, [es]) <==> Linearizable(m, Operations(es)))
    ensures |order| == 1 <==> order != []
    ensures ReadsViolation(m, [es], order) <==> order != [] && !Linearizable(m, Operations(es))
  {
    hide WellFormed, Linearizable;
    OrderFits(order, 1);
    assert [es][0] == es;
    if order != [] {
      assert order[0] == 0;
    }
  }

  /** CheckEvents: the history is the events under their renumbered ids, timed by their places. */
  method CheckEvents<S(!new), I(!new), O(!new)>(
    m: Model<S, I, O>, events: seq<Event<I, O>>, verbose: bool, schedule: Schedule, kill: nat -> nat -> bool)
    returns (result: CheckResult, partials: seq<set<seq<nat>>>, ghost numbers: map<int, int>, ghost es: seq<Entry<I, O>>)
    requires SoundEquality(m) && Paired(events) && Legal(schedule, 1)
    ensures Renumbering(events, numbers) && |es| == |events| && WellFormed(es)
    ensures forall i :: 0 <= i < |es| ==> es[i] == EntryAt(WithId(events[i], numbers[events[i].id]), i)
    ensures result == Ok <==> schedule.order != [] && Linearizable(m, Operations(es))
    ensures result == Illegal <==> schedule.order != [] && !Linearizable(m, Operations(es))
    ensures result == Unknown <==> schedule.order == []
  {
    var renumbered;
    renumbered, numbers := Renumber(events);
    var entries := ConvertEntries(renumbered);
    EventsWellFormed(events, numbers, entries);
    assert AllWellFormed([entries]);
    result, partials := CheckParallel(m, [entries], verbose, schedule, kill);
    OnePartition(m, entries, schedule.order);
    es := entries;
  }

  /** The replay that the visualizer makes of a recorded order: it never meets the step that would make it panic. */
  method ReplayRecorded<S(!new), I(!new), O(!new)>(m: Model<S, I, O>, ops: seq<Operation<I, O>>, partial: seq<nat>)
    returns (panics: bool, states: seq<S>)
    requires Partial(m, ops, partial)
    ensures !panics
    ensures |states| == |partial|
    ensures forall j :: 0 <= j < |partial| ==> Replay(m, ops, partial[..j + 1]) == Some(states[j])
  {
    hide Enabled, Elements;
    panics, states := false, [];
    var state := m.init;
    for j := 0 to |partial|
      invariant !panics && |states| == j
      invariant Replay(m, ops, partial[..j]) == Some(state)
      invariant forall i :: 0 <= i < j ==> Replay(m, ops, partial[..i + 1]) == Some(states[i])
    {
      StepOfRecorded(m, ops, partial, j);
      var op := ops[partial[j]];
      var (ok, next) := m.step(state, op.input, op.output);
      panics := panics || !ok;
      state := next;
      states := states + [state];
    }
  }

  lemma StepOfRecorded<S, I, O>(m: Model<S, I, O>, ops: seq<Operation<I, O>>, partial: seq<nat>, j: nat)
    requires Partial(m, ops, partial) && j < |partial|
    ensures partial[j] < |ops|
    ensures Replay(m, ops, partial[..j]).Some?
    ensures var (ok, next) := m.step(Replay(m, ops, partial[..j]).value, ops[partial[j]].input, ops[partial[j]].output);
            ok && Replay(m, ops, partial[..j + 1]) == Some(next)
  {
    PartialPrefix(m, ops, partial, j);
    PartialPrefix(m, ops, partial, j + 1);
    PartialUnsnoc(m, ops, partial[..j + 1]);
    assert partial[..j + 1][..j] == partial[..j];
  }

  // ----- Ties

  /** A read that returns at the very moment at which the write it read from is called. */
  const TIED: seq<KvOp> := [
    Operation(KvInput(0, "k", ""), 0, KvOutput("v"), 5),
    Operation(KvInput(1, "k", "v"), 5, KvOutput(""), 10)]

  /** One of the orders that sorting by time may leave. */
  const TIED_ENTRIES: seq<Entry<KvInput, KvOutput>> := [
    CallEntry(0, KvInput(0, "k", ""), 0), ReturnEntry(0, KvOutput("v"), 5),
    CallEntry(1, KvInput(1, "k", "v"), 5), ReturnEntry(1, KvOutput(""), 10)]

  /** With ties the answer Illegal may be wrong: the history is linearizable, its sorted entries are not. */
  lemma TieRejects()
    ensures Proper(TIED) && !NoTies(TIED) && Linearizable(KV, TIED)
    ensures SortedFrom(TIED, TIED_ENTRIES)
    ensures WellFormed(TIED_ENTRIES) && !Linearizable(KV, Operations(TIED_ENTRIES))
  {
    hide Replay, Pairs, EntriesOf;
    assert TIED[0].ret == TIED[1].call;
    WriteFirst();
    TiedPairs();
    SortedIsWellFormed(TIED, TIED_ENTRIES);
    forall p: seq<nat>
      ensures !Linearization(KV, Operations(TIED_ENTRIES), p)
    {
      if |p| == 2 && Ids(p, 2) && RespectsTime(Operations(TIED_ENTRIES), p) {
        ReadFirst(p);
      }
    }
  }

  lemma WriteFirst()
    ensures Linearization(KV, TIED, [1, 0])
  {
    var p := [1, 0];
    assert p[..1] == [1] && p[..1][..0] == [];
    assert Replay(KV, TIED, p[..1]) == Some("v");
  }

  lemma TiedPairs()
    ensures Pairs(TIED) == TIED_ENTRIES
  {
    assert TIED[..1] == [TIED[0]] && TIED[..1][..0] == [];
  }

  lemma ReadFirst(p: seq<nat>)
    requires WellFormed(TIED_ENTRIES) && |p| == 2 && Ids(p, 2) && RespectsTime(Operations(TIED_ENTRIES), p)
    ensures Replay(KV, Operations(TIED_ENTRIES), p).None?
  {
    var ops := Operations(TIED_ENTRIES);
    PositionsUnique(TIED_ENTRIES, 0);
    PositionsUnique(TIED_ENTRIES, 1);
    PositionsUnique(TIED_ENTRIES, 2);
    hide WellFormed, Operations;
    assert Precedes(ops, 0, 1);
    assert p[0] != p[1] && !Precedes(ops, p[1], p[0]);
    assert p[..1] == [0] && p[..1][..0] == [];
    assert Replay(KV, ops, p[..1]).None?;
  }
}
