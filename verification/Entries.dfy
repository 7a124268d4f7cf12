/**
 From what clients hand to the checker, operations or events, to the entries it
 searches (porcupine/checker.go:29-55, 87-114).
 */
module Entries {
  import opened History
  import opened Seqs
  import Sorting

  // ----- Operations with times

  predicate Earlier<I, O>(a: Entry<I, O>, b: Entry<I, O>) {
    a.time < b.time
  }

  /** The call or the return of operation id. */
  function EntryOf<I, O>(history: seq<Operation<I, O>>, id: nat, isReturn: bool): Entry<I, O>
    requires id < |history|
  {
    if isReturn then ReturnEntry(id, history[id].output, history[id].ret)
    else CallEntry(id, history[id].input, history[id].call)
  }

  /** The entries of a history before they are sorted: a call and a return for each operation. */
  function Pairs<I, O>(history: seq<Operation<I, O>>): (es: seq<Entry<I, O>>)
    ensures |es| == 2 * |history|
    ensures forall k :: 0 <= k < |es| ==> es[k] == EntryOf(history, k / 2, k % 2 == 1)
  {
    if history == [] then [] else
    var n := |history| - 1;
    Pairs(history[..n]) + [EntryOf(history, n, false), EntryOf(history, n, true)]
  }

  lemma EarlierIsOrdering<I(!new), O(!new)>()
    ensures Sorting.Ordering<Entry<I, O>>(Earlier)
  {
  }

  /** Every operation returns after it was called. */
  ghost predicate Proper<I, O>(history: seq<Operation<I, O>>) {
    forall a :: 0 <= a < |history| ==> history[a].call < history[a].ret
  }

  /** No operation is called at the very moment that one returns. */
  ghost predicate NoTies<I, O>(history: seq<Operation<I, O>>) {
    forall a, b :: 0 <= a < |history| && 0 <= b < |history| ==> history[a].ret != history[b].call
  }

  /** The entries are those of the history, in one of the orders that sorting by time may leave. */
  ghost predicate SortedFrom<I, O>(history: seq<Operation<I, O>>, es: seq<Entry<I, O>>) {
    Sorting.Sorted(es, Earlier) && multiset(es) == multiset(Pairs(history))
  }

  /** The entries stand for the same operations, and keep the order in time of those that do not overlap. */
  ghost predicate StandFor<I, O>(history: seq<Operation<I, O>>, es: seq<Entry<I, O>>) {
    && WellFormed(es) && |es| == 2 * |history|
    && (forall a :: 0 <= a < |history| ==>
          && Operations(es)[a].input == history[a].input
          && Operations(es)[a].output == history[a].output)
    && (forall a: nat, b: nat :: a < |history| && b < |history| && Precedes(history, a, b) ==>
          Precedes(Operations(es), a, b))
  }

  /** And no operations that overlap are put in order. */
  ghost predicate NothingAdded<I, O>(history: seq<Operation<I, O>>, es: seq<Entry<I, O>>)
    requires WellFormed(es) && |es| == 2 * |history|
  {
    forall a: nat, b: nat :: a < |history| && b < |history| && Precedes(Operations(es), a, b) ==> Precedes(history, a, b)
  }

  method MakeEntries<I(!new), O(!new)>(history: seq<Operation<I, O>>) returns (entries: seq<Entry<I, O>>)
    ensures SortedFrom(history, entries)
    ensures Proper(history) ==> StandFor(history, entries)
    ensures Proper(history) && NoTies(history) ==> NothingAdded(history, entries)
  {
    entries := [];
    for id := 0 to |history|
      invariant entries == Pairs(history[..id])
    {
      entries := entries + [CallEntry(id, history[id].input, history[id].call)];
      entries := entries + [ReturnEntry(id, history[id].output, history[id].ret)];
      assert history[..id + 1][..id] == history[..id];
    }
    assert history[..|history|] == history;
    EarlierIsOrdering<I, O>();
    entries := Sorting.Sort(entries, Earlier);
    if Proper(history) {
      SortedPairs(history, entries);
    }
  }

  /** Each entry is the call or the return of an operation of the history, and none comes twice. */
  ghost predicate EntriesOf<I, O>(history: seq<Operation<I, O>>, es: seq<Entry<I, O>>) {
    && |es| == 2 * |history|
    && NoRepeats(es)
    && forall i :: 0 <= i < |es| ==>
         es[i].id < |history| && es[i] == EntryOf(history, es[i].id, es[i].ReturnEntry?)
  }

  lemma PairsAt<I, O>(history: seq<Operation<I, O>>, id: nat)
    requires id < |history|
    ensures var base := Pairs(history);
            base[2 * id] == EntryOf(history, id, false) && base[2 * id + 1] == EntryOf(history, id, true)
  {
    hide Pairs, EntryOf;
  }

  lemma PairsOnly<I, O>(history: seq<Operation<I, O>>, e: Entry<I, O>)
    requires e in Pairs(history)
    ensures e.id < |history| && e == EntryOf(history, e.id, e.ReturnEntry?)
  {
    hide Pairs;
  }

  lemma ShuffledComplete<I, O>(history: seq<Operation<I, O>>, es: seq<Entry<I, O>>, id: nat)
    requires id < |history| && forall e :: e in Pairs(history) ==> e in es
    ensures Complete(es, id)
  {
    hide Pairs;
    PairsAt(history, id);
    var base := Pairs(history);
    assert base[2 * id] in es && base[2 * id + 1] in es;
    var c :| 0 <= c < |es| && es[c] == base[2 * id];
    var r :| 0 <= r < |es| && es[r] == base[2 * id + 1];
    assert CallOf(es, c, id) && ReturnOf(es, r, id);
  }

  lemma {:induction false} ShuffledPairs<I, O>(history: seq<Operation<I, O>>, es: seq<Entry<I, O>>)
    requires multiset(es) == multiset(Pairs(history))
    ensures EntriesOf(history, es)
    ensures forall id: nat :: id < |history| ==> Complete(es, id)
  {
    hide Pairs, EntryOf, Complete, NoRepeats;
    var base := Pairs(history);
    PairsDistinct(history);
    SameMembers(base, es);
    forall i | 0 <= i < |es|
      ensures es[i].id < |history| && es[i] == EntryOf(history, es[i].id, es[i].ReturnEntry?)
    {
      assert es[i] in base;
      PairsOnly(history, es[i]);
    }
    forall id: nat | id < |history|
      ensures Complete(es, id)
    {
      ShuffledComplete(history, es, id);
    }
  }

  lemma {:induction false} SortedIsWellFormed<I, O>(history: seq<Operation<I, O>>, es: seq<Entry<I, O>>)
    requires Proper(history) && SortedFrom(history, es)
    ensures EntriesOf(history, es) && WellFormed(es)
  {
    hide Pairs, Complete;
    ShuffledPairs(history, es);
    forall i, j | 0 <= i < j < |es| && es[i].id == es[j].id
      ensures es[i].CallEntry? && es[j].ReturnEntry?
    {
      assert es[i] != es[j];
      assert !Earlier(es[j], es[i]);
    }
  }

  lemma {:induction false} PairsDistinct<I, O>(history: seq<Operation<I, O>>)
    ensures NoRepeats(Pairs(history))
  {
    hide Pairs;
    var base := Pairs(history);
    forall i, j | 0 <= i < j < |base|
      ensures base[i] != base[j]
    {
      assert base[i] == EntryOf(history, i / 2, i % 2 == 1);
      assert base[j] == EntryOf(history, j / 2, j % 2 == 1);
      assert i / 2 != j / 2 || i % 2 != j % 2;
    }
  }

  lemma {:induction false} SortedPairs<I, O>(history: seq<Operation<I, O>>, es: seq<Entry<I, O>>)
    requires Proper(history) && SortedFrom(history, es)
    ensures StandFor(history, es)
    ensures NoTies(history) ==> NothingAdded(history, es)
  {
    SortedIsWellFormed(history, es);
    forall a: nat, b: nat | a < |history| && b < |history|
      ensures Precedes(history, a, b) ==> Precedes(Operations(es), a, b)
      ensures Precedes(Operations(es), a, b) ==> history[a].ret <= history[b].call
    {
      var r, c := ReturnPos(es, a), CallPos(es, b);
      assert ReturnOf(es, r, a) && CallOf(es, c, b);
      assert r < c ==> !Earlier(es[c], es[r]);
      assert c < r ==> !Earlier(es[r], es[c]);
    }
  }

  /** The same operations with fewer constraints of time have at least the same linearizations. */
  lemma WeakerTime<S, I, O>(m: Model<S, I, O>, ops: seq<Operation<I, O>>, ops': seq<Operation<I, O>>, p: seq<nat>)
    requires |ops| == |ops'| && Linearization(m, ops, p)
    requires forall a :: 0 <= a < |ops| ==> ops[a].input == ops'[a].input && ops[a].output == ops'[a].output
    requires forall a: nat, b: nat :: a < |ops| && b < |ops| && Precedes(ops', a, b) ==> Precedes(ops, a, b)
    ensures Linearization(m, ops', p)
  {
    SameReplay(m, ops, ops', p);
  }

  lemma {:induction false} SameReplay<S, I, O>(m: Model<S, I, O>, ops: seq<Operation<I, O>>, ops': seq<Operation<I, O>>, p: seq<nat>)
    requires |ops| == |ops'| && forall k :: 0 <= k < |p| ==> p[k] < |ops|
    requires forall a :: 0 <= a < |ops| ==> ops[a].input == ops'[a].input && ops[a].output == ops'[a].output
    ensures Replay(m, ops, p) == Replay(m, ops', p)
  {
    if p != [] {
      SameReplay(m, ops, ops', p[..|p| - 1]);
    }
  }

  /** The entries are linearizable only if the operations are, and exactly if they are when no order was added. */
  lemma EntriesDecide<S, I, O>(m: Model<S, I, O>, history: seq<Operation<I, O>>, es: seq<Entry<I, O>>)
    requires StandFor(history, es)
    ensures Linearizable(m, Operations(es)) ==> Linearizable(m, history)
    ensures NothingAdded(history, es) ==> (Linearizable(m, Operations(es)) <==> Linearizable(m, history))
  {
    var ops := Operations(es);
    if Linearizable(m, ops) {
      var p :| Linearization(m, ops, p);
      WeakerTime(m, ops, history, p);
    }
    if Linearizable(m, history) && NothingAdded(history, es) {
      var p :| Linearization(m, history, p);
      WeakerTime(m, history, ops, p);
    }
  }

  // ----- What sorting by time alone may do

  /** The order that puts returns before calls of the same time; a result of it is also sorted by time. */
  predicate ReturnsFirst<I, O>(a: Entry<I, O>, b: Entry<I, O>) {
    a.time < b.time || (a.time == b.time && a.ReturnEntry? && b.CallEntry?)
  }

  lemma ReturnsFirstEntries<I(!new), O(!new)>(history: seq<Operation<I, O>>) returns (es: seq<Entry<I, O>>)
    ensures SortedFrom(history, es) && Sorting.Sorted(es, ReturnsFirst)
  {
    es := Sorting.SortExists(Pairs(history), ReturnsFirst);
  }

  /** In such a result a return is before a call that is not earlier. */
  lemma ReturnBeforeCall<I, O>(es: seq<Entry<I, O>>, r: nat, c: nat)
    requires Sorting.Sorted(es, ReturnsFirst) && r < |es| && c < |es|
    requires es[r].ReturnEntry? && es[c].CallEntry? && es[r].time <= es[c].time
    ensures r < c
  {
    assert ReturnsFirst(es[r], es[c]);
  }

  /**
   Without assumptions on times, sorting leaves a well-formed history for certain exactly when
   every operation returns after it was called.
   */
  lemma ProperIsNeeded<I(!new), O(!new)>(history: seq<Operation<I, O>>)
    ensures Proper(history) <==> forall es :: SortedFrom(history, es) ==> WellFormed(es)
  {
    if Proper(history) {
      forall es | SortedFrom(history, es)
        ensures WellFormed(es)
      {
        SortedIsWellFormed(history, es);
      }
    } else {
      var a :| 0 <= a < |history| && history[a].call >= history[a].ret;
      var es := ReturnsFirstEntries(history);
      var c, r := PlacesOf(history, es, a, a);
      ReturnBeforeCall(es, r, c);
      assert !WellFormed(es);
    }
  }

  /** The call of b and the return of a. */
  lemma PlacesOf<I, O>(history: seq<Operation<I, O>>, es: seq<Entry<I, O>>, a: nat, b: nat) returns (c: nat, r: nat)
    requires multiset(es) == multiset(Pairs(history)) && a < |history| && b < |history|
    ensures CallOf(es, c, b) && es[c].time == history[b].call
    ensures ReturnOf(es, r, a) && es[r].time == history[a].ret
  {
    hide Pairs;
    ShuffledPairs(history, es);
    assert Complete(es, a) && Complete(es, b);
    c :| CallOf(es, c, b);
    r :| ReturnOf(es, r, a);
  }

  ghost predicate Exact<I, O>(history: seq<Operation<I, O>>, es: seq<Entry<I, O>>) {
    StandFor(history, es) && NothingAdded(history, es)
  }

  /** With a tie, sorting may put two operations in order that overlap. */
  lemma TieAdds<I(!new), O(!new)>(history: seq<Operation<I, O>>, a: nat, b: nat) returns (es: seq<Entry<I, O>>)
    requires Proper(history) && a < |history| && b < |history| && history[a].ret == history[b].call
    ensures SortedFrom(history, es) && StandFor(history, es) && Precedes(Operations(es), a, b) && !Exact(history, es)
  {
    hide StandFor, SortedFrom, Proper, WellFormed, Pairs;
    es := ReturnsFirstEntries(history);
    SortedPairs(history, es);
    StandsWellFormed(history, es);
    FromPairs(history, es);
    var c, r := PlacesOf(history, es, a, b);
    ReturnBeforeCall(es, r, c);
    PositionsUnique(es, c);
    PositionsUnique(es, r);
    assert Precedes(Operations(es), a, b) && !Precedes(history, a, b);
  }

  lemma FromPairs<I, O>(history: seq<Operation<I, O>>, es: seq<Entry<I, O>>)
    requires SortedFrom(history, es)
    ensures multiset(es) == multiset(Pairs(history))
  {
  }

  /**
   And sorting adds no order of its own for certain exactly when no operation is called at the
   very moment that one returns.
   */
  lemma NoTiesIsNeeded<I(!new), O(!new)>(history: seq<Operation<I, O>>)
    requires Proper(history)
    ensures NoTies(history) <==> forall es :: SortedFrom(history, es) ==> Exact(history, es)
  {
    hide StandFor, SortedFrom, NothingAdded;
    if NoTies(history) {
      forall es | SortedFrom(history, es)
        ensures Exact(history, es)
      {
        SortedPairs(history, es);
      }
    } else {
      var a, b :| 0 <= a < |history| && 0 <= b < |history| && history[a].ret == history[b].call;
      var es := TieAdds(history, a, b);
    }
  }

  lemma StandsWellFormed<I, O>(history: seq<Operation<I, O>>, es: seq<Entry<I, O>>)
    requires StandFor(history, es)
    ensures WellFormed(es) && |es| == 2 * |history|
  {
  }

  // ----- Events with ids of the client's choosing

  datatype Event<I, O> = CallEvent(id: int, input: I) | ReturnEvent(id: int, output: O)

  function WithId<I, O>(e: Event<I, O>, id: int): Event<I, O> {
    if e.CallEvent? then CallEvent(id, e.input) else ReturnEvent(id, e.output)
  }

  ghost predicate Occurs<I, O>(events: seq<Event<I, O>>, d: int) {
    exists i :: 0 <= i < |events| && events[i].id == d
  }

  ghost predicate OccursAt<I, O>(events: seq<Event<I, O>>, d: int, at: set<int>)
    requires forall i :: i in at ==> 0 <= i < |events|
  {
    exists i :: i in at && events[i].id == d
  }

  /** m numbers exactly the ids among the events, one to one, with 0, 1, 2, ... */
  ghost predicate Renumbering<I, O>(events: seq<Event<I, O>>, m: map<int, int>) {
    && (forall i :: 0 <= i < |events| ==> events[i].id in m)
    && (forall d :: d in m ==> 0 <= m[d] < |m| && Occurs(events, d))
    && Injective(m)
  }

  method Renumber<I, O>(events: seq<Event<I, O>>) returns (e: seq<Event<I, O>>, ghost m: map<int, int>)
    ensures Renumbering(events, m)
    ensures |e| == |events| && forall i :: 0 <= i < |e| ==> e[i] == WithId(events[i], m[events[i].id])
  {
    e := [];
    var numbers: map<int, int> := map[];
    var id := 0;
    for i := 0 to |events|
      invariant id == |numbers| && Renumbering(events[..i], numbers)
      invariant |e| == i && forall j :: 0 <= j < i ==> e[j] == WithId(events[j], numbers[events[..i][j].id])
    {
      var v := events[i];
      ghost var before := numbers;
      if v.id in numbers {
        e := e + [WithId(v, numbers[v.id])];
      } else {
        e := e + [WithId(v, id)];
        numbers := numbers[v.id := id];
        id := id + 1;
      }
      assert events[..i + 1] == events[..i] + [v];
      RenumberOne(events[..i], v, before, numbers);
    }
    assert events[..|events|] == events;
    m := numbers;
  }

  lemma {:induction false} RenumberOne<I, O>(events: seq<Event<I, O>>, v: Event<I, O>, m: map<int, int>, m': map<int, int>)
    requires Renumbering(events, m)
    requires m' == if v.id in m then m else m[v.id := |m|]
    ensures Renumbering(events + [v], m')
    ensures |m'| == if v.id in m then |m| else |m| + 1
  {
    hide Occurs, Injective;
    RenumberInjective(events, v, m, m');
    var more := events + [v];
    assert m'.Keys == m.Keys + {v.id};
    forall d | d in m'
      ensures Occurs(more, d)
    {
      OccursMore(events, v, d);
    }
  }

  lemma OccursMore<I, O>(events: seq<Event<I, O>>, v: Event<I, O>, d: int)
    requires Occurs(events, d) || d == v.id
    ensures Occurs(events + [v], d)
  {
    var more := events + [v];
    if Occurs(events, d) {
      var i :| 0 <= i < |events| && events[i].id == d;
      assert more[i].id == d;
    } else {
      assert more[|events|].id == d;
    }
  }

  lemma RenumberInjective<I, O>(events: seq<Event<I, O>>, v: Event<I, O>, m: map<int, int>, m': map<int, int>)
    requires Renumbering(events, m)
    requires m' == if v.id in m then m else m[v.id := |m|]
    ensures Injective(m')
  {
    hide Occurs;
    assert forall d :: d in m ==> m[d] < |m|;
    forall x, y | x in m' && y in m' && m'[x] == m'[y]
      ensures x == y
    {
      assert x in m ==> m'[x] == m[x] || v.id !in m;
    }
  }

  method ConvertEntries<I, O>(events: seq<Event<I, O>>) returns (entries: seq<Entry<I, O>>)
    requires forall i :: 0 <= i < |events| ==> events[i].id >= 0
    ensures |entries| == |events|
    ensures forall i :: 0 <= i < |events| ==> entries[i] == EntryAt(events[i], i)
  {
    entries := [];
    for i := 0 to |events|
      invariant |entries| == i && forall j :: 0 <= j < i ==> entries[j] == EntryAt(events[j], j)
    {
      entries := entries + [EntryAt(events[i], i)];
    }
  }

  /** The index of an event is its time. */
  function EntryAt<I, O>(e: Event<I, O>, i: int): Entry<I, O>
    requires e.id >= 0
  {
    if e.CallEvent? then CallEntry(e.id, e.input, i) else ReturnEntry(e.id, e.output, i)
  }

  /** Every id is called once and, later, returned once. */
  ghost predicate Paired<I, O>(events: seq<Event<I, O>>) {
    && (forall i, j :: 0 <= i < j < |events| && events[i].id == events[j].id ==> events[i].CallEvent? && events[j].ReturnEvent?)
    && (forall i :: 0 <= i < |events| ==> HasPartner(events, i))
  }

  ghost predicate HasPartner<I, O>(events: seq<Event<I, O>>, i: int)
    requires 0 <= i < |events|
  {
    exists j :: 0 <= j < |events| && j != i && events[j].id == events[i].id
  }

  ghost predicate Injective<T, U>(m: map<T, U>) {
    forall x, y :: x in m && y in m && m[x] == m[y] ==> x == y
  }

  lemma KeyOf<T, U>(m: map<T, U>, v: U) returns (k: T)
    requires v in m.Values
    ensures k in m && m[k] == v
  {
    k :| k in m && m[k] == v;
  }

  lemma {:induction false} InjectiveValues<T, U>(m: map<T, U>)
    requires Injective(m)
    ensures |m.Values| == |m|
  {
    if m.Keys != {} {
      var x :| x in m.Keys;
      var m' := m - {x};
      InjectiveValues(m');
      assert m'.Keys == m.Keys - {x};
      forall v
        ensures v in m.Values <==> v in m'.Values || v == m[x]
      {
        if v in m.Values {
          var y :| y in m && m[y] == v;
          assert y != x ==> y in m' && m'[y] == v;
        }
        if v in m'.Values {
          var y :| y in m' && m'[y] == v;
          assert m[y] == v;
        }
      }
      assert m[x] !in m'.Values;
      assert m.Values == m'.Values + {m[x]};
    } else {
      assert m.Values == {};
    }
  }

  /** A set of positions that holds each id once has as many elements as there are ids. */
  lemma {:induction false} OnePositionEach<I, O>(events: seq<Event<I, O>>, m: map<int, int>, at: set<int>)
    requires Renumbering(events, m)
    requires forall i :: i in at ==> 0 <= i < |events|
    requires forall i, j :: i in at && j in at && events[i].id == events[j].id ==> i == j
    requires forall d :: d in m ==> OccursAt(events, d, at)
    ensures |at| == |m|
  {
    var idOf := map i | i in at :: events[i].id;
    InjectiveValues(idOf);
    assert idOf.Keys == at;
    forall d | d in m
      ensures d in idOf.Values
    {
      assert OccursAt(events, d, at);
      var i :| i in at && events[i].id == d;
      assert idOf[i] == d;
    }
    assert idOf.Values == m.Keys;
  }

  ghost function UpTo(n: nat): (s: set<int>)
    ensures |s| == n && forall i :: i in s <==> 0 <= i < n
  {
    if n == 0 then {} else UpTo(n - 1) + {n - 1}
  }

  lemma SplitRange(a: set<int>, b: set<int>, n: nat)
    requires a !! b && forall i :: i in a || i in b <==> 0 <= i < n
    ensures |a| + |b| == n
  {
    assert a + b == UpTo(n);
  }

  ghost predicate IsCall<I, O>(events: seq<Event<I, O>>, i: int) {
    0 <= i < |events| && events[i].CallEvent?
  }

  /** The call and the return of an id. */
  lemma {:induction false} PairOf<I, O>(events: seq<Event<I, O>>, i: nat) returns (c: nat, r: nat)
    requires Paired(events) && i < |events|
    ensures c < r < |events| && events[c].CallEvent? && events[r].ReturnEvent?
    ensures events[c].id == events[r].id == events[i].id
  {
    assert HasPartner(events, i);
    var j :| 0 <= j < |events| && j != i && events[j].id == events[i].id;
    c, r := if i < j then i else j, if i < j then j else i;
  }

  /** There are half as many ids as events. */
  lemma {:induction false} TwoEventsEach<I, O>(events: seq<Event<I, O>>, m: map<int, int>)
    requires Paired(events) && Renumbering(events, m)
    ensures |events| == 2 * |m|
  {
    hide Paired, Renumbering, OccursAt;
    var calls := set i | 0 <= i < |events| && IsCall(events, i);
    var rets := set i | 0 <= i < |events| && !IsCall(events, i);
    OneCallEach(events, calls, rets);
    forall d | d in m
      ensures OccursAt(events, d, calls) && OccursAt(events, d, rets)
    {
      CalledAndReturned(events, m, calls, rets, d);
    }
    OnePositionEach(events, m, calls);
    OnePositionEach(events, m, rets);
    SplitRange(calls, rets, |events|);
  }

  ghost predicate CallsAndReturns<I, O>(events: seq<Event<I, O>>, calls: set<int>, rets: set<int>) {
    && (forall i :: i in calls <==> IsCall(events, i))
    && (forall i :: i in rets <==> 0 <= i < |events| && !IsCall(events, i))
  }

  lemma OneCallEach<I, O>(events: seq<Event<I, O>>, calls: set<int>, rets: set<int>)
    requires Paired(events) && CallsAndReturns(events, calls, rets)
    ensures forall i, j :: i in calls && j in calls && events[i].id == events[j].id ==> i == j
    ensures forall i, j :: i in rets && j in rets && events[i].id == events[j].id ==> i == j
  {
    hide HasPartner;
  }

  lemma CalledAndReturned<I, O>(events: seq<Event<I, O>>, m: map<int, int>, calls: set<int>, rets: set<int>, d: int)
    requires Paired(events) && Renumbering(events, m) && CallsAndReturns(events, calls, rets) && d in m
    ensures OccursAt(events, d, calls) && OccursAt(events, d, rets)
  {
    hide HasPartner, Injective;
    assert Occurs(events, d);
    var i :| 0 <= i < |events| && events[i].id == d;
    var c, r := PairOf(events, i);
    assert c in calls && r in rets;
  }

  /** The entries are the events under their new numbers. */
  ghost predicate Converted<I, O>(events: seq<Event<I, O>>, m: map<int, int>, es: seq<Entry<I, O>>)
    requires Renumbering(events, m)
  {
    |es| == |events| && forall i :: 0 <= i < |es| ==> es[i] == EntryAt(WithId(events[i], m[events[i].id]), i)
  }

  /** Renumbered and converted, events are a well-formed history exactly when they pair up. */
  lemma {:induction false} WellFormedIffPaired<I, O>(events: seq<Event<I, O>>, m: map<int, int>, es: seq<Entry<I, O>>)
    requires Renumbering(events, m) && Converted(events, m, es)
    ensures WellFormed(es) <==> Paired(events)
    ensures Paired(events) ==> |es| == 2 * |m|
  {
    if Paired(events) {
      EventsWellFormed(events, m, es);
    } else if WellFormed(es) {
      WellFormedPairs(events, m, es);
    }
  }

  lemma WellFormedPairs<I, O>(events: seq<Event<I, O>>, m: map<int, int>, es: seq<Entry<I, O>>)
    requires Renumbering(events, m) && Converted(events, m, es) && WellFormed(es)
    ensures Paired(events)
  {
    hide Complete;
    forall i, j | 0 <= i < j < |events| && events[i].id == events[j].id
      ensures events[i].CallEvent? && events[j].ReturnEvent?
    {
      assert es[i].id == es[j].id;
    }
    forall i | 0 <= i < |events|
      ensures HasPartner(events, i)
    {
      Partner(events, m, es, i);
    }
  }

  lemma Partner<I, O>(events: seq<Event<I, O>>, m: map<int, int>, es: seq<Entry<I, O>>, i: nat)
    requires Renumbering(events, m) && Converted(events, m, es) && WellFormed(es) && i < |events|
    ensures HasPartner(events, i)
  {
    var id := es[i].id;
    var c, r := CallPos(es, id), ReturnPos(es, id);
    var j := if c == i then r else c;
    assert m[events[j].id] == m[events[i].id];
    assert events[j].id == events[i].id && j != i;
  }

  lemma {:induction false} EventsWellFormed<I, O>(events: seq<Event<I, O>>, m: map<int, int>, es: seq<Entry<I, O>>)
    requires Paired(events) && Renumbering(events, m) && Converted(events, m, es)
    ensures WellFormed(es) && |es| == 2 * |m|
  {
    TwoEventsEach(events, m);
    forall i, j | 0 <= i < j < |es| && es[i].id == es[j].id
      ensures es[i].CallEntry? && es[j].ReturnEntry?
    {
      assert events[i].id == events[j].id;
    }
    forall id: nat | id < |m|
      ensures Complete(es, id)
    {
      NumbersAreOnto(m, id);
      var d :| d in m && m[d] == id;
      assert Occurs(events, d);
      var i :| 0 <= i < |events| && events[i].id == d;
      var c, r := PairOf(events, i);
      assert CallOf(es, c, id) && ReturnOf(es, r, id);
    }
  }

  /** The operation numbered for an event has that event's value, at that event's place. */
  lemma {:induction false} EventsKeepOperations<I, O>(events: seq<Event<I, O>>, m: map<int, int>, es: seq<Entry<I, O>>, i: nat)
    requires |es| == |events| && i < |events| && events[i].id in m && m[events[i].id] >= 0
    requires WellFormed(es) && es[i] == EntryAt(WithId(events[i], m[events[i].id]), i)
    ensures var op := Operations(es)[m[events[i].id]];
            if events[i].CallEvent? then op.call == i && op.input == events[i].input
            else op.ret == i && op.output == events[i].output
  {
    PositionsUnique(es, i);
  }

  /** A one-to-one numbering with numbers below its size uses all of them. */
  lemma {:induction false} NumbersAreOnto(m: map<int, int>, id: nat)
    requires forall d :: d in m ==> 0 <= m[d] < |m|
    requires Injective(m)
    requires id < |m|
    ensures exists d :: d in m && m[d] == id
  {
    InjectiveValues(m);
    forall v | v in m.Values
      ensures 0 <= v < |m|
    {
      var d := KeyOf(m, v);
    }
    var numbers: set<nat> := m.Values;
    FullSet(numbers, |m|);
    var d := KeyOf(m, id);
  }
}
