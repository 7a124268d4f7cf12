/**
 Checking each key on its own decides the whole history (the promise of
 porcupine/model.go:28-31 for the Partition of models/kv.go): locality, for the
 key/value store.
 */
module Locality {
  import opened Options
  import opened History
  import opened KvModel
  import opened Seqs

  /** The operations of p on key k, in the order of p. */
  function OnKey(ops: seq<KvOp>, p: seq<nat>, k: Key): (q: seq<nat>)
    requires forall i :: 0 <= i < |p| ==> p[i] < |ops|
    ensures forall i :: 0 <= i < |q| ==> q[i] in p && q[i] < |ops| && ops[q[i]].input.key == k
  {
    if p == [] then [] else
    var rest := OnKey(ops, p[..|p| - 1], k);
    var x := p[|p| - 1];
    if ops[x].input.key == k then rest + [x] else rest
  }

  ghost predicate InRange(ops: seq<KvOp>, p: seq<nat>) {
    forall i :: 0 <= i < |p| ==> p[i] < |ops|
  }

  /** A run of the whole store is a run of each key on its own, and each key's value is what its own run leaves. */
  lemma {:induction false} StoreRunIsKeyRuns(ops: seq<KvOp>, p: seq<nat>)
    requires InRange(ops, p)
    ensures Replay(STORE, ops, p).Some? <==> forall k: Key :: Replay(KV, ops, OnKey(ops, p, k)).Some?
    ensures Replay(STORE, ops, p).Some? ==> forall k: Key ::
              Replay(KV, ops, OnKey(ops, p, k)) == Some(Lookup(Replay(STORE, ops, p).value, k))
  {
    if p != [] {
      var q, x := p[..|p| - 1], p[|p| - 1];
      var kx := ops[x].input.key;
      StoreRunIsKeyRuns(ops, q);
      var qx := OnKey(ops, q, kx);
      assert OnKey(ops, p, kx) == qx + [x];
      assert (qx + [x])[..|qx|] == qx;
      forall k: Key | k != kx
        ensures OnKey(ops, p, k) == OnKey(ops, q, k)
      {
      }
      if Replay(STORE, ops, q).Some? {
        var s := Replay(STORE, ops, q).value;
        assert Replay(KV, ops, qx) == Some(Lookup(s, kx));
        if Replay(STORE, ops, p).Some? {
          forall k: Key
            ensures Replay(KV, ops, OnKey(ops, p, k)) == Some(Lookup(Replay(STORE, ops, p).value, k))
          {
          }
        } else {
          assert Replay(KV, ops, OnKey(ops, p, kx)).None?;
        }
      } else {
        var k: Key :| Replay(KV, ops, OnKey(ops, q, k)).None?;
        assert Replay(KV, ops, OnKey(ops, p, k)).None?;
      }
    }
  }

  // ----- From one order of everything to an order of each key

  /** A legal order, respecting time, of exactly the operations on key k. */
  ghost predicate KeyOrder(ops: seq<KvOp>, k: Key, q: seq<nat>) {
    && Ids(q, |ops|)
    && (forall i: nat :: i in Elements(q) <==> i < |ops| && ops[i].input.key == k)
    && RespectsTime(ops, q)
    && Replay(KV, ops, q).Some?
  }

  ghost predicate KeyLinearizable(ops: seq<KvOp>, k: Key) {
    exists q :: KeyOrder(ops, k, q)
  }

  ghost function OrderOf(ops: seq<KvOp>, k: Key): (q: seq<nat>)
    requires KeyLinearizable(ops, k)
    ensures KeyOrder(ops, k, q)
  {
    var q :| KeyOrder(ops, k, q);
    q
  }

  lemma {:induction false} OnKeyMembers(ops: seq<KvOp>, p: seq<nat>, k: Key)
    requires Ids(p, |ops|)
    ensures Ids(OnKey(ops, p, k), |ops|)
    ensures forall i: nat :: i in Elements(OnKey(ops, p, k)) <==> i in Elements(p) && ops[i].input.key == k
  {
    if p != [] {
      var q, x := p[..|p| - 1], p[|p| - 1];
      OnKeyMembers(ops, q, k);
      assert p == q + [x];
      ElementsSnoc(q, x);
      if ops[x].input.key == k {
        ElementsSnoc(OnKey(ops, q, k), x);
        assert x !in Elements(q);
      }
    }
  }

  lemma {:induction false} OnKeyRespectsTime(ops: seq<KvOp>, p: seq<nat>, k: Key)
    requires Ids(p, |ops|) && RespectsTime(ops, p)
    ensures RespectsTime(ops, OnKey(ops, p, k))
  {
    if p != [] {
      var q, x := p[..|p| - 1], p[|p| - 1];
      OnKeyRespectsTime(ops, q, k);
      var rest := OnKey(ops, q, k);
      if ops[x].input.key == k {
        forall j | 0 <= j < |rest|
          ensures !Precedes(ops, x, rest[j])
        {
          var i :| 0 <= i < |q| && q[i] == rest[j];
          assert p[i] == rest[j];
        }
      }
    }
  }

  lemma WholeGivesKeys(ops: seq<KvOp>, p: seq<nat>, k: Key)
    requires Linearization(STORE, ops, p)
    ensures KeyOrder(ops, k, OnKey(ops, p, k))
  {
    StoreRunIsKeyRuns(ops, p);
    OnKeyMembers(ops, p, k);
    OnKeyRespectsTime(ops, p, k);
    PermutationCovers(p, |ops|);
  }

  // ----- From an order of each key to one order of everything

  function MaxCall(ops: seq<KvOp>, q: seq<nat>): int
    requires InRange(ops, q) && q != []
  {
    var c := ops[q[|q| - 1]].call;
    if |q| == 1 then c else
    var m := MaxCall(ops, q[..|q| - 1]);
    if m < c then c else m
  }

  /** When operation i takes effect: the latest call among the operations that q puts up to it. */
  function Point(ops: seq<KvOp>, q: seq<nat>, i: nat): int
    requires InRange(ops, q)
  {
    if q == [] then 0
    else if q[|q| - 1] == i then MaxCall(ops, q)
    else Point(ops, q[..|q| - 1], i)
  }

  ghost predicate Timely(ops: seq<KvOp>) {
    forall i :: 0 <= i < |ops| ==> ops[i].call <= ops[i].ret
  }

  lemma {:induction false} MaxCallBounds(ops: seq<KvOp>, q: seq<nat>, j: nat)
    requires InRange(ops, q) && q != [] && j < |q|
    ensures ops[q[j]].call <= MaxCall(ops, q)
    ensures exists i :: 0 <= i < |q| && MaxCall(ops, q) == ops[q[i]].call
  {
    var r := q[..|q| - 1];
    if r != [] {
      MaxCallBounds(ops, r, if j < |r| then j else 0);
      var i :| 0 <= i < |r| && MaxCall(ops, r) == ops[r[i]].call;
      assert q[i] == r[i];
    } else {
      assert MaxCall(ops, q) == ops[q[0]].call;
    }
  }

  /** Every operation takes effect between its call and its return, and along q the points do not go back. */
  lemma {:induction false} PointsFit(ops: seq<KvOp>, q: seq<nat>)
    requires Timely(ops) && Ids(q, |ops|) && RespectsTime(ops, q)
    ensures forall i :: 0 <= i < |q| ==> ops[q[i]].call <= Point(ops, q, q[i]) <= ops[q[i]].ret
    ensures forall i :: 0 <= i < |q| ==> Point(ops, q, q[i]) <= MaxCall(ops, q)
    ensures forall i, j :: 0 <= i < j < |q| ==> Point(ops, q, q[i]) <= Point(ops, q, q[j])
  {
    if q != [] {
      var r, x := q[..|q| - 1], q[|q| - 1];
      PointsFit(ops, r);
      MaxCallBounds(ops, q, |q| - 1);
      forall i | 0 <= i < |r|
        ensures q[i] == r[i] && Point(ops, q, q[i]) == Point(ops, r, r[i])
      {
      }
    }
  }

  /** Both orders into one, earlier points first. */
  function Merge(a: seq<nat>, b: seq<nat>, point: nat -> int): (m: seq<nat>)
    ensures multiset(m) == multiset(a) + multiset(b)
  {
    if a == [] then b
    else if b == [] then a
    else if point(a[|a| - 1]) > point(b[|b| - 1]) then
      assert a == a[..|a| - 1] + [a[|a| - 1]];
      Merge(a[..|a| - 1], b, point) + [a[|a| - 1]]
    else
      assert b == b[..|b| - 1] + [b[|b| - 1]];
      Merge(a, b[..|b| - 1], point) + [b[|b| - 1]]
  }

  ghost predicate Ascending(p: seq<nat>, point: nat -> int) {
    forall i, j :: 0 <= i < j < |p| ==> point(p[i]) <= point(p[j])
  }

  lemma MergeMembers(a: seq<nat>, b: seq<nat>, point: nat -> int, x: nat)
    ensures x in Merge(a, b, point) <==> x in a || x in b
  {
    assert x in Merge(a, b, point) <==> x in multiset(Merge(a, b, point));
  }

  lemma {:induction false} MergeAscending(a: seq<nat>, b: seq<nat>, point: nat -> int)
    requires Ascending(a, point) && Ascending(b, point)
    ensures Ascending(Merge(a, b, point), point)
    decreases |a| + |b|
  {
    hide Merge;
    if a == [] || b == [] {
      MergeEnds(a, b, point);
    } else {
      MergeStep(a, b, point);
      if point(a[|a| - 1]) > point(b[|b| - 1]) {
        MergeAscending(a[..|a| - 1], b, point);
        MergeBelow(a[..|a| - 1], b, point, point(a[|a| - 1]));
      } else {
        MergeAscending(a, b[..|b| - 1], point);
        MergeBelow(a, b[..|b| - 1], point, point(b[|b| - 1]));
      }
    }
  }

  lemma MergeEnds(a: seq<nat>, b: seq<nat>, point: nat -> int)
    requires a == [] || b == []
    ensures Merge(a, b, point) == if a == [] then b else a
  {
  }

  /** The last of the merged order is the last of the order that ends later. */
  lemma MergeStep(a: seq<nat>, b: seq<nat>, point: nat -> int)
    requires a != [] && b != []
    ensures Merge(a, b, point) ==
            if point(a[|a| - 1]) > point(b[|b| - 1]) then Merge(a[..|a| - 1], b, point) + [a[|a| - 1]]
            else Merge(a, b[..|b| - 1], point) + [b[|b| - 1]]
  {
  }

  lemma MergeBelow(a: seq<nat>, b: seq<nat>, point: nat -> int, bound: int)
    requires (forall i :: 0 <= i < |a| ==> point(a[i]) <= bound) && (forall i :: 0 <= i < |b| ==> point(b[i]) <= bound)
    ensures forall i :: 0 <= i < |Merge(a, b, point)| ==> point(Merge(a, b, point)[i]) <= bound
  {
    hide Merge;
    var m := Merge(a, b, point);
    forall i | 0 <= i < |m|
      ensures point(m[i]) <= bound
    {
      MergeMembers(a, b, point, m[i]);
    }
  }

  lemma OnKeySnoc(ops: seq<KvOp>, p: seq<nat>, x: nat, k: Key)
    requires InRange(ops, p) && x < |ops|
    ensures OnKey(ops, p + [x], k) == OnKey(ops, p, k) + if ops[x].input.key == k then [x] else []
  {
    assert (p + [x])[..|p|] == p;
  }

  /** Merging changes nothing on a key that only one of the two orders has. */
  lemma {:induction false} MergeOnKey(ops: seq<KvOp>, a: seq<nat>, b: seq<nat>, point: nat -> int, k: Key)
    requires InRange(ops, a) && InRange(ops, b)
    ensures InRange(ops, Merge(a, b, point))
    ensures OnKey(ops, a, k) == [] ==> OnKey(ops, Merge(a, b, point), k) == OnKey(ops, b, k)
    ensures OnKey(ops, b, k) == [] ==> OnKey(ops, Merge(a, b, point), k) == OnKey(ops, a, k)
    decreases |a| + |b|
  {
    hide Merge, OnKey;
    if a == [] || b == [] {
      MergeEnds(a, b, point);
      OnNothing(ops, k);
    } else {
      MergeStep(a, b, point);
      var a', x, b', y := a[..|a| - 1], a[|a| - 1], b[..|b| - 1], b[|b| - 1];
      assert a == a' + [x] && b == b' + [y];
      OnKeySnoc(ops, a', x, k);
      OnKeySnoc(ops, b', y, k);
      if point(x) > point(y) {
        MergeOnKey(ops, a', b, point, k);
        OnKeySnoc(ops, Merge(a', b, point), x, k);
      } else {
        MergeOnKey(ops, a, b', point, k);
        OnKeySnoc(ops, Merge(a, b', point), y, k);
      }
    }
  }

  lemma OnNothing(ops: seq<KvOp>, k: Key)
    ensures OnKey(ops, [], k) == []
  {
  }

  lemma {:induction false} OnOwnKey(ops: seq<KvOp>, q: seq<nat>, k: Key, k': Key)
    requires InRange(ops, q) && forall i :: 0 <= i < |q| ==> ops[q[i]].input.key == k
    ensures OnKey(ops, q, k') == if k' == k then q else []
  {
    hide OnKey;
    if q == [] {
      OnNothing(ops, k');
    } else {
      var r, x := q[..|q| - 1], q[|q| - 1];
      OnOwnKey(ops, r, k, k');
      OnKeySnoc(ops, r, x, k');
      assert q == r + [x];
    }
  }

  /** One order for each key, all of them legal. */
  ghost predicate KeyOrders(ops: seq<KvOp>, orders: map<Key, seq<nat>>) {
    && (forall k :: k in orders ==> KeyOrder(ops, k, orders[k]))
    && (forall i :: 0 <= i < |ops| ==> ops[i].input.key in orders)
  }

  ghost function PointIn(ops: seq<KvOp>, orders: map<Key, seq<nat>>): nat -> int
    requires KeyOrders(ops, orders)
  {
    (i: nat) => if i < |ops| then Point(ops, orders[ops[i].input.key], i) else 0
  }

  /** The orders of the keys in ks, merged. */
  ghost predicate Merged(ops: seq<KvOp>, orders: map<Key, seq<nat>>, ks: set<Key>, g: seq<nat>)
    requires KeyOrders(ops, orders)
  {
    && Ids(g, |ops|)
    && Ascending(g, PointIn(ops, orders))
    && (forall i: nat :: i in g <==> i < |ops| && ops[i].input.key in ks)
    && (forall k :: k in ks ==> k in orders && OnKey(ops, g, k) == orders[k])
    && (forall k :: k !in ks ==> OnKey(ops, g, k) == [])
  }

  lemma OrderAscends(ops: seq<KvOp>, orders: map<Key, seq<nat>>, k: Key)
    requires Timely(ops) && KeyOrders(ops, orders) && k in orders
    ensures Ascending(orders[k], PointIn(ops, orders))
    ensures Ids(orders[k], |ops|)
    ensures forall i: nat :: i in orders[k] <==> i < |ops| && ops[i].input.key == k
  {
    var q := orders[k];
    assert KeyOrder(ops, k, q);
    PointsFit(ops, q);
    assert forall i: nat :: i in q <==> i in Elements(q);
  }

  lemma MergeOneMore(ops: seq<KvOp>, orders: map<Key, seq<nat>>, ks: set<Key>, k: Key, g: seq<nat>)
    requires Timely(ops) && KeyOrders(ops, orders) && k in orders && k !in ks
    requires Merged(ops, orders, ks, g)
    ensures Merged(ops, orders, ks + {k}, Merge(g, orders[k], PointIn(ops, orders)))
  {
    hide KeyOrder, KeyOrders, Ascending, PointIn, Merge, OnKey;
    var q, point := orders[k], PointIn(ops, orders);
    var m := Merge(g, q, point);
    OrderAscends(ops, orders, k);
    MergeAscending(g, q, point);
    forall i: nat
      ensures i in m <==> i < |ops| && ops[i].input.key in ks + {k}
    {
      MergeMembers(g, q, point, i);
    }
    MergeDistinct(g, q, point, |ops|);
    forall k'
      ensures OnKey(ops, m, k') == if k' == k then q else OnKey(ops, g, k')
    {
      OnOwnKey(ops, q, k, k');
      MergeOnKey(ops, g, q, point, k');
    }
  }

  lemma MergedEmpty(ops: seq<KvOp>, orders: map<Key, seq<nat>>)
    requires KeyOrders(ops, orders)
    ensures Merged(ops, orders, {}, [])
  {
  }

  lemma MergeDistinct(a: seq<nat>, b: seq<nat>, point: nat -> int, n: nat)
    requires Ids(a, n) && Ids(b, n) && forall x :: x in a ==> x !in b
    ensures Ids(Merge(a, b, point), n)
  {
    var m := Merge(a, b, point);
    NoRepeatsCounts(a);
    NoRepeatsCounts(b);
    forall x | x in m
      ensures multiset(m)[x] <= 1
      ensures x < n
    {
      MergeMembers(a, b, point, x);
      assert x in multiset(a) ==> x in a;
      assert x in multiset(b) ==> x in b;
    }
    CountsNoRepeats(m);
    assert forall k :: 0 <= k < |m| ==> m[k] in m;
  }

  lemma {:induction false} MergeKeys(ops: seq<KvOp>, orders: map<Key, seq<nat>>, ks: set<Key>) returns (g: seq<nat>)
    requires Timely(ops) && KeyOrders(ops, orders) && ks <= orders.Keys
    ensures Merged(ops, orders, ks, g)
    decreases ks
  {
    hide KeyOrders, Merged;
    if ks == {} {
      g := [];
      MergedEmpty(ops, orders);
    } else {
      var k :| k in ks;
      var g' := MergeKeys(ops, orders, ks - {k});
      MergeOneMore(ops, orders, ks - {k}, k, g');
      g := Merge(g', orders[k], PointIn(ops, orders));
      assert ks - {k} + {k} == ks;
    }
  }

  /** The merged order respects time: every operation sits at a point between its call and its return. */
  lemma MergedRespectsTime(ops: seq<KvOp>, orders: map<Key, seq<nat>>, g: seq<nat>)
    requires Timely(ops) && KeyOrders(ops, orders) && Merged(ops, orders, orders.Keys, g)
    ensures RespectsTime(ops, g)
  {
    hide KeyOrders, PointIn, OnKey;
    forall i: nat | i < |ops|
      ensures ops[i].call <= PointIn(ops, orders)(i) <= ops[i].ret
    {
      PointFits(ops, orders, i);
    }
  }

  lemma PointFits(ops: seq<KvOp>, orders: map<Key, seq<nat>>, i: nat)
    requires Timely(ops) && KeyOrders(ops, orders) && i < |ops|
    ensures ops[i].call <= PointIn(ops, orders)(i) <= ops[i].ret
  {
    hide Point, Replay;
    var q := orders[ops[i].input.key];
    assert KeyOrder(ops, ops[i].input.key, q);
    assert i in Elements(q);
    PointsFit(ops, q);
  }

  lemma KeysGiveWhole(ops: seq<KvOp>, orders: map<Key, seq<nat>>) returns (g: seq<nat>)
    requires Timely(ops) && KeyOrders(ops, orders)
    ensures Linearization(STORE, ops, g)
  {
    g := MergeKeys(ops, orders, orders.Keys);
    MergedRespectsTime(ops, orders, g);
    forall k: Key
      ensures Replay(KV, ops, OnKey(ops, g, k)).Some?
    {
      if k in orders {
        assert KeyOrder(ops, k, orders[k]);
      }
    }
    StoreRunIsKeyRuns(ops, g);
    forall i: nat | i < |ops|
      ensures i in Elements(g)
    {
      assert i in g;
    }
    ElementsCardinality(g, |ops|);
    PermutationCovers(g, |ops|);
    AtLeast(Elements(g), |ops|);
  }

  /** The whole history is linearizable exactly when the operations on each key are. */
  lemma WholeIffKeys(ops: seq<KvOp>)
    requires Timely(ops)
    ensures Linearizable(STORE, ops) <==> forall k: Key :: KeyLinearizable(ops, k)
  {
    if Linearizable(STORE, ops) {
      var p :| Linearization(STORE, ops, p);
      forall k: Key
        ensures KeyLinearizable(ops, k)
      {
        WholeGivesKeys(ops, p, k);
      }
    }
    if forall k: Key :: KeyLinearizable(ops, k) {
      var keys := set i | 0 <= i < |ops| :: ops[i].input.key;
      var orders := map k | k in keys :: OrderOf(ops, k);
      var g := KeysGiveWhole(ops, orders);
    }
  }
}
