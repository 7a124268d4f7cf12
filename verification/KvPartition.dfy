/**
 The Partition function of the key/value model (models/kv.go:20-36): one
 sub-history for each key.
 */
module KvPartition {
  import opened History
  import opened KvModel
  import opened Locality
  import opened Seqs
  import Sorting

  /** The operations of a history on key k, in order. */
  function SubHistory(history: seq<KvOp>, k: Key): seq<KvOp> {
    if history == [] then [] else
    var rest, op := SubHistory(history[..|history| - 1], k), history[|history| - 1];
    if op.input.key == k then rest + [op] else rest
  }

  ghost predicate HasKey(history: seq<KvOp>, k: Key) {
    exists i :: 0 <= i < |history| && history[i].input.key == k
  }

  /** keys lists the keys of the history, each once and in order. */
  ghost predicate KeysOf(history: seq<KvOp>, keys: seq<Key>) {
    && NoRepeats(keys)
    && Sorting.Sorted(keys, Sorting.Less)
    && forall k :: k in keys <==> HasKey(history, k)
  }

  /** What the map of the loop holds after reading a history. */
  ghost predicate Grouped(history: seq<KvOp>, m: map<Key, seq<KvOp>>) {
    forall k :: (k in m <==> HasKey(history, k)) && (k in m ==> m[k] == SubHistory(history, k))
  }

  lemma {:induction false} SubHistoryEmpty(history: seq<KvOp>, k: Key)
    requires !HasKey(history, k)
    ensures SubHistory(history, k) == []
  {
    if history != [] {
      var rest := history[..|history| - 1];
      assert HasKey(rest, k) ==> HasKey(history, k);
      SubHistoryEmpty(rest, k);
    }
  }

  lemma {:induction false} GroupOne(history: seq<KvOp>, op: KvOp, m: map<Key, seq<KvOp>>)
    requires Grouped(history, m)
    ensures Grouped(history + [op], m[op.input.key := (if op.input.key in m then m[op.input.key] else []) + [op]])
  {
    var more, key := history + [op], op.input.key;
    assert more[..|history|] == history;
    forall k
      ensures HasKey(more, k) <==> k == key || HasKey(history, k)
    {
      if HasKey(history, k) {
        var i :| 0 <= i < |history| && history[i].input.key == k;
        assert more[i].input.key == k;
      }
      assert more[|history|].input.key == key;
      if HasKey(more, k) && k != key {
        var i :| 0 <= i < |more| && more[i].input.key == k;
        assert history[i].input.key == k;
      }
    }
    if key !in m {
      SubHistoryEmpty(history, key);
    }
  }

  method Partition(history: seq<KvOp>) returns (parts: seq<seq<KvOp>>, ghost keys: seq<Key>)
    ensures KeysOf(history, keys)
    ensures |parts| == |keys| && forall i :: 0 <= i < |keys| ==> parts[i] == SubHistory(history, keys[i])
  {
    var m: map<Key, seq<KvOp>> := map[];
    for i := 0 to |history|
      invariant Grouped(history[..i], m)
    {
      var v := history[i];
      var key := v.input.key;
      GroupOne(history[..i], v, m);
      assert history[..i + 1] == history[..i] + [v];
      m := m[key := (if key in m then m[key] else []) + [v]];
    }
    assert history[..|history|] == history;
    var found := ListKeys(m);
    Sorting.LessIsOrdering();
    var sorted := Sorting.Sort(found, Sorting.Less);
    SameMembers(found, sorted);
    keys := sorted;
    parts := [];
    for i := 0 to |sorted|
      invariant |parts| == i && forall j :: 0 <= j < i ==> parts[j] == SubHistory(history, sorted[j])
    {
      assert sorted[i] in m;
      parts := parts + [m[sorted[i]]];
    }
  }

  /** The keys of a map, in whatever order `range` yields them. */
  method ListKeys(m: map<Key, seq<KvOp>>) returns (keys: seq<Key>)
    ensures NoRepeats(keys) && forall k :: k in keys <==> k in m
  {
    keys := [];
    var left := m.Keys;
    while left != {}
      invariant left <= m.Keys
      invariant NoRepeats(keys) && forall k :: k in keys <==> k in m && k !in left
      decreases left
    {
      var k :| k in left;
      keys, left := keys + [k], left - {k};
    }
  }

  // ----- A sub-history is linearizable exactly when the operations on its key are

  function Numbers(n: nat): (s: seq<nat>)
    ensures |s| == n && forall i :: 0 <= i < n ==> s[i] == i
  {
    seq(n, i => i)
  }

  /** sub is the operations of ops listed by idx. */
  ghost predicate Picks(ops: seq<KvOp>, idx: seq<nat>, sub: seq<KvOp>) {
    && |sub| == |idx|
    && Ids(idx, |ops|)
    && forall j :: 0 <= j < |sub| ==> sub[j] == ops[idx[j]]
  }

  lemma {:induction false} SubHistoryPicks(ops: seq<KvOp>, k: Key, n: nat)
    requires n <= |ops|
    ensures Picks(ops, OnKey(ops, Numbers(n), k), SubHistory(ops[..n], k))
  {
    OnKeyMembers(ops, Numbers(n), k);
    if n > 0 {
      SubHistoryPicks(ops, k, n - 1);
      assert ops[..n][..n - 1] == ops[..n - 1];
      assert Numbers(n)[..n - 1] == Numbers(n - 1);
    }
  }

  function Through(idx: seq<nat>, p: seq<nat>): (q: seq<nat>)
    requires forall i :: 0 <= i < |p| ==> p[i] < |idx|
    ensures |q| == |p| && forall i :: 0 <= i < |p| ==> q[i] == idx[p[i]]
  {
    seq(|p|, i requires 0 <= i < |p| => idx[p[i]])
  }

  lemma {:induction false} ReplayThrough<S>(
    m: Model<S, KvInput, KvOutput>, ops: seq<KvOp>, idx: seq<nat>, sub: seq<KvOp>, p: seq<nat>)
    requires Picks(ops, idx, sub) && forall i :: 0 <= i < |p| ==> p[i] < |sub|
    ensures Replay(m, sub, p) == Replay(m, ops, Through(idx, p))
  {
    if p != [] {
      ReplayThrough(m, ops, idx, sub, p[..|p| - 1]);
      assert Through(idx, p)[..|p| - 1] == Through(idx, p[..|p| - 1]);
    }
  }

  lemma {:induction false} OrderThrough(ops: seq<KvOp>, idx: seq<nat>, sub: seq<KvOp>, p: seq<nat>)
    requires Picks(ops, idx, sub) && forall i :: 0 <= i < |p| ==> p[i] < |sub|
    ensures RespectsTime(sub, p) <==> RespectsTime(ops, Through(idx, p))
    ensures Ids(p, |sub|) <==> Ids(Through(idx, p), |ops|)
  {
    var q := Through(idx, p);
    forall j, k | 0 <= j < k < |p|
      ensures Precedes(sub, p[k], p[j]) <==> Precedes(ops, q[k], q[j])
      ensures p[j] == p[k] <==> q[j] == q[k]
    {
    }
  }

  ghost function IndexOf(idx: seq<nat>, x: nat): (j: nat)
    requires x in idx
    ensures j < |idx| && idx[j] == x
  {
    var j :| 0 <= j < |idx| && idx[j] == x;
    j
  }

  lemma {:induction false} SubToKey(ops: seq<KvOp>, k: Key, idx: seq<nat>, sub: seq<KvOp>, p: seq<nat>)
    requires Picks(ops, idx, sub)
    requires forall i: nat :: i in Elements(idx) <==> i < |ops| && ops[i].input.key == k
    requires Linearization(KV, sub, p)
    ensures KeyOrder(ops, k, Through(idx, p))
  {
    var q := Through(idx, p);
    ReplayThrough(KV, ops, idx, sub, p);
    OrderThrough(ops, idx, sub, p);
    PermutationCovers(p, |sub|);
    forall i: nat
      ensures i in Elements(q) <==> i in Elements(idx)
    {
      if i in Elements(idx) {
        var j := IndexOf(idx, i);
        assert j in Elements(p);
        var t := IndexOf(p, j);
        assert q[t] == i;
      }
      if i in Elements(q) {
        var t := IndexOf(q, i);
        assert idx[p[t]] == i;
      }
    }
  }

  lemma {:induction false} KeyToSub(ops: seq<KvOp>, k: Key, idx: seq<nat>, sub: seq<KvOp>, q: seq<nat>)
    requires Picks(ops, idx, sub)
    requires forall i: nat :: i in Elements(idx) <==> i < |ops| && ops[i].input.key == k
    requires KeyOrder(ops, k, q)
    ensures Linearizable(KV, sub)
  {
    assert forall i: nat :: i in Elements(idx) <==> i in idx;
    assert forall t :: 0 <= t < |q| ==> q[t] in Elements(q);
    var p := seq(|q|, t requires 0 <= t < |q| => IndexOf(idx, q[t]));
    assert Through(idx, p) == q;
    ReplayThrough(KV, ops, idx, sub, p);
    OrderThrough(ops, idx, sub, p);
    ElementsCardinality(q, |ops|);
    ElementsCardinality(idx, |ops|);
    assert Elements(q) == Elements(idx);
    assert Linearization(KV, sub, p);
  }

  lemma SubHistoryDecides(ops: seq<KvOp>, k: Key)
    ensures Linearizable(KV, SubHistory(ops, k)) <==> KeyLinearizable(ops, k)
  {
    var idx, sub := OnKey(ops, Numbers(|ops|), k), SubHistory(ops, k);
    assert ops[..|ops|] == ops;
    SubHistoryPicks(ops, k, |ops|);
    OnKeyMembers(ops, Numbers(|ops|), k);
    forall i: nat
      ensures i in Elements(Numbers(|ops|)) <==> i < |ops|
    {
      if i < |ops| {
        assert Numbers(|ops|)[i] == i;
      }
    }
    if Linearizable(KV, sub) {
      var p :| Linearization(KV, sub, p);
      SubToKey(ops, k, idx, sub, p);
    }
    if KeyLinearizable(ops, k) {
      var q :| KeyOrder(ops, k, q);
      KeyToSub(ops, k, idx, sub, q);
    }
  }

  /**
   Locality: the history is linearizable against the whole store exactly when
   every sub-history that Partition makes is linearizable against one key's value.
   */
  lemma PartitionDecides(history: seq<KvOp>, keys: seq<Key>)
    requires Timely(history) && KeysOf(history, keys)
    ensures Linearizable(STORE, history) <==>
            forall i :: 0 <= i < |keys| ==> Linearizable(KV, SubHistory(history, keys[i]))
  {
    WholeIffKeys(history);
    forall k: Key
      ensures Linearizable(KV, SubHistory(history, k)) <==> KeyLinearizable(history, k)
      ensures k !in keys ==> Linearizable(KV, SubHistory(history, k))
    {
      SubHistoryDecides(history, k);
      if k !in keys {
        SubHistoryEmpty(history, k);
        assert Linearization(KV, [], []);
      }
    }
    if forall i :: 0 <= i < |keys| ==> Linearizable(KV, SubHistory(history, keys[i])) {
      forall k: Key
        ensures KeyLinearizable(history, k)
      {
        if k in keys {
          var i :| 0 <= i < |keys| && keys[i] == k;
        }
        assert Linearizable(KV, SubHistory(history, k));
      }
    }
  }
}
