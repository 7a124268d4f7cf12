/**
 The data that a MapReduce job moves (mr/worker.go:134-281), against the program
 that does the same job in one process (main/mrsequential.go:36-89).
 */
module MapReduce {
  import opened Seqs
  import Sorting

  datatype KeyValue = KeyValue(key: string, value: string)

  /** A line of output before it is printed: a key and what Reduce made of its values. */
  type Result = (string, string)

  type Reducer = (string, seq<string>) -> string

  /** Reduce may look at its values in any order. */
  ghost predicate OrderFree(reducef: Reducer) {
    forall k, v, w :: multiset(v) == multiset(w) ==> reducef(k, v) == reducef(k, w)
  }

  predicate ByKey(a: KeyValue, b: KeyValue) {
    Sorting.Less(a.key, b.key)
  }

  // ----- Keys, values and buckets

  function ValuesOf(kvs: seq<KeyValue>, k: string): seq<string> {
    if kvs == [] then [] else
    var rest, kv := ValuesOf(kvs[..|kvs| - 1], k), kvs[|kvs| - 1];
    if kv.key == k then rest + [kv.value] else rest
  }

  ghost predicate HasKey(kvs: seq<KeyValue>, k: string) {
    exists i :: 0 <= i < |kvs| && kvs[i].key == k
  }

  /** ihash(key) % nReduce + 1, for whatever hash function. */
  function BucketOf(hash: string -> nat, nReduce: nat, k: string): nat
    requires nReduce > 0
  {
    hash(k) % nReduce + 1
  }

  /** The bucket, counted from 1, is what is left of the hash after whole rounds of nReduce. */
  lemma BucketIsRemainder(hash: string -> nat, nReduce: nat, k: string) returns (rounds: nat)
    requires nReduce > 0
    ensures 1 <= BucketOf(hash, nReduce, k) <= nReduce && hash(k) == rounds * nReduce + BucketOf(hash, nReduce, k) - 1
  {
    rounds := hash(k) / nReduce;
  }

  /** The pairs of kvs that belong to bucket y, in order. */
  function InBucket(kvs: seq<KeyValue>, hash: string -> nat, nReduce: nat, y: nat): seq<KeyValue>
    requires nReduce > 0
  {
    if kvs == [] then [] else
    var rest, kv := InBucket(kvs[..|kvs| - 1], hash, nReduce, y), kvs[|kvs| - 1];
    if BucketOf(hash, nReduce, kv.key) == y then rest + [kv] else rest
  }

  /** The bucketing loop of doMap: regionMap holds the buckets that got something. */
  method Regions(kvs: seq<KeyValue>, hash: string -> nat, nReduce: nat) returns (regions: map<nat, seq<KeyValue>>)
    requires nReduce > 0
    ensures forall y :: y in regions <==> InBucket(kvs, hash, nReduce, y) != []
    ensures forall y :: y in regions ==> 1 <= y <= nReduce && regions[y] == InBucket(kvs, hash, nReduce, y)
  {
    regions := map[];
    for i := 0 to |kvs|
      invariant forall y :: y in regions <==> InBucket(kvs[..i], hash, nReduce, y) != []
      invariant forall y :: y in regions ==> 1 <= y <= nReduce && regions[y] == InBucket(kvs[..i], hash, nReduce, y)
    {
      var y := hash(kvs[i].key) % nReduce + 1;
      regions := regions[y := (if y in regions then regions[y] else []) + [kvs[i]]];
      assert kvs[..i + 1][..i] == kvs[..i];
    }
    assert kvs[..|kvs|] == kvs;
  }

  lemma {:induction false} InBucketRange(kvs: seq<KeyValue>, hash: string -> nat, nReduce: nat, y: nat)
    requires nReduce > 0
    ensures InBucket(kvs, hash, nReduce, y) != [] ==> 1 <= y <= nReduce
  {
    if kvs != [] {
      InBucketRange(kvs[..|kvs| - 1], hash, nReduce, y);
    }
  }

  // ----- Grouping a sorted sequence

  /** How many pairs from position i on have the key at i. */
  function RunEnd(kvs: seq<KeyValue>, i: nat, j: nat): (e: nat)
    requires i < j <= |kvs|
    ensures j <= e <= |kvs|
    ensures forall t :: j <= t < e ==> kvs[t].key == kvs[i].key
    ensures e < |kvs| ==> kvs[e].key != kvs[i].key
    decreases |kvs| - j
  {
    if j < |kvs| && kvs[j].key == kvs[i].key then RunEnd(kvs, i, j + 1) else j
  }

  function ValuesIn(kvs: seq<KeyValue>, i: nat, j: nat): seq<string>
    requires i <= j <= |kvs|
  {
    seq(j - i, t requires 0 <= t < j - i => kvs[i + t].value)
  }

  /** One result for each run of equal keys. */
  function Grouped(kvs: seq<KeyValue>, reducef: Reducer, i: nat): seq<Result>
    requires i <= |kvs|
    decreases |kvs| - i
  {
    if i == |kvs| then [] else
    var j := RunEnd(kvs, i, i + 1);
    [(kvs[i].key, reducef(kvs[i].key, ValuesIn(kvs, i, j)))] + Grouped(kvs, reducef, j)
  }

  /** The loop that doReduce and mrsequential share. */
  method GroupLoop(kvs: seq<KeyValue>, reducef: Reducer) returns (results: seq<Result>)
    ensures results == Grouped(kvs, reducef, 0)
  {
    hide Grouped, RunEnd, ValuesIn;
    results := [];
    var i := 0;
    while i < |kvs|
      invariant 0 <= i <= |kvs|
      invariant results + Grouped(kvs, reducef, i) == Grouped(kvs, reducef, 0)
      decreases |kvs| - i
    {
      var j := FindRunEnd(kvs, i);
      var values := CollectValues(kvs, i, j);
      var output := reducef(kvs[i].key, values);
      GroupedStep(kvs, reducef, i);
      Regroup(results, (kvs[i].key, output), Grouped(kvs, reducef, j));
      results := results + [(kvs[i].key, output)];
      i := j;
    }
    assert Grouped(kvs, reducef, i) == [] by {
      GroupedEnd(kvs, reducef);
    }
  }

  lemma GroupedEnd(kvs: seq<KeyValue>, reducef: Reducer)
    ensures Grouped(kvs, reducef, |kvs|) == []
  {
  }

  lemma GroupedStep(kvs: seq<KeyValue>, reducef: Reducer, i: nat)
    requires i < |kvs|
    ensures var j := RunEnd(kvs, i, i + 1);
            && i < j <= |kvs|
            && Grouped(kvs, reducef, i) == [(kvs[i].key, reducef(kvs[i].key, ValuesIn(kvs, i, j)))] + Grouped(kvs, reducef, j)
  {
  }

  lemma Regroup<T>(a: seq<T>, x: T, c: seq<T>)
    ensures a + ([x] + c) == (a + [x]) + c
  {
  }

  method FindRunEnd(kvs: seq<KeyValue>, i: nat) returns (j: nat)
    requires i < |kvs|
    ensures j == RunEnd(kvs, i, i + 1)
  {
    j := i + 1;
    while j < |kvs| && kvs[j].key == kvs[i].key
      invariant i < j <= |kvs| && RunEnd(kvs, i, i + 1) == RunEnd(kvs, i, j)
    {
      j := j + 1;
    }
  }

  method CollectValues(kvs: seq<KeyValue>, i: nat, j: nat) returns (values: seq<string>)
    requires i <= j <= |kvs|
    ensures values == ValuesIn(kvs, i, j)
  {
    values := [];
    for k := i to j
      invariant values == ValuesIn(kvs, i, k)
    {
      values := values + [kvs[k].value];
    }
  }

  // ----- What grouping a sorted sequence gives

  /** Each key of kvs once, with what Reduce makes of all its values. */
  ghost predicate Reduces(results: seq<Result>, kvs: seq<KeyValue>, reducef: Reducer) {
    && NoRepeats(results)
    && forall r :: r in results <==> HasKey(kvs, r.0) && r.1 == reducef(r.0, ValuesOf(kvs, r.0))
  }

  ghost predicate KeysFrom(kvs: seq<KeyValue>, i: nat, k: string) {
    exists t :: i <= t < |kvs| && kvs[t].key == k
  }

  lemma {:induction false} ValuesOfApart(kvs: seq<KeyValue>, k: string)
    requires !HasKey(kvs, k)
    ensures ValuesOf(kvs, k) == []
  {
    if kvs != [] {
      assert HasKey(kvs[..|kvs| - 1], k) ==> HasKey(kvs, k);
      ValuesOfApart(kvs[..|kvs| - 1], k);
    }
  }

  lemma {:induction false} ValuesOfConcat(a: seq<KeyValue>, b: seq<KeyValue>, k: string)
    ensures ValuesOf(a + b, k) == ValuesOf(a, k) + ValuesOf(b, k)
  {
    if b == [] {
      assert a + b == a;
    } else {
      var b' := b[..|b| - 1];
      ValuesOfConcat(a, b', k);
      assert (a + b)[..|a + b| - 1] == a + b';
    }
  }

  lemma {:induction false} ValuesOfRun(kvs: seq<KeyValue>, i: nat, j: nat, k: string)
    requires i <= j <= |kvs| && forall t :: i <= t < j ==> kvs[t].key == k
    ensures ValuesOf(kvs[i..j], k) == ValuesIn(kvs, i, j)
    decreases j - i
  {
    if i < j {
      ValuesOfRun(kvs, i, j - 1, k);
      assert kvs[i..j][..j - 1 - i] == kvs[i..j - 1];
    }
  }

  /** In a sorted sequence a key occurs in one run only. */
  lemma {:induction false} RunIsAlone(kvs: seq<KeyValue>, i: nat, j: nat)
    requires Sorting.Sorted(kvs, ByKey) && i < j <= |kvs|
    requires j == RunEnd(kvs, i, i + 1) && (i > 0 ==> kvs[i - 1].key != kvs[i].key)
    ensures !KeysFrom(kvs, j, kvs[i].key)
    ensures forall t :: 0 <= t < i ==> kvs[t].key != kvs[i].key
  {
    hide Sorting.Sorted, RunEnd;
    RunEndFacts(kvs, i);
    forall t | j <= t < |kvs|
      ensures kvs[t].key != kvs[i].key
    {
      Between(kvs, i, j, t);
    }
    forall t | 0 <= t < i
      ensures kvs[t].key != kvs[i].key
    {
      Between(kvs, t, i - 1, i);
    }
  }

  lemma RunEndFacts(kvs: seq<KeyValue>, i: nat)
    requires i < |kvs|
    ensures var j := RunEnd(kvs, i, i + 1);
            j < |kvs| ==> kvs[j].key != kvs[i].key
  {
  }

  /** Its values are those of the run. */
  lemma {:induction false} RunHoldsAll(kvs: seq<KeyValue>, i: nat, j: nat)
    requires i < j <= |kvs| && (forall t :: i <= t < j ==> kvs[t].key == kvs[i].key)
    requires !KeysFrom(kvs, j, kvs[i].key) && forall t :: 0 <= t < i ==> kvs[t].key != kvs[i].key
    ensures ValuesOf(kvs, kvs[i].key) == ValuesIn(kvs, i, j)
  {
    var k := kvs[i].key;
    assert !HasKey(kvs[..i], k);
    forall t | 0 <= t < |kvs[j..]|
      ensures kvs[j..][t].key != k
    {
      assert kvs[j..][t] == kvs[j + t];
    }
    ValuesOfApart(kvs[..i], k);
    ValuesOfApart(kvs[j..], k);
    ValuesOfConcat(kvs[..i], kvs[i..j], k);
    ValuesOfConcat(kvs[..j], kvs[j..], k);
    ValuesOfRun(kvs, i, j, k);
    assert kvs == kvs[..j] + kvs[j..] && kvs[..j] == kvs[..i] + kvs[i..j];
  }

  /** A key that comes back after another one would break the order. */
  lemma Between(kvs: seq<KeyValue>, a: nat, b: nat, c: nat)
    requires Sorting.Sorted(kvs, ByKey) && a <= b <= c < |kvs|
    ensures kvs[a].key == kvs[c].key ==> kvs[b].key == kvs[a].key
  {
    assert a < b ==> !ByKey(kvs[b], kvs[a]);
    assert b < c ==> !ByKey(kvs[c], kvs[b]);
    Sorting.LessTotal(kvs[a].key, kvs[b].key);
  }

  /** i is where a run begins. */
  ghost predicate Boundary(kvs: seq<KeyValue>, i: nat) {
    i <= |kvs| && (0 < i < |kvs| ==> kvs[i - 1].key != kvs[i].key)
  }

  lemma {:induction false} GroupedFrom(kvs: seq<KeyValue>, reducef: Reducer, i: nat)
    requires Sorting.Sorted(kvs, ByKey) && Boundary(kvs, i)
    ensures NoRepeats(Grouped(kvs, reducef, i))
    ensures forall r :: r in Grouped(kvs, reducef, i) <==> KeysFrom(kvs, i, r.0) && r.1 == reducef(r.0, ValuesOf(kvs, r.0))
    decreases |kvs| - i
  {
    if i < |kvs| {
      var j := RunEnd(kvs, i, i + 1);
      var rest := Grouped(kvs, reducef, j);
      RunIsAlone(kvs, i, j);
      RunHoldsAll(kvs, i, j);
      assert kvs[j - 1].key == kvs[i].key;
      GroupedFrom(kvs, reducef, j);
      var first := (kvs[i].key, reducef(kvs[i].key, ValuesIn(kvs, i, j)));
      assert Grouped(kvs, reducef, i) == [first] + rest;
      assert first !in rest;
      forall r: Result
        ensures KeysFrom(kvs, i, r.0) <==> r.0 == kvs[i].key || KeysFrom(kvs, j, r.0)
      {
        if KeysFrom(kvs, i, r.0) {
          var t :| i <= t < |kvs| && kvs[t].key == r.0;
          assert t >= j ==> KeysFrom(kvs, j, r.0);
        }
      }
    }
  }

  /** Keys in order, each once. */
  ghost predicate KeysAscend(results: seq<Result>) {
    forall i, j :: 0 <= i < j < |results| ==> Sorting.Less(results[i].0, results[j].0)
  }

  /** The results come in the order of their keys. */
  lemma {:induction false} GroupedAscends(kvs: seq<KeyValue>, reducef: Reducer, i: nat)
    requires Sorting.Sorted(kvs, ByKey) && Boundary(kvs, i)
    ensures KeysAscend(Grouped(kvs, reducef, i))
    decreases |kvs| - i
  {
    hide RunEnd, ValuesOf;
    if i < |kvs| {
      GroupedStep(kvs, reducef, i);
      var j := RunEnd(kvs, i, i + 1);
      var rest := Grouped(kvs, reducef, j);
      RunIsAlone(kvs, i, j);
      RunBoundary(kvs, i);
      GroupedAscends(kvs, reducef, j);
      GroupedFrom(kvs, reducef, j);
      forall t | 0 <= t < |rest|
        ensures Sorting.Less(kvs[i].key, rest[t].0)
      {
        assert rest[t] in rest;
        var u :| j <= u < |kvs| && kvs[u].key == rest[t].0;
        assert !ByKey(kvs[u], kvs[i]);
        Sorting.LessTotal(kvs[i].key, kvs[u].key);
      }
    } else {
      GroupedEnd(kvs, reducef);
    }
  }

  lemma RunBoundary(kvs: seq<KeyValue>, i: nat)
    requires i < |kvs|
    ensures Boundary(kvs, RunEnd(kvs, i, i + 1))
  {
    var j := RunEnd(kvs, i, i + 1);
    assert kvs[j - 1].key == kvs[i].key;
  }

  lemma GroupedReduces(kvs: seq<KeyValue>, reducef: Reducer)
    requires Sorting.Sorted(kvs, ByKey)
    ensures Reduces(Grouped(kvs, reducef, 0), kvs, reducef)
  {
    GroupedFrom(kvs, reducef, 0);
    assert forall k :: KeysFrom(kvs, 0, k) <==> HasKey(kvs, k);
  }

  // ----- Any order of the same pairs gives the same results

  lemma {:induction false} ValuesCounted(kvs: seq<KeyValue>, k: string, v: string)
    ensures multiset(ValuesOf(kvs, k))[v] == multiset(kvs)[KeyValue(k, v)]
  {
    if kvs != [] {
      var rest, kv := kvs[..|kvs| - 1], kvs[|kvs| - 1];
      ValuesCounted(rest, k, v);
      assert kvs == rest + [kv];
    }
  }

  lemma SamePairsSameValues(a: seq<KeyValue>, b: seq<KeyValue>, k: string)
    requires multiset(a) == multiset(b)
    ensures HasKey(a, k) <==> HasKey(b, k)
    ensures multiset(ValuesOf(a, k)) == multiset(ValuesOf(b, k))
  {
    SameMembers(a, b);
    forall i | 0 <= i < |a| && a[i].key == k
      ensures HasKey(b, k)
    {
      assert a[i] in b;
    }
    forall i | 0 <= i < |b| && b[i].key == k
      ensures HasKey(a, k)
    {
      assert b[i] in a;
    }
    forall v
      ensures multiset(ValuesOf(a, k))[v] == multiset(ValuesOf(b, k))[v]
    {
      ValuesCounted(a, k, v);
      ValuesCounted(b, k, v);
    }
  }

  lemma SamePairsSameResults(results: seq<Result>, a: seq<KeyValue>, b: seq<KeyValue>, reducef: Reducer)
    requires OrderFree(reducef) && multiset(a) == multiset(b) && Reduces(results, a, reducef)
    ensures Reduces(results, b, reducef)
  {
    forall k
      ensures HasKey(a, k) <==> HasKey(b, k)
      ensures reducef(k, ValuesOf(a, k)) == reducef(k, ValuesOf(b, k))
    {
      SamePairsSameValues(a, b, k);
    }
  }

  // ----- The tasks

  function Flatten<T>(s: seq<seq<T>>): seq<T> {
    if s == [] then [] else Flatten(s[..|s| - 1]) + s[|s| - 1]
  }

  lemma ByKeyIsOrdering()
    ensures Sorting.Ordering(ByKey)
  {
    Sorting.LessIsOrdering();
  }

  /** doReduce: read the files of a bucket, sort, group. */
  method ReduceTask(files: seq<seq<KeyValue>>, reducef: Reducer) returns (results: seq<Result>, ghost sorted: seq<KeyValue>)
    ensures Sorting.Sorted(sorted, ByKey) && multiset(sorted) == multiset(Flatten(files))
    ensures results == Grouped(sorted, reducef, 0) && KeysAscend(results)
    ensures OrderFree(reducef) ==> Reduces(results, Flatten(files), reducef)
  {
    var keyVals := [];
    for i := 0 to |files|
      invariant keyVals == Flatten(files[..i])
    {
      keyVals := keyVals + files[i];
      assert files[..i + 1][..i] == files[..i];
    }
    assert files[..|files|] == files;
    ByKeyIsOrdering();
    var inOrder := Sorting.Sort(keyVals, ByKey);
    sorted := inOrder;
    results := GroupLoop(inOrder, reducef);
    GroupedReduces(inOrder, reducef);
    GroupedAscends(inOrder, reducef, 0);
    if OrderFree(reducef) {
      SamePairsSameResults(results, inOrder, keyVals, reducef);
    }
  }

  /** mrsequential: everything in one place. docs[x] is what Map made of input x. */
  method Sequential(docs: seq<seq<KeyValue>>, reducef: Reducer) returns (results: seq<Result>, ghost sorted: seq<KeyValue>)
    ensures Sorting.Sorted(sorted, ByKey) && multiset(sorted) == multiset(Flatten(docs))
    ensures results == Grouped(sorted, reducef, 0) && KeysAscend(results)
    ensures OrderFree(reducef) ==> Reduces(results, Flatten(docs), reducef)
  {
    var intermediate := [];
    for x := 0 to |docs|
      invariant intermediate == Flatten(docs[..x])
    {
      intermediate := intermediate + docs[x];
      assert docs[..x + 1][..x] == docs[..x];
    }
    assert docs[..|docs|] == docs;
    ByKeyIsOrdering();
    var inOrder := Sorting.Sort(intermediate, ByKey);
    sorted := inOrder;
    results := GroupLoop(inOrder, reducef);
    GroupedReduces(inOrder, reducef);
    GroupedAscends(inOrder, reducef, 0);
    if OrderFree(reducef) {
      SamePairsSameResults(results, inOrder, intermediate, reducef);
    }
  }

  // ----- The files of a bucket

  /** order lists, each once, the inputs that wrote a file for bucket y. */
  ghost predicate FilesOf(docs: seq<seq<KeyValue>>, hash: string -> nat, nReduce: nat, y: nat, order: seq<nat>)
    requires nReduce > 0
  {
    && NoRepeats(order)
    && forall x: nat :: x in order <==> x < |docs| && InBucket(docs[x], hash, nReduce, y) != []
  }

  ghost function Contents(docs: seq<seq<KeyValue>>, hash: string -> nat, nReduce: nat, y: nat, order: seq<nat>): seq<seq<KeyValue>>
    requires nReduce > 0 && forall t :: 0 <= t < |order| ==> order[t] < |docs|
  {
    seq(|order|, t requires 0 <= t < |order| => InBucket(docs[order[t]], hash, nReduce, y))
  }

  lemma {:induction false} InBucketConcat(a: seq<KeyValue>, b: seq<KeyValue>, hash: string -> nat, nReduce: nat, y: nat)
    requires nReduce > 0
    ensures InBucket(a + b, hash, nReduce, y) == InBucket(a, hash, nReduce, y) + InBucket(b, hash, nReduce, y)
  {
    if b == [] {
      assert a + b == a;
    } else {
      InBucketConcat(a, b[..|b| - 1], hash, nReduce, y);
      assert (a + b)[..|a + b| - 1] == a + b[..|b| - 1];
    }
  }

  lemma {:induction false} FlattenConcat<T>(a: seq<seq<T>>, b: seq<seq<T>>)
    ensures Flatten(a + b) == Flatten(a) + Flatten(b)
  {
    if b == [] {
      assert a + b == a;
    } else {
      FlattenConcat(a, b[..|b| - 1]);
      assert (a + b)[..|a + b| - 1] == a + b[..|b| - 1];
    }
  }

  /** Taking one part out of a concatenation takes out its elements. */
  lemma FlattenWithout<T>(s: seq<seq<T>>, t: nat)
    requires t < |s|
    ensures multiset(Flatten(s)) == multiset(Flatten(s[..t] + s[t + 1..])) + multiset(s[t])
  {
    hide Flatten;
    FlattenAround(s[..t], s[t], s[t + 1..]);
    SplitAt(s, t);
  }

  lemma SplitAt<T>(s: seq<T>, t: nat)
    requires t < |s|
    ensures s == s[..t] + ([s[t]] + s[t + 1..])
  {
  }

  lemma FlattenOne<T>(x: seq<T>)
    ensures Flatten([x]) == x
  {
    assert [x][..0] == [];
  }

  lemma FlattenAround<T>(a: seq<seq<T>>, x: seq<T>, c: seq<seq<T>>)
    ensures multiset(Flatten(a + ([x] + c))) == multiset(Flatten(a + c)) + multiset(x)
  {
    hide Flatten;
    FlattenConcat(a, [x] + c);
    FlattenConcat([x], c);
    FlattenConcat(a, c);
    FlattenOne(x);
  }

  lemma OrderInRange(docs: seq<seq<KeyValue>>, hash: string -> nat, nReduce: nat, y: nat, order: seq<nat>)
    requires nReduce > 0 && FilesOf(docs, hash, nReduce, y, order)
    ensures forall t :: 0 <= t < |order| ==> order[t] < |docs|
    ensures docs == [] ==> order == []
  {
    forall t | 0 <= t < |order|
      ensures order[t] < |docs|
    {
      assert order[t] in order;
    }
    var first := if order == [] then 0 else order[0];
    assert order != [] ==> first in order;
  }

  /** In whatever order they are read, the files of a bucket hold exactly the pairs of the bucket. */
  lemma {:induction false} FilesHoldBucket(docs: seq<seq<KeyValue>>, hash: string -> nat, nReduce: nat, y: nat, order: seq<nat>)
    requires nReduce > 0 && FilesOf(docs, hash, nReduce, y, order)
    ensures forall t :: 0 <= t < |order| ==> order[t] < |docs|
    ensures multiset(Flatten(Contents(docs, hash, nReduce, y, order))) == multiset(InBucket(Flatten(docs), hash, nReduce, y))
    decreases |docs|
  {
    hide FilesOf;
    OrderInRange(docs, hash, nReduce, y, order);
    if docs != [] {
      var n := |docs| - 1;
      var rest := docs[..n];
      InBucketConcat(Flatten(rest), docs[n], hash, nReduce, y);
      if n in order {
        var t :| 0 <= t < |order| && order[t] == n;
        var order' := order[..t] + order[t + 1..];
        WithoutLast(docs, hash, nReduce, y, order, t);
        FilesHoldBucket(rest, hash, nReduce, y, order');
        ContentsWithout(docs, hash, nReduce, y, order, t, order');
      } else {
        NoLast(docs, hash, nReduce, y, order);
        FilesHoldBucket(rest, hash, nReduce, y, order);
      }
    } else {
      assert Contents(docs, hash, nReduce, y, order) == [];
    }
  }

  lemma ContentsWithout(docs: seq<seq<KeyValue>>, hash: string -> nat, nReduce: nat, y: nat, order: seq<nat>, t: nat, order': seq<nat>)
    requires nReduce > 0 && docs != [] && t < |order| && order[t] == |docs| - 1 && order' == order[..t] + order[t + 1..]
    requires forall i :: 0 <= i < |order| ==> order[i] < |docs|
    requires forall i :: 0 <= i < |order'| ==> order'[i] < |docs| - 1
    ensures multiset(Flatten(Contents(docs, hash, nReduce, y, order))) ==
            multiset(Flatten(Contents(docs[..|docs| - 1], hash, nReduce, y, order'))) +
            multiset(InBucket(docs[|docs| - 1], hash, nReduce, y))
  {
    var files := Contents(docs, hash, nReduce, y, order);
    FlattenWithout(files, t);
    assert Contents(docs[..|docs| - 1], hash, nReduce, y, order') == files[..t] + files[t + 1..];
  }

  lemma NoLast(docs: seq<seq<KeyValue>>, hash: string -> nat, nReduce: nat, y: nat, order: seq<nat>)
    requires nReduce > 0 && docs != [] && FilesOf(docs, hash, nReduce, y, order) && |docs| - 1 !in order
    ensures FilesOf(docs[..|docs| - 1], hash, nReduce, y, order)
    ensures InBucket(docs[|docs| - 1], hash, nReduce, y) == []
    ensures forall t :: 0 <= t < |order| ==> order[t] < |docs| - 1
    ensures Contents(docs[..|docs| - 1], hash, nReduce, y, order) == Contents(docs, hash, nReduce, y, order)
  {
    OrderInRange(docs[..|docs| - 1], hash, nReduce, y, order);
  }

  lemma WithoutLast(docs: seq<seq<KeyValue>>, hash: string -> nat, nReduce: nat, y: nat, order: seq<nat>, t: nat)
    requires nReduce > 0 && docs != [] && FilesOf(docs, hash, nReduce, y, order)
    requires t < |order| && order[t] == |docs| - 1
    ensures FilesOf(docs[..|docs| - 1], hash, nReduce, y, order[..t] + order[t + 1..])
  {
    var order' := order[..t] + order[t + 1..];
    forall x: nat
      ensures x in order' <==> x in order && x != |docs| - 1
    {
      if x in order {
        var i :| 0 <= i < |order| && order[i] == x;
        assert i < t ==> order'[i] == x;
        assert i > t ==> order'[i - 1] == x;
      }
    }
  }

  // ----- The whole job

  /** inputs[y - 1] is what the reduce task of bucket y reads, and outputs[y - 1] what it writes. */
  ghost predicate JobDone(all: seq<KeyValue>, hash: string -> nat, nReduce: nat, reducef: Reducer,
                          inputs: seq<seq<KeyValue>>, outputs: seq<seq<Result>>)
    requires nReduce > 0
  {
    && |inputs| == |outputs| == nReduce
    && forall b :: 0 <= b < nReduce ==>
         && multiset(inputs[b]) == multiset(InBucket(all, hash, nReduce, b + 1))
         && Reduces(outputs[b], inputs[b], reducef)
  }

  lemma {:induction false} InBucketKeys(kvs: seq<KeyValue>, hash: string -> nat, nReduce: nat, y: nat, k: string)
    requires nReduce > 0
    ensures HasKey(InBucket(kvs, hash, nReduce, y), k) <==> HasKey(kvs, k) && BucketOf(hash, nReduce, k) == y
    ensures BucketOf(hash, nReduce, k) == y ==> ValuesOf(InBucket(kvs, hash, nReduce, y), k) == ValuesOf(kvs, k)
  {
    if kvs != [] {
      var rest, kv := kvs[..|kvs| - 1], kvs[|kvs| - 1];
      InBucketKeys(rest, hash, nReduce, y, k);
      var part := InBucket(rest, hash, nReduce, y);
      assert kvs == rest + [kv];
      HasKeySnoc(rest, kv, k);
      HasKeySnoc(part, kv, k);
      assert (part + [kv])[..|part|] == part;
    }
  }

  lemma HasKeySnoc(kvs: seq<KeyValue>, kv: KeyValue, k: string)
    ensures HasKey(kvs + [kv], k) <==> HasKey(kvs, k) || kv.key == k
  {
    var more := kvs + [kv];
    assert more[|kvs|] == kv;
    forall i | 0 <= i < |kvs|
      ensures more[i] == kvs[i]
    {
    }
  }

  /** A result of bucket y is a result of the whole job whose key belongs to y, and conversely. */
  lemma BucketResults(all: seq<KeyValue>, hash: string -> nat, nReduce: nat, reducef: Reducer,
                      input: seq<KeyValue>, output: seq<Result>, y: nat, r: Result)
    requires nReduce > 0 && OrderFree(reducef)
    requires multiset(input) == multiset(InBucket(all, hash, nReduce, y)) && Reduces(output, input, reducef)
    ensures r in output <==>
            BucketOf(hash, nReduce, r.0) == y && HasKey(all, r.0) && r.1 == reducef(r.0, ValuesOf(all, r.0))
  {
    SamePairsSameResults(output, input, InBucket(all, hash, nReduce, y), reducef);
    InBucketKeys(all, hash, nReduce, y, r.0);
  }

  lemma {:induction false} InFlatten<T>(s: seq<seq<T>>, x: T)
    ensures x in Flatten(s) <==> exists b :: 0 <= b < |s| && x in s[b]
  {
    if s != [] {
      var rest := s[..|s| - 1];
      InFlatten(rest, x);
      if exists b :: 0 <= b < |s| && x in s[b] {
        var b :| 0 <= b < |s| && x in s[b];
        assert b < |rest| ==> x in rest[b];
      }
    }
  }

  lemma {:induction false} FlattenNoRepeats<T>(s: seq<seq<T>>)
    requires forall b :: 0 <= b < |s| ==> NoRepeats(s[b])
    requires forall a, b, x :: 0 <= a < b < |s| && x in s[a] ==> x !in s[b]
    ensures NoRepeats(Flatten(s))
  {
    if s != [] {
      var rest, last := s[..|s| - 1], s[|s| - 1];
      FlattenNoRepeats(rest);
      var head := Flatten(rest);
      forall i | 0 <= i < |head|
        ensures head[i] !in last
      {
        InFlatten(rest, head[i]);
        assert head[i] in head;
      }
      var whole := head + last;
      forall i, j | 0 <= i < j < |whole|
        ensures whole[i] != whole[j]
      {
        if i < |head| <= j {
          assert whole[j] == last[j - |head|];
        }
      }
    }
  }

  /**
   The buckets together hold each key's result exactly once, and the results are
   those of the sequential program, up to order.
   */
  lemma DistributedIsSequential(all: seq<KeyValue>, hash: string -> nat, nReduce: nat, reducef: Reducer,
                                inputs: seq<seq<KeyValue>>, outputs: seq<seq<Result>>, sequential: seq<Result>)
    requires nReduce > 0 && OrderFree(reducef)
    requires JobDone(all, hash, nReduce, reducef, inputs, outputs) && Reduces(sequential, all, reducef)
    ensures multiset(Flatten(outputs)) == multiset(sequential)
    ensures forall b, r :: 0 <= b < nReduce && r in outputs[b] ==> BucketOf(hash, nReduce, r.0) == b + 1
  {
    hide Reduces;
    forall b, r: Result | 0 <= b < nReduce
      ensures r in outputs[b] <==>
              BucketOf(hash, nReduce, r.0) == b + 1 && HasKey(all, r.0) && r.1 == reducef(r.0, ValuesOf(all, r.0))
    {
      BucketResults(all, hash, nReduce, reducef, inputs[b], outputs[b], b + 1, r);
    }
    forall b | 0 <= b < |outputs|
      ensures NoRepeats(outputs[b])
    {
      ReducesOnce(outputs[b], inputs[b], reducef);
    }
    forall a, b, r: Result | 0 <= a < b < |outputs| && r in outputs[a]
      ensures r !in outputs[b]
    {
      assert BucketOf(hash, nReduce, r.0) == a + 1;
    }
    FlattenNoRepeats(outputs);
    ReducesOnce(sequential, all, reducef);
    forall r: Result
      ensures r in Flatten(outputs) <==> r in sequential
    {
      InFlatten(outputs, r);
      ReducesWhat(sequential, all, reducef, r);
      var b := BucketOf(hash, nReduce, r.0) - 1;
      assert r in sequential ==> r in outputs[b];
    }
    SameSetSameMultiset(Flatten(outputs), sequential);
  }

  lemma ReducesOnce(results: seq<Result>, kvs: seq<KeyValue>, reducef: Reducer)
    requires Reduces(results, kvs, reducef)
    ensures NoRepeats(results)
  {
  }

  lemma ReducesWhat(results: seq<Result>, kvs: seq<KeyValue>, reducef: Reducer, r: Result)
    requires Reduces(results, kvs, reducef)
    ensures r in results <==> HasKey(kvs, r.0) && r.1 == reducef(r.0, ValuesOf(kvs, r.0))
  {
  }

  // ----- Printed

  /** fmt.Fprintf(file, "%v %v\n", key, output) */
  function Line(r: Result): string {
    r.0 + " " + r.1 + "\n"
  }

  function Lines(results: seq<Result>): seq<string> {
    if results == [] then [] else Lines(results[..|results| - 1]) + [Line(results[|results| - 1])]
  }

  /** A line tells its key and its value, if keys hold no space. */
  lemma LineTells(r: Result, r': Result)
    requires ' ' !in r.0 && ' ' !in r'.0 && Line(r) == Line(r')
    ensures r == r'
  {
    var s := Line(r);
    assert s[|r.0|] == ' ' && s[|r'.0|] == ' ';
    assert forall i :: 0 <= i < |r.0| ==> s[i] == r.0[i] && r.0[i] in r.0;
    assert forall i :: 0 <= i < |r'.0| ==> s[i] == r'.0[i] && r'.0[i] in r'.0;
    assert |r.0| == |r'.0|;
    assert r.0 == s[..|r.0|] && r'.0 == s[..|r'.0|];
    assert r.1 == s[|r.0| + 1..|s| - 1] && r'.1 == s[|r'.0| + 1..|s| - 1];
  }

  lemma LinesOne(r: Result)
    ensures Lines([r]) == [Line(r)]
  {
    assert [r][..0] == [];
  }

  lemma LinesAround(a: seq<Result>, r: Result, c: seq<Result>)
    ensures multiset(Lines(a + ([r] + c))) == multiset(Lines(a + c)) + multiset{Line(r)}
  {
    hide Lines, Line;
    LinesConcat(a, [r] + c);
    LinesConcat([r], c);
    LinesConcat(a, c);
    LinesOne(r);
  }

  lemma LinesWithout(b: seq<Result>, t: nat)
    requires t < |b|
    ensures multiset(Lines(b)) == multiset(Lines(b[..t] + b[t + 1..])) + multiset{Line(b[t])}
  {
    hide Lines, Line;
    LinesAround(b[..t], b[t], b[t + 1..]);
    SplitAt(b, t);
  }

  lemma {:induction false} LinesCounted(a: seq<Result>, b: seq<Result>)
    requires multiset(a) == multiset(b)
    ensures multiset(Lines(a)) == multiset(Lines(b))
    decreases |a|
  {
    SameMembers(a, b);
    if a != [] {
      var a', x := a[..|a| - 1], a[|a| - 1];
      assert a == a' + [x];
      assert x in b;
      var t :| 0 <= t < |b| && b[t] == x;
      WithoutCounts(b, t);
      Cancel(multiset(a'), multiset(b[..t] + b[t + 1..]), x);
      LinesCounted(a', b[..t] + b[t + 1..]);
      LinesWithout(b, t);
    }
  }

  lemma {:induction false} LinesConcat(a: seq<Result>, b: seq<Result>)
    ensures Lines(a + b) == Lines(a) + Lines(b)
  {
    if b == [] {
      assert a + b == a;
    } else {
      LinesConcat(a, b[..|b| - 1]);
      assert (a + b)[..|a + b| - 1] == a + b[..|b| - 1];
    }
  }
}
