/**
 The linearizability checker for one partition (porcupine/checker.go:135-248).
 */
module CheckSingle {
  import opened Options
  import opened History
  import opened Links
  import opened NodeList
  import opened Search
  import opened Progress
  import B = Bitset

  /** A cached configuration. The bitset is a copy that nobody changes, so it is kept as a value. */
  datatype CacheEntry<S> = CacheEntry(linearized: seq<B.Word>, state: S)

  type Cache<S> = map<B.Word, seq<CacheEntry<S>>>

  datatype CallsEntry<I, O, S> = CallsEntry(entry: Node<I, O>, state: S)

  // ----- The cache

  /** Every entry is in the bucket of its hash, and all bitsets have the same number of words. */
  ghost predicate Bucketed<S>(cache: Cache<S>, words: nat) {
    forall k, i :: k in cache && 0 <= i < |cache[k]| ==>
      B.HashOf(cache[k][i].linearized) == k && |cache[k][i].linearized| == words
  }

  /** Some entry, in whatever bucket, holds the same set and an equal state. */
  ghost predicate Holds<S, I, O>(m: Model<S, I, O>, cache: Cache<S>, done: set<nat>, state: S) {
    exists k, i :: k in cache && 0 <= i < |cache[k]| &&
      B.Members(cache[k][i].linearized) == done && m.equal(state, cache[k][i].state)
  }

  /** The entries of the cache are configurations seen. */
  ghost predicate CacheSeen<S>(cache: Cache<S>, seen: set<Config<S>>) {
    forall k, i :: k in cache && 0 <= i < |cache[k]| ==>
      Config(B.Members(cache[k][i].linearized), cache[k][i].state) in seen
  }

  /** Looking in one bucket finds what is anywhere in the cache. */
  method CacheContains<S, I, O>(m: Model<S, I, O>, cache: Cache<S>, linearized: array<B.Word>, state: S) returns (found: bool)
    requires Bucketed(cache, linearized.Length)
    ensures found <==> Holds(m, cache, B.Members(linearized[..]), state)
  {
    var hash := B.Hash(linearized);
    var bucket := if hash in cache then cache[hash] else [];
    for i := 0 to |bucket|
      invariant forall j :: 0 <= j < i ==> !(bucket[j].linearized == linearized[..] && m.equal(state, bucket[j].state))
    {
      var same := B.Equals(linearized, bucket[i].linearized);
      if same && m.equal(state, bucket[i].state) {
        assert Holds(m, cache, B.Members(cache[hash][i].linearized), state);
        return true;
      }
    }
    NotInBucket(m, cache, linearized[..], state);
    return false;
  }

  lemma NotInBucket<S, I, O>(m: Model<S, I, O>, cache: Cache<S>, b: seq<B.Word>, state: S)
    requires Bucketed(cache, |b|)
    requires B.HashOf(b) in cache ==> forall j :: 0 <= j < |cache[B.HashOf(b)]| ==>
               !(cache[B.HashOf(b)][j].linearized == b && m.equal(state, cache[B.HashOf(b)][j].state))
    ensures !Holds(m, cache, B.Members(b), state)
  {
    forall k, i | k in cache && 0 <= i < |cache[k]| && B.Members(cache[k][i].linearized) == B.Members(b)
      ensures !m.equal(state, cache[k][i].state)
    {
      SameMembersSameWords(cache[k][i].linearized, b);
    }
  }

  lemma SameMembersSameWords(b: seq<B.Word>, b2: seq<B.Word>)
    requires |b| == |b2| && B.Members(b) == B.Members(b2)
    ensures b == b2
  {
    forall i | 0 <= i < |b|
      ensures b[i] == b2[i]
    {
      if b[i] != b2[i] {
        B.WordsDiffer(b, b2, i);
      }
    }
  }

  /** cache[hash] = append(cache[hash], newCacheEntry) */
  method AddToCache<S>(cache: Cache<S>, linearized: array<B.Word>, state: S, ghost seen: set<Config<S>>)
    returns (cache': Cache<S>)
    requires Bucketed(cache, linearized.Length) && CacheSeen(cache, seen)
    ensures Bucketed(cache', linearized.Length)
    ensures CacheSeen(cache', seen + {Config(B.Members(linearized[..]), state)})
  {
    var hash := B.Hash(linearized);
    var bucket := if hash in cache then cache[hash] else [];
    cache' := cache[hash := bucket + [CacheEntry(linearized[..], state)]];
  }

  // ----- Recording the longest prefixes

  method StackIds<S, I, O>(calls: seq<CallsEntry<I, O, S>>, ghost path: seq<nat>) returns (ids: seq<nat>)
    requires |calls| == |path|
    requires forall j :: 0 <= j < |calls| ==> calls[j].entry.id == path[j]
    ensures ids == path
  {
    ids := [];
    for i := 0 to |calls|
      invariant ids == path[..i]
    {
      assert calls[i].entry.id == path[i];
      ids := ids + [calls[i].entry.id];
    }
  }

  method RecordLongest<S, I, O>(calls: seq<CallsEntry<I, O, S>>, longest: array<Option<seq<nat>>>, ghost path: seq<nat>)
    requires |calls| == |path| && Ids(path, longest.Length)
    requires forall j :: 0 <= j < |calls| ==> calls[j].entry.id == path[j]
    modifies longest
    ensures RecordsUpdated(old(longest[..]), longest[..], path)
  {
    var order := StackIds(calls, path);
    ghost var was := longest[..];
    for i := 0 to |calls|
      invariant RecordsUpdatedTo(was, longest[..], path, i)
    {
      assert calls[i].entry.id == path[i];
      var id := calls[i].entry.id;
      if longest[id].None? || |calls| > |longest[id].value| {
        longest[id] := Some(order);
      }
    }
    assert path[..|path|] == path;
  }

  ghost predicate RecordsUpdatedTo(was: seq<Option<seq<nat>>>, now: seq<Option<seq<nat>>>, path: seq<nat>, i: nat)
    requires i <= |path|
  {
    && |now| == |was|
    && forall x: nat :: x < |was| ==>
         && (now[x] == was[x] || (x in Elements(path) && now[x] == Some(path)))
         && (was[x].Some? ==> Recorded(now, x, |was[x].value|))
         && (x in Elements(path[..i]) ==> Recorded(now, x, |path|))
  }

  // ----- Where the walk is in the list

  lemma OperationsTimed<I, O>(h: seq<Entry<I, O>>)
    requires WellFormed(h)
    ensures Timed(Operations(h)) && Bounded(Operations(h))
  {
    var ops := Operations(h);
    forall a: nat | a < |ops|
      ensures ops[a].call < ops[a].ret
    {
      PositionsUnique(h, CallPos(h, a));
    }
    forall a: nat, b: nat | a < |ops| && b < |ops|
      ensures ops[a].call != ops[b].ret
      ensures a != b ==> ops[a].call != ops[b].call
    {
      assert CallOf(h, ops[a].call, a) && CallOf(h, ops[b].call, b) && ReturnOf(h, ops[b].ret, b);
    }
  }

  /** entry is the node of history position `cur`; nil, with `cur` at the end, when the list is empty. */
  ghost predicate At<I, O>(h: seq<Entry<I, O>>, nodes: seq<Node<I, O>>, path: seq<nat>, cur: int, entry: Node?<I, O>)
    requires |nodes| == |h| + 1
  {
    if entry == null then cur == |h| && forall i :: 0 <= i < |h| ==> h[i].id in Elements(path)
    else 0 <= cur < |h| && entry == nodes[cur + 1] && h[cur].id !in Elements(path)
  }

  /** Whatever is still in the list lies outside the positions strictly between lo and hi. */
  ghost predicate Gap<I, O>(h: seq<Entry<I, O>>, done: set<nat>, lo: int, hi: int) {
    forall i :: 0 <= i < |h| && lo < i < hi ==> h[i].id in done
  }

  lemma GapIsQuiet<I, O>(h: seq<Entry<I, O>>, done: set<nat>, lo: int, hi: int)
    requires WellFormed(h) && Gap(h, done, lo, hi)
    ensures NothingBetween(Operations(h), done, lo, hi)
  {
    var ops := Operations(h);
    forall a: nat | a < |ops| && a !in done
      ensures !(lo < ops[a].call < hi) && !(lo < ops[a].ret < hi)
    {
      assert h[ops[a].call].id == a && h[ops[a].ret].id == a;
    }
  }

  /** Node i's successor in the list, by history position. */
  lemma NextInList<I, O>(h: seq<Entry<I, O>>, path: seq<nat>, i: nat) returns (cur: int)
    requires WellFormed(h) && Ids(path, |h| / 2)
    requires i <= |h| && IsAlive(h, Elements(path), i)
    ensures |LiftAll(h, path).next| == |h| + 1
    ensures i <= cur <= |h|
    ensures LiftAll(h, path).next[i] == (if cur == |h| then NIL else cur + 1)
    ensures cur < |h| ==> h[cur].id !in Elements(path)
    ensures Gap(h, Elements(path), i - 1, cur)
  {
    LiftAllIsChain(h, path);
    var l, alive := LiftAll(h, path), Alive(h, Elements(path));
    assert i in alive;
    var j := l.next[i];
    assert IsNext(alive, i, j);
    cur := if j == NIL then |h| else j - 1;
    forall k | 0 <= k < |h| && i - 1 < k < cur
      ensures h[k].id in Elements(path)
    {
      assert IsAlive(h, Elements(path), k + 1) ==> k + 1 in alive;
    }
  }

  /** Following `next` from node i of the list. */
  lemma Follow<I, O>(h: seq<Entry<I, O>>, nodes: seq<Node<I, O>>, path: seq<nat>, i: nat) returns (cur: int)
    requires WellFormed(h) && Ids(path, |h| / 2) && |nodes| == |h| + 1
    requires Represents(nodes, LiftAll(h, path))
    requires i <= |h| && IsAlive(h, Elements(path), i)
    ensures i <= cur <= |h|
    ensures nodes[i].next == (if cur == |h| then null else nodes[cur + 1])
    ensures cur < |h| ==> h[cur].id !in Elements(path)
    ensures Gap(h, Elements(path), i - 1, cur)
  {
    cur := NextInList(h, path, i);
    assert Points(nodes, nodes[i].next, LiftAll(h, path).next[i]);
  }

  /** A walk that starts at the head. */
  lemma FromHead<I, O>(h: seq<Entry<I, O>>, nodes: seq<Node<I, O>>, path: seq<nat>) returns (cur: int)
    requires WellFormed(h) && Ids(path, |h| / 2) && |nodes| == |h| + 1
    requires Represents(nodes, LiftAll(h, path))
    ensures 0 <= cur <= |h|
    ensures At(h, nodes, path, cur, nodes[0].next)
    ensures forall a: nat :: a < |h| / 2 && a !in Elements(path) ==> cur <= Operations(h)[a].call
  {
    cur := Follow(h, nodes, path, 0);
    GapIsQuiet(h, Elements(path), -1, cur);
  }

  /** Stepping over a call never runs off the list: its own return is still ahead. */
  lemma FromCall<I, O>(h: seq<Entry<I, O>>, nodes: seq<Node<I, O>>, path: seq<nat>, x: nat) returns (cur: int)
    requires WellFormed(h) && Ids(path, |h| / 2) && |nodes| == |h| + 1
    requires Represents(nodes, LiftAll(h, path))
    requires x < |h| / 2 && x !in Elements(path)
    ensures CallPos(h, x) < cur < |h|
    ensures At(h, nodes, path, cur, nodes[CallPos(h, x) + 1].next)
    ensures NothingBetween(Operations(h), Elements(path), CallPos(h, x), cur)
  {
    var c := CallPos(h, x);
    PositionsUnique(h, c);
    cur := Follow(h, nodes, path, c + 1);
    GapIsQuiet(h, Elements(path), c, cur);
    assert cur <= ReturnPos(h, x);
  }

  // ----- One iteration

  /** The variables of the loop. */
  datatype Locals<I, O, S> = Locals(entry: Node?<I, O>, state: S, cache: Cache<S>, calls: seq<CallsEntry<I, O, S>>)

  ghost predicate CallsMatch<S, I, O>(m: Model<S, I, O>, h: seq<Entry<I, O>>, nodes: seq<Node<I, O>>, path: seq<nat>,
                                      calls: seq<CallsEntry<I, O, S>>)
    requires WellFormed(h) && Ids(path, |h| / 2) && |nodes| == |h| + 1
  {
    && |calls| == |path|
    && forall j :: 0 <= j < |path| ==>
         && calls[j].entry == nodes[CallPos(h, path[j]) + 1]
         && Replay(m, Operations(h), path[..j]) == Some(calls[j].state)
  }

  ghost predicate CacheGood<S>(cache: Cache<S>, words: nat, seen: set<Config<S>>) {
    Bucketed(cache, words) && CacheSeen(cache, seen)
  }

  ghost predicate BitsGood(b: seq<B.Word>, n: nat, path: seq<nat>) {
    n <= B.WIDTH * |b| && B.Members(b) == Elements(path)
  }

  ghost predicate Inv<S(!new), I(!new), O(!new)>(
    m: Model<S, I, O>, h: seq<Entry<I, O>>, nodes: seq<Node<I, O>>, linearized: array<B.Word>,
    longest: seq<Option<seq<nat>>>, record: bool, v: Locals<I, O, S>,
    path: seq<nat>, seen: set<Config<S>>, cur: int)
    reads nodes, linearized
  {
    && SoundEquality(m)
    && WellFormed(h)
    && |nodes| == |h| + 1 && Carries(h, nodes)
    && Searching(m, Operations(h), path, seen, longest, record, cur)
    && Replay(m, Operations(h), path) == Some(v.state)
    && Represents(nodes, LiftAll(h, path))
    && At(h, nodes, path, cur, v.entry)
    && CallsMatch(m, h, nodes, path, v.calls)
    && BitsGood(linearized[..], |h| / 2, path)
    && CacheGood(v.cache, linearized.Length, seen)
  }

  lemma StackIsIds<S, I, O>(m: Model<S, I, O>, ops: seq<Operation<I, O>>, path: seq<nat>, seen: set<Config<S>>,
                            longest: seq<Option<seq<nat>>>, record: bool, cur: int)
    requires Searching(m, ops, path, seen, longest, record, cur)
    ensures Partial(m, ops, path) && Ids(path, |ops|)
  {
  }

  /** What the node of a call holds. */
  lemma CallFacts<S(!new), I(!new), O(!new)>(
    m: Model<S, I, O>, h: seq<Entry<I, O>>, nodes: seq<Node<I, O>>, linearized: array<B.Word>,
    longest: seq<Option<seq<nat>>>, record: bool, v: Locals<I, O, S>,
    path: seq<nat>, seen: set<Config<S>>, cur: int)
    requires Inv(m, h, nodes, linearized, longest, record, v, path, seen, cur)
    requires v.entry != null && v.entry.mate != null
    ensures var x, ops := v.entry.id, Operations(h);
            && 0 <= x < |h| / 2 && cur == CallPos(h, x)
            && AtCall(ops, path, x, cur)
            && v.entry == nodes[CallPos(h, x) + 1] && v.entry.mate == nodes[ReturnPos(h, x) + 1]
            && v.entry.value == Input(ops[x].input) && v.entry.mate.value == Output(ops[x].output)
  {
    hide Searching, SoundEquality, Represents, CallsMatch, CacheGood, BitsGood;
    assert IsNodeOf(h, nodes, cur);
    PositionsUnique(h, cur);
    assert IsNodeOf(h, nodes, ReturnPos(h, h[cur].id));
  }

  /** entry = entry.next */
  method StepOver<S(!new), I(!new), O(!new)>(
    m: Model<S, I, O>, h: seq<Entry<I, O>>, ghost nodes: seq<Node<I, O>>, linearized: array<B.Word>,
    ghost longest: seq<Option<seq<nat>>>, record: bool, v: Locals<I, O, S>,
    ghost path: seq<nat>, ghost seen: set<Config<S>>, ghost cur: int)
    returns (v': Locals<I, O, S>, ghost cur': int)
    requires Inv(m, h, nodes, linearized, longest, record, v, path, seen, cur)
    requires v.entry != null && v.entry.mate != null
    requires 0 <= v.entry.id < |h| / 2 &&
             Tried(m, Operations(h), seen, Config(Elements(path), v.state), v.entry.id)
    ensures Inv(m, h, nodes, linearized, longest, record, v', path, seen, cur')
    ensures Rank(Operations(h), path, cur') < Rank(Operations(h), path, cur)
  {
    CallFacts(m, h, nodes, linearized, longest, record, v, path, seen, cur);
    ghost var x := v.entry.id;
    cur' := FromCall(h, nodes, path, x);
    Advance(m, Operations(h), path, seen, longest, record, cur, x, cur');
    OperationsTimed(h);
    PermutationCovers(path, |h| / 2);
    AdvanceDecreases(Operations(h), path, cur, cur');
    v' := v.(entry := v.entry.next);
  }

  lemma CallsMatchPush<S, I, O>(m: Model<S, I, O>, h: seq<Entry<I, O>>, nodes: seq<Node<I, O>>, path: seq<nat>,
                                calls: seq<CallsEntry<I, O, S>>, x: nat, state: S)
    requires WellFormed(h) && Ids(path, |h| / 2) && Ids(path + [x], |h| / 2) && |nodes| == |h| + 1 && x < |h| / 2
    requires CallsMatch(m, h, nodes, path, calls)
    requires Replay(m, Operations(h), path) == Some(state)
    ensures CallsMatch(m, h, nodes, path + [x], calls + [CallsEntry(nodes[CallPos(h, x) + 1], state)])
  {
    hide Replay, Operations, WellFormed, CallPos, ReturnPos;
    var path', calls' := path + [x], calls + [CallsEntry(nodes[CallPos(h, x) + 1], state)];
    assert path'[..|path|] == path;
    forall j | 0 <= j < |path'|
      ensures calls'[j].entry == nodes[CallPos(h, path'[j]) + 1]
      ensures Replay(m, Operations(h), path'[..j]) == Some(calls'[j].state)
    {
      if j < |path| {
        assert path'[..j] == path[..j] && path'[j] == path[j];
      }
    }
  }

  /** The invariant after a call has been lifted out of the list. */
  lemma Taken<S(!new), I(!new), O(!new)>(
    m: Model<S, I, O>, h: seq<Entry<I, O>>, nodes: seq<Node<I, O>>, longest: seq<Option<seq<nat>>>, record: bool,
    state: S, newState: S, path: seq<nat>, x: nat, seen: set<Config<S>>, cur: int)
    returns (cur': int)
    requires SoundEquality(m) && WellFormed(h) && |nodes| == |h| + 1
    requires Searching(m, Operations(h), path, seen, longest, record, cur)
    requires AtCall(Operations(h), path, x, cur) && Replay(m, Operations(h), path) == Some(state)
    requires m.step(state, Operations(h)[x].input, Operations(h)[x].output) == (true, newState)
    requires Ids(path + [x], |h| / 2) && Represents(nodes, LiftAll(h, path + [x]))
    ensures Searching(m, Operations(h), path + [x], seen + {Config(Elements(path) + {x}, newState)}, longest, record, cur')
    ensures Replay(m, Operations(h), path + [x]) == Some(newState)
    ensures At(h, nodes, path + [x], cur', nodes[0].next)
    ensures Rank(Operations(h), path + [x], cur') < Rank(Operations(h), path, cur)
  {
    ElementsSnoc(path, x);
    cur' := FromHead(h, nodes, path + [x]);
    Search.Push(m, Operations(h), path, seen, longest, record, cur, x, cur');
    OperationsTimed(h);
    PermutationCovers(path + [x], |h| / 2);
    PushDecreases(Operations(h), path, cur, x, cur');
  }

  /** The call is linearized next: it goes on the stack and out of the list. */
  method Take<S(!new), I(!new), O(!new)>(
    m: Model<S, I, O>, h: seq<Entry<I, O>>, head: Node<I, O>, ghost nodes: seq<Node<I, O>>, linearized: array<B.Word>,
    ghost longest: seq<Option<seq<nat>>>, record: bool, v: Locals<I, O, S>, newState: S, cache: Cache<S>,
    ghost path: seq<nat>, ghost x: nat, ghost seen: set<Config<S>>, ghost cur: int)
    returns (v': Locals<I, O, S>, ghost cur': int)
    requires Inv(m, h, nodes, linearized, longest, record, v, path, seen, cur)
    requires v.entry != null && v.entry.mate != null && head == nodes[0]
    requires v.entry.id == x < |h| / 2
    requires m.step(v.state, Operations(h)[x].input, Operations(h)[x].output) == (true, newState)
    requires CacheGood(cache, linearized.Length, seen + {Config(Elements(path) + {x}, newState)})
    modifies nodes, linearized
    ensures Inv(m, h, nodes, linearized, longest, record, v', path + [x], seen + {Config(Elements(path) + {x}, newState)}, cur')
    ensures Rank(Operations(h), path + [x], cur') < Rank(Operations(h), path, cur)
  {
    hide Searching, SoundEquality, Carries, Represents, CallsMatch, CacheGood, At, Ids, Partial, WellFormed, Liftable, Lift;
    CallFacts(m, h, nodes, linearized, longest, record, v, path, seen, cur);
    StackIsIds(m, Operations(h), path, seen, longest, record, cur);
    UnliftTop(h, path, x);
    CallsMatchPush(m, h, nodes, path, v.calls, x, v.state);
    var calls := v.calls + [CallsEntry(v.entry, v.state)];
    B.Set(linearized, v.entry.id);
    ElementsSnoc(path, x);
    LiftNode(v.entry, nodes, LiftAll(h, path), CallPos(h, x) + 1, ReturnPos(h, x) + 1);
    cur' := Taken(m, h, nodes, longest, record, v.state, newState, path, x, seen, cur);
    v' := Locals(head.next, newState, cache, calls);
  }

  /** What the node of a return holds. */
  lemma ReturnFacts<S(!new), I(!new), O(!new)>(
    m: Model<S, I, O>, h: seq<Entry<I, O>>, nodes: seq<Node<I, O>>, linearized: array<B.Word>,
    longest: seq<Option<seq<nat>>>, record: bool, v: Locals<I, O, S>,
    path: seq<nat>, seen: set<Config<S>>, cur: int)
    requires Inv(m, h, nodes, linearized, longest, record, v, path, seen, cur)
    requires v.entry != null && v.entry.mate == null
    ensures 0 <= cur < |h|
    ensures var a, ops := h[cur].id, Operations(h);
            a < |ops| && a !in Elements(path) && ops[a].ret == cur
  {
    hide Searching, SoundEquality, Represents, CallsMatch, CacheGood, BitsGood;
    assert IsNodeOf(h, nodes, cur);
    PositionsUnique(h, cur);
  }

  lemma CallsMatchPop<S, I, O>(m: Model<S, I, O>, h: seq<Entry<I, O>>, nodes: seq<Node<I, O>>, path: seq<nat>,
                               calls: seq<CallsEntry<I, O, S>>, x: nat)
    requires WellFormed(h) && Ids(path, |h| / 2) && Ids(path + [x], |h| / 2) && Carries(h, nodes)
    requires CallsMatch(m, h, nodes, path + [x], calls)
    ensures |calls| == |path| + 1 && CallsMatch(m, h, nodes, path, calls[..|path|])
    ensures calls[|path|].entry == nodes[CallPos(h, x) + 1] && calls[|path|].entry.id == x
    ensures calls[|path|].entry.mate == nodes[ReturnPos(h, x) + 1]
    ensures Replay(m, Operations(h), path) == Some(calls[|path|].state)
  {
    hide Replay, Operations, WellFormed, CallPos, ReturnPos;
    var path' := path + [x];
    assert path'[..|path|] == path && path'[|path|] == x;
    forall j | 0 <= j < |path|
      ensures calls[j].entry == nodes[CallPos(h, path[j]) + 1]
      ensures Replay(m, Operations(h), path[..j]) == Some(calls[j].state)
    {
      assert path'[..j] == path[..j] && path'[j] == path[j];
    }
    assert IsNodeOf(h, nodes, CallPos(h, x));
  }

  /** The stack holds the ids of the nodes on it. */
  lemma StackHoldsPath<S, I, O>(m: Model<S, I, O>, h: seq<Entry<I, O>>, nodes: seq<Node<I, O>>, path: seq<nat>,
                                calls: seq<CallsEntry<I, O, S>>)
    requires WellFormed(h) && Ids(path, |h| / 2) && Carries(h, nodes)
    requires CallsMatch(m, h, nodes, path, calls)
    ensures forall j :: 0 <= j < |path| ==> calls[j].entry.id == path[j]
  {
    forall j | 0 <= j < |path|
      ensures calls[j].entry.id == path[j]
    {
      assert IsNodeOf(h, nodes, CallPos(h, path[j]));
    }
  }

  /** The invariant after the last call taken has been put back. */
  lemma PutBack<S(!new), I(!new), O(!new)>(
    m: Model<S, I, O>, h: seq<Entry<I, O>>, nodes: seq<Node<I, O>>,
    longest: seq<Option<seq<nat>>>, longest': seq<Option<seq<nat>>>, record: bool,
    path: seq<nat>, x: nat, seen: set<Config<S>>, cur: int)
    returns (cur': int)
    requires WellFormed(h) && |nodes| == |h| + 1 && 0 <= cur < |h|
    requires Searching(m, Operations(h), path + [x], seen, longest, record, cur)
    requires h[cur].id !in Elements(path + [x]) && Operations(h)[h[cur].id].ret == cur
    requires if record then RecordsUpdated(longest, longest', path + [x]) else longest' == longest
    requires Ids(path, |h| / 2) && Represents(nodes, LiftAll(h, path))
    ensures Searching(m, Operations(h), path, seen, longest', record, cur')
    ensures x < |h| / 2 && At(h, nodes, path, cur', nodes[CallPos(h, x) + 1].next)
    ensures Rank(Operations(h), path, cur') < Rank(Operations(h), path + [x], cur)
  {
    assert (path + [x])[..|path|] == path && (path + [x])[|path|] == x;
    PartialUnsnoc(m, Operations(h), path + [x]);
    cur' := FromCall(h, nodes, path, x);
    Search.Pop(m, Operations(h), path, seen, longest, longest', record, cur, h[cur].id, x, cur');
    OperationsTimed(h);
    PermutationCovers(path + [x], |h| / 2);
    PopDecreases(Operations(h), path, cur, x, cur');
  }

  /** The walk has met a return that is still in the list, and x, the last call taken, is on top of the stack. */
  ghost predicate TopKnown<S, I, O>(m: Model<S, I, O>, h: seq<Entry<I, O>>, nodes: seq<Node<I, O>>,
                                    calls: seq<CallsEntry<I, O, S>>, path: seq<nat>, x: nat, cur: int)
  {
    && WellFormed(h) && |nodes| == |h| + 1 && Ids(path, |h| / 2) && Ids(path + [x], |h| / 2) && x < |h| / 2
    && 0 <= cur < |h| && h[cur].id < |h| / 2 && h[cur].id !in Elements(path + [x]) && Operations(h)[h[cur].id].ret == cur
    && Elements(path + [x]) - {x} == Elements(path)
    && TopUnlifts(h, path, x)
    && |calls| == |path| + 1 && CallsMatch(m, h, nodes, path, calls[..|path|])
    && var top := calls[|path|];
       && top.entry == nodes[CallPos(h, x) + 1] && top.entry.id == x && top.entry.mate == nodes[ReturnPos(h, x) + 1]
       && Replay(m, Operations(h), path) == Some(top.state)
  }

  ghost predicate TopUnlifts<I, O>(h: seq<Entry<I, O>>, path: seq<nat>, x: nat)
    requires WellFormed(h) && Ids(path, |h| / 2) && Ids(path + [x], |h| / 2) && x < |h| / 2
  {
    var c, r, l := CallPos(h, x) + 1, ReturnPos(h, x) + 1, LiftAll(h, path + [x]);
    Unliftable(l, c, r) && Unlift(l, c, r) == LiftAll(h, path)
  }

  /** What is known of the last call taken, when the walk has met a return. */
  lemma TopFacts<S(!new), I(!new), O(!new)>(
    m: Model<S, I, O>, h: seq<Entry<I, O>>, nodes: seq<Node<I, O>>, linearized: array<B.Word>,
    longest: seq<Option<seq<nat>>>, record: bool, v: Locals<I, O, S>,
    path: seq<nat>, x: nat, seen: set<Config<S>>, cur: int)
    requires Inv(m, h, nodes, linearized, longest, record, v, path + [x], seen, cur)
    requires v.entry != null && v.entry.mate == null
    ensures TopKnown(m, h, nodes, v.calls, path, x, cur)
  {
    hide Searching, SoundEquality, Carries, Represents, CallsMatch, CacheGood, At, Ids, Partial, WellFormed, Unliftable, Unlift,
      Elements, Operations, Replay, B.Members, LiftAll;
    ReturnFacts(m, h, nodes, linearized, longest, record, v, path + [x], seen, cur);
    StackIsIds(m, Operations(h), path + [x], seen, longest, record, cur);
    Unstack(path, x, |h| / 2);
    UnliftTop(h, path, x);
    CallsMatchPop(m, h, nodes, path, v.calls, x);
  }

  /** The walk has met a return: the last call taken is put back, and the walk goes on after it. */
  method Backtrack<S(!new), I(!new), O(!new)>(
    m: Model<S, I, O>, h: seq<Entry<I, O>>, ghost nodes: seq<Node<I, O>>, linearized: array<B.Word>,
    ghost longest: seq<Option<seq<nat>>>, ghost longest': seq<Option<seq<nat>>>, record: bool, v: Locals<I, O, S>,
    ghost path: seq<nat>, ghost x: nat, ghost seen: set<Config<S>>, ghost cur: int)
    returns (v': Locals<I, O, S>, ghost cur': int)
    requires Inv(m, h, nodes, linearized, longest, record, v, path + [x], seen, cur)
    requires v.entry != null && v.entry.mate == null
    requires if record then RecordsUpdated(longest, longest', path + [x]) else longest' == longest
    modifies nodes, linearized
    ensures Inv(m, h, nodes, linearized, longest', record, v', path, seen, cur')
    ensures Rank(Operations(h), path, cur') < Rank(Operations(h), path + [x], cur)
  {
    hide Searching, SoundEquality, Carries, Represents, CallsMatch, CacheGood, At, Ids, Partial, WellFormed, Unliftable, Unlift,
      RecordsUpdated, Elements, Operations, Replay, B.Members, LiftAll;
    TopFacts(m, h, nodes, linearized, longest, record, v, path, x, seen, cur);
    var callsTop := v.calls[|v.calls| - 1];
    var entry := callsTop.entry;
    B.Clear(linearized, entry.id);
    UnliftNode(entry, nodes, LiftAll(h, path + [x]), CallPos(h, x) + 1, ReturnPos(h, x) + 1);
    cur' := PutBack(m, h, nodes, longest, longest', record, path, x, seen, cur);
    v' := Locals(entry.next, callsTop.state, v.cache, v.calls[..|v.calls| - 1]);
  }

  lemma Unstack(path: seq<nat>, x: nat, n: nat)
    requires Ids(path + [x], n)
    ensures Ids(path, n) && x < n && x !in Elements(path)
    ensures Elements(path + [x]) - {x} == Elements(path)
  {
    assert forall j :: 0 <= j < |path| ==> (path + [x])[j] == path[j];
    assert (path + [x])[|path|] == x;
    ElementsSnoc(path, x);
  }

  // ----- The whole search

  /** The list is empty exactly when the walk has nowhere to stand. */
  lemma EmptyList<S(!new), I(!new), O(!new)>(
    m: Model<S, I, O>, h: seq<Entry<I, O>>, nodes: seq<Node<I, O>>, linearized: array<B.Word>,
    longest: seq<Option<seq<nat>>>, record: bool, v: Locals<I, O, S>,
    path: seq<nat>, seen: set<Config<S>>, cur: int)
    requires Inv(m, h, nodes, linearized, longest, record, v, path, seen, cur)
    ensures v.entry == null <==> nodes[0].next == null
    ensures v.entry == null ==> Linearization(m, Operations(h), path) && Timed(Operations(h))
  {
    hide SoundEquality, Carries, Represents, CallsMatch, CacheGood, BitsGood;
    StackIsIds(m, Operations(h), path, seen, longest, record, cur);
    var first := FromHead(h, nodes, path);
    if v.entry == null {
      forall a: nat | a < |h| / 2
        ensures a in Elements(path)
      {
        assert h[CallPos(h, a)].id == a;
      }
      Success(m, Operations(h), path);
    }
  }

  /** The empty stack cannot be backtracked from: the search is over. */
  lemma NothingLeft<S(!new), I(!new), O(!new)>(
    m: Model<S, I, O>, h: seq<Entry<I, O>>, nodes: seq<Node<I, O>>, linearized: array<B.Word>,
    longest: seq<Option<seq<nat>>>, record: bool, v: Locals<I, O, S>,
    seen: set<Config<S>>, cur: int)
    requires Inv(m, h, nodes, linearized, longest, record, v, [], seen, cur)
    requires v.entry != null && v.entry.mate == null
    ensures !Linearizable(m, Operations(h))
    ensures record ==> Longest(m, Operations(h), longest)
  {
    ReturnFacts(m, h, nodes, linearized, longest, record, v, [], seen, cur);
    GiveUp(m, Operations(h), seen, longest, record, cur, h[cur].id);
  }

  lemma Begin<S(!new), I(!new), O(!new)>(
    m: Model<S, I, O>, h: seq<Entry<I, O>>, nodes: seq<Node<I, O>>, linearized: array<B.Word>,
    longest: seq<Option<seq<nat>>>, record: bool)
    returns (cur: int)
    requires SoundEquality(m) && WellFormed(h)
    requires Represents(nodes, Initial(|h|)) && Carries(h, nodes)
    requires |h| / 2 <= B.WIDTH * linearized.Length && B.Members(linearized[..]) == {}
    requires |longest| == |h| / 2 && forall x :: 0 <= x < |longest| ==> longest[x] == None
    ensures Inv(m, h, nodes, linearized, longest, record, Locals(nodes[0].next, m.init, map[], []), [], {}, cur)
  {
    assert LiftAll(h, []) == Initial(|h|);
    assert Elements([]) == {};
    cur := FromHead(h, nodes, []);
    OperationsTimed(h);
    Start(m, Operations(h), longest, record, cur);
  }

  lemma {:induction false} CacheHit<S, I, O>(m: Model<S, I, O>, ops: seq<Operation<I, O>>, cache: Cache<S>, words: nat, seen: set<Config<S>>,
                          done: set<nat>, state: S, x: nat, newState: S)
    requires CacheGood(cache, words, seen) && x < |ops|
    requires m.step(state, ops[x].input, ops[x].output) == (true, newState) && Holds(m, cache, done + {x}, newState)
    ensures Tried(m, ops, seen, Config(done, state), x)
  {
    var k, i :| k in cache && 0 <= i < |cache[k]| &&
      B.Members(cache[k][i].linearized) == done + {x} && m.equal(newState, cache[k][i].state);
    assert Config(B.Members(cache[k][i].linearized), cache[k][i].state) in seen;
  }

  /** The walk has met a call: take it, unless it is not allowed or leads where the search has been. */
  method TryCall<S(!new), I(!new), O(!new)>(
    m: Model<S, I, O>, h: seq<Entry<I, O>>, head: Node<I, O>, ghost nodes: seq<Node<I, O>>, linearized: array<B.Word>,
    ghost longest: seq<Option<seq<nat>>>, record: bool, v: Locals<I, O, S>,
    ghost path: seq<nat>, ghost seen: set<Config<S>>, ghost cur: int)
    returns (v': Locals<I, O, S>, ghost path': seq<nat>, ghost seen': set<Config<S>>, ghost cur': int)
    requires Inv(m, h, nodes, linearized, longest, record, v, path, seen, cur)
    requires v.entry != null && v.entry.mate != null && head == nodes[0]
    modifies nodes, linearized
    ensures Inv(m, h, nodes, linearized, longest, record, v', path', seen', cur')
    ensures Rank(Operations(h), path', cur') < Rank(Operations(h), path, cur)
  {
    hide Searching, SoundEquality, Carries, Represents, CallsMatch, At, Ids, Partial, WellFormed,
      Elements, Operations, Replay, B.Members, Bucketed, CacheSeen;
    CallFacts(m, h, nodes, linearized, longest, record, v, path, seen, cur);
    ghost var x: nat := v.entry.id;
    path', seen' := path, seen;
    var (allowed, newState) := m.step(v.state, v.entry.value.input, v.entry.mate.value.output);
    if allowed {
      var newLinearized := B.Clone(linearized);
      B.Set(newLinearized, v.entry.id);
      var hit := CacheContains(m, v.cache, newLinearized, newState);
      if !hit {
        var cache := AddToCache(v.cache, newLinearized, newState, seen);
        path', seen' := path + [x], seen + {Config(Elements(path) + {x}, newState)};
        v', cur' := Take(m, h, head, nodes, linearized, longest, record, v, newState, cache, path, x, seen, cur);
      } else {
        CacheHit(m, Operations(h), v.cache, linearized.Length, seen, Elements(path), v.state, x, newState);
        v', cur' := StepOver(m, h, nodes, linearized, longest, record, v, path, seen, cur);
      }
    } else {
      v', cur' := StepOver(m, h, nodes, linearized, longest, record, v, path, seen, cur);
    }
  }

  /**
   Decides whether the history is linearizable. `kill(t)` is what the t-th iteration
   reads from the kill flag; `rounds` is how many iterations read it. Only the last one can
   have read a set flag, and if it did not, the answer is exact.
   */
  method Check<S(!new), I(!new), O(!new)>(m: Model<S, I, O>, h: seq<Entry<I, O>>, computePartial: bool, kill: nat -> bool)
    returns (ok: bool, longest: seq<Option<seq<nat>>>, rounds: nat)
    requires SoundEquality(m) && WellFormed(h)
    ensures ok ==> Linearizable(m, Operations(h))
    ensures !ok ==> !Linearizable(m, Operations(h)) || (rounds > 0 && kill(rounds - 1))
    ensures forall t: nat :: t < rounds && (ok || t < rounds - 1) ==> !kill(t)
    ensures RecordsSound(m, Operations(h), longest)
    ensures ok ==> forall x :: 0 <= x < |longest| ==> longest[x].Some? && Linearization(m, Operations(h), longest[x].value)
    ensures !ok && computePartial && !(rounds > 0 && kill(rounds - 1)) ==> Longest(m, Operations(h), longest)
  {
    hide Searching, SoundEquality, Carries, Represents, CallsMatch, At, Ids, Partial, WellFormed, RecordsSound,
      Operations, Replay, B.Members, Linearization, Longest, RecordsUpdated, CacheGood, Inv, Rank;
    var head, n;
    ghost var nodes;
    head, n, nodes := MakeList(h);
    var linearized := B.NewBitset(n);
    var records := new Option<seq<nat>>[n](i => None);
    var v := Locals(head.next, m.init, map[], []);
    ghost var cur := Begin(m, h, nodes, linearized, records[..], computePartial);
    ghost var path, seen := [], {};
    rounds := 0;
    while head.next != null
      invariant fresh(nodes) && fresh(linearized) && fresh(records)
      invariant records.Length == n == |h| / 2 && |nodes| == |h| + 1 && head == nodes[0]
      invariant Inv(m, h, nodes, linearized, records[..], computePartial, v, path, seen, cur)
      invariant forall t: nat :: t < rounds ==> !kill(t)
      decreases Rank(Operations(h), path, cur)
    {
      EmptyList(m, h, nodes, linearized, records[..], computePartial, v, path, seen, cur);
      StackFacts(m, h, nodes, linearized, records[..], computePartial, v, path, seen, cur);
      rounds := rounds + 1;
      if kill(rounds - 1) {
        return false, records[..], rounds;
      }
      if v.entry.mate != null {
        v, path, seen, cur := TryCall(m, h, head, nodes, linearized, records[..], computePartial, v, path, seen, cur);
      } else {
        if |v.calls| == 0 {
          NothingLeft(m, h, nodes, linearized, records[..], computePartial, v, seen, cur);
          return false, records[..], rounds;
        }
        ghost var rest, x := path[..|path| - 1], path[|path| - 1];
        assert path == rest + [x];
        ghost var was := records[..];
        if computePartial {
          RecordLongest(v.calls, records, path);
        }
        v, cur := Backtrack(m, h, nodes, linearized, was, records[..], computePartial, v, rest, x, seen, cur);
        path := rest;
      }
    }
    EmptyList(m, h, nodes, linearized, records[..], computePartial, v, path, seen, cur);
    StackFacts(m, h, nodes, linearized, records[..], computePartial, v, path, seen, cur);
    var order := StackIds(v.calls, path);
    FullRecordsSound(m, Operations(h), order);
    return true, seq(n, i => Some(order)), rounds;
  }

  /** The calls on the stack are the path, and what has been recorded so far is sound. */
  lemma StackFacts<S(!new), I(!new), O(!new)>(
    m: Model<S, I, O>, h: seq<Entry<I, O>>, nodes: seq<Node<I, O>>, linearized: array<B.Word>,
    longest: seq<Option<seq<nat>>>, record: bool, v: Locals<I, O, S>,
    path: seq<nat>, seen: set<Config<S>>, cur: int)
    requires Inv(m, h, nodes, linearized, longest, record, v, path, seen, cur)
    ensures |v.calls| == |path| && Ids(path, |h| / 2)
    ensures forall j :: 0 <= j < |path| ==> v.calls[j].entry.id == path[j]
    ensures RecordsSound(m, Operations(h), longest)
  {
    hide SoundEquality, Represents, At, CacheGood, BitsGood;
    StackHoldsPath(m, h, nodes, path, v.calls);
  }

  lemma FullRecordsSound<S, I, O>(m: Model<S, I, O>, ops: seq<Operation<I, O>>, order: seq<nat>)
    requires Linearization(m, ops, order) && Timed(ops)
    ensures RecordsSound(m, ops, seq(|ops|, i => Some(order)))
  {
    LinearizationIsFullPartial(m, ops, order);
    PermutationCovers(order, |ops|);
  }
}
