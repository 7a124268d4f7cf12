/**
 Why the search of checkSingle is right (porcupine/checker.go:174-248).

 A configuration is a set of operations already linearized and the state they
 lead to. The search keeps a stack of configurations, walks the calls that are
 still in the list, and skips a call that leads to a configuration it has seen.
 The invariant says that every configuration seen is either on the stack or
 finished, and that from a finished one every possible next operation leads to
 a configuration seen. So no complete order goes through a finished one.
 */
module Search {
  import opened Options
  import opened History

  datatype Config<S> = Config(done: set<nat>, state: S)

  /** Every call comes before its return, and no two events happen at the same time. */
  ghost predicate Timed<I, O>(ops: seq<Operation<I, O>>) {
    && (forall a :: 0 <= a < |ops| ==> ops[a].call < ops[a].ret)
    && (forall a, b :: 0 <= a < |ops| && 0 <= b < |ops| ==> ops[a].call != ops[b].ret)
    && (forall a, b :: 0 <= a < b < |ops| ==> ops[a].call != ops[b].call)
  }

  /** Some configuration seen has the same operations and a state that `equal` accepts. */
  ghost predicate Covered<S, I, O>(m: Model<S, I, O>, seen: set<Config<S>>, done: set<nat>, s: S) {
    exists c :: c in seen && c.done == done && m.equal(s, c.state)
  }

  /** If x is allowed in c, where it leads has been seen. */
  ghost predicate Tried<S, I, O>(m: Model<S, I, O>, ops: seq<Operation<I, O>>, seen: set<Config<S>>, c: Config<S>, x: nat)
    requires x < |ops|
  {
    var (ok, after) := m.step(c.state, ops[x].input, ops[x].output);
    ok ==> Covered(m, seen, c.done + {x}, after)
  }

  /** Every operation that can come next in c and was called before `bound` has been tried. */
  ghost predicate TriedBefore<S, I, O>(m: Model<S, I, O>, ops: seq<Operation<I, O>>, seen: set<Config<S>>, c: Config<S>, bound: int) {
    forall x: nat :: Enabled(ops, c.done, x) && ops[x].call < bound ==> Tried(m, ops, seen, c, x)
  }

  ghost predicate Explored<S, I, O>(m: Model<S, I, O>, ops: seq<Operation<I, O>>, seen: set<Config<S>>, c: Config<S>) {
    forall x: nat :: Enabled(ops, c.done, x) ==> Tried(m, ops, seen, c, x)
  }

  /** A recorded order that holds operation x and is at least as long as `size`. */
  ghost predicate Recorded(longest: seq<Option<seq<nat>>>, x: nat, size: nat) {
    x < |longest| && longest[x].Some? && |longest[x].value| >= size
  }

  ghost predicate Finished<S, I, O>(m: Model<S, I, O>, ops: seq<Operation<I, O>>, seen: set<Config<S>>,
                                    longest: seq<Option<seq<nat>>>, record: bool, c: Config<S>)
  {
    && Explored(m, ops, seen, c)
    && (exists a: nat :: a < |ops| && a !in c.done)
    && (record ==> forall x :: x in c.done ==> Recorded(longest, x, |c.done|))
  }

  /** The configuration after the first j operations of the stack. */
  ghost function ConfigAt<S, I, O>(m: Model<S, I, O>, ops: seq<Operation<I, O>>, path: seq<nat>, j: nat): Config<S>
    requires Partial(m, ops, path) && j <= |path|
  {
    PartialPrefix(m, ops, path, j);
    Config(Elements(path[..j]), Replay(m, ops, path[..j]).value)
  }

  ghost predicate OnStack<S, I, O>(m: Model<S, I, O>, ops: seq<Operation<I, O>>, path: seq<nat>, c: Config<S>)
    requires Partial(m, ops, path)
  {
    exists j :: 0 < j <= |path| && c == ConfigAt(m, ops, path, j)
  }

  /** No operation still in the list has returned before `cur`. */
  ghost predicate NoReturnBefore<I, O>(ops: seq<Operation<I, O>>, done: set<nat>, cur: int) {
    forall a: nat :: a < |ops| && a !in done ==> cur <= ops[a].ret
  }

  /** Every recorded order is a linearizable prefix that holds the operation it is recorded for. */
  ghost predicate RecordsSound<S, I, O>(m: Model<S, I, O>, ops: seq<Operation<I, O>>, longest: seq<Option<seq<nat>>>) {
    && |longest| == |ops|
    && forall x :: 0 <= x < |longest| && longest[x].Some? ==>
         Partial(m, ops, longest[x].value) && x in Elements(longest[x].value)
  }

  /** The calls before each operation of the stack have been tried in the configuration it was chosen in. */
  ghost predicate StackTried<S, I, O>(m: Model<S, I, O>, ops: seq<Operation<I, O>>, path: seq<nat>, seen: set<Config<S>>)
    requires Partial(m, ops, path)
  {
    forall j {:trigger path[j]} :: 0 <= j < |path| ==>
      TriedBefore(m, ops, seen, ConfigAt(m, ops, path, j), ops[path[j]].call + 1)
  }

  ghost predicate SeenAccounted<S, I, O>(m: Model<S, I, O>, ops: seq<Operation<I, O>>, path: seq<nat>, seen: set<Config<S>>,
                                         longest: seq<Option<seq<nat>>>, record: bool)
    requires Partial(m, ops, path)
  {
    forall c :: c in seen ==> OnStack(m, ops, path, c) || Finished(m, ops, seen, longest, record, c)
  }

  /** The loop invariant of checkSingle, with the walk at time `cur`. */
  ghost predicate Searching<S, I, O>(m: Model<S, I, O>, ops: seq<Operation<I, O>>, path: seq<nat>, seen: set<Config<S>>,
                                     longest: seq<Option<seq<nat>>>, record: bool, cur: int)
  {
    && Timed(ops)
    && Partial(m, ops, path)
    && RecordsSound(m, ops, longest)
    && StackTried(m, ops, path, seen)
    && SeenAccounted(m, ops, path, seen, longest, record)
    && NoReturnBefore(ops, Elements(path), cur)
    && TriedBefore(m, ops, seen, ConfigAt(m, ops, path, |path|), cur)
  }

  lemma {:induction false} PartialPrefix<S, I, O>(m: Model<S, I, O>, ops: seq<Operation<I, O>>, path: seq<nat>, j: nat)
    requires Partial(m, ops, path) && j <= |path|
    ensures Partial(m, ops, path[..j])
    decreases |path|
  {
    if j < |path| {
      PartialUnsnoc(m, ops, path);
      PartialPrefix(m, ops, path[..|path| - 1], j);
      assert path[..|path| - 1][..j] == path[..j];
    } else {
      assert path[..j] == path;
    }
  }

  lemma TopConfig<S, I, O>(m: Model<S, I, O>, ops: seq<Operation<I, O>>, path: seq<nat>)
    requires Partial(m, ops, path)
    ensures ConfigAt(m, ops, path, |path|) == Config(Elements(path), Replay(m, ops, path).value)
  {
    assert path[..|path|] == path;
  }

  lemma ConfigAtSnoc<S, I, O>(m: Model<S, I, O>, ops: seq<Operation<I, O>>, path: seq<nat>, x: nat, j: nat)
    requires Partial(m, ops, path) && Partial(m, ops, path + [x]) && j <= |path|
    ensures ConfigAt(m, ops, path + [x], j) == ConfigAt(m, ops, path, j)
  {
    assert (path + [x])[..j] == path[..j];
  }

  lemma CoveredGrows<S, I, O>(m: Model<S, I, O>, ops: seq<Operation<I, O>>, seen: set<Config<S>>, more: set<Config<S>>, c: Config<S>)
    requires seen <= more
    ensures forall x: nat :: x < |ops| && Tried(m, ops, seen, c, x) ==> Tried(m, ops, more, c, x)
  {
  }

  // ----- The steps of the loop

  /** Nothing still in the list happens strictly between the two times. */
  ghost predicate NothingBetween<I, O>(ops: seq<Operation<I, O>>, done: set<nat>, lo: int, hi: int) {
    forall a: nat :: a < |ops| && a !in done ==>
      && !(lo < ops[a].call < hi)
      && !(lo < ops[a].ret < hi)
  }

  /** The walk stands at the call of x, which is still in the list. */
  ghost predicate AtCall<I, O>(ops: seq<Operation<I, O>>, path: seq<nat>, x: nat, cur: int) {
    x < |ops| && x !in Elements(path) && ops[x].call == cur
  }

  /** The walk only ever meets calls that can come next. */
  lemma CallIsEnabled<S, I, O>(m: Model<S, I, O>, ops: seq<Operation<I, O>>, path: seq<nat>, seen: set<Config<S>>,
                               longest: seq<Option<seq<nat>>>, record: bool, cur: int, x: nat)
    requires Searching(m, ops, path, seen, longest, record, cur) && AtCall(ops, path, x, cur)
    ensures Enabled(ops, Elements(path), x)
  {
  }

  /** entry = entry.next, when the call is not allowed or leads to a configuration seen. */
  lemma Advance<S, I, O>(m: Model<S, I, O>, ops: seq<Operation<I, O>>, path: seq<nat>, seen: set<Config<S>>,
                         longest: seq<Option<seq<nat>>>, record: bool, cur: int, x: nat, cur': int)
    requires Searching(m, ops, path, seen, longest, record, cur) && AtCall(ops, path, x, cur)
    requires Tried(m, ops, seen, Config(Elements(path), Replay(m, ops, path).value), x)
    requires cur < cur' && NothingBetween(ops, Elements(path), cur, cur')
    ensures Searching(m, ops, path, seen, longest, record, cur')
  {
    TopConfig(m, ops, path);
    var c := ConfigAt(m, ops, path, |path|);
    forall y: nat | Enabled(ops, c.done, y) && ops[y].call < cur'
      ensures Tried(m, ops, seen, c, y)
    {
      assert ops[y].call <= cur;
      if ops[y].call == cur {
        assert y == x;
      }
    }
  }

  lemma PushAccounted<S, I, O>(m: Model<S, I, O>, ops: seq<Operation<I, O>>, path: seq<nat>, seen: set<Config<S>>,
                               longest: seq<Option<seq<nat>>>, record: bool, x: nat, top: Config<S>)
    requires Partial(m, ops, path) && Partial(m, ops, path + [x])
    requires SeenAccounted(m, ops, path, seen, longest, record)
    requires top == ConfigAt(m, ops, path + [x], |path| + 1)
    ensures SeenAccounted(m, ops, path + [x], seen + {top}, longest, record)
  {
    var more := seen + {top};
    forall c | c in more
      ensures OnStack(m, ops, path + [x], c) || Finished(m, ops, more, longest, record, c)
    {
      if c != top {
        if OnStack(m, ops, path, c) {
          var j :| 0 < j <= |path| && c == ConfigAt(m, ops, path, j);
          ConfigAtSnoc(m, ops, path, x, j);
          assert c == ConfigAt(m, ops, path + [x], j);
        } else {
          CoveredGrows(m, ops, seen, more, c);
        }
      }
    }
  }

  lemma PushTried<S, I, O>(m: Model<S, I, O>, ops: seq<Operation<I, O>>, path: seq<nat>, seen: set<Config<S>>,
                           cur: int, x: nat, top: Config<S>)
    requires Timed(ops) && Partial(m, ops, path) && Partial(m, ops, path + [x])
    requires StackTried(m, ops, path, seen)
    requires TriedBefore(m, ops, seen, ConfigAt(m, ops, path, |path|), cur)
    requires ops[x].call == cur
    requires top == ConfigAt(m, ops, path + [x], |path| + 1) && m.equal(top.state, top.state)
    ensures StackTried(m, ops, path + [x], seen + {top})
  {
    hide Partial, Replay, TriedBefore, ConfigAt;
    var path', more := path + [x], seen + {top};
    PartialIds(m, ops, path');
    forall j | 0 <= j < |path'|
      ensures TriedBefore(m, ops, more, ConfigAt(m, ops, path', j), ops[path'[j]].call + 1)
    {
      ConfigAtSnoc(m, ops, path, x, j);
      if j < |path| {
        assert path'[j] == path[j];
        TriedGrows(m, ops, seen, more, ConfigAt(m, ops, path, j), ops[path[j]].call + 1);
      } else {
        TopTried(m, ops, path, seen, cur, x, top);
      }
    }
  }

  lemma TriedGrows<S, I, O>(m: Model<S, I, O>, ops: seq<Operation<I, O>>, seen: set<Config<S>>, more: set<Config<S>>,
                            c: Config<S>, bound: int)
    requires seen <= more && TriedBefore(m, ops, seen, c, bound)
    ensures TriedBefore(m, ops, more, c, bound)
  {
    hide Tried;
    CoveredGrows(m, ops, seen, more, c);
  }

  lemma PartialIds<S, I, O>(m: Model<S, I, O>, ops: seq<Operation<I, O>>, path: seq<nat>)
    requires Partial(m, ops, path)
    ensures Ids(path, |ops|)
  {
  }

  /** The call that is taken has been tried in the configuration it leaves. */
  lemma TopTried<S, I, O>(m: Model<S, I, O>, ops: seq<Operation<I, O>>, path: seq<nat>, seen: set<Config<S>>,
                          cur: int, x: nat, top: Config<S>)
    requires Timed(ops) && Partial(m, ops, path) && Partial(m, ops, path + [x])
    requires TriedBefore(m, ops, seen, ConfigAt(m, ops, path, |path|), cur)
    requires ops[x].call == cur
    requires top == ConfigAt(m, ops, path + [x], |path| + 1) && m.equal(top.state, top.state)
    ensures TriedBefore(m, ops, seen + {top}, ConfigAt(m, ops, path, |path|), cur + 1)
  {
    var path', more := path + [x], seen + {top};
    hide Partial, Replay, ConfigAt;
    TopConfig(m, ops, path);
    TopConfig(m, ops, path');
    PartialUnsnoc(m, ops, path');
    ElementsSnoc(path, x);
    assert path'[..|path|] == path && path'[|path|] == x;
    var c := ConfigAt(m, ops, path, |path|);
    CoveredGrows(m, ops, seen, more, c);
    assert Tried(m, ops, more, c, x);
  }

  /** lift(entry), and start again from the head of the list. */
  lemma Push<S(!new), I(!new), O(!new)>(
    m: Model<S, I, O>, ops: seq<Operation<I, O>>, path: seq<nat>, seen: set<Config<S>>,
    longest: seq<Option<seq<nat>>>, record: bool, cur: int, x: nat, cur': int)
    requires SoundEquality(m)
    requires Searching(m, ops, path, seen, longest, record, cur) && AtCall(ops, path, x, cur)
    requires m.step(Replay(m, ops, path).value, ops[x].input, ops[x].output).0
    requires forall a: nat :: a < |ops| && a !in Elements(path) + {x} ==> cur' <= ops[a].call
    ensures Partial(m, ops, path + [x])
    ensures var after := m.step(Replay(m, ops, path).value, ops[x].input, ops[x].output).1;
            && Replay(m, ops, path + [x]) == Some(after)
            && Searching(m, ops, path + [x], seen + {Config(Elements(path) + {x}, after)}, longest, record, cur')
  {
    CallIsEnabled(m, ops, path, seen, longest, record, cur, x);
    PartialSnoc(m, ops, path, x);
    ElementsSnoc(path, x);
    TopConfig(m, ops, path + [x]);
    var top := ConfigAt(m, ops, path + [x], |path| + 1);
    PushAccounted(m, ops, path, seen, longest, record, x, top);
    PushTried(m, ops, path, seen, cur, x, top);
  }

  /** What recording the stack does: it is noted for each of its operations that had nothing as long. */
  ghost predicate RecordsUpdated(longest: seq<Option<seq<nat>>>, longest': seq<Option<seq<nat>>>, path: seq<nat>) {
    && |longest'| == |longest|
    && forall x: nat :: x < |longest| ==>
         && (longest'[x] == longest[x] || (x in Elements(path) && longest'[x] == Some(path)))
         && (longest[x].Some? ==> Recorded(longest', x, |longest[x].value|))
         && (x in Elements(path) ==> Recorded(longest', x, |path|))
  }

  lemma FinishTop<S, I, O>(m: Model<S, I, O>, ops: seq<Operation<I, O>>, path: seq<nat>, seen: set<Config<S>>,
                           longest: seq<Option<seq<nat>>>, record: bool, cur: int, a: nat)
    requires Searching(m, ops, path, seen, longest, record, cur)
    requires a < |ops| && a !in Elements(path) && ops[a].ret == cur
    ensures Explored(m, ops, seen, Config(Elements(path), Replay(m, ops, path).value))
  {
    TopConfig(m, ops, path);
    var c := ConfigAt(m, ops, path, |path|);
    forall y: nat | Enabled(ops, c.done, y)
      ensures Tried(m, ops, seen, c, y)
    {
      assert ops[y].call < cur;
    }
  }

  lemma PopAccounted<S, I, O>(m: Model<S, I, O>, ops: seq<Operation<I, O>>, path: seq<nat>, seen: set<Config<S>>,
                              longest: seq<Option<seq<nat>>>, longest': seq<Option<seq<nat>>>, record: bool, a: nat, x: nat)
    requires Partial(m, ops, path) && Partial(m, ops, path + [x]) && |longest| == |ops|
    requires SeenAccounted(m, ops, path + [x], seen, longest, record)
    requires Explored(m, ops, seen, ConfigAt(m, ops, path + [x], |path| + 1))
    requires a < |ops| && a !in Elements(path + [x])
    requires if record then RecordsUpdated(longest, longest', path + [x]) else longest' == longest
    ensures SeenAccounted(m, ops, path, seen, longest', record)
  {
    hide Finished, Partial, ConfigAt;
    forall c | c in seen
      ensures OnStack(m, ops, path, c) || Finished(m, ops, seen, longest', record, c)
    {
      if Finished(m, ops, seen, longest, record, c) {
        StaysFinished(m, ops, path + [x], seen, longest, longest', record, c);
      } else {
        var j :| 0 < j <= |path + [x]| && c == ConfigAt(m, ops, path + [x], j);
        if j <= |path| {
          ConfigAtSnoc(m, ops, path, x, j);
        } else {
          TopFinished(m, ops, path + [x], seen, longest, longest', record, a);
        }
      }
    }
  }

  lemma StaysFinished<S, I, O>(m: Model<S, I, O>, ops: seq<Operation<I, O>>, path: seq<nat>, seen: set<Config<S>>,
                               longest: seq<Option<seq<nat>>>, longest': seq<Option<seq<nat>>>, record: bool, c: Config<S>)
    requires Finished(m, ops, seen, longest, record, c) && |longest| == |ops|
    requires if record then RecordsUpdated(longest, longest', path) else longest' == longest
    ensures Finished(m, ops, seen, longest', record, c)
  {
    hide Explored;
  }

  lemma TopFinished<S, I, O>(m: Model<S, I, O>, ops: seq<Operation<I, O>>, path: seq<nat>, seen: set<Config<S>>,
                             longest: seq<Option<seq<nat>>>, longest': seq<Option<seq<nat>>>, record: bool, a: nat)
    requires Partial(m, ops, path) && |longest| == |ops|
    requires Explored(m, ops, seen, ConfigAt(m, ops, path, |path|))
    requires a < |ops| && a !in Elements(path)
    requires if record then RecordsUpdated(longest, longest', path) else longest' == longest
    ensures Finished(m, ops, seen, longest', record, ConfigAt(m, ops, path, |path|))
  {
    hide Explored;
    TopConfig(m, ops, path);
    ElementsCardinality(path, |ops|);
  }

  /** Backtracking: unlift the last operation and go on after it. */
  lemma Pop<S, I, O>(m: Model<S, I, O>, ops: seq<Operation<I, O>>, path: seq<nat>, seen: set<Config<S>>,
                     longest: seq<Option<seq<nat>>>, longest': seq<Option<seq<nat>>>, record: bool,
                     cur: int, a: nat, x: nat, cur': int)
    requires Searching(m, ops, path + [x], seen, longest, record, cur)
    requires a < |ops| && a !in Elements(path + [x]) && ops[a].ret == cur
    requires if record then RecordsUpdated(longest, longest', path + [x]) else longest' == longest
    requires Partial(m, ops, path) && x < |ops|
    requires ops[x].call < cur' && NothingBetween(ops, Elements(path), ops[x].call, cur')
    ensures Searching(m, ops, path, seen, longest', record, cur')
  {
    var path' := path + [x];
    FinishTop(m, ops, path', seen, longest, record, cur, a);
    TopConfig(m, ops, path');
    PopAccounted(m, ops, path, seen, longest, longest', record, a, x);
    forall j | 0 <= j < |path|
      ensures TriedBefore(m, ops, seen, ConfigAt(m, ops, path, j), ops[path[j]].call + 1)
    {
      assert path'[j] == path[j];
      ConfigAtSnoc(m, ops, path, x, j);
    }
    PopTop(m, ops, path, seen, x, cur');
  }

  lemma PopTop<S, I, O>(m: Model<S, I, O>, ops: seq<Operation<I, O>>, path: seq<nat>, seen: set<Config<S>>, x: nat, cur': int)
    requires Timed(ops) && Partial(m, ops, path) && Partial(m, ops, path + [x])
    requires StackTried(m, ops, path + [x], seen)
    requires ops[x].call < cur' && NothingBetween(ops, Elements(path), ops[x].call, cur')
    ensures NoReturnBefore(ops, Elements(path), cur')
    ensures TriedBefore(m, ops, seen, ConfigAt(m, ops, path, |path|), cur')
  {
    var path' := path + [x];
    assert path'[|path|] == x;
    ConfigAtSnoc(m, ops, path, x, |path|);
    TopConfig(m, ops, path);
    PartialUnsnoc(m, ops, path');
    assert path'[..|path|] == path;
    assert Enabled(ops, Elements(path), x);
  }

  // ----- The end of the search

  /** With the stack empty and the walk at a return, everything reachable has been seen. */
  lemma {:induction false} EverythingSeen<S(!new), I(!new), O(!new)>(
    m: Model<S, I, O>, ops: seq<Operation<I, O>>, seen: set<Config<S>>,
    longest: seq<Option<seq<nat>>>, record: bool, p: seq<nat>)
    requires SoundEquality(m)
    requires Partial(m, ops, p) && p != []
    requires forall c :: c in seen ==> Finished(m, ops, seen, longest, record, c)
    requires Explored(m, ops, seen, Config({}, m.init))
    ensures Covered(m, seen, Elements(p), Replay(m, ops, p).value)
    decreases |p|
  {
    var q, x := p[..|p| - 1], p[|p| - 1];
    PartialUnsnoc(m, ops, p);
    var s := Replay(m, ops, q).value;
    if q == [] {
      assert Elements(q) == {};
      assert Tried(m, ops, seen, Config({}, m.init), x);
    } else {
      EverythingSeen(m, ops, seen, longest, record, q);
      var c :| c in seen && c.done == Elements(q) && m.equal(s, c.state);
      assert Tried(m, ops, seen, c, x);
    }
  }

  /** What is larger than the stack is not on it. */
  lemma LargerNotOnStack<S, I, O>(m: Model<S, I, O>, ops: seq<Operation<I, O>>, path: seq<nat>, c: Config<S>)
    requires Partial(m, ops, path) && |c.done| > |path|
    ensures !OnStack(m, ops, path, c)
  {
    hide Partial, Replay;
    PartialIds(m, ops, path);
    forall j | 0 < j <= |path|
      ensures c != ConfigAt(m, ops, path, j)
    {
      ElementsCardinality(path[..j], |ops|);
    }
  }

  /**
   Why a cache hit may be skipped: the configuration found is larger than the stack, so it is not
   on it, and no complete order of the operations goes through it or through an equal state.
   */
  lemma {:induction false} HitHasFailed<S(!new), I(!new), O(!new)>(
    m: Model<S, I, O>, ops: seq<Operation<I, O>>, path: seq<nat>, seen: set<Config<S>>,
    longest: seq<Option<seq<nat>>>, record: bool, c: Config<S>, q: seq<nat>, k: nat)
    requires SoundEquality(m) && Partial(m, ops, path) && SeenAccounted(m, ops, path, seen, longest, record)
    requires c in seen && |c.done| > |path|
    requires Partial(m, ops, q) && k <= |q| && Elements(q[..k]) == c.done && m.equal(ConfigAt(m, ops, q, k).state, c.state)
    ensures |q| < |ops|
    decreases |q| - k
  {
    LargerNotOnStack(m, ops, path, c);
    assert Finished(m, ops, seen, longest, record, c);
    if k == |q| {
      assert q[..k] == q;
      var a: nat :| a < |ops| && a !in c.done;
      PermutationCovers(q, |ops|);
    } else {
      hide SeenAccounted;
      var x := q[k];
      NextOnPath(m, ops, q, k);
      assert Tried(m, ops, seen, c, x);
      var after := m.step(c.state, ops[x].input, ops[x].output).1;
      var c' :| c' in seen && c'.done == c.done + {x} && m.equal(after, c'.state);
      HitHasFailed(m, ops, path, seen, longest, record, c', q, k + 1);
    }
  }

  /** One more operation of a linearizable prefix. */
  lemma NextOnPath<S, I, O>(m: Model<S, I, O>, ops: seq<Operation<I, O>>, q: seq<nat>, k: nat)
    requires Partial(m, ops, q) && k < |q|
    ensures q[k] < |ops| && Enabled(ops, Elements(q[..k]), q[k]) && Elements(q[..k + 1]) == Elements(q[..k]) + {q[k]}
    ensures |Elements(q[..k + 1])| == |Elements(q[..k])| + 1
    ensures var op := ops[q[k]];
            m.step(ConfigAt(m, ops, q, k).state, op.input, op.output) == (true, ConfigAt(m, ops, q, k + 1).state)
  {
    PartialPrefix(m, ops, q, k);
    PartialPrefix(m, ops, q, k + 1);
    PartialUnsnoc(m, ops, q[..k + 1]);
    assert q[..k + 1][..k] == q[..k];
  }

  /** The search gives up only when there is no linearization, and by then it has recorded the longest prefixes. */
  lemma GiveUp<S(!new), I(!new), O(!new)>(
    m: Model<S, I, O>, ops: seq<Operation<I, O>>, seen: set<Config<S>>,
    longest: seq<Option<seq<nat>>>, record: bool, cur: int, a: nat)
    requires SoundEquality(m)
    requires Searching(m, ops, [], seen, longest, record, cur)
    requires a < |ops| && ops[a].ret == cur
    ensures !Linearizable(m, ops)
    ensures record ==> Longest(m, ops, longest)
  {
    assert Elements([]) == {};
    FinishTop(m, ops, [], seen, longest, record, cur, a);
    forall p | Partial(m, ops, p)
      ensures |p| < |ops|
      ensures record ==> forall x :: x in Elements(p) ==> Recorded(longest, x, |p|)
    {
      PermutationCovers(p, |ops|);
      ElementsCardinality(p, |ops|);
      if p != [] {
        EverythingSeen(m, ops, seen, longest, record, p);
      }
    }
    forall p
      ensures !Linearization(m, ops, p)
    {
      LinearizationIsFullPartial(m, ops, p);
    }
  }

  /** For each operation, what is recorded is as long as any linearizable prefix that holds the operation. */
  ghost predicate Longest<S, I, O>(m: Model<S, I, O>, ops: seq<Operation<I, O>>, longest: seq<Option<seq<nat>>>) {
    forall p, x :: Partial(m, ops, p) && x in Elements(p) ==> Recorded(longest, x, |p|)
  }

  /** When the list is empty, the stack is a linearization. */
  lemma Success<S, I, O>(m: Model<S, I, O>, ops: seq<Operation<I, O>>, path: seq<nat>)
    requires Timed(ops) && Partial(m, ops, path)
    requires forall a: nat :: a < |ops| ==> a in Elements(path)
    ensures Linearization(m, ops, path)
  {
    ElementsCardinality(path, |ops|);
    PermutationCovers(path, |ops|);
    AtLeast(Elements(path), |ops|);
    LinearizationIsFullPartial(m, ops, path);
  }

  /** Before the first iteration nothing has been seen. */
  lemma Start<S, I, O>(m: Model<S, I, O>, ops: seq<Operation<I, O>>, longest: seq<Option<seq<nat>>>, record: bool, cur: int)
    requires Timed(ops) && |longest| == |ops|
    requires forall x :: 0 <= x < |longest| ==> longest[x] == None
    requires forall a: nat :: a < |ops| ==> cur <= ops[a].call
    ensures Searching(m, ops, [], {}, longest, record, cur)
  {
  }
}
