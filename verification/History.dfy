/**
 What it means for a concurrent history to be linearizable: the specification
 that the checker of package porcupine decides.
 */
module History {
  import opened Options

  /** A sequential specification (porcupine/model.go). `equal` decides which states the search may merge. */
  datatype Model<!S, !I, !O> = Model(init: S, step: (S, I, O) -> (bool, S), equal: (S, S) -> bool)

  /** An operation with its invocation and response times. */
  datatype Operation<I, O> = Operation(input: I, call: int, output: O, ret: int)

  /** One event of a history, in order of time. */
  datatype Entry<I, O> =
    | CallEntry(id: nat, input: I, time: int)
    | ReturnEntry(id: nat, output: O, time: int)

  /**
   What the search needs of `equal`: two states it merges cannot be told apart by
   any later step. `==` (the default, ShallowEqual) always qualifies.
   */
  ghost predicate SoundEquality<S(!new), I(!new), O(!new)>(m: Model<S, I, O>) {
    && (forall s :: m.equal(s, s))
    && (forall s, t, u :: m.equal(s, t) && m.equal(t, u) ==> m.equal(s, u))
    && (forall s, t, i, o :: m.equal(s, t) && m.step(s, i, o).0 ==>
          m.step(t, i, o).0 && m.equal(m.step(s, i, o).1, m.step(t, i, o).1))
  }

  // ----- Orders of operations

  ghost predicate Ids(p: seq<nat>, n: nat) {
    && (forall k :: 0 <= k < |p| ==> p[k] < n)
    && (forall j, k :: 0 <= j < k < |p| ==> p[j] != p[k])
  }

  ghost function Elements(p: seq<nat>): set<nat> {
    set k | 0 <= k < |p| :: p[k]
  }

  /** The state reached by running the operations of p in that order; None if one of them is not allowed. */
  function Replay<S, I, O>(m: Model<S, I, O>, ops: seq<Operation<I, O>>, p: seq<nat>): Option<S>
    requires forall k :: 0 <= k < |p| ==> p[k] < |ops|
  {
    if p == [] then Some(m.init) else
    var before := Replay(m, ops, p[..|p| - 1]);
    if before.None? then None else
    var op := ops[p[|p| - 1]];
    var (ok, after) := m.step(before.value, op.input, op.output);
    if ok then Some(after) else None
  }

  ghost predicate Precedes<I, O>(ops: seq<Operation<I, O>>, a: nat, b: nat)
    requires a < |ops| && b < |ops|
  {
    ops[a].ret < ops[b].call
  }

  /** No operation comes after one that was only invoked once it had returned. */
  ghost predicate RespectsTime<I, O>(ops: seq<Operation<I, O>>, p: seq<nat>)
    requires forall k :: 0 <= k < |p| ==> p[k] < |ops|
  {
    forall j, k :: 0 <= j < k < |p| ==> !Precedes(ops, p[k], p[j])
  }

  ghost predicate Linearization<S, I, O>(m: Model<S, I, O>, ops: seq<Operation<I, O>>, p: seq<nat>) {
    && |p| == |ops|
    && Ids(p, |ops|)
    && RespectsTime(ops, p)
    && Replay(m, ops, p).Some?
  }

  ghost predicate Linearizable<S, I, O>(m: Model<S, I, O>, ops: seq<Operation<I, O>>) {
    exists p :: Linearization(m, ops, p)
  }

  /** An operation can come next once everything that returned before its call is done. */
  ghost predicate Enabled<I, O>(ops: seq<Operation<I, O>>, done: set<nat>, x: nat) {
    && x < |ops|
    && x !in done
    && forall a: nat :: a < |ops| && Precedes(ops, a, x) ==> a in done
  }

  /** A linearizable prefix: a legal order of some of the operations that is closed under "returned before". */
  ghost predicate Partial<S, I, O>(m: Model<S, I, O>, ops: seq<Operation<I, O>>, p: seq<nat>) {
    && Ids(p, |ops|)
    && (forall k :: 0 <= k < |p| ==> Enabled(ops, Elements(p[..k]), p[k]))
    && Replay(m, ops, p).Some?
  }

  lemma ElementsSnoc(p: seq<nat>, x: nat)
    ensures Elements(p + [x]) == Elements(p) + {x}
  {
    assert forall k :: 0 <= k < |p| ==> (p + [x])[k] == p[k];
    assert (p + [x])[|p|] == x;
    assert forall y :: y in Elements(p) ==> exists k :: 0 <= k < |p| && (p + [x])[k] == y;
  }

  lemma {:induction false} ElementsCardinality(p: seq<nat>, n: nat)
    requires Ids(p, n)
    ensures |Elements(p)| == |p|
  {
    if p == [] {
      assert Elements(p) == {};
    } else {
      var q, x := p[..|p| - 1], p[|p| - 1];
      assert p == q + [x];
      ElementsCardinality(q, n);
      ElementsSnoc(q, x);
      assert x !in Elements(q);
    }
  }

  /** A set of n numbers below n holds all of them. */
  lemma {:induction false} FullSet(s: set<nat>, n: nat)
    requires forall x :: x in s ==> x < n
    ensures |s| <= n
    ensures |s| == n ==> forall x: nat :: x < n ==> x in s
  {
    if n == 0 {
      assert s == {};
    } else {
      var t := s - {n - 1};
      FullSet(t, n - 1);
      assert n - 1 in s ==> s == t + {n - 1};
      assert n - 1 !in s ==> s == t;
    }
  }

  /** A set that holds every number below n has at least n elements. */
  lemma {:induction false} AtLeast(s: set<nat>, n: nat)
    requires forall a: nat :: a < n ==> a in s
    ensures |s| >= n
  {
    if n > 0 {
      AtLeast(s - {n - 1}, n - 1);
    }
  }

  lemma PermutationCovers(p: seq<nat>, n: nat)
    requires Ids(p, n)
    ensures |p| <= n
    ensures |p| == n ==> forall x: nat :: x < n ==> x in Elements(p)
  {
    ElementsCardinality(p, n);
    FullSet(Elements(p), n);
  }

  /** The linearizations are exactly the partial ones that hold every operation. */
  lemma LinearizationIsFullPartial<S, I, O>(m: Model<S, I, O>, ops: seq<Operation<I, O>>, p: seq<nat>)
    requires forall a :: 0 <= a < |ops| ==> ops[a].call <= ops[a].ret
    ensures Linearization(m, ops, p) <==> Partial(m, ops, p) && |p| == |ops|
  {
    if Ids(p, |ops|) && |p| == |ops| {
      PermutationCovers(p, |ops|);
      if RespectsTime(ops, p) {
        forall k | 0 <= k < |p|
          ensures Enabled(ops, Elements(p[..k]), p[k])
        {
          forall a: nat | a < |ops| && Precedes(ops, a, p[k])
            ensures a in Elements(p[..k])
          {
            assert a in Elements(p);
            var j :| 0 <= j < |p| && p[j] == a;
            assert j < k;
            assert p[..k][j] == a;
          }
        }
      }
      if forall k :: 0 <= k < |p| ==> Enabled(ops, Elements(p[..k]), p[k]) {
        forall j, k | 0 <= j < k < |p|
          ensures !Precedes(ops, p[k], p[j])
        {
          assert Enabled(ops, Elements(p[..j]), p[j]);
          assert p[k] !in Elements(p[..j]);
        }
      }
    }
  }

  lemma PartialSnoc<S, I, O>(m: Model<S, I, O>, ops: seq<Operation<I, O>>, p: seq<nat>, x: nat)
    requires Partial(m, ops, p) && Enabled(ops, Elements(p), x)
    requires m.step(Replay(m, ops, p).value, ops[x].input, ops[x].output).0
    ensures Partial(m, ops, p + [x])
    ensures Replay(m, ops, p + [x])
         == Some(m.step(Replay(m, ops, p).value, ops[x].input, ops[x].output).1)
  {
    var q := p + [x];
    assert q[..|p|] == p;
    forall k | 0 <= k < |q|
      ensures Enabled(ops, Elements(q[..k]), q[k])
    {
      if k < |p| {
        assert q[..k] == p[..k];
      }
    }
  }

  lemma PartialUnsnoc<S, I, O>(m: Model<S, I, O>, ops: seq<Operation<I, O>>, p: seq<nat>)
    requires Partial(m, ops, p) && p != []
    ensures Partial(m, ops, p[..|p| - 1])
    ensures Enabled(ops, Elements(p[..|p| - 1]), p[|p| - 1])
    ensures Elements(p) == Elements(p[..|p| - 1]) + {p[|p| - 1]}
    ensures var s := Replay(m, ops, p[..|p| - 1]).value;
            var op := ops[p[|p| - 1]];
            m.step(s, op.input, op.output).0 && Replay(m, ops, p) == Some(m.step(s, op.input, op.output).1)
  {
    var q := p[..|p| - 1];
    assert p == q + [p[|p| - 1]];
    ElementsSnoc(q, p[|p| - 1]);
    forall k | 0 <= k < |q|
      ensures Enabled(ops, Elements(q[..k]), q[k])
    {
      assert q[..k] == p[..k];
    }
  }

  // ----- Histories as sequences of entries

  ghost predicate CallOf<I, O>(h: seq<Entry<I, O>>, i: int, id: nat) {
    0 <= i < |h| && h[i].CallEntry? && h[i].id == id
  }

  ghost predicate ReturnOf<I, O>(h: seq<Entry<I, O>>, i: int, id: nat) {
    0 <= i < |h| && h[i].ReturnEntry? && h[i].id == id
  }

  ghost predicate Complete<I, O>(h: seq<Entry<I, O>>, id: nat) {
    && (exists c :: CallOf(h, c, id))
    && (exists r :: ReturnOf(h, r, id))
  }

  /** The ids are 0..n-1, and each has one call and, later, one return. */
  ghost predicate WellFormed<I, O>(h: seq<Entry<I, O>>) {
    && |h| % 2 == 0
    && (forall i :: 0 <= i < |h| ==> h[i].id < |h| / 2)
    && (forall id: nat :: id < |h| / 2 ==> Complete(h, id))
    && (forall i, j :: 0 <= i < j < |h| && h[i].id == h[j].id ==> h[i].CallEntry? && h[j].ReturnEntry?)
  }

  ghost function CallPos<I, O>(h: seq<Entry<I, O>>, id: nat): (c: nat)
    requires WellFormed(h) && id < |h| / 2
    ensures CallOf(h, c, id)
  {
    assert Complete(h, id);
    var c :| CallOf(h, c, id);
    c
  }

  ghost function ReturnPos<I, O>(h: seq<Entry<I, O>>, id: nat): (r: nat)
    requires WellFormed(h) && id < |h| / 2
    ensures ReturnOf(h, r, id)
  {
    assert Complete(h, id);
    var r :| ReturnOf(h, r, id);
    r
  }

  lemma PositionsUnique<I, O>(h: seq<Entry<I, O>>, i: nat)
    requires WellFormed(h) && i < |h|
    ensures h[i].CallEntry? ==> i == CallPos(h, h[i].id)
    ensures h[i].ReturnEntry? ==> i == ReturnPos(h, h[i].id)
    ensures CallPos(h, h[i].id) < ReturnPos(h, h[i].id)
  {
    var c, r := CallPos(h, h[i].id), ReturnPos(h, h[i].id);
    assert CallOf(h, c, h[i].id) && ReturnOf(h, r, h[i].id);
  }

  /** The operations of a history, timed by the positions of their entries. */
  ghost function Operations<I, O>(h: seq<Entry<I, O>>): (ops: seq<Operation<I, O>>)
    requires WellFormed(h)
    ensures |ops| == |h| / 2
  {
    seq(|h| / 2, id requires 0 <= id < |h| / 2 =>
      Operation(h[CallPos(h, id)].input, CallPos(h, id), h[ReturnPos(h, id)].output, ReturnPos(h, id)))
  }
}
