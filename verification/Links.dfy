/**
 The doubly linked list that the search takes operations out of and puts back
 (porcupine/checker.go:57-85, 116-133, 154-172).

 The nodes of a list are numbered by their place in the original history, the
 head being number 0, and `Links` is the value of all their prev and next fields.
 What lifting does to the list is proved here about `Links`; the methods of module
 NodeList are proved to do exactly that to the heap.
 */
module Links {
  import opened Options
  import opened History

  const NIL := -1

  /** The prev and next fields of nodes 0..n, as node numbers. */
  datatype Links = Links(prev: seq<int>, next: seq<int>)

  /** j is the first number of `alive` after i, or NIL. */
  ghost predicate IsNext(alive: set<int>, i: int, j: int) {
    if j == NIL then forall k :: k in alive ==> k <= i
    else j in alive && i < j && forall k :: k in alive ==> k <= i || j <= k
  }

  /** The nodes in `alive`, in increasing order, form a doubly linked list that starts at the head. */
  ghost predicate Chain(l: Links, alive: set<int>) {
    && |l.prev| == |l.next|
    && 0 in alive
    && (forall i :: i in alive ==> 0 <= i < |l.next|)
    && (forall i {:trigger l.next[i]} :: i in alive ==> IsNext(alive, i, l.next[i]))
    && (forall i {:trigger l.next[i]} :: i in alive && l.next[i] != NIL ==> l.prev[l.next[i]] == i)
    && (forall i {:trigger l.prev[i]} :: i in alive && i != 0 ==> l.prev[i] in alive && l.next[l.prev[i]] == i)
  }

  /** k can be unlinked: the nodes on both sides exist. */
  ghost predicate Removable(l: Links, k: int) {
    && |l.prev| == |l.next|
    && 0 <= k < |l.prev|
    && 0 <= l.prev[k] < |l.prev| && l.prev[k] != k
    && (l.next[k] == NIL || 0 <= l.next[k] < |l.prev|)
  }

  /** k.prev.next = k.next; if k.next != nil { k.next.prev = k.prev } */
  function Remove(l: Links, k: int): Links
    requires Removable(l, k)
  {
    Links(if l.next[k] == NIL then l.prev else l.prev[l.next[k] := l.prev[k]],
          l.next[l.prev[k] := l.next[k]])
  }

  /** k.prev.next = k; if k.next != nil { k.next.prev = k } */
  function Insert(l: Links, k: int): Links
    requires Removable(l, k)
  {
    Links(if l.next[k] == NIL then l.prev else l.prev[l.next[k] := k],
          l.next[l.prev[k] := k])
  }

  lemma RemoveKeepsNext(l: Links, alive: set<int>, k: int, i: int)
    requires Chain(l, alive) && k in alive && k != 0 && i in alive && i != k
    ensures Removable(l, k)
    ensures IsNext(alive - {k}, i, Remove(l, k).next[i])
  {
    assert IsNext(alive, k, l.next[k]);
    assert IsNext(alive, i, l.next[i]);
    assert l.next[i] == k <==> i == l.prev[k];
  }

  lemma RemoveKeepsMirror(l: Links, alive: set<int>, k: int, i: int)
    requires Chain(l, alive) && k in alive && k != 0 && i in alive && i != k
    ensures Removable(l, k)
    ensures var l' := Remove(l, k);
            l'.next[i] != NIL ==> 0 <= l'.next[i] < |l'.prev| && l'.prev[l'.next[i]] == i
  {
    assert IsNext(alive, k, l.next[k]);
    assert IsNext(alive, i, l.next[i]);
  }

  lemma RemoveKeepsPrev(l: Links, alive: set<int>, k: int, i: int)
    requires Chain(l, alive) && k in alive && k != 0 && i in alive && i != k && i != 0
    ensures Removable(l, k)
    ensures var l' := Remove(l, k);
            l'.prev[i] in alive - {k} && l'.next[l'.prev[i]] == i
  {
    assert IsNext(alive, k, l.next[k]);
    var p := l.prev[k];
    assert IsNext(alive, p, l.next[p]);
  }

  lemma {:induction false} RemoveKeepsChain(l: Links, alive: set<int>, k: int)
    requires Chain(l, alive) && k in alive && k != 0
    ensures Removable(l, k)
    ensures Chain(Remove(l, k), alive - {k})
    ensures Removable(Remove(l, k), k)
  {
    assert IsNext(alive, k, l.next[k]);
    var p := l.prev[k];
    assert IsNext(alive, p, l.next[p]);
    var l', alive' := Remove(l, k), alive - {k};
    forall i | i in alive'
      ensures IsNext(alive', i, l'.next[i])
      ensures l'.next[i] != NIL ==> l'.prev[l'.next[i]] == i
    {
      RemoveKeepsNext(l, alive, k, i);
      RemoveKeepsMirror(l, alive, k, i);
    }
    forall i | i in alive' && i != 0
      ensures l'.prev[i] in alive' && l'.next[l'.prev[i]] == i
    {
      RemoveKeepsPrev(l, alive, k, i);
    }
  }

  /** A node keeps its own links while it is out, so putting it back undoes the removal. */
  lemma {:induction false} InsertUndoesRemove(l: Links, alive: set<int>, k: int)
    requires Chain(l, alive) && k in alive && k != 0
    ensures Removable(l, k) && Removable(Remove(l, k), k)
    ensures Insert(Remove(l, k), k) == l
  {
    RemoveKeepsChain(l, alive, k);
    assert IsNext(alive, k, l.next[k]);
    var back := Insert(Remove(l, k), k);
    assert back.next == l.next;
    assert back.prev == l.prev;
  }

  // ----- Lifting an operation: its call and its return

  ghost predicate Liftable(l: Links, c: int, r: int) {
    && Removable(l, c)
    && l.next[c] != NIL
    && Removable(Remove(l, c), r)
  }

  function Lift(l: Links, c: int, r: int): Links
    requires Liftable(l, c, r)
  {
    Remove(Remove(l, c), r)
  }

  ghost predicate Unliftable(l: Links, c: int, r: int) {
    && Removable(l, r)
    && Removable(Insert(l, r), c)
    && l.next[c] != NIL
  }

  function Unlift(l: Links, c: int, r: int): Links
    requires Unliftable(l, c, r)
  {
    Insert(Insert(l, r), c)
  }

  lemma LiftKeepsChain(l: Links, alive: set<int>, c: int, r: int)
    requires Chain(l, alive) && c in alive && r in alive && 0 < c < r
    ensures Liftable(l, c, r)
    ensures Chain(Lift(l, c, r), alive - {c, r})
  {
    assert IsNext(alive, c, l.next[c]);
    RemoveKeepsChain(l, alive, c);
    RemoveKeepsChain(Remove(l, c), alive - {c}, r);
    assert alive - {c} - {r} == alive - {c, r};
  }

  lemma {:induction false} UnliftUndoesLift(l: Links, alive: set<int>, c: int, r: int)
    requires Chain(l, alive) && c in alive && r in alive && 0 < c < r
    ensures Liftable(l, c, r) && Unliftable(Lift(l, c, r), c, r)
    ensures Unlift(Lift(l, c, r), c, r) == l
  {
    LiftKeepsChain(l, alive, c, r);
    RemoveKeepsChain(l, alive, c);
    InsertUndoesRemove(l, alive, c);
    InsertUndoesRemove(Remove(l, c), alive - {c}, r);
    assert IsNext(alive, c, l.next[c]);
    assert IsNext(alive - {c}, r, Remove(l, c).next[r]);
  }

  /** Properly nested lifts and unlifts: lift (c, r), do `inner`, unlift (c, r), then do `rest`. */
  datatype Nest = Done | Around(c: int, r: int, inner: Nest, rest: Nest)

  /** Every operation lifted is in the list at that moment. */
  ghost predicate Sensible(nest: Nest, alive: set<int>) {
    match nest
    case Done => true
    case Around(c, r, inner, rest) =>
      && c in alive && r in alive && 0 < c < r
      && Sensible(inner, alive - {c, r})
      && Sensible(rest, alive)
  }

  /** The links after doing all of `nest`; None if it would follow a nil pointer. */
  ghost function Do(nest: Nest, l: Links): Option<Links> {
    match nest
    case Done => Some(l)
    case Around(c, r, inner, rest) =>
      if !Liftable(l, c, r) then None else
      var out := Do(inner, Lift(l, c, r));
      if out.None? || !Unliftable(out.value, c, r) then None else
      Do(rest, Unlift(out.value, c, r))
  }

  /** Any properly nested sequence of lifts and unlifts restores every prev and next field. */
  lemma {:induction false} NestedLiftsRestore(nest: Nest, l: Links, alive: set<int>)
    requires Chain(l, alive) && Sensible(nest, alive)
    ensures Do(nest, l) == Some(l)
  {
    match nest
    case Done =>
    case Around(c, r, inner, rest) =>
      LiftKeepsChain(l, alive, c, r);
      NestedLiftsRestore(inner, Lift(l, c, r), alive - {c, r});
      UnliftUndoesLift(l, alive, c, r);
      NestedLiftsRestore(rest, l, alive);
  }

  // ----- The list of a history, with the operations of a stack lifted out

  function Initial(n: nat): Links {
    Links(seq(n + 1, i => i - 1), seq(n + 1, i => if i == n then NIL else i + 1))
  }

  ghost predicate IsAlive<I, O>(h: seq<Entry<I, O>>, done: set<nat>, i: int) {
    0 <= i <= |h| && (i == 0 || h[i - 1].id !in done)
  }

  /** The nodes left when the operations in `done` are out. */
  ghost function Alive<I, O>(h: seq<Entry<I, O>>, done: set<nat>): set<int> {
    set i | 0 <= i <= |h| && IsAlive(h, done, i)
  }

  /** The links after lifting the operations of p, one by one, out of the whole history. */
  ghost function LiftAll<I, O>(h: seq<Entry<I, O>>, p: seq<nat>): Links
    requires WellFormed(h) && Ids(p, |h| / 2)
  {
    if p == [] then Initial(|h|) else
    var l, c, r := LiftAll(h, p[..|p| - 1]), CallPos(h, p[|p| - 1]) + 1, ReturnPos(h, p[|p| - 1]) + 1;
    if Liftable(l, c, r) then Lift(l, c, r) else l
  }

  /** What is left is always a list: the original history minus exactly the operations lifted. */
  lemma {:induction false} LiftAllIsChain<I, O>(h: seq<Entry<I, O>>, p: seq<nat>)
    requires WellFormed(h) && Ids(p, |h| / 2)
    ensures Chain(LiftAll(h, p), Alive(h, Elements(p)))
    ensures |LiftAll(h, p).next| == |h| + 1
  {
    hide WellFormed, Chain, Alive, Liftable;
    if p == [] {
      InitialIsChain(h);
    } else {
      var q, x := p[..|p| - 1], p[|p| - 1];
      assert p == q + [x];
      LiftAllIsChain(h, q);
      LiftOne(h, q, x, LiftAll(h, q));
      LiftSize(LiftAll(h, q), CallPos(h, x) + 1, ReturnPos(h, x) + 1);
    }
  }

  lemma LiftSize(l: Links, c: int, r: int)
    requires Liftable(l, c, r)
    ensures |Lift(l, c, r).next| == |l.next|
  {
  }

  lemma InitialIsChain<I, O>(h: seq<Entry<I, O>>)
    ensures Chain(Initial(|h|), Alive(h, Elements([])))
  {
    var alive, l := Alive(h, Elements([])), Initial(|h|);
    assert forall i :: i in alive <==> 0 <= i <= |h|;
  }

  lemma AliveWithout<I, O>(h: seq<Entry<I, O>>, q: seq<nat>, x: nat)
    requires WellFormed(h) && x < |h| / 2 && x !in Elements(q)
    ensures var c, r := CallPos(h, x) + 1, ReturnPos(h, x) + 1;
            && 0 < c < r
            && c in Alive(h, Elements(q)) && r in Alive(h, Elements(q))
            && Alive(h, Elements(q + [x])) == Alive(h, Elements(q)) - {c, r}
  {
    var c, r := CallPos(h, x) + 1, ReturnPos(h, x) + 1;
    PositionsUnique(h, CallPos(h, x));
    ElementsSnoc(q, x);
    assert IsAlive(h, Elements(q), c) && IsAlive(h, Elements(q), r);
    forall i | 0 <= i <= |h|
      ensures i in Alive(h, Elements(q + [x])) <==> i in Alive(h, Elements(q)) - {c, r}
    {
      if i > 0 {
        PositionsUnique(h, i - 1);
      }
    }
  }

  lemma LiftOne<I, O>(h: seq<Entry<I, O>>, q: seq<nat>, x: nat, l: Links)
    requires WellFormed(h) && x < |h| / 2 && x !in Elements(q)
    requires Chain(l, Alive(h, Elements(q)))
    ensures var c, r := CallPos(h, x) + 1, ReturnPos(h, x) + 1;
            && Liftable(l, c, r)
            && Chain(Lift(l, c, r), Alive(h, Elements(q + [x])))
  {
    AliveWithout(h, q, x);
    LiftKeepsChain(l, Alive(h, Elements(q)), CallPos(h, x) + 1, ReturnPos(h, x) + 1);
  }

  lemma UnliftOne<I, O>(h: seq<Entry<I, O>>, q: seq<nat>, x: nat, l: Links)
    requires WellFormed(h) && x < |h| / 2 && x !in Elements(q)
    requires Chain(l, Alive(h, Elements(q)))
    ensures var c, r := CallPos(h, x) + 1, ReturnPos(h, x) + 1;
            && Liftable(l, c, r)
            && Unliftable(Lift(l, c, r), c, r)
            && Unlift(Lift(l, c, r), c, r) == l
  {
    AliveWithout(h, q, x);
    UnliftUndoesLift(l, Alive(h, Elements(q)), CallPos(h, x) + 1, ReturnPos(h, x) + 1);
  }

  /** Unlifting the operation on top of the stack gives the list as it was before that operation was lifted. */
  lemma UnliftTop<I, O>(h: seq<Entry<I, O>>, q: seq<nat>, x: nat)
    requires WellFormed(h) && Ids(q, |h| / 2) && x < |h| / 2 && x !in Elements(q)
    ensures Ids(q + [x], |h| / 2)
    ensures var c, r := CallPos(h, x) + 1, ReturnPos(h, x) + 1;
            && Liftable(LiftAll(h, q), c, r)
            && LiftAll(h, q + [x]) == Lift(LiftAll(h, q), c, r)
            && Unliftable(LiftAll(h, q + [x]), c, r)
            && Unlift(LiftAll(h, q + [x]), c, r) == LiftAll(h, q)
  {
    LiftAllIsChain(h, q);
    UnliftOne(h, q, x, LiftAll(h, q));
    LiftAllSnoc(h, q, x);
  }

  lemma LiftAllSnoc<I, O>(h: seq<Entry<I, O>>, q: seq<nat>, x: nat)
    requires WellFormed(h) && Ids(q, |h| / 2) && x < |h| / 2 && x !in Elements(q)
    ensures Ids(q + [x], |h| / 2)
    ensures var c, r := CallPos(h, x) + 1, ReturnPos(h, x) + 1;
            Liftable(LiftAll(h, q), c, r) ==> LiftAll(h, q + [x]) == Lift(LiftAll(h, q), c, r)
  {
    var p := q + [x];
    assert p[..|p| - 1] == q;
    assert p[|p| - 1] == x;
  }
}
