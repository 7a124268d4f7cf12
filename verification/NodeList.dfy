/**
 The list nodes themselves (porcupine/checker.go:57-85, 116-133, 154-172): methods
 on the heap, each proved to do to the prev and next fields what module Links says.
 */
module NodeList {
  import opened History
  import opened Links

  /** The source's `interface{}` value of a node: a call's input, a return's output, or nil at the head. */
  datatype Value<I, O> = Nothing | Input(input: I) | Output(output: O)

  class Node<I, O> {
    const value: Value<I, O>
    const mate: Node?<I, O>  // `match` in the source: nil on a return
    const id: int
    var next: Node?<I, O>
    var prev: Node?<I, O>

    constructor (value: Value<I, O>, mate: Node?<I, O>, id: int)
      ensures this.value == value && this.mate == mate && this.id == id
      ensures next == null && prev == null
    {
      this.value, this.mate, this.id := value, mate, id;
      next, prev := null, null;
    }
  }

  ghost predicate Distinct<T>(s: seq<T>) {
    forall i, j :: 0 <= i < j < |s| ==> s[i] != s[j]
  }

  ghost predicate Points<I, O>(nodes: seq<Node<I, O>>, p: Node?<I, O>, k: int) {
    if k == NIL then p == null else 0 <= k < |nodes| && p == nodes[k]
  }

  /** The prev and next fields of the nodes are those of l. */
  ghost predicate Represents<I, O>(nodes: seq<Node<I, O>>, l: Links)
    reads nodes
  {
    && |l.prev| == |l.next| == |nodes|
    && Distinct(nodes)
    && (forall i {:trigger l.prev[i]} {:trigger nodes[i].prev} :: 0 <= i < |nodes| ==> Points(nodes, nodes[i].prev, l.prev[i]))
    && (forall i {:trigger l.next[i]} {:trigger nodes[i].next} :: 0 <= i < |nodes| ==> Points(nodes, nodes[i].next, l.next[i]))
  }

  ghost predicate IsNodeOf<I, O>(h: seq<Entry<I, O>>, nodes: seq<Node<I, O>>, i: int)
    requires WellFormed(h) && |nodes| == |h| + 1 && 0 <= i < |h|
  {
    && nodes[i + 1].id == h[i].id
    && match h[i]
       case CallEntry(id, input, _) =>
         nodes[i + 1].value == Input(input) && nodes[i + 1].mate == nodes[ReturnPos(h, id) + 1]
       case ReturnEntry(_, output, _) =>
         nodes[i + 1].value == Output(output) && nodes[i + 1].mate == null
  }

  /** Node i + 1 carries entry i of the history, and a call carries its return. */
  ghost predicate Carries<I, O>(h: seq<Entry<I, O>>, nodes: seq<Node<I, O>>)
    requires WellFormed(h)
  {
    && |nodes| == |h| + 1
    && forall i :: 0 <= i < |h| ==> IsNodeOf(h, nodes, i)
  }

  /** Takes node k out of the list; the node keeps its own links. */
  method Unlink<I, O>(k: Node<I, O>, ghost nodes: seq<Node<I, O>>, ghost l: Links, ghost i: int)
    requires Represents(nodes, l) && Removable(l, i) && nodes[i] == k
    modifies nodes
    ensures Represents(nodes, Remove(l, i))
  {
    k.prev.next := k.next;
    if k.next != null {
      k.next.prev := k.prev;
    }
  }

  /** Puts node k back between the neighbours it still points to. */
  method Relink<I, O>(k: Node<I, O>, ghost nodes: seq<Node<I, O>>, ghost l: Links, ghost i: int)
    requires Represents(nodes, l) && Removable(l, i) && nodes[i] == k
    modifies nodes
    ensures Represents(nodes, Insert(l, i))
  {
    k.prev.next := k;
    if k.next != null {
      k.next.prev := k;
    }
  }

  method LiftNode<I, O>(entry: Node<I, O>, ghost nodes: seq<Node<I, O>>, ghost l: Links, ghost c: int, ghost r: int)
    requires Represents(nodes, l) && Liftable(l, c, r)
    requires nodes[c] == entry && nodes[r] == entry.mate
    modifies nodes
    ensures Represents(nodes, Lift(l, c, r))
  {
    Unlink(entry, nodes, l, c);
    Unlink(entry.mate, nodes, Remove(l, c), r);
  }

  method UnliftNode<I, O>(entry: Node<I, O>, ghost nodes: seq<Node<I, O>>, ghost l: Links, ghost c: int, ghost r: int)
    requires Represents(nodes, l) && Unliftable(l, c, r)
    requires nodes[c] == entry && nodes[r] == entry.mate
    modifies nodes
    ensures Represents(nodes, Unlift(l, c, r))
  {
    Relink(entry.mate, nodes, l, r);
    Relink(entry, nodes, Insert(l, r), c);
  }

  // ----- Building the list

  /** The nodes form a list in this order, with nothing before the first or after the last. */
  ghost predicate Straight<I, O>(nodes: seq<Node<I, O>>)
    reads nodes
  {
    && Distinct(nodes)
    && (forall k {:trigger nodes[k].prev} :: 0 <= k < |nodes| ==>
          nodes[k].prev == if k == 0 then null else nodes[k - 1])
    && (forall k {:trigger nodes[k].next} :: 0 <= k < |nodes| ==>
          nodes[k].next == if k == |nodes| - 1 then null else nodes[k + 1])
  }

  lemma StraightIsInitial<I, O>(nodes: seq<Node<I, O>>, n: nat)
    requires Straight(nodes) && |nodes| == n + 1
    ensures Represents(nodes, Initial(n))
  {
  }

  method InsertBefore<I, O>(n: Node<I, O>, mark: Node?<I, O>) returns (r: Node<I, O>)
    requires mark != null ==> n != mark && mark.prev != mark && mark.prev != n
    modifies n, if mark == null then {} else {mark, mark.prev}
    ensures r == n
    ensures mark == null ==> n.next == old(n.next) && n.prev == old(n.prev)
    ensures mark != null ==>
              && mark.prev == n && n.next == mark && mark.next == old(mark.next)
              && n.prev == (if old(mark.prev) == null then old(n.prev) else old(mark.prev))
              && (old(mark.prev) != null ==> old(mark.prev).next == n && old(mark.prev).prev == old(mark.prev.prev))
  {
    if mark != null {
      var beforeMark := mark.prev;
      mark.prev := n;
      n.next := mark;
      if beforeMark != null {
        n.prev := beforeMark;
        beforeMark.next := n;
      }
    }
    r := n;
  }

  /** A new node in front of a straight list. */
  method Push<I, O>(n: Node<I, O>, root: Node?<I, O>, ghost nodes: seq<Node<I, O>>)
    requires Straight(nodes) && n !in nodes && n.next == null && n.prev == null
    requires root == if nodes == [] then null else nodes[0]
    modifies n, nodes
    ensures Straight([n] + nodes)
  {
    var _ := InsertBefore(n, root);
    assert forall k :: 0 < k < |[n] + nodes| ==> ([n] + nodes)[k] == nodes[k - 1];
  }

  method Length<I, O>(root: Node?<I, O>, ghost nodes: seq<Node<I, O>>) returns (len: nat)
    requires Straight(nodes)
    requires root == if nodes == [] then null else nodes[0]
    ensures len == |nodes|
  {
    var n := root;
    len := 0;
    while n != null
      invariant len <= |nodes|
      invariant n == if len < |nodes| then nodes[len] else null
      decreases |nodes| - len
    {
      n := n.next;
      len := len + 1;
    }
  }

  /** Nodes for the entries of h from position i on; every return among them is in `mates`. */
  ghost predicate Built<I, O>(h: seq<Entry<I, O>>, i: nat, nodes: seq<Node<I, O>>, mates: map<nat, Node<I, O>>)
    requires WellFormed(h) && i <= |h|
  {
    && |nodes| == |h| - i
    && (forall k :: i <= k < |h| ==> BuiltFor(h, i, nodes, k))
    && (forall k :: i <= k < |h| && h[k].ReturnEntry? ==> h[k].id in mates && mates[h[k].id] == nodes[k - i])
  }

  ghost predicate BuiltFor<I, O>(h: seq<Entry<I, O>>, i: nat, nodes: seq<Node<I, O>>, k: int)
    requires WellFormed(h) && i <= k < |h| && |nodes| == |h| - i
  {
    && nodes[k - i].id == h[k].id
    && match h[k]
       case CallEntry(id, input, _) =>
         && i <= ReturnPos(h, id)
         && nodes[k - i].value == Input(input) && nodes[k - i].mate == nodes[ReturnPos(h, id) - i]
       case ReturnEntry(_, output, _) =>
         nodes[k - i].value == Output(output) && nodes[k - i].mate == null
  }

  lemma BuiltOneMore<I, O>(h: seq<Entry<I, O>>, i: nat, nodes: seq<Node<I, O>>, mates: map<nat, Node<I, O>>,
                           node: Node<I, O>, mates': map<nat, Node<I, O>>)
    requires WellFormed(h) && i < |h| && Built(h, i + 1, nodes, mates)
    requires node.id == h[i].id
    requires match h[i]
             case CallEntry(id, input, _) =>
               && node.value == Input(input) && mates' == mates
               && node.mate == (if id in mates then mates[id] else null)
             case ReturnEntry(id, output, _) =>
               node.value == Output(output) && node.mate == null && mates' == mates[id := node]
    ensures Built(h, i, [node] + nodes, mates')
  {
    var all := [node] + nodes;
    PositionsUnique(h, i);
    assert all[1..] == nodes;
    forall k | i <= k < |h|
      ensures BuiltFor(h, i, all, k)
      ensures h[k].ReturnEntry? ==> h[k].id in mates' && mates'[h[k].id] == all[k - i]
    {
      PositionsUnique(h, k);
      if k > i {
        assert BuiltFor(h, i + 1, nodes, k);
      }
    }
  }

  method MakeLinkedEntries<I, O>(h: seq<Entry<I, O>>) returns (root: Node?<I, O>, ghost nodes: seq<Node<I, O>>)
    requires WellFormed(h)
    ensures fresh(nodes) && Straight(nodes)
    ensures root == if nodes == [] then null else nodes[0]
    ensures exists mates :: Built(h, 0, nodes, mates)
  {
    root, nodes := null, [];
    var mates: map<nat, Node<I, O>> := map[];
    var i := |h|;
    while i > 0
      invariant 0 <= i <= |h|
      invariant fresh(nodes) && Straight(nodes)
      invariant root == if nodes == [] then null else nodes[0]
      invariant Built(h, i, nodes, mates)
    {
      i := i - 1;
      var elem := h[i];
      ghost var before := mates;
      var node;
      if elem.ReturnEntry? {
        node := new Node(Output(elem.output), null, elem.id);
        mates := mates[elem.id := node];
      } else {
        node := new Node(Input(elem.input), if elem.id in mates then mates[elem.id] else null, elem.id);
      }
      Push(node, root, nodes);
      BuiltOneMore(h, i, nodes, before, node, mates);
      root, nodes := node, [node] + nodes;
    }
  }

  /** The whole list, with the head that the search starts each walk from. */
  method MakeList<I, O>(h: seq<Entry<I, O>>) returns (head: Node<I, O>, n: nat, ghost nodes: seq<Node<I, O>>)
    requires WellFormed(h)
    ensures fresh(nodes) && Represents(nodes, Initial(|h|)) && Carries(h, nodes)
    ensures head == nodes[0]
    ensures n == |h| / 2
  {
    var entry;
    ghost var tail;
    entry, tail := MakeLinkedEntries(h);
    var length := Length(entry, tail);
    n := length / 2;
    head := new Node(Nothing, null, -1);
    Push(head, entry, tail);
    nodes := [head] + tail;
    StraightIsInitial(nodes, |h|);
    forall i | 0 <= i < |h|
      ensures IsNodeOf(h, nodes, i)
    {
      assert BuiltFor(h, 0, tail, i);
      PositionsUnique(h, i);
      assert nodes[i + 1] == tail[i] && nodes[ReturnPos(h, h[i].id) + 1] == tail[ReturnPos(h, h[i].id)];
    }
  }
}
