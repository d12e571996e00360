/** The doubly linked list of entries that the search edits in place. */
module EntryList {
  import opened Entries

  class Node<I, O> {
    const value: Value<I, O>
    const mate: Node?<I, O>   // the return entry of a call, null on a return
    const id: int
    ghost const pos: int      // position in the history, -1 for the head
    var next: Node?<I, O>
    var prev: Node?<I, O>

    constructor (value: Value<I, O>, mate: Node?<I, O>, id: int, ghost pos: int)
      ensures this.value == value && this.mate == mate && this.id == id && this.pos == pos
      ensures next == null && prev == null
    {
      this.value, this.mate, this.id, this.pos := value, mate, id, pos;
      next, prev := null, null;
    }
  }

  ghost predicate Increasing<I, O>(l: seq<Node<I, O>>) {
    forall i, j :: 0 <= i < j < |l| ==> l[i].pos < l[j].pos
  }

  /** `l` is the list that starts at `l[0]`, linked consistently in both directions. */
  ghost predicate Linked<I, O>(l: seq<Node<I, O>>)
    reads l
  {
    && (forall i, j :: 0 <= i < |l| && 0 <= j < |l| && j == i + 1 ==> l[i].next == l[j] && l[j].prev == l[i])
    && (|l| > 0 ==> l[|l| - 1].next == null)
  }

  ghost function At<I, O>(l: seq<Node<I, O>>, i: nat): Node?<I, O> {
    if i < |l| then l[i] else null
  }

  ghost function Del<T>(s: seq<T>, i: nat): seq<T>
    requires i < |s|
  {
    s[..i] + s[i + 1..]
  }

  /** The list without a call (at `a`) and its return (at `b`). */
  ghost function Without<T>(l: seq<T>, a: nat, b: nat): seq<T>
    requires a < b < |l|
  {
    Del(Del(l, a), b - 1)
  }

  /** `call` and its mate still point where they pointed when they were taken out of `l`: the
      call to its neighbours in `l`, the return to its neighbours in `l` without the call. */
  ghost predicate Remembers<I, O>(l: seq<Node<I, O>>, a: nat, b: nat)
    requires 0 < a < b < |l|
    reads l[a], l[b]
  {
    var m := Del(l, a);
    && l[a].prev == l[a - 1] && l[a].next == l[a + 1]
    && l[b].prev == m[b - 2] && l[b].next == At(m, b)
  }

  /** The neighbours of `l[i]` point past it and the rest of `l` is linked: this is what being linked
      without `l[i]` means, seen from `l`. */
  ghost predicate SkipsOver<I, O>(l: seq<Node<I, O>>, i: nat)
    requires 0 < i < |l|
    reads l
  {
    && (forall j, k :: 0 <= j < |l| && 0 <= k < |l| && k == j + 1 && j != i && k != i ==>
          l[j].next == l[k] && l[k].prev == l[j])
    && l[i - 1].next == At(l, i + 1)
    && (i + 1 < |l| ==> l[i + 1].prev == l[i - 1] && l[|l| - 1].next == null)
  }

  lemma LinkedWithout<I, O>(l: seq<Node<I, O>>, i: nat)
    requires 0 < i < |l|
    ensures SkipsOver(l, i) <==> Linked(Del(l, i))
  {
    var m := Del(l, i);
    assert m[i - 1] == l[i - 1];
    if SkipsOver(l, i) {
      forall j, k | 0 <= j < |m| && 0 <= k < |m| && k == j + 1
        ensures m[j].next == m[k] && m[k].prev == m[j]
      {
        assert m[j] == l[if j < i then j else j + 1];
        assert m[k] == l[if k < i then k else k + 1];
      }
    }
    if Linked(m) {
      assert i + 1 < |l| ==> m[i] == l[i + 1];
      forall j, k | 0 <= j < |l| && 0 <= k < |l| && k == j + 1 && j != i && k != i
        ensures l[j].next == l[k] && l[k].prev == l[j]
      {
        assert l[j] == m[if j < i then j else j - 1];
        assert l[k] == m[if k < i then k else k - 1];
      }
    }
  }

  method InsertBefore<I, O>(n: Node<I, O>, mark: Node?<I, O>) returns (r: Node<I, O>)
    requires mark != null ==> n != mark && n != mark.prev
    modifies n, mark, if mark != null then {mark.prev} else {}
    ensures r == n
    ensures mark == null ==> n.next == old(n.next) && n.prev == old(n.prev)
    ensures mark != null ==> mark.prev == n && n.next == mark && (mark == old(mark.prev) || mark.next == old(mark.next))
    ensures mark != null && old(mark.prev) == null ==> n.prev == old(n.prev)
    ensures mark != null && old(mark.prev) != null ==>
      n.prev == old(mark.prev) && old(mark.prev).next == n &&
        (mark == old(mark.prev) || old(mark.prev).prev == old(mark.prev.prev))
  {
    if mark != null {
      var beforeMark := mark.prev;
      mark.prev := n;
      n.next := mark;
      if beforeMark != null {
        n.prev := beforeMark;
        beforeMark.next := n;
      }
    }
    return n;
  }

  /** `n` is the node of the entry at its position; a call's mate is the node of the matching return. */
  ghost predicate NodeOf<I, O>(n: Node<I, O>, h: seq<Entry<I, O>>)
    requires WellFormed(h)
  {
    && 0 <= n.pos < |h| && n.value == h[n.pos].value && n.id == h[n.pos].id
    && if h[n.pos].isReturn then n.mate == null
       else n.mate != null && n.mate.pos == ReturnAt(h, h[n.pos].id)
  }

  /** `nodes` are the nodes of the entries from position `i` on. */
  ghost predicate NodesFrom<I, O>(nodes: seq<Node<I, O>>, h: seq<Entry<I, O>>, i: nat)
    requires WellFormed(h)
  {
    && (forall k :: 0 <= k < |nodes| ==> nodes[k].pos == i + k)
    && (forall n :: n in nodes ==> NodeOf(n, h))
    && (forall n :: n in nodes ==> n.mate == null || n.mate in nodes)
  }

  lemma NodesGrow<I, O>(n: Node<I, O>, nodes: seq<Node<I, O>>, h: seq<Entry<I, O>>, i: nat)
    requires WellFormed(h) && NodesFrom(nodes, h, i + 1) && n.pos == i
    requires NodeOf(n, h) && (n.mate == null || n.mate in nodes)
    ensures NodesFrom([n] + nodes, h, i)
  {
  }

  /** Puts `n` in front of the list `l`. */
  method Prepend<I, O>(n: Node<I, O>, root: Node?<I, O>, ghost l: seq<Node<I, O>>)
    requires n !in l && n.next == null && n.prev == null && Increasing(l) && Linked(l)
    requires root == At(l, 0) && (root != null ==> root.prev == null)
    modifies n, root
    ensures Linked([n] + l) && n.prev == null
  {
    var _ := InsertBefore(n, root);
    assert Linked(l);
  }

  /** `nodes` are the nodes of the entries of `h`, in order; the mate of a call is its return's node. */
  ghost predicate NodesOf<I, O>(nodes: seq<Node<I, O>>, h: seq<Entry<I, O>>)
    requires WellFormed(h)
  {
    && |nodes| == |h|
    && (forall p :: 0 <= p < |h| ==> nodes[p].pos == p && nodes[p].value == h[p].value && nodes[p].id == h[p].id)
    && (forall p :: 0 <= p < |h| ==> nodes[p].mate == if h[p].isReturn then null else nodes[ReturnAt(h, h[p].id)])
  }

  lemma AllNodes<I, O>(nodes: seq<Node<I, O>>, h: seq<Entry<I, O>>)
    requires WellFormed(h) && NodesFrom(nodes, h, 0) && |nodes| == |h|
    ensures NodesOf(nodes, h)
  {
    forall p | 0 <= p < |h|
      ensures nodes[p].pos == p && nodes[p].value == h[p].value && nodes[p].id == h[p].id
      ensures nodes[p].mate == if h[p].isReturn then null else nodes[ReturnAt(h, h[p].id)]
    {
      assert NodeOf(nodes[p], h);
      if !h[p].isReturn {
        var k :| 0 <= k < |nodes| && nodes[k] == nodes[p].mate;
      }
    }
  }

  /** Builds the list back to front, remembering the return node of each id. */
  method MakeLinkedEntries<I, O>(h: seq<Entry<I, O>>) returns (root: Node?<I, O>, ghost nodes: seq<Node<I, O>>)
    requires WellFormed(h)
    ensures NodesOf(nodes, h) && root == At(nodes, 0)
    ensures fresh(nodes) && Linked(nodes) && (root != null ==> root.prev == null)
  {
    root, nodes := null, [];
    var mates: map<int, Node<I, O>> := map[];
    var i := |h|;
    while i > 0
      invariant 0 <= i <= |h| && |nodes| == |h| - i && NodesFrom(nodes, h, i) && root == At(nodes, 0)
      invariant fresh(nodes) && Linked(nodes) && (root != null ==> root.prev == null)
      invariant forall p :: i <= p < |h| && h[p].isReturn ==>
        h[p].id in mates && mates[h[p].id] in nodes && mates[h[p].id].pos == p
    {
      i := i - 1;
      var elem := h[i];
      var entry;
      if elem.isReturn {
        entry := new Node(elem.value, null, elem.id, i);
        mates := mates[elem.id := entry];
      } else {
        assert ReturnAt(h, elem.id) > i;
        entry := new Node(elem.value, mates[elem.id], elem.id, i);
      }
      Prepend(entry, root, nodes);
      NodesGrow(entry, nodes, h, i);
      root := entry;
      nodes := [entry] + nodes;
    }
    AllNodes(nodes, h);
  }

  ghost function Neighbours<I, O>(l: seq<Node<I, O>>, i: nat): set<Node<I, O>>
    requires 0 < i < |l|
  {
    {l[i - 1]} + if i + 1 < |l| then {l[i + 1]} else {}
  }

  method Unlink<I, O>(n: Node<I, O>, ghost l: seq<Node<I, O>>, ghost i: nat)
    requires 0 < i < |l| && l[i] == n && Increasing(l) && Linked(l)
    modifies Neighbours(l, i)
    ensures Linked(Del(l, i))
    ensures n.next == At(l, i + 1) && n.prev == l[i - 1]
  {
    assert n.next == At(l, i + 1) && n.prev == l[i - 1];
    assert forall k :: 0 <= k < |l| && k != i ==> l[k] != n;
    n.prev.next := n.next;
    if n.next != null {
      n.next.prev := n.prev;
    }
    LinkedWithout(l, i);
  }

  method Relink<I, O>(n: Node<I, O>, ghost l: seq<Node<I, O>>, ghost i: nat)
    requires 0 < i < |l| && l[i] == n && Increasing(l) && Linked(Del(l, i))
    requires n.next == At(l, i + 1) && n.prev == l[i - 1]
    modifies Neighbours(l, i)
    ensures Linked(l)
  {
    LinkedWithout(l, i);
    n.prev.next := n;
    if n.next != null {
      n.next.prev := n;
    }
  }

  /** Where the return is once the call has been taken out. */
  lemma MateWithout<I, O>(l: seq<Node<I, O>>, a: nat, b: nat)
    requires 0 < a < b < |l| && Increasing(l)
    ensures var m := Del(l, a);
            && Increasing(m) && b - 1 < |m| && m[b - 1] == l[b]
            && l[a] !in Neighbours(m, b - 1) && l[b] !in Neighbours(m, b - 1)
  {
  }

  /** Takes the return out of the list `m`, which the call is no longer in. */
  method LiftMate<I, O>(entry: Node<I, O>, mate: Node<I, O>, ghost l: seq<Node<I, O>>, ghost a: nat, ghost b: nat,
      ghost m: seq<Node<I, O>>)
    requires 0 < a < b < |l| && m == Del(l, a) && l[a] == entry && l[b] == mate && m[b - 1] == mate
    requires entry !in Neighbours(m, b - 1) && entry.prev == l[a - 1] && entry.next == l[a + 1]
    requires Increasing(m) && Linked(m)
    modifies Neighbours(m, b - 1)
    ensures Linked(Del(m, b - 1)) && Remembers(l, a, b)
  {
    Unlink(mate, m, b - 1);
  }

  /** Takes a call and then its return out of the list. */
  method Lift<I, O>(entry: Node<I, O>, ghost l: seq<Node<I, O>>, ghost a: nat, ghost b: nat)
    requires 0 < a < b < |l| && l[a] == entry && entry.mate == l[b]
    requires Increasing(l) && Linked(l)
    modifies Neighbours(l, a), Neighbours(Del(l, a), b - 1)
    ensures Linked(Without(l, a, b))
    ensures Remembers(l, a, b)
  {
    MateWithout(l, a, b);
    Unlink(entry, l, a);
    LiftMate(entry, entry.mate, l, a, b, Del(l, a));
  }

  /** Puts a return and then its call back, undoing `Lift` if every later `Lift` has been undone. */
  method Unlift<I, O>(entry: Node<I, O>, ghost l: seq<Node<I, O>>, ghost a: nat, ghost b: nat)
    requires 0 < a < b < |l| && l[a] == entry && entry.mate == l[b]
    requires Increasing(l) && Linked(Without(l, a, b)) && Remembers(l, a, b)
    modifies Neighbours(l, a), Neighbours(Del(l, a), b - 1)
    ensures Linked(l)
  {
    MateWithout(l, a, b);
    var mate := entry.mate;
    Relink(mate, Del(l, a), b - 1);
    Relink(entry, l, a);
  }
}
