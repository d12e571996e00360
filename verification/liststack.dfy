/** The entry list together with the stack of operations taken out of it: at every moment the list
    is the history without the operations on the stack, and popping restores it exactly. */
module ListStack {
  import opened Entries
  import opened EntryList

  /** What the list was before a push, and where the pushed call and its return were in it. */
  datatype Frame<I, O> = Frame(list: seq<Node<I, O>>, a: nat, b: nat) {
    ghost predicate Valid() {
      0 < a < b < |list| && Increasing(list) && list[a].mate == list[b]
    }
  }

  ghost predicate IsNode<I, O>(nodes: seq<Node<I, O>>, n: Node<I, O>) {
    0 <= n.pos < |nodes| && nodes[n.pos] == n
  }

  /** `l` is the head followed by the nodes of the entries whose operation is not in `path`. */
  ghost predicate Lists<I, O>(h: seq<Entry<I, O>>, nodes: seq<Node<I, O>>, head: Node<I, O>, l: seq<Node<I, O>>,
      path: seq<nat>)
    requires |nodes| == |h|
  {
    && l != [] && l[0] == head && Increasing(l)
    && (forall i :: 0 < i < |l| ==> IsNode(nodes, l[i]) && h[l[i].pos].id !in path)
    && (forall q :: 0 <= q < |h| && h[q].id !in path ==> nodes[q] in l[1..])
  }

  /** Undoing the frames one after the other restores the list of each shorter path. */
  ghost predicate Stacked<I, O>(h: seq<Entry<I, O>>, nodes: seq<Node<I, O>>, head: Node<I, O>,
      frames: seq<Frame<I, O>>, l: seq<Node<I, O>>, path: seq<nat>)
    requires |nodes| == |h|
    decreases |path|
  {
    && |frames| == |path| && Lists(h, nodes, head, l, path)
    && (path != [] ==>
          var (n, f) := (|path| - 1, frames[|path| - 1]);
          && f.Valid() && Removes(h, nodes, f, path[n])
          && l == Without(f.list, f.a, f.b)
          && Stacked(h, nodes, head, frames[..n], f.list, path[..n]))
  }

  /** The nodes that the frame took out are the two nodes of operation `x`. */
  ghost predicate Removes<I, O>(h: seq<Entry<I, O>>, nodes: seq<Node<I, O>>, f: Frame<I, O>, x: nat)
    requires |nodes| == |h|
  {
    && f.Valid() && IsNode(nodes, f.list[f.a]) && IsNode(nodes, f.list[f.b])
    && h[f.list[f.a].pos].id == x && h[f.list[f.b].pos].id == x
  }

  /** The links of the list and of everything taken out of it. */
  ghost predicate Linkage<I, O>(nodes: seq<Node<I, O>>, head: Node<I, O>, frames: seq<Frame<I, O>>, l: seq<Node<I, O>>)
    reads nodes, head
  {
    && (forall i :: 0 <= i < |l| ==> l[i] == head || IsNode(nodes, l[i]))
    && Linked(l)
    && (forall k :: 0 <= k < |frames| ==> Restorable(nodes, frames[k]))
  }

  ghost predicate Restorable<I, O>(nodes: seq<Node<I, O>>, f: Frame<I, O>)
    reads if f.Valid() && IsNode(nodes, f.list[f.a]) && IsNode(nodes, f.list[f.b]) then {f.list[f.a], f.list[f.b]}
      else {}
  {
    f.Valid() && IsNode(nodes, f.list[f.a]) && IsNode(nodes, f.list[f.b]) && Remembers(f.list, f.a, f.b)
  }

  /** The entry after `l[e]` is the next one in the history whose operation is not on the stack. */
  lemma NextInList<I, O>(h: seq<Entry<I, O>>, nodes: seq<Node<I, O>>, head: Node<I, O>, l: seq<Node<I, O>>,
      path: seq<nat>, e: nat, q: nat)
    requires WellFormed(h) && NodesOf(nodes, h) && Lists(h, nodes, head, l, path)
    requires e + 1 < |l| && q < |h| && h[q].id !in path
    ensures q <= l[e].pos || l[e + 1].pos <= q
  {
  }

  /** Where the mate of a listed call is. */
  lemma MateInList<I, O>(h: seq<Entry<I, O>>, nodes: seq<Node<I, O>>, head: Node<I, O>, l: seq<Node<I, O>>,
      path: seq<nat>, a: nat)
    returns (b: nat)
    requires WellFormed(h) && NodesOf(nodes, h) && Lists(h, nodes, head, l, path)
    requires 0 < a < |l| && l[a].mate != null
    ensures a < b < |l| && l[b] == l[a].mate && IsNode(nodes, l[b]) && h[l[b].pos].id == h[l[a].pos].id
    ensures !h[l[a].pos].isReturn && h[l[b].pos].isReturn
  {
    var q := ReturnAt(h, h[l[a].pos].id);
    assert nodes[q] in l[1..];
    b :| 0 < b < |l| && l[b] == nodes[q];
  }

  /** Which element of `l` each element of `Without(l, a, b)` is. */
  ghost function Kept(a: nat, b: nat, i: nat): nat
    requires a < b
  {
    if i < a then i else if i + 1 < b then i + 1 else i + 2
  }

  lemma WithoutAt<T>(l: seq<T>, a: nat, b: nat)
    requires a < b < |l|
    ensures |Without(l, a, b)| == |l| - 2
    ensures forall i :: 0 <= i < |l| - 2 ==> Without(l, a, b)[i] == l[Kept(a, b, i)]
  {
  }

  lemma WithoutHas<T>(l: seq<T>, a: nat, b: nat, j: nat)
    requires 0 < a < b < |l| && 0 < j < |l| && j != a && j != b
    ensures l[j] in Without(l, a, b)[1..]
  {
    WithoutAt(l, a, b);
    var i := if j < a then j else if j < b then j - 1 else j - 2;
    assert Kept(a, b, i) == j;
    assert Without(l, a, b)[1..][i - 1] == l[j];
  }

  /** Without an operation's two nodes, the list is the list of the longer path. */
  lemma ListsWithout<I, O>(h: seq<Entry<I, O>>, nodes: seq<Node<I, O>>, head: Node<I, O>, l: seq<Node<I, O>>,
      path: seq<nat>, a: nat, b: nat)
    requires WellFormed(h) && NodesOf(nodes, h) && Lists(h, nodes, head, l, path)
    requires 0 < a < b < |l| && h[l[a].pos].id == h[l[b].pos].id
    ensures Lists(h, nodes, head, Without(l, a, b), path + [h[l[a].pos].id])
  {
    var (d, x) := (Without(l, a, b), h[l[a].pos].id);
    WithoutAt(l, a, b);
    assert Kept(a, b, 0) == 0;
    forall i, j | 0 <= i < j < |d|
      ensures d[i].pos < d[j].pos
    {
      assert Kept(a, b, i) < Kept(a, b, j);
    }
    forall i | 0 < i < |d|
      ensures IsNode(nodes, d[i]) && h[d[i].pos].id !in path + [x]
    {
      var j := Kept(a, b, i);
      assert d[i] == l[j] && j != a && j != b;
      SameOperation(h, l[a].pos, l[b].pos, l[j].pos);
    }
    forall q | 0 <= q < |h| && h[q].id !in path + [x]
      ensures nodes[q] in d[1..]
    {
      assert nodes[q] in l[1..];
      var j :| 0 < j < |l| && l[j] == nodes[q];
      WithoutHas(l, a, b, j);
    }
  }

  /** Only two entries belong to an operation. */
  lemma SameOperation<I, O>(h: seq<Entry<I, O>>, p: int, q: int, r: int)
    requires WellFormed(h) && 0 <= p < |h| && 0 <= q < |h| && 0 <= r < |h|
    requires p != q && q != r && p != r && h[p].id == h[q].id
    ensures h[r].id != h[p].id
  {
  }

  lemma {:induction false} FramesRemove<I, O>(h: seq<Entry<I, O>>, nodes: seq<Node<I, O>>, head: Node<I, O>,
      frames: seq<Frame<I, O>>, l: seq<Node<I, O>>, path: seq<nat>, k: nat)
    requires |nodes| == |h|
    requires Stacked(h, nodes, head, frames, l, path) && k < |path|
    ensures Removes(h, nodes, frames[k], path[k])
    decreases |path|
  {
    var n := |path| - 1;
    if k < n {
      FramesRemove(h, nodes, head, frames[..n], frames[n].list, path[..n], k);
    }
  }

  /** Nothing that has been taken out is in the list. */
  lemma FramesOutside<I, O>(h: seq<Entry<I, O>>, nodes: seq<Node<I, O>>, head: Node<I, O>, frames: seq<Frame<I, O>>,
      l: seq<Node<I, O>>, path: seq<nat>)
    requires WellFormed(h) && NodesOf(nodes, h) && head.pos == -1
    requires Stacked(h, nodes, head, frames, l, path)
    ensures Outside(frames, l)
  {
    forall k | 0 <= k < |frames|
      ensures frames[k].Valid() && frames[k].list[frames[k].a] !in l && frames[k].list[frames[k].b] !in l
    {
      FramesRemove(h, nodes, head, frames, l, path, k);
      var f := frames[k];
      assert path[k] in path;
    }
  }

  lemma StackedPush<I, O>(h: seq<Entry<I, O>>, nodes: seq<Node<I, O>>, head: Node<I, O>, frames: seq<Frame<I, O>>,
      f: Frame<I, O>, path: seq<nat>, x: nat)
    requires WellFormed(h) && NodesOf(nodes, h)
    requires Stacked(h, nodes, head, frames, f.list, path) && Removes(h, nodes, f, x)
    ensures Stacked(h, nodes, head, frames + [f], Without(f.list, f.a, f.b), path + [x])
  {
    var (fs, p) := (frames + [f], path + [x]);
    ListsWithout(h, nodes, head, f.list, path, f.a, f.b);
    assert fs[..|path|] == frames && p[..|path|] == path;
  }

  lemma StackedPop<I, O>(h: seq<Entry<I, O>>, nodes: seq<Node<I, O>>, head: Node<I, O>, frames: seq<Frame<I, O>>,
      l: seq<Node<I, O>>, path: seq<nat>, n: nat)
    requires WellFormed(h) && NodesOf(nodes, h) && head.pos == -1
    requires |path| == n + 1 && Stacked(h, nodes, head, frames, l, path)
    ensures var f := frames[n];
      && frames == frames[..n] + [f] && f.Valid() && l == Without(f.list, f.a, f.b) && Removes(h, nodes, f, path[n])
      && Stacked(h, nodes, head, frames[..n], f.list, path[..n])
      && Outside(frames[..n], f.list)
      && forall i :: 0 <= i < |f.list| ==> f.list[i] == head || IsNode(nodes, f.list[i])
  {
    FramesOutside(h, nodes, head, frames[..n], frames[n].list, path[..n]);
  }

  ghost predicate Outside<I, O>(frames: seq<Frame<I, O>>, l: seq<Node<I, O>>) {
    forall k :: 0 <= k < |frames| ==>
      frames[k].Valid() && frames[k].list[frames[k].a] !in l && frames[k].list[frames[k].b] !in l
  }

  /** Everything that `Lift` and `Unlift` write to. */
  lemma Touched<I, O>(nodes: seq<Node<I, O>>, head: Node<I, O>, l: seq<Node<I, O>>, a: nat, b: nat)
    requires 0 < a < b < |l| && forall i :: 0 <= i < |l| ==> l[i] == head || IsNode(nodes, l[i])
    ensures forall n :: n in Neighbours(l, a) + Neighbours(Del(l, a), b - 1) ==> n in l && (n == head || n in nodes)
  {
  }

  method LiftFrame<I, O>(entry: Node<I, O>, ghost nodes: seq<Node<I, O>>, ghost head: Node<I, O>,
      ghost frames: seq<Frame<I, O>>, ghost f: Frame<I, O>)
    requires Linkage(nodes, head, frames, f.list) && Outside(frames, f.list)
    requires f.Valid() && f.list[f.a] == entry && IsNode(nodes, entry) && IsNode(nodes, f.list[f.b])
    modifies nodes, head
    ensures Linkage(nodes, head, frames + [f], Without(f.list, f.a, f.b))
  {
    Touched(nodes, head, f.list, f.a, f.b);
    Lift(entry, f.list, f.a, f.b);
    ghost var (fs, l) := (frames + [f], Without(f.list, f.a, f.b));
    forall k | 0 <= k < |fs|
      ensures Restorable(nodes, fs[k])
    {
      assert k < |frames| ==> fs[k] == frames[k] && Restorable(nodes, frames[k]);
    }
    assert forall i :: 0 <= i < |l| ==> l[i] == head || IsNode(nodes, l[i]) by {
      WithoutAt(f.list, f.a, f.b);
    }
  }

  method UnliftFrame<I, O>(entry: Node<I, O>, ghost nodes: seq<Node<I, O>>, ghost head: Node<I, O>,
      ghost frames: seq<Frame<I, O>>, ghost f: Frame<I, O>, ghost l: seq<Node<I, O>>)
    requires Linkage(nodes, head, frames + [f], l) && Outside(frames, f.list)
    requires f.Valid() && f.list[f.a] == entry && l == Without(f.list, f.a, f.b)
    requires forall i :: 0 <= i < |f.list| ==> f.list[i] == head || IsNode(nodes, f.list[i])
    modifies nodes, head
    ensures Linkage(nodes, head, frames, f.list)
  {
    Touched(nodes, head, f.list, f.a, f.b);
    ghost var fs := frames + [f];
    assert fs[|frames|] == f;
    assert forall k :: 0 <= k < |frames| ==> fs[k] == frames[k];
    assert forall k :: 0 <= k < |frames| ==> Restorable(nodes, frames[k]);
    assert Restorable(nodes, f);
    Unlift(entry, f.list, f.a, f.b);
    forall k | 0 <= k < |frames|
      ensures Restorable(nodes, frames[k])
    {
    }
  }

  /** Takes the operation of a listed call out of the list. */
  method Push<I, O>(entry: Node<I, O>, ghost h: seq<Entry<I, O>>, ghost nodes: seq<Node<I, O>>, ghost head: Node<I, O>,
      ghost frames: seq<Frame<I, O>>, ghost l: seq<Node<I, O>>, ghost path: seq<nat>, ghost a: nat)
    returns (ghost f: Frame<I, O>)
    requires WellFormed(h) && NodesOf(nodes, h) && head.pos == -1
    requires Stacked(h, nodes, head, frames, l, path) && Linkage(nodes, head, frames, l)
    requires 0 < a < |l| && l[a] == entry && entry.mate != null
    modifies nodes, head
    ensures f.list == l && f.a == a && f.Valid()
    ensures Stacked(h, nodes, head, frames + [f], Without(l, a, f.b), path + [h[entry.pos].id])
    ensures Linkage(nodes, head, frames + [f], Without(l, a, f.b))
  {
    ghost var b := MateInList(h, nodes, head, l, path, a);
    f := Frame(l, a, b);
    FramesOutside(h, nodes, head, frames, l, path);
    StackedPush(h, nodes, head, frames, f, path, h[entry.pos].id);
    LiftFrame(entry, nodes, head, frames, f);
  }

  /** Puts the operation on top of the stack back. */
  method Pop<I, O>(entry: Node<I, O>, ghost h: seq<Entry<I, O>>, ghost nodes: seq<Node<I, O>>, ghost head: Node<I, O>,
      ghost frames: seq<Frame<I, O>>, ghost l: seq<Node<I, O>>, ghost path: seq<nat>, ghost n: nat)
    requires WellFormed(h) && NodesOf(nodes, h) && head.pos == -1
    requires Stacked(h, nodes, head, frames, l, path) && Linkage(nodes, head, frames, l)
    requires |path| == n + 1 && |frames| == n + 1 && frames[n].Valid() && frames[n].list[frames[n].a] == entry
    modifies nodes, head
    ensures Stacked(h, nodes, head, frames[..n], frames[n].list, path[..n])
    ensures Linkage(nodes, head, frames[..n], frames[n].list)
  {
    ghost var f := frames[n];
    StackedPop(h, nodes, head, frames, l, path, n);
    UnliftFrame(entry, nodes, head, frames[..n], f, l);
  }
}
