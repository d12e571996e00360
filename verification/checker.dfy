/** The linearizability checker for one partition of a history. */
module Checker {
  import opened Collections
  import opened Hiding
  import opened Linearizability
  import opened Entries
  import opened EntryList
  import opened ListStack
  import opened Words
  import opened Bitsets
  import opened Search
  import opened Memo

  datatype CallsEntry<S, I, O> = CallsEntry(entry: Node<I, O>, state: S)

  /** Looks the configuration up in the memo and files it there if it is new. The bitset is cloned
      first, so that later changes to it leave the stored entry alone. */
  method Visit<S(!new), I(!new), O(!new)>(
      m: Model<S, I, O>, linearized: array<Word>, id: nat, newState: S, cache: Cache<S>,
      ghost entries: set<CacheEntry<S>>)
    returns (isNew: bool, cache': Cache<S>, ghost entries': set<CacheEntry<S>>)
    requires EqualIsCongruence(m) && id < 64 * linearized.Length
    requires Filed(cache, entries, linearized.Length) && Intact(entries) && linearized !in Arrays(entries)
    ensures Filed(cache', entries', linearized.Length) && Intact(entries') && linearized !in Arrays(entries')
    ensures linearized[..] == old(linearized[..])
    ensures var (D, memo) := (Members(linearized[..]) + {id}, MemoOf(entries));
            if isNew then !Known(m, memo, D, newState) && MemoOf(entries') == memo + {(D, newState)} &&
              (D, newState) !in memo
            else entries' == entries && Known(m, memo, D, newState)
  {
    ghost var D := Members(linearized[..]) + {id};
    var newLinearized := WithId(linearized, id, entries);
    var entry := CacheEntry(newLinearized, newState, newLinearized[..]);
    assert ConfigOf(entry) == (D, newState);
    var found := CacheContains(m, cache, entry, entries);
    isNew, cache', entries' := !found, cache, entries;
    if isNew {
      NewConfig(m, MemoOf(entries), D, newState);
      cache', entries' := Store(cache, entry, entries);
    }
  }

  lemma NewConfig<S(!new), I(!new), O(!new)>(m: Model<S, I, O>, memo: set<Config<S>>, D: set<nat>, s: S)
    requires EqualIsCongruence(m) && !Known(m, memo, D, s)
    ensures (D, s) !in memo
  {
  }

  method WithId<S(!new)>(linearized: array<Word>, id: nat, ghost entries: set<CacheEntry<S>>) returns (b: array<Word>)
    requires id < 64 * linearized.Length && Intact(entries)
    ensures fresh(b) && b.Length == linearized.Length
    ensures Members(b[..]) == Members(linearized[..]) + {id} && Intact(entries)
  {
    b := Clone(linearized);
    assert b !in Arrays(entries);
    Set(b, id);
  }

  method Store<S(!new)>(cache: Cache<S>, entry: CacheEntry<S>, ghost entries: set<CacheEntry<S>>)
    returns (cache': Cache<S>, ghost entries': set<CacheEntry<S>>)
    requires Filed(cache, entries, entry.linearized.Length) && Intact(entries)
    requires entry.linearized[..] == entry.words
    ensures entries' == entries + {entry} && MemoOf(entries') == MemoOf(entries) + {ConfigOf(entry)}
    ensures Filed(cache', entries', entry.linearized.Length) && Intact(entries')
  {
    var hash := Hash(entry.linearized);
    assert hash == HashOf(entry.words);
    cache' := Insert(cache, hash, entry);
    entries' := entries + {entry};
    InsertFiled(cache, entries, entry.linearized.Length, entry);
    InsertStored(entries, entry);
  }

  /** Skipping a call in the list skips no other operation that is still to be linearized. */
  lemma AfterEntry<I, O>(h: seq<Entry<I, O>>, nodes: seq<Node<I, O>>, head: Node<I, O>, l: seq<Node<I, O>>,
      path: seq<nat>, e: nat, y: nat)
    requires WellFormed(h) && NodesOf(nodes, h) && Lists(h, nodes, head, l, path)
    requires 0 < e && e + 1 < |l| && !h[l[e].pos].isReturn && y < |h| / 2 && y !in path
    ensures var op := OperationsOf(h)[y];
            && (y == h[l[e].pos].id || op.call < l[e].pos || l[e + 1].pos <= op.call)
            && (op.ret < l[e].pos || l[e + 1].pos <= op.ret)
  {
    var op := OperationsOf(h)[y];
    OperationEntries(h, y);
    NextInList(h, nodes, head, l, path, e, op.call);
    NextInList(h, nodes, head, l, path, e, op.ret);
  }

  /** The position of the first entry of the list, or the end of the history if there is none. */
  ghost function FirstPos<I, O>(h: seq<Entry<I, O>>, l: seq<Node<I, O>>): int {
    if |l| > 1 then l[1].pos else |h|
  }

  lemma FromFirst<I, O>(h: seq<Entry<I, O>>, nodes: seq<Node<I, O>>, head: Node<I, O>, l: seq<Node<I, O>>,
      path: seq<nat>, y: nat)
    requires WellFormed(h) && NodesOf(nodes, h) && Lists(h, nodes, head, l, path)
    requires y < |h| / 2 && y !in path
    ensures |l| > 1 && FirstPos(h, l) <= OperationsOf(h)[y].call
  {
    var op := OperationsOf(h)[y];
    OperationEntries(h, y);
    assert nodes[op.call] in l[1..];
    var j :| 0 < j < |l| && l[j] == nodes[op.call];
  }

  /** When the list is empty, every operation has been linearized. */
  lemma EmptyList<I, O>(h: seq<Entry<I, O>>, nodes: seq<Node<I, O>>, head: Node<I, O>, l: seq<Node<I, O>>,
      path: seq<nat>)
    requires WellFormed(h) && NodesOf(nodes, h) && Lists(h, nodes, head, l, path) && |l| == 1
    requires Distinct(path) && InRange(OperationsOf(h), path)
    ensures |path| == |OperationsOf(h)|
  {
    forall y: nat | y < |h| / 2
      ensures y in Elems(path)
    {
      if y !in path {
        FromFirst(h, nodes, head, l, path, y);
      }
    }
    DistinctElems(path);
    ElemsBound(|h| / 2, Elems(path));
    SubsetSize(Below(|h| / 2), Elems(path));
  }

  method CallIds<S, I, O>(calls: seq<CallsEntry<S, I, O>>, ghost path: seq<nat>) returns (ids: seq<nat>)
    requires |calls| == |path| && forall k :: 0 <= k < |path| ==> calls[k].entry.id == path[k]
    ensures ids == path
  {
    ids := [];
    for i := 0 to |calls|
      invariant ids == path[..i]
    {
      ids := ids + [calls[i].entry.id];
    }
  }

  lemma ListAtFirst<I, O>(h: seq<Entry<I, O>>, nodes: seq<Node<I, O>>, head: Node<I, O>)
    requires WellFormed(h) && NodesOf(nodes, h) && head.pos == -1
    ensures Stacked(h, nodes, head, [], [head] + nodes, [])
  {
    var l := [head] + nodes;
    assert l[1..] == nodes;
    forall q | 0 <= q < |h|
      ensures nodes[q] in l[1..]
    {
    }
  }

  lemma InvAtFirst<S, I, O>(pb: Problem<S, I, O>, first: int, longest: seq<Option<seq<nat>>>)
    requires forall y :: 0 <= y < |pb.ops| ==> first <= pb.ops[y].call < pb.ops[y].ret
    requires |longest| == |pb.ops| && forall x :: 0 <= x < |longest| ==> longest[x] == None
    ensures pb.Inv([], [pb.m.init], first, {}, longest)
  {
  }

  ghost function Recorded(longest: seq<Option<seq<nat>>>, path: seq<nat>, seen: seq<nat>, x: nat): Option<seq<nat>>
    requires x < |longest|
  {
    if x in seen && (longest[x].None? || |path| > |longest[x].value|) then Some(path) else longest[x]
  }

  /** Records the stack for each of its operations that has no recorded sequence as long. */
  method Record<S, I, O>(calls: seq<CallsEntry<S, I, O>>, longest: seq<Option<seq<nat>>>, ghost path: seq<nat>)
    returns (after: seq<Option<seq<nat>>>)
    requires |calls| == |path| && forall k :: 0 <= k < |path| ==> calls[k].entry.id == path[k] < |longest|
    ensures |after| == |longest|
    ensures forall x :: 0 <= x < |longest| ==> after[x] == Recorded(longest, path, path, x)
  {
    after := longest;
    var ids: Option<seq<nat>> := None;
    for i := 0 to |calls|
      invariant |after| == |longest| && (ids == None || ids == Some(path))
      invariant forall x :: 0 <= x < |longest| ==> after[x] == Recorded(longest, path, path[..i], x)
    {
      var id := calls[i].entry.id;
      assert path[..i + 1] == path[..i] + [id];
      if after[id].None? || |calls| > |after[id].value| {
        if ids == None {
          var made := CallIds(calls, path);
          ids := Some(made);
        }
        after := after[id := ids];
      }
    }
    assert path[..|calls|] == path;
  }

  /** The undo stack of the program is the stack of the proof. */
  ghost predicate StackOf<S, I, O>(calls: seq<CallsEntry<S, I, O>>, state: S, frames: seq<Frame<I, O>>, path: seq<nat>,
      states: seq<S>)
  {
    && |calls| == |path| == |frames| && |states| == |path| + 1 && state == states[|path|]
    && (forall k :: 0 <= k < |path| ==>
          && frames[k].Valid() && calls[k].entry == frames[k].list[frames[k].a]
          && calls[k].entry.id == path[k] && calls[k].state == states[k])
  }

  ghost predicate ListPart<I, O>(ops: seq<Operation<I, O>>, h: seq<Entry<I, O>>, nodes: seq<Node<I, O>>,
      head: Node<I, O>, frames: seq<Frame<I, O>>, l: seq<Node<I, O>>, path: seq<nat>)
    reads nodes, head
  {
    forall u {:trigger Unfold(u)} :: Unfold(u) ==>
      && WellFormed(h) && ops == OperationsOf(h) && NodesOf(nodes, h) && head.pos == -1
      && Stacked(h, nodes, head, frames, l, path) && Linkage(nodes, head, frames, l)
  }

  ghost predicate SearchPart<S(!new), I(!new), O(!new)>(
      pb: Problem<S, I, O>, path: seq<nat>, states: seq<S>, pos: int, memo: set<Config<S>>,
      longest: seq<Option<seq<nat>>>)
  {
    forall u {:trigger Unfold(u)} :: Unfold(u) ==>
      EqualIsCongruence(pb.m) && pb.Inv(path, states, pos, memo, longest)
  }

  ghost predicate MemoPart<S(!new), I(!new), O(!new)>(m: Model<S, I, O>, cache: Cache<S>, entries: set<CacheEntry<S>>,
      linearized: array<Word>, path: seq<nat>, n: nat)
    reads Arrays(entries), linearized
  {
    forall u {:trigger Unfold(u)} :: Unfold(u) ==>
      && EqualIsCongruence(m)
      && Filed(cache, entries, linearized.Length) && Intact(entries) && linearized !in Arrays(entries)
      && Members(linearized[..]) == Elems(path) && n <= 64 * linearized.Length
  }

  method MakeList<I, O>(h: seq<Entry<I, O>>) returns (head: Node<I, O>, entry: Node?<I, O>,
      ghost nodes: seq<Node<I, O>>)
    requires WellFormed(h)
    ensures fresh(nodes) && fresh(head) && entry == At([head] + nodes, 1)
    ensures ListPart(OperationsOf(h), h, nodes, head, [], [head] + nodes, [])
  {
    entry, nodes := MakeLinkedEntries(h);
    head := new Node(Nothing, null, -1, -1);
    Prepend(head, entry, nodes);
    ListPartAtFirst(h, nodes, head);
  }

  lemma ListPartAtFirst<I, O>(h: seq<Entry<I, O>>, nodes: seq<Node<I, O>>, head: Node<I, O>)
    requires WellFormed(h) && NodesOf(nodes, h) && head.pos == -1 && Linked([head] + nodes)
    ensures ListPart(OperationsOf(h), h, nodes, head, [], [head] + nodes, [])
  {
    ListAtFirst(h, nodes, head);
    var l := [head] + nodes;
    assert Linkage(nodes, head, [], l) by {
      forall i | 0 <= i < |l|
        ensures l[i] == head || IsNode(nodes, l[i])
      {
        assert i > 0 ==> l[i] == nodes[i - 1];
      }
    }
  }

  method MakeMemo<S(!new), I(!new), O(!new)>(ghost m: Model<S, I, O>, n: nat)
    returns (linearized: array<Word>, cache: Cache<S>, ghost entries: set<CacheEntry<S>>)
    requires EqualIsCongruence(m)
    ensures fresh(linearized) && entries == {} && MemoPart(m, cache, entries, linearized, [], n)
  {
    assert Unfold(true);
    linearized := NewBitset(n);
    cache, entries := map[], {};
  }

  /** What the list says about the call at `l[e]`. */
  lemma CallInList<I, O>(ops: seq<Operation<I, O>>, h: seq<Entry<I, O>>, nodes: seq<Node<I, O>>, head: Node<I, O>,
      frames: seq<Frame<I, O>>, l: seq<Node<I, O>>, path: seq<nat>, e: nat)
    requires ListPart(ops, h, nodes, head, frames, l, path) && 0 < e < |l| && l[e].mate != null
    ensures e + 1 < |l| && l[e].next == l[e + 1]
    ensures 0 <= l[e].id < |ops| && l[e].id !in path
    ensures var op := ops[l[e].id];
            op.call == l[e].pos && l[e].value == In(op.input) && l[e].mate.value == Out(op.output)
    ensures forall y: nat :: y < |ops| && y !in path ==>
      var op := ops[y];
      && (y == l[e].id || op.call < l[e].pos || l[e + 1].pos <= op.call)
      && (op.ret < l[e].pos || l[e + 1].pos <= op.ret)
  {
    assert Unfold(true);
    var b := MateInList(h, nodes, head, l, path, e);
    EntryIsCallOrReturn(h, l[e].pos);
    EntryIsCallOrReturn(h, l[b].pos);
    forall y: nat | y < |ops| && y !in path
      ensures var op := ops[y];
        && (y == l[e].id || op.call < l[e].pos || l[e + 1].pos <= op.call)
        && (op.ret < l[e].pos || l[e + 1].pos <= op.ret)
    {
      AfterEntry(h, nodes, head, l, path, e, y);
    }
  }

  /** What the list says about the return at `l[e]`. */
  lemma ReturnInList<I, O>(ops: seq<Operation<I, O>>, h: seq<Entry<I, O>>, nodes: seq<Node<I, O>>, head: Node<I, O>,
      frames: seq<Frame<I, O>>, l: seq<Node<I, O>>, path: seq<nat>, e: nat)
    requires ListPart(ops, h, nodes, head, frames, l, path) && 0 < e < |l| && l[e].mate == null
    ensures 0 <= l[e].id < |ops| && l[e].id !in path && ops[l[e].id].ret == l[e].pos
    ensures forall x :: 0 <= x < |ops| ==> ops[x].call != l[e].pos
  {
    assert Unfold(true);
    EntryIsCallOrReturn(h, l[e].pos);
    forall x | 0 <= x < |ops|
      ensures ops[x].call != l[e].pos
    {
      OperationEntries(h, x);
    }
  }

  lemma FirstInList<I, O>(ops: seq<Operation<I, O>>, h: seq<Entry<I, O>>, nodes: seq<Node<I, O>>, head: Node<I, O>,
      frames: seq<Frame<I, O>>, l: seq<Node<I, O>>, path: seq<nat>)
    requires ListPart(ops, h, nodes, head, frames, l, path)
    ensures |l| > 0 && l[0] == head && head.next == At(l, 1)
    ensures forall y: nat :: y < |ops| && y !in path ==> FirstPos(h, l) <= ops[y].call
  {
    assert Unfold(true);
    forall y: nat | y < |ops| && y !in path
      ensures FirstPos(h, l) <= ops[y].call
    {
      FromFirst(h, nodes, head, l, path, y);
    }
  }

  method PushPart<I, O>(entry: Node<I, O>, ghost ops: seq<Operation<I, O>>, ghost h: seq<Entry<I, O>>,
      ghost nodes: seq<Node<I, O>>, ghost head: Node<I, O>, ghost frames: seq<Frame<I, O>>, ghost l: seq<Node<I, O>>,
      ghost path: seq<nat>, ghost e: nat)
    returns (ghost f: Frame<I, O>)
    requires ListPart(ops, h, nodes, head, frames, l, path)
    requires 0 < e < |l| && l[e] == entry && entry.mate != null && 0 <= entry.id
    modifies nodes, head
    ensures f.Valid() && f.list == l && f.a == e
    ensures ListPart(ops, h, nodes, head, frames + [f], Without(l, e, f.b), path + [entry.id])
  {
    assert Unfold(true);
    f := Push(entry, h, nodes, head, frames, l, path, e);
  }

  method PopPart<I, O>(entry: Node<I, O>, ghost ops: seq<Operation<I, O>>, ghost h: seq<Entry<I, O>>,
      ghost nodes: seq<Node<I, O>>, ghost head: Node<I, O>, ghost frames: seq<Frame<I, O>>, ghost l: seq<Node<I, O>>,
      ghost path: seq<nat>, ghost n: nat)
    requires ListPart(ops, h, nodes, head, frames, l, path)
    requires |path| == n + 1 && |frames| == n + 1 && frames[n].Valid() && frames[n].list[frames[n].a] == entry
    modifies nodes, head
    ensures entry.mate != null && ListPart(ops, h, nodes, head, frames[..n], frames[n].list, path[..n])
  {
    assert Unfold(true);
    Pop(entry, h, nodes, head, frames, l, path, n);
  }

  method VisitPart<S(!new), I(!new), O(!new)>(
      m: Model<S, I, O>, linearized: array<Word>, id: nat, t: S, cache: Cache<S>, ghost entries: set<CacheEntry<S>>,
      ghost path: seq<nat>, ghost n: nat)
    returns (isNew: bool, cache': Cache<S>, ghost entries': set<CacheEntry<S>>)
    requires MemoPart(m, cache, entries, linearized, path, n) && id < n && id !in path
    modifies linearized
    ensures isNew ==> MemoPart(m, cache', entries', linearized, path + [id], n)
    ensures isNew ==>
      (Elems(path) + {id}, t) !in MemoOf(entries) && MemoOf(entries') == MemoOf(entries) + {(Elems(path) + {id}, t)}
    ensures !isNew ==> MemoPart(m, cache', entries', linearized, path, n) && entries' == entries
    ensures !isNew ==> Known(m, MemoOf(entries), Elems(path) + {id}, t)
  {
    assert Unfold(true);
    isNew, cache', entries' := Visit(m, linearized, id, t, cache, entries);
    if isNew {
      Set(linearized, id);
      assert Elems(path + [id]) == Elems(path) + {id};
    }
  }

  method ClearPart<S(!new), I(!new), O(!new)>(ghost m: Model<S, I, O>, linearized: array<Word>, id: nat,
      ghost cache: Cache<S>, ghost entries: set<CacheEntry<S>>, ghost q: seq<nat>, ghost n: nat)
    requires MemoPart(m, cache, entries, linearized, q + [id], n) && id < n && id !in q
    modifies linearized
    ensures MemoPart(m, cache, entries, linearized, q, n)
  {
    assert Unfold(true);
    assert Elems(q + [id]) - {id} == Elems(q);
    Clear(linearized, id);
  }

  lemma FoldSearch<S(!new), I(!new), O(!new)>(
      pb: Problem<S, I, O>, path: seq<nat>, states: seq<S>, pos: int, memo: set<Config<S>>,
      longest: seq<Option<seq<nat>>>)
    requires EqualIsCongruence(pb.m) && pb.Inv(path, states, pos, memo, longest)
    ensures SearchPart(pb, path, states, pos, memo, longest)
  {
  }

  lemma SearchAtFirst<S(!new), I(!new), O(!new)>(pb: Problem<S, I, O>, first: int, longest: seq<Option<seq<nat>>>)
    requires EqualIsCongruence(pb.m) && pb.Valid()
    requires forall y: nat :: y < |pb.ops| ==> first <= pb.ops[y].call
    requires |longest| == |pb.ops| && forall x :: 0 <= x < |longest| ==> longest[x] == None
    ensures SearchPart(pb, [], [pb.m.init], first, {}, longest)
  {
  }

  lemma SkipSearch<S(!new), I(!new), O(!new)>(
      pb: Problem<S, I, O>, path: seq<nat>, states: seq<S>, pos: int, memo: set<Config<S>>,
      longest: seq<Option<seq<nat>>>, x: nat, next: int)
    requires SearchPart(pb, path, states, pos, memo, longest) && |states| == |path| + 1
    requires x < |pb.ops| && x !in path && pb.ops[x].call == pos
    requires forall y: nat :: y < |pb.ops| && y !in path ==>
      (y == x || pb.ops[y].call < pos || next <= pb.ops[y].call) && (pb.ops[y].ret < pos || next <= pb.ops[y].ret)
    requires var (ok, t) := pb.StepTo(states[|path|], x); ok ==> Known(pb.m, memo, Elems(path) + {x}, t)
    ensures SearchPart(pb, path, states, next, memo, longest)
  {
    assert Unfold(true);
    var (ok, t) := pb.StepTo(states[|path|], x);
    if ok {
      var c :| c in memo && c.0 == Elems(path) + {x} && pb.m.equal(t, c.1);
      HitExplored(pb, path, states, memo, longest, x, t, c);
    }
    SkipKeepsInv(pb, path, states, pos, memo, longest, x, next);
    FoldSearch(pb, path, states, next, memo, longest);
  }

  lemma PushSearch<S(!new), I(!new), O(!new)>(
      pb: Problem<S, I, O>, path: seq<nat>, states: seq<S>, pos: int, memo: set<Config<S>>,
      longest: seq<Option<seq<nat>>>, x: nat, next: int)
    requires SearchPart(pb, path, states, pos, memo, longest) && |states| == |path| + 1
    requires x < |pb.ops| && x !in path && pb.ops[x].call == pos && pb.StepTo(states[|path|], x).0
    requires forall y: nat :: y < |pb.ops| && y !in path + [x] ==> next <= pb.ops[y].call
    ensures var t := pb.StepTo(states[|path|], x).1;
            SearchPart(pb, path + [x], states + [t], next, memo + {(Elems(path) + {x}, t)}, longest)
  {
    assert Unfold(true);
    var t := pb.StepTo(states[|path|], x).1;
    PushKeepsInv(pb, path, states, pos, memo, longest, x, next);
    FoldSearch(pb, path + [x], states + [t], next, memo + {(Elems(path) + {x}, t)}, longest);
  }

  lemma PushInUniverse<S(!new), I(!new), O(!new)>(
      pb: Problem<S, I, O>, path: seq<nat>, states: seq<S>, pos: int, memo: set<Config<S>>,
      longest: seq<Option<seq<nat>>>, x: nat)
    requires SearchPart(pb, path + [x], states, pos, memo, longest) && |states| == |path| + 2
    ensures (Elems(path) + {x}, states[|path| + 1]) in Universe(pb)
  {
    assert pb.OnStack(path + [x], states) by {
      assert Unfold(true);
    }
    InUniverse(pb, path + [x], states);
    assert Elems(path + [x]) == Elems(path) + {x};
  }

  lemma InUniverse<S, I, O>(pb: Problem<S, I, O>, path: seq<nat>, states: seq<S>)
    requires pb.OnStack(path, states)
    ensures (Elems(path), states[|path|]) in Universe(pb)
  {
    assert path[..|path|] == path;
    assert Replay(pb.m, pb.ops, path[..|path|]) == Some(states[|path|]);
  }

  /** Recording the stack covers the partial linearization that it is. */
  lemma RecordSearch<S(!new), I(!new), O(!new)>(
      pb: Problem<S, I, O>, path: seq<nat>, states: seq<S>, pos: int, memo: set<Config<S>>,
      longest: seq<Option<seq<nat>>>, after: seq<Option<seq<nat>>>)
    requires SearchPart(pb, path, states, pos, memo, longest) && |after| == |longest|
    requires forall x :: 0 <= x < |longest| ==> after[x] == Recorded(longest, path, path, x)
    ensures SearchPart(pb, path, states, pos, memo, after)
    ensures forall x :: x in path ==> x < |after| && after[x].Some? && |path| <= |after[x].value|
  {
    assert Unfold(true);
    RecordSound(pb, path, longest, after);
    RecordsKeepInv(pb, path, states, pos, memo, longest, after);
    FoldSearch(pb, path, states, pos, memo, after);
  }

  lemma RecordSound<S, I, O>(pb: Problem<S, I, O>, path: seq<nat>, longest: seq<Option<seq<nat>>>,
      after: seq<Option<seq<nat>>>)
    requires IsPartial(pb.m, pb.ops, path) && SoundRecords(pb.m, pb.ops, longest) && |after| == |longest|
    requires forall x :: 0 <= x < |longest| ==> after[x] == Recorded(longest, path, path, x)
    ensures SoundRecords(pb.m, pb.ops, after) && NoShorter(longest, after)
    ensures forall x :: x in path ==> x < |after| && after[x].Some? && |path| <= |after[x].value|
  {
  }

  lemma PopSearch<S(!new), I(!new), O(!new)>(
      pb: Problem<S, I, O>, path: seq<nat>, states: seq<S>, pos: int, memo: set<Config<S>>,
      longest: seq<Option<seq<nat>>>, y: nat, q: seq<nat>, x: nat, next: int)
    requires SearchPart(pb, path, states, pos, memo, longest) && |states| == |path| + 1
    requires y < |pb.ops| && y !in path && pb.ops[y].ret == pos
    requires forall x :: 0 <= x < |pb.ops| ==> pb.ops[x].call != pos
    requires pb.partial ==> forall x :: x in path ==> x < |longest| && longest[x].Some? && |path| <= |longest[x].value|
    requires path == q + [x] && x < |pb.ops|
    requires forall y: nat :: y < |pb.ops| && y !in q ==>
      (y == x || pb.ops[y].call < pb.ops[x].call || next <= pb.ops[y].call) &&
      (pb.ops[y].ret < pb.ops[x].call || next <= pb.ops[y].ret)
    ensures SearchPart(pb, q, states[..|q| + 1], next, memo, longest)
  {
    assert Unfold(true);
    TopExplored(pb, longest, path, states[|path|], pos, y);
    PopKeepsInv(pb, path, states, pos, memo, longest, q, x, next);
    FoldSearch(pb, q, states[..|q| + 1], next, memo, longest);
  }

  lemma RootSearch<S(!new), I(!new), O(!new)>(
      pb: Problem<S, I, O>, states: seq<S>, pos: int, memo: set<Config<S>>, longest: seq<Option<seq<nat>>>, y: nat)
    requires SearchPart(pb, [], states, pos, memo, longest)
    requires y < |pb.ops| && pb.ops[y].ret == pos
    requires forall x :: 0 <= x < |pb.ops| ==> pb.ops[x].call != pos
    ensures !Linearizable(pb.m, pb.ops)
    ensures pb.partial ==> LongestPerOperation(pb.m, pb.ops, longest)
  {
    assert Unfold(true);
    var path: seq<nat> := [];
    assert Replay(pb.m, pb.ops, path[..0]) == Some(states[0]);
    assert Elems(path) == {};
    TopExplored(pb, longest, path, states[0], pos, y);
    RootExplored(pb, longest);
  }

  lemma HistoryIsValid<S(!new), I(!new), O(!new)>(pb: Problem<S, I, O>, h: seq<Entry<I, O>>)
    requires WellFormed(h) && pb.ops == OperationsOf(h)
    ensures pb.Valid()
  {
  }

  lemma Sound<S(!new), I(!new), O(!new)>(
      pb: Problem<S, I, O>, path: seq<nat>, states: seq<S>, pos: int, memo: set<Config<S>>,
      longest: seq<Option<seq<nat>>>)
    requires SearchPart(pb, path, states, pos, memo, longest)
    ensures SoundRecords(pb.m, pb.ops, longest)
  {
    assert Unfold(true);
  }

  lemma AllOnStack<I, O>(ops: seq<Operation<I, O>>, h: seq<Entry<I, O>>, nodes: seq<Node<I, O>>, head: Node<I, O>,
      frames: seq<Frame<I, O>>, l: seq<Node<I, O>>, path: seq<nat>)
    requires |l| == 1 && ListPart(ops, h, nodes, head, frames, l, path) && Distinct(path) && InRange(ops, path)
    ensures |path| == |ops|
  {
    assert Unfold(true);
    EmptyList(h, nodes, head, l, path);
  }

  /** The whole history is on the stack: the stack is a linearization. */
  lemma Finished<S(!new), I(!new), O(!new)>(
      pb: Problem<S, I, O>, h: seq<Entry<I, O>>, nodes: seq<Node<I, O>>, head: Node<I, O>, frames: seq<Frame<I, O>>,
      l: seq<Node<I, O>>, path: seq<nat>, states: seq<S>, pos: int, memo: set<Config<S>>,
      longest: seq<Option<seq<nat>>>)
    requires |l| == 1 && ListPart(pb.ops, h, nodes, head, frames, l, path) &&
      SearchPart(pb, path, states, pos, memo, longest)
    ensures IsLinearization(pb.m, pb.ops, path) && IsPartial(pb.m, pb.ops, path)
    ensures forall x: nat :: x < |pb.ops| ==> x in path
  {
    assert pb.Valid() && IsPartial(pb.m, pb.ops, path) by {
      assert Unfold(true);
    }
    AllOnStack(pb.ops, h, nodes, head, frames, l, path);
    CompleteIffPartial(pb.m, pb.ops, path);
    DistinctElems(path);
    ElemsBound(|pb.ops|, Elems(path));
    assert forall x :: x in Elems(path) ==> x in path;
  }

  /** The parts of the loop invariant that only the proof sees: the current list and the position in
      it, what was taken out, the path and its states, everything memoised, and how many configurations are
      still to be memoised. */
  datatype Trail<S, I, O> = Trail(l: seq<Node<I, O>>, e: nat, pos: int, frames: seq<Frame<I, O>>,
                                  path: seq<nat>, states: seq<S>, ghost entries: set<CacheEntry<S>>, budget: nat)

  ghost predicate LoopInv<S(!new), I(!new), O(!new)>(
      pb: Problem<S, I, O>, h: seq<Entry<I, O>>, nodes: seq<Node<I, O>>, head: Node<I, O>, entry: Node?<I, O>,
      linearized: array<Word>, cache: Cache<S>, calls: seq<CallsEntry<S, I, O>>, state: S,
      longest: seq<Option<seq<nat>>>, g: Trail<S, I, O>)
    reads nodes, head, linearized, Arrays(g.entries)
  {
    && |longest| == |pb.ops|
    && ListPart(pb.ops, h, nodes, head, g.frames, g.l, g.path)
    && MemoPart(pb.m, cache, g.entries, linearized, g.path, |pb.ops|)
    && SearchPart(pb, g.path, g.states, g.pos, MemoOf(g.entries), longest)
    && BudgetPart(pb, MemoOf(g.entries), g.budget)
    && StackOf(calls, state, g.frames, g.path, g.states)
    && |g.l| > 0 && head.next == At(g.l, 1)
    && 0 < g.e <= |g.l| && entry == At(g.l, g.e) && (g.e == |g.l| ==> |g.l| == 1) &&
      (g.e < |g.l| ==> g.pos == g.l[g.e].pos)
  }

  ghost predicate BudgetPart<S(!new), I(!new), O(!new)>(pb: Problem<S, I, O>, memo: set<Config<S>>, budget: nat) {
    forall u {:trigger Unfold(u)} :: Unfold(u) ==> budget == |Universe(pb) - memo|
  }

  lemma BudgetAtFirst<S(!new), I(!new), O(!new)>(pb: Problem<S, I, O>) returns (budget: nat)
    ensures BudgetPart(pb, {}, budget)
  {
    budget := |Universe(pb) - {}|;
  }

  lemma BudgetDrops<S(!new), I(!new), O(!new)>(pb: Problem<S, I, O>, memo: set<Config<S>>, budget: nat, c: Config<S>)
    returns (after: nat)
    requires BudgetPart(pb, memo, budget) && c !in memo && c in Universe(pb)
    ensures BudgetPart(pb, memo + {c}, after) && after < budget
  {
    assert Unfold(true);
    var U := Universe(pb);
    assert U - (memo + {c}) == (U - memo) - {c};
    after := |U - (memo + {c})|;
  }

  /** Each iteration memoises one more of finitely many configurations, or shortens the stack, or moves
      on in the list. */
  ghost predicate Progress<S(!new), I(!new), O(!new)>(before: Trail<S, I, O>, after: Trail<S, I, O>) {
    || after.budget < before.budget
    || (after.budget == before.budget && |after.path| < |before.path|)
    || (after.budget == before.budget && after.path == before.path && |after.l| - after.e < |before.l| - before.e)
  }

  lemma PushStack<S, I, O>(calls: seq<CallsEntry<S, I, O>>, state: S, frames: seq<Frame<I, O>>, path: seq<nat>,
      states: seq<S>, f: Frame<I, O>, entry: Node<I, O>, newState: S)
    requires StackOf(calls, state, frames, path, states) && f.Valid() && f.list[f.a] == entry && 0 <= entry.id
    ensures StackOf(calls + [CallsEntry(entry, state)], newState, frames + [f], path + [entry.id], states + [newState])
  {
  }

  /** Linearizing the call `entry`, once its configuration has been filed as a new one. */
  method Linearize<S(!new), I(!new), O(!new)>(
      head: Node<I, O>, entry: Node<I, O>, calls: seq<CallsEntry<S, I, O>>, state: S, newState: S,
      ghost linearized: array<Word>, ghost cache: Cache<S>, ghost pb: Problem<S, I, O>, ghost h: seq<Entry<I, O>>,
      ghost nodes: seq<Node<I, O>>, ghost longest: seq<Option<seq<nat>>>, ghost g: Trail<S, I, O>,
      ghost entries': set<CacheEntry<S>>)
    returns (entry': Node?<I, O>, calls': seq<CallsEntry<S, I, O>>, ghost g': Trail<S, I, O>)
    requires |longest| == |pb.ops| && 0 < g.e < |g.l| && g.l[g.e] == entry && entry.mate != null && g.pos == entry.pos
    requires ListPart(pb.ops, h, nodes, head, g.frames, g.l, g.path)
    requires SearchPart(pb, g.path, g.states, g.pos, MemoOf(g.entries), longest) &&
      BudgetPart(pb, MemoOf(g.entries), g.budget)
    requires StackOf(calls, state, g.frames, g.path, g.states)
    requires 0 <= entry.id < |pb.ops| && entry.id !in g.path && pb.ops[entry.id].call == g.pos &&
      pb.StepTo(state, entry.id) == (true, newState)
    requires (Elems(g.path) + {entry.id}, newState) !in MemoOf(g.entries)
    requires MemoOf(entries') == MemoOf(g.entries) + {(Elems(g.path) + {entry.id}, newState)}
    requires MemoPart(pb.m, cache, entries', linearized, g.path + [entry.id], |pb.ops|)
    modifies nodes, head
    ensures LoopInv(pb, h, nodes, head, entry', linearized, cache, calls', newState, longest, g')
    ensures Progress(g, g')
  {
    calls' := calls + [CallsEntry(entry, state)];
    ghost var f := PushPart(entry, pb.ops, h, nodes, head, g.frames, g.l, g.path, g.e);
    entry' := head.next;
    g' := AfterPush(pb, h, nodes, head, entry, linearized, cache, calls, state, newState, longest, g, entries', f);
  }

  lemma AfterPush<S(!new), I(!new), O(!new)>(
      pb: Problem<S, I, O>, h: seq<Entry<I, O>>, nodes: seq<Node<I, O>>, head: Node<I, O>, entry: Node<I, O>,
      linearized: array<Word>, cache: Cache<S>, calls: seq<CallsEntry<S, I, O>>, state: S, newState: S,
      longest: seq<Option<seq<nat>>>, g: Trail<S, I, O>, entries': set<CacheEntry<S>>, f: Frame<I, O>)
    returns (g': Trail<S, I, O>)
    requires |longest| == |pb.ops| && f.Valid() && f.list == g.l && g.l[f.a] == entry && 0 <= entry.id < |pb.ops|
    requires ListPart(pb.ops, h, nodes, head, g.frames + [f], Without(g.l, f.a, f.b), g.path + [entry.id])
    requires SearchPart(pb, g.path, g.states, g.pos, MemoOf(g.entries), longest) &&
      BudgetPart(pb, MemoOf(g.entries), g.budget)
    requires StackOf(calls, state, g.frames, g.path, g.states)
    requires entry.id !in g.path && pb.ops[entry.id].call == g.pos && pb.StepTo(state, entry.id) == (true, newState)
    requires (Elems(g.path) + {entry.id}, newState) !in MemoOf(g.entries)
    requires MemoOf(entries') == MemoOf(g.entries) + {(Elems(g.path) + {entry.id}, newState)}
    requires MemoPart(pb.m, cache, entries', linearized, g.path + [entry.id], |pb.ops|)
    ensures LoopInv(pb, h, nodes, head, head.next, linearized, cache, calls + [CallsEntry(entry, state)], newState,
      longest, g')
    ensures Progress(g, g')
  {
    var (l', q) := (Without(g.l, f.a, f.b), g.path + [entry.id]);
    var first := FirstPos(h, l');
    FirstInList(pb.ops, h, nodes, head, g.frames + [f], l', q);
    PushStack(calls, state, g.frames, g.path, g.states, f, entry, newState);
    PushSearch(pb, g.path, g.states, g.pos, MemoOf(g.entries), longest, entry.id, first);
    PushInUniverse(pb, g.path, g.states + [newState], first, MemoOf(entries'), longest, entry.id);
    var budget := BudgetDrops(pb, MemoOf(g.entries), g.budget, (Elems(g.path) + {entry.id}, newState));
    g' := Trail(l', 1, first, g.frames + [f], q, g.states + [newState], entries', budget);
  }

  /** The iteration at a call: linearize it if the model accepts that and the configuration it leads to is
      new, and go on with the next entry otherwise. */
  method TryCall<S(!new), I(!new), O(!new)>(
      m: Model<S, I, O>, head: Node<I, O>, entry: Node<I, O>, linearized: array<Word>, cache: Cache<S>,
      calls: seq<CallsEntry<S, I, O>>, state: S, ghost pb: Problem<S, I, O>, ghost h: seq<Entry<I, O>>,
      ghost nodes: seq<Node<I, O>>, ghost longest: seq<Option<seq<nat>>>, ghost g: Trail<S, I, O>)
    returns (entry': Node?<I, O>, cache': Cache<S>, calls': seq<CallsEntry<S, I, O>>, state': S,
      ghost g': Trail<S, I, O>)
    requires LoopInv(pb, h, nodes, head, entry, linearized, cache, calls, state, longest, g)
    requires pb.m == m && entry.mate != null
    modifies nodes, head, linearized
    ensures LoopInv(pb, h, nodes, head, entry', linearized, cache', calls', state', longest, g')
    ensures Progress(g, g')
  {
    CallInList(pb.ops, h, nodes, head, g.frames, g.l, g.path, g.e);
    var matching := entry.mate;
    var (accepted, newState) := m.step(state, entry.value.input, matching.value.output);
    cache', calls', state' := cache, calls, state;
    if accepted {
      entry', cache', calls', state', g' :=
        Advance(m, head, entry, linearized, cache, calls, state, newState, pb, h, nodes, longest, g);
    } else {
      entry' := entry.next;
      g' := AfterSkip(pb, h, nodes, head, entry, linearized, cache, calls, state, longest, g);
    }
  }

  /** An accepted call: linearize it if the configuration it leads to is new. */
  method Advance<S(!new), I(!new), O(!new)>(
      m: Model<S, I, O>, head: Node<I, O>, entry: Node<I, O>, linearized: array<Word>, cache: Cache<S>,
      calls: seq<CallsEntry<S, I, O>>, state: S, newState: S, ghost pb: Problem<S, I, O>, ghost h: seq<Entry<I, O>>,
      ghost nodes: seq<Node<I, O>>, ghost longest: seq<Option<seq<nat>>>, ghost g: Trail<S, I, O>)
    returns (entry': Node?<I, O>, cache': Cache<S>, calls': seq<CallsEntry<S, I, O>>, state': S,
      ghost g': Trail<S, I, O>)
    requires LoopInv(pb, h, nodes, head, entry, linearized, cache, calls, state, longest, g)
    requires pb.m == m && entry.mate != null && 0 <= entry.id < |pb.ops| && entry.id !in g.path
    requires pb.ops[entry.id].call == entry.pos && pb.StepTo(state, entry.id) == (true, newState)
    modifies nodes, head, linearized
    ensures LoopInv(pb, h, nodes, head, entry', linearized, cache', calls', state', longest, g')
    ensures Progress(g, g')
  {
    var isNew;
    ghost var entries';
    isNew, cache', entries' := VisitPart(m, linearized, entry.id, newState, cache, g.entries, g.path, |pb.ops|);
    if isNew {
      state' := newState;
      entry', calls', g' :=
        Linearize(head, entry, calls, state, newState, linearized, cache', pb, h, nodes, longest, g, entries');
    } else {
      calls', state' := calls, state;
      entry' := entry.next;
      g' := AfterSkip(pb, h, nodes, head, entry, linearized, cache', calls, state, longest, g);
    }
  }

  /** Moving on in the list after a call that the model rejects or whose configuration is known. */
  lemma AfterSkip<S(!new), I(!new), O(!new)>(
      pb: Problem<S, I, O>, h: seq<Entry<I, O>>, nodes: seq<Node<I, O>>, head: Node<I, O>, entry: Node<I, O>,
      linearized: array<Word>, cache: Cache<S>, calls: seq<CallsEntry<S, I, O>>, state: S,
      longest: seq<Option<seq<nat>>>, g: Trail<S, I, O>)
    returns (g': Trail<S, I, O>)
    requires LoopInv(pb, h, nodes, head, entry, linearized, cache, calls, state, longest, g)
    requires entry.mate != null && 0 <= entry.id < |pb.ops|
    requires var (ok, t) := pb.StepTo(state, entry.id); ok ==>
      Known(pb.m, MemoOf(g.entries), Elems(g.path) + {entry.id}, t)
    ensures LoopInv(pb, h, nodes, head, entry.next, linearized, cache, calls, state, longest, g')
    ensures Progress(g, g')
  {
    CallInList(pb.ops, h, nodes, head, g.frames, g.l, g.path, g.e);
    SkipSearch(pb, g.path, g.states, g.pos, MemoOf(g.entries), longest, entry.id, g.l[g.e + 1].pos);
    g' := g.(e := g.e + 1, pos := g.l[g.e + 1].pos);
  }

  lemma PopStackOf<S, I, O>(calls: seq<CallsEntry<S, I, O>>, state: S, frames: seq<Frame<I, O>>, path: seq<nat>,
      states: seq<S>, n: nat)
    requires StackOf(calls, state, frames, path, states) && |path| == n + 1
    ensures StackOf(calls[..n], calls[n].state, frames[..n], path[..n], states[..n + 1])
    ensures path == path[..n] + [path[n]] && frames[n].Valid() && calls[n].entry == frames[n].list[frames[n].a]
    ensures calls[n].entry.id == path[n]
  {
  }

  /** The iteration at a return: nothing is left to try here, so the stack is recorded and the last
      linearized operation is undone. */
  method Backtrack<S(!new), I(!new), O(!new)>(
      head: Node<I, O>, entry: Node<I, O>, linearized: array<Word>, calls: seq<CallsEntry<S, I, O>>,
      computePartial: bool, longest: seq<Option<seq<nat>>>, ghost state: S, ghost cache: Cache<S>,
      ghost pb: Problem<S, I, O>, ghost h: seq<Entry<I, O>>, ghost nodes: seq<Node<I, O>>, ghost g: Trail<S, I, O>)
    returns (entry': Node?<I, O>, calls': seq<CallsEntry<S, I, O>>, state': S, longest': seq<Option<seq<nat>>>,
      ghost g': Trail<S, I, O>)
    requires LoopInv(pb, h, nodes, head, entry, linearized, cache, calls, state, longest, g)
    requires entry.mate == null && |calls| > 0 && pb.partial == computePartial
    modifies nodes, head, linearized
    ensures LoopInv(pb, h, nodes, head, entry', linearized, cache, calls', state', longest', g')
    ensures !computePartial ==> longest' == longest
    ensures Progress(g, g')
  {
    ReturnInList(pb.ops, h, nodes, head, g.frames, g.l, g.path, g.e);
    ghost var (n, y) := (|g.path| - 1, entry.id);
    PopStackOf(calls, state, g.frames, g.path, g.states, n);
    TopInRange(pb, g.path, g.states, g.pos, MemoOf(g.entries), longest, n);
    var callsTop := calls[|calls| - 1];
    var top := callsTop.entry;
    state' := callsTop.state;
    calls' := calls[..|calls| - 1];
    Undo(top, linearized, cache, pb, h, nodes, head, g, n);
    entry' := top.next;
    longest', g' := RecordAndPop(computePartial, longest, linearized, cache, calls, state, pb, h, nodes, head, g, n, y);
  }

  /** Records the stack as it was before the undoing. */
  method RecordAndPop<S(!new), I(!new), O(!new)>(
      computePartial: bool, longest: seq<Option<seq<nat>>>, ghost linearized: array<Word>, ghost cache: Cache<S>,
      calls: seq<CallsEntry<S, I, O>>, ghost state: S, ghost pb: Problem<S, I, O>, ghost h: seq<Entry<I, O>>,
      ghost nodes: seq<Node<I, O>>, ghost head: Node<I, O>, ghost g: Trail<S, I, O>, ghost n: nat, ghost y: nat)
    returns (longest': seq<Option<seq<nat>>>, ghost g': Trail<S, I, O>)
    requires |longest| == |pb.ops| && |g.path| == n + 1 && pb.partial == computePartial
    requires SearchPart(pb, g.path, g.states, g.pos, MemoOf(g.entries), longest) &&
      BudgetPart(pb, MemoOf(g.entries), g.budget)
    requires StackOf(calls, state, g.frames, g.path, g.states)
    requires calls[n].entry.mate != null && g.path[n] < |pb.ops|
    requires ListPart(pb.ops, h, nodes, head, g.frames[..n], g.frames[n].list, g.path[..n])
    requires MemoPart(pb.m, cache, g.entries, linearized, g.path[..n], |pb.ops|)
    requires y < |pb.ops| && y !in g.path && pb.ops[y].ret == g.pos
    requires forall x :: 0 <= x < |pb.ops| ==> pb.ops[x].call != g.pos
    ensures LoopInv(pb, h, nodes, head, calls[n].entry.next, linearized, cache, calls[..n], calls[n].state, longest',
      g')
    ensures !computePartial ==> longest' == longest
    ensures Progress(g, g')
  {
    longest' := RecordCalls(computePartial, calls, longest, state, pb, MemoOf(g.entries), g);
    g' := AfterPop(pb, h, nodes, head, linearized, cache, calls, state, longest', g, n, y);
  }

  /** Takes the operation on top of the stack out of the bitset and puts it back into the list. */
  method Undo<S(!new), I(!new), O(!new)>(
      top: Node<I, O>, linearized: array<Word>, ghost cache: Cache<S>, ghost pb: Problem<S, I, O>,
      ghost h: seq<Entry<I, O>>, ghost nodes: seq<Node<I, O>>, ghost head: Node<I, O>, ghost g: Trail<S, I, O>,
      ghost n: nat)
    requires ListPart(pb.ops, h, nodes, head, g.frames, g.l, g.path)
    requires MemoPart(pb.m, cache, g.entries, linearized, g.path, |pb.ops|)
    requires |g.path| == n + 1 && |g.frames| == n + 1 && g.frames[n].Valid() && g.frames[n].list[g.frames[n].a] == top
    requires g.path[n] == top.id < |pb.ops| && top.id !in g.path[..n]
    modifies nodes, head, linearized
    ensures top.mate != null && ListPart(pb.ops, h, nodes, head, g.frames[..n], g.frames[n].list, g.path[..n])
    ensures MemoPart(pb.m, cache, g.entries, linearized, g.path[..n], |pb.ops|)
  {
    assert g.path == g.path[..n] + [g.path[n]];
    ClearPart(pb.m, linearized, top.id, cache, g.entries, g.path[..n], |pb.ops|);
    PopPart(top, pb.ops, h, nodes, head, g.frames, g.l, g.path, n);
  }

  ghost predicate Covers<S(!new), I(!new), O(!new)>(pb: Problem<S, I, O>, longest: seq<Option<seq<nat>>>,
      path: seq<nat>)
  {
    pb.partial ==> forall x :: x in path ==> x < |longest| && longest[x].Some? && |path| <= |longest[x].value|
  }

  lemma TopInRange<S(!new), I(!new), O(!new)>(
      pb: Problem<S, I, O>, path: seq<nat>, states: seq<S>, pos: int, memo: set<Config<S>>,
      longest: seq<Option<seq<nat>>>, n: nat)
    requires SearchPart(pb, path, states, pos, memo, longest) && |path| == n + 1
    ensures path[n] < |pb.ops| && path[n] !in path[..n]
  {
    assert Unfold(true);
  }

  lemma AfterPop<S(!new), I(!new), O(!new)>(
      pb: Problem<S, I, O>, h: seq<Entry<I, O>>, nodes: seq<Node<I, O>>, head: Node<I, O>, linearized: array<Word>,
      cache: Cache<S>, calls: seq<CallsEntry<S, I, O>>, state: S, longest: seq<Option<seq<nat>>>, g: Trail<S, I, O>,
      n: nat, y: nat)
    returns (g': Trail<S, I, O>)
    requires |longest| == |pb.ops| && |g.path| == n + 1
    requires SearchPart(pb, g.path, g.states, g.pos, MemoOf(g.entries), longest) &&
      BudgetPart(pb, MemoOf(g.entries), g.budget)
    requires StackOf(calls, state, g.frames, g.path, g.states)
    requires calls[n].entry.mate != null && g.path[n] < |pb.ops|
    requires ListPart(pb.ops, h, nodes, head, g.frames[..n], g.frames[n].list, g.path[..n])
    requires MemoPart(pb.m, cache, g.entries, linearized, g.path[..n], |pb.ops|)
    requires y < |pb.ops| && y !in g.path && pb.ops[y].ret == g.pos
    requires forall x :: 0 <= x < |pb.ops| ==> pb.ops[x].call != g.pos
    requires Covers(pb, longest, g.path)
    ensures LoopInv(pb, h, nodes, head, calls[n].entry.next, linearized, cache, calls[..n], calls[n].state, longest, g')
    ensures Progress(g, g')
  {
    var (f, q) := (g.frames[n], g.path[..n]);
    PopStackOf(calls, state, g.frames, g.path, g.states, n);
    CallInList(pb.ops, h, nodes, head, g.frames[..n], f.list, q, f.a);
    FirstInList(pb.ops, h, nodes, head, g.frames[..n], f.list, q);
    PopSearch(pb, g.path, g.states, g.pos, MemoOf(g.entries), longest, y, q, g.path[n], f.list[f.a + 1].pos);
    g' := Trail(f.list, f.a + 1, f.list[f.a + 1].pos, g.frames[..n], q, g.states[..n + 1], g.entries, g.budget);
  }

  /** Records the stack, if partial linearizations are wanted. */
  method RecordCalls<S(!new), I(!new), O(!new)>(
      computePartial: bool, calls: seq<CallsEntry<S, I, O>>, longest: seq<Option<seq<nat>>>, ghost state: S,
      ghost pb: Problem<S, I, O>, ghost memo: set<Config<S>>, ghost g: Trail<S, I, O>)
    returns (after: seq<Option<seq<nat>>>)
    requires SearchPart(pb, g.path, g.states, g.pos, memo, longest) && |longest| == |pb.ops| &&
      pb.partial == computePartial
    requires StackOf(calls, state, g.frames, g.path, g.states)
    ensures !computePartial ==> after == longest
    ensures SearchPart(pb, g.path, g.states, g.pos, memo, after) && |after| == |longest| && Covers(pb, after, g.path)
  {
    after := longest;
    if computePartial {
      PathInRange(pb, g.path, g.states, g.pos, memo, longest);
      after := Record(calls, longest, g.path);
      RecordSearch(pb, g.path, g.states, g.pos, memo, longest, after);
    }
  }

  lemma PathInRange<S(!new), I(!new), O(!new)>(
      pb: Problem<S, I, O>, path: seq<nat>, states: seq<S>, pos: int, memo: set<Config<S>>,
      longest: seq<Option<seq<nat>>>)
    requires SearchPart(pb, path, states, pos, memo, longest)
    ensures forall k :: 0 <= k < |path| ==> path[k] < |pb.ops|
  {
    assert Unfold(true);
  }

  /** The result of a search that was never killed is exact, and any result `true` is right. */
  method CheckSingle<S(!new), I(!new), O(!new)>(m: Model<S, I, O>, h: seq<Entry<I, O>>, computePartial: bool,
      kill: nat -> bool)
    returns (ok: bool, longest: seq<Option<seq<nat>>>)
    requires WellFormed(h) && EqualIsCongruence(m)
    ensures ok ==> Linearizable(m, OperationsOf(h))
    ensures !ok && (forall t :: !kill(t)) ==> !Linearizable(m, OperationsOf(h))
    ensures !ok && (forall t :: !kill(t)) && computePartial ==> LongestPerOperation(m, OperationsOf(h), longest)
    ensures SoundRecords(m, OperationsOf(h), longest) && (ok ==> CompleteRecords(m, OperationsOf(h), longest))
    ensures !ok && !computePartial ==> NoRecords(longest)
  {
    ghost var pb := Problem(m, OperationsOf(h), computePartial);
    var headEntry, entry, nodes := MakeList(h);
    var n := |h| / 2;
    var linearized, cache, entries := MakeMemo(m, n);
    var calls: seq<CallsEntry<S, I, O>> := [];
    var state := m.init;
    longest := seq(n, _ => None);
    ghost var g := Start(pb, h, nodes, headEntry, linearized, cache, entries, longest);

    var tick := 0;
    while headEntry.next != null
      invariant fresh(linearized) && fresh(nodes) && fresh(headEntry)
      invariant LoopInv(pb, h, nodes, headEntry, entry, linearized, cache, calls, state, longest, g)
      invariant !computePartial ==> NoRecords(longest)
      decreases g.budget, |g.path|, |g.l| - g.e
    {
      if kill(tick) {
        Sound(pb, g.path, g.states, g.pos, MemoOf(g.entries), longest);
        return false, longest;
      }
      tick := tick + 1;
      if entry.mate != null {
        entry, cache, calls, state, g := TryCall(m, headEntry, entry, linearized, cache, calls, state, pb, h, nodes,
          longest, g);
      } else {
        if |calls| == 0 {
          GiveUp(pb, h, nodes, headEntry, entry, linearized, cache, calls, state, longest, g);
          return false, longest;
        }
        entry, calls, state, longest, g := Backtrack(headEntry, entry, linearized, calls, computePartial, longest,
          state, cache, pb, h, nodes, g);
      }
    }
    Finished(pb, h, nodes, headEntry, g.frames, g.l, g.path, g.states, g.pos, MemoOf(g.entries), longest);
    var ids := CallIds(calls, g.path);
    longest := seq(n, _ => Some(ids));
    ok := true;
  }

  lemma Start<S(!new), I(!new), O(!new)>(
      pb: Problem<S, I, O>, h: seq<Entry<I, O>>, nodes: seq<Node<I, O>>, head: Node<I, O>, linearized: array<Word>,
      cache: Cache<S>, entries: set<CacheEntry<S>>, longest: seq<Option<seq<nat>>>)
    returns (g: Trail<S, I, O>)
    requires WellFormed(h) && pb.ops == OperationsOf(h) && EqualIsCongruence(pb.m)
    requires ListPart(pb.ops, h, nodes, head, [], [head] + nodes, [])
    requires MemoPart(pb.m, cache, entries, linearized, [], |pb.ops|) && entries == {}
    requires |longest| == |pb.ops| && forall x :: 0 <= x < |longest| ==> longest[x] == None
    ensures LoopInv(pb, h, nodes, head, At([head] + nodes, 1), linearized, cache, [], pb.m.init, longest, g)
  {
    HistoryIsValid(pb, h);
    var l := [head] + nodes;
    var budget := BudgetAtFirst(pb);
    g := Trail(l, 1, FirstPos(h, l), [], [], [pb.m.init], entries, budget);
    FirstInList(pb.ops, h, nodes, head, [], l, []);
    SearchAtFirst(pb, g.pos, longest);
    assert MemoOf(entries) == {};
  }

  /** A return is reached with nothing linearized: the search has failed. */
  lemma GiveUp<S(!new), I(!new), O(!new)>(
      pb: Problem<S, I, O>, h: seq<Entry<I, O>>, nodes: seq<Node<I, O>>, head: Node<I, O>, entry: Node<I, O>,
      linearized: array<Word>, cache: Cache<S>, calls: seq<CallsEntry<S, I, O>>, state: S,
      longest: seq<Option<seq<nat>>>, g: Trail<S, I, O>)
    requires LoopInv(pb, h, nodes, head, entry, linearized, cache, calls, state, longest, g)
    requires entry.mate == null && calls == []
    ensures !Linearizable(pb.m, pb.ops) && (pb.partial ==> LongestPerOperation(pb.m, pb.ops, longest))
    ensures SoundRecords(pb.m, pb.ops, longest)
  {
    ReturnInList(pb.ops, h, nodes, head, g.frames, g.l, g.path, g.e);
    RootSearch(pb, g.states, g.pos, MemoOf(g.entries), longest, entry.id);
    Sound(pb, g.path, g.states, g.pos, MemoOf(g.entries), longest);
  }
}
