/** Locality: a history of a store made of independent objects is linearizable exactly when the
    history of each object is. */
module Locality {
  import opened Collections
  import opened Linearizability

  /** `store` behaves like one copy of `m` per key; `view` reads the copy of a key off a store state. */
  ghost predicate IsProduct<K(!new), T(!new), S(!new), I(!new), O(!new)>(
      store: Model<T, I, O>, m: Model<S, I, O>, key: I -> K, view: (T, K) -> S)
  {
    && (forall k :: view(store.init, k) == m.init)
    && (forall st, i, o :: store.step(st, i, o).0 == m.step(view(st, key(i)), i, o).0)
    && (forall st, i, o, k :: store.step(st, i, o).0 ==>
          view(store.step(st, i, o).1, k) ==
            if k == key(i) then m.step(view(st, k), i, o).1 else view(st, k))
  }

  /** The part of `p` that belongs to key `k`. */
  ghost function OfKey<K, I, O>(ops: seq<Operation<I, O>>, key: I -> K, p: seq<nat>, k: K): (r: seq<nat>)
    requires InRange(ops, p)
    ensures InRange(ops, r)
  {
    if p == [] then [] else
    var (q, x) := (p[..|p| - 1], p[|p| - 1]);
    OfKey(ops, key, q, k) + if key(ops[x].input) == k then [x] else []
  }

  ghost predicate RealTime<I, O>(ops: seq<Operation<I, O>>, p: seq<nat>)
    requires InRange(ops, p)
  {
    forall i, j :: 0 <= i < j < |p| ==> !(ops[p[j]].ret < ops[p[i]].call)
  }

  lemma {:induction false} OfKeyElems<K, I, O>(ops: seq<Operation<I, O>>, key: I -> K, p: seq<nat>, k: K)
    requires InRange(ops, p)
    ensures forall x: nat :: x in OfKey(ops, key, p, k) <==> x in p && x < |ops| && key(ops[x].input) == k
  {
    if p != [] {
      var (q, x) := (p[..|p| - 1], p[|p| - 1]);
      assert p == q + [x];
      OfKeyElems(ops, key, q, k);
    }
  }

  lemma {:induction false} OfKeyOrder<K, I, O>(ops: seq<Operation<I, O>>, key: I -> K, p: seq<nat>, k: K)
    requires InRange(ops, p) && Distinct(p) && RealTime(ops, p)
    ensures Distinct(OfKey(ops, key, p, k)) && RealTime(ops, OfKey(ops, key, p, k))
  {
    if p != [] {
      var (q, x) := (p[..|p| - 1], p[|p| - 1]);
      OfKeyOrder(ops, key, q, k);
      OfKeyElems(ops, key, q, k);
      var r := OfKey(ops, key, q, k);
      assert forall i :: 0 <= i < |r| ==> r[i] in r;
    }
  }

  /** A store accepts an order exactly when each object accepts its part of it, and then the states match. */
  ghost predicate Agrees<K(!new), T(!new), S(!new), I(!new), O(!new)>(
      store: Model<T, I, O>, m: Model<S, I, O>, key: I -> K, view: (T, K) -> S, ops: seq<Operation<I, O>>, p: seq<nat>)
    requires InRange(ops, p)
  {
    match Replay(store, ops, p)
    case Some(st) => forall k :: Replay(m, ops, OfKey(ops, key, p, k)) == Some(view(st, k))
    case None => exists k :: Replay(m, ops, OfKey(ops, key, p, k)).None?
  }

  lemma {:induction false} StoreReplay<K(!new), T(!new), S(!new), I(!new), O(!new)>(
      store: Model<T, I, O>, m: Model<S, I, O>, key: I -> K, view: (T, K) -> S, ops: seq<Operation<I, O>>, p: seq<nat>)
    requires IsProduct(store, m, key, view) && InRange(ops, p)
    ensures Agrees(store, m, key, view, ops, p)
  {
    if p == [] {
      assert forall k :: OfKey(ops, key, p, k) == [];
    } else {
      var (q, op) := (p[..|p| - 1], ops[p[|p| - 1]]);
      StoreReplay(store, m, key, view, ops, q);
      match Replay(store, ops, q)
      case None =>
        var k :| Replay(m, ops, OfKey(ops, key, q, k)).None?;
        KeyReplay(m, key, ops, p, k);
      case Some(st) =>
        var t := store.step(st, op.input, op.output).1;
        forall k
          ensures Replay(m, ops, OfKey(ops, key, p, k)) ==
            if store.step(st, op.input, op.output).0 then Some(view(t, k))
            else if k == key(op.input) then None else Some(view(st, k))
        {
          KeyReplay(m, key, ops, p, k);
          assert Replay(m, ops, OfKey(ops, key, q, k)) == Some(view(st, k));
        }
        assert Replay(m, ops, OfKey(ops, key, p, key(op.input))).Some? == store.step(st, op.input, op.output).0;
    }
  }

  /** One more operation changes the replay of its own key only. */
  lemma KeyReplay<K(!new), S, I, O>(m: Model<S, I, O>, key: I -> K, ops: seq<Operation<I, O>>, p: seq<nat>, k: K)
    requires InRange(ops, p) && p != []
    ensures var (q, op) := (p[..|p| - 1], ops[p[|p| - 1]]);
            var (before, after) := (Replay(m, ops, OfKey(ops, key, q, k)), Replay(m, ops, OfKey(ops, key, p, k)));
            after ==
              if before.None? || key(op.input) != k then before
              else if m.step(before.value, op.input, op.output).0 then Some(m.step(before.value, op.input, op.output).1)
              else None
  {
    var (q, x) := (p[..|p| - 1], p[|p| - 1]);
    var (r, r') := (OfKey(ops, key, q, k), OfKey(ops, key, p, k));
    if key(ops[x].input) == k {
      assert r' == r + [x] && r'[..|r'| - 1] == r;
    } else {
      assert r' == r;
    }
  }

  /** `q` orders exactly the operations of key `k` as a linearization would. */
  ghost predicate OrdersKey<K, S, I, O>(m: Model<S, I, O>, key: I -> K, ops: seq<Operation<I, O>>, k: K, q: seq<nat>) {
    KeyOrder(ops, key, k, q) && Replay(m, ops, q).Some?
  }

  ghost predicate KeyLinearizable<K, S, I, O>(m: Model<S, I, O>, key: I -> K, ops: seq<Operation<I, O>>, k: K) {
    exists q :: OrdersKey(m, key, ops, k, q)
  }

  lemma AllIn(n: nat, p: seq<nat>)
    requires Distinct(p) && |p| == n && forall i :: 0 <= i < |p| ==> p[i] < n
    ensures forall x: nat :: x < n ==> x in p
  {
    DistinctElems(p);
    ElemsBound(n, Elems(p));
    assert forall x :: x in Elems(p) ==> x in p;
  }

  /** A linearization of the store, restricted to a key, linearizes that key. */
  lemma Restrict<K(!new), T(!new), S(!new), I(!new), O(!new)>(
      store: Model<T, I, O>, m: Model<S, I, O>, key: I -> K, view: (T, K) -> S, ops: seq<Operation<I, O>>, p: seq<nat>,
      k: K)
    requires IsProduct(store, m, key, view) && IsLinearization(store, ops, p)
    ensures OrdersKey(m, key, ops, k, OfKey(ops, key, p, k))
  {
    AllIn(|ops|, p);
    OfKeyElems(ops, key, p, k);
    OfKeyOrder(ops, key, p, k);
    StoreReplay(store, m, key, view, ops, p);
  }

  /** A partly merged order: the orders of the keys are followed, and nothing that is still to come
      had returned before an operation of `p` was called. */
  ghost predicate Merging<K(!new), I, O>(ops: seq<Operation<I, O>>, key: I -> K, orders: K -> seq<nat>, p: seq<nat>) {
    && InRange(ops, p) && Distinct(p) && RealTime(ops, p)
    && (forall i, y :: 0 <= i < |p| && 0 <= y < |ops| && y !in p ==> ops[p[i]].call <= ops[y].ret)
    && (forall k :: IsPrefix(OfKey(ops, key, p, k), orders(k)))
  }

  ghost predicate KeyOrder<K, I, O>(ops: seq<Operation<I, O>>, key: I -> K, k: K, q: seq<nat>) {
    && InRange(ops, q) && Distinct(q) && RealTime(ops, q)
    && (forall x: nat :: x in q <==> x < |ops| && key(ops[x].input) == k)
  }

  /** Of the operations outside `p`, one that returns first. */
  lemma FirstToReturn<I, O>(ops: seq<Operation<I, O>>, p: seq<nat>, n: nat) returns (r: nat)
    requires n <= |ops| && exists y: nat :: y < n && y !in p
    ensures r < n && r !in p && forall y: nat :: y < n && y !in p ==> ops[r].ret <= ops[y].ret
  {
    if exists y: nat :: y < n - 1 && y !in p {
      r := FirstToReturn(ops, p, n - 1);
      if n - 1 !in p && ops[n - 1].ret < ops[r].ret {
        r := n - 1;
      }
    } else {
      r := n - 1;
    }
  }

  /** In the order `q` of a key of which the first `c` are done, the next one was called before any
      other that is not done returned. */
  lemma NextOfKey<I, O>(ops: seq<Operation<I, O>>, q: seq<nat>, c: nat, r: nat)
    requires CallsBeforeReturns(ops) && InRange(ops, q) && Distinct(q) && RealTime(ops, q)
    requires c <= |q| && r in q && r !in q[..c]
    ensures c < |q| && q[c] !in q[..c] && ops[q[c]].call <= ops[r].ret
  {
  }

  /** The next operation in the order of the key of the first to return can come next in the merge. */
  lemma MergeNext<K(!new), I, O>(ops: seq<Operation<I, O>>, key: I -> K, orders: K -> seq<nat>, p: seq<nat>)
    returns (x: nat)
    requires CallsBeforeReturns(ops) && Merging(ops, key, orders, p) && |p| < |ops|
    requires forall k :: KeyOrder(ops, key, k, orders(k))
    ensures x < |ops| && x !in p && (forall y :: 0 <= y < |ops| && y !in p ==> ops[x].call <= ops[y].ret)
    ensures IsPrefix(OfKey(ops, key, p, key(ops[x].input)) + [x], orders(key(ops[x].input)))
  {
    MissesOne(|ops|, p);
    var r := FirstToReturn(ops, p, |ops|);
    var k := key(ops[r].input);
    var (q, done) := (orders(k), OfKey(ops, key, p, k));
    assert KeyOrder(ops, key, k, q) && IsPrefix(done, q);
    OfKeyElems(ops, key, p, k);
    NextOfKey(ops, q, |done|, r);
    x := q[|done|];
    assert x in q;
    assert q[..|done| + 1] == q[..|done|] + [x];
  }

  lemma MissesOne(n: nat, p: seq<nat>)
    requires Distinct(p) && |p| < n
    ensures exists y: nat :: y < n && y !in p
  {
    if forall y: nat :: y < n ==> y in p {
      DistinctElems(p);
      SubsetSize(Below(n), Elems(p));
      assert false;
    }
  }

  lemma OfKeySnoc<K, I, O>(ops: seq<Operation<I, O>>, key: I -> K, p: seq<nat>, x: nat, k: K)
    requires InRange(ops, p) && x < |ops|
    ensures OfKey(ops, key, p + [x], k) == if key(ops[x].input) == k then OfKey(ops, key, p, k) + [x]
      else OfKey(ops, key, p, k)
  {
  }

  lemma MergeStep<K(!new), I, O>(ops: seq<Operation<I, O>>, key: I -> K, orders: K -> seq<nat>, p: seq<nat>, x: nat)
    requires Merging(ops, key, orders, p) && x < |ops| && x !in p
    requires forall y :: 0 <= y < |ops| && y !in p ==> ops[x].call <= ops[y].ret
    requires IsPrefix(OfKey(ops, key, p, key(ops[x].input)) + [x], orders(key(ops[x].input)))
    ensures Merging(ops, key, orders, p + [x])
  {
    var p' := p + [x];
    forall k
      ensures IsPrefix(OfKey(ops, key, p', k), orders(k))
    {
      OfKeySnoc(ops, key, p, x, k);
      assert IsPrefix(OfKey(ops, key, p, k), orders(k));
    }
  }

  /** Orders of the keys can be merged into one order of all operations. */
  lemma {:induction false} Merge<K(!new), I, O>(ops: seq<Operation<I, O>>, key: I -> K, orders: K -> seq<nat>,
      p: seq<nat>)
    returns (r: seq<nat>)
    requires CallsBeforeReturns(ops) && Merging(ops, key, orders, p) && |p| <= |ops|
    requires forall k :: KeyOrder(ops, key, k, orders(k))
    ensures InRange(ops, r) && Distinct(r) && RealTime(ops, r) && |r| == |ops|
    ensures forall k :: IsPrefix(OfKey(ops, key, r, k), orders(k))
    decreases |ops| - |p|
  {
    if |p| == |ops| {
      r := p;
    } else {
      var x := MergeNext(ops, key, orders, p);
      MergeStep(ops, key, orders, p, x);
      r := Merge(ops, key, orders, p + [x]);
    }
  }

  lemma SameElemsPrefix(p: seq<nat>, q: seq<nat>)
    requires IsPrefix(p, q) && Distinct(q) && forall x :: x in q ==> x in p
    ensures p == q
  {
    assert Distinct(p) && forall x :: x in p ==> x in q;
    DistinctElems(p);
    DistinctElems(q);
    assert Elems(p) == Elems(q);
  }

  /** Theorem 1 of Herlihy and Wing, with the orders as orders of global ids. */
  lemma StoreIffKeys<K(!new), T(!new), S(!new), I(!new), O(!new)>(
      store: Model<T, I, O>, m: Model<S, I, O>, key: I -> K, view: (T, K) -> S, ops: seq<Operation<I, O>>)
    requires IsProduct(store, m, key, view) && CallsBeforeReturns(ops)
    ensures Linearizable(store, ops) <==> forall k :: KeyLinearizable(m, key, ops, k)
  {
    if Linearizable(store, ops) {
      var p :| IsLinearization(store, ops, p);
      forall k
        ensures KeyLinearizable(m, key, ops, k)
      {
        Restrict(store, m, key, view, ops, p, k);
      }
    }
    if forall k :: KeyLinearizable(m, key, ops, k) {
      Combine(store, m, key, view, ops);
    }
  }

  ghost function Chosen<K, S, I, O>(m: Model<S, I, O>, key: I -> K, ops: seq<Operation<I, O>>, k: K): seq<nat> {
    if q :| OrdersKey(m, key, ops, k, q) then q else []
  }

  lemma Combine<K(!new), T(!new), S(!new), I(!new), O(!new)>(
      store: Model<T, I, O>, m: Model<S, I, O>, key: I -> K, view: (T, K) -> S, ops: seq<Operation<I, O>>)
    requires IsProduct(store, m, key, view) && CallsBeforeReturns(ops)
    requires forall k :: KeyLinearizable(m, key, ops, k)
    ensures Linearizable(store, ops)
  {
    var orders := k => Chosen(m, key, ops, k);
    forall k
      ensures OrdersKey(m, key, ops, k, orders(k))
    {
      assert KeyLinearizable(m, key, ops, k);
    }
    var p := Merge(ops, key, orders, []);
    AllIn(|ops|, p);
    forall k
      ensures OfKey(ops, key, p, k) == orders(k)
    {
      OfKeyElems(ops, key, p, k);
      SameElemsPrefix(OfKey(ops, key, p, k), orders(k));
    }
    StoreReplay(store, m, key, view, ops, p);
    assert IsLinearization(store, ops, p);
  }

  // Sub-histories: the operations of one key, renumbered from 0.

  ghost function Pick<I, O>(ops: seq<Operation<I, O>>, ids: seq<nat>): seq<Operation<I, O>>
    requires InRange(ops, ids)
  {
    seq(|ids|, i requires 0 <= i < |ids| => ops[ids[i]])
  }

  ghost function Through(ids: seq<nat>, p: seq<nat>): seq<nat>
    requires forall i :: 0 <= i < |p| ==> p[i] < |ids|
  {
    seq(|p|, i requires 0 <= i < |p| => ids[p[i]])
  }

  lemma {:induction false} ReplayPick<S, I, O>(m: Model<S, I, O>, ops: seq<Operation<I, O>>, ids: seq<nat>, p: seq<nat>)
    requires InRange(ops, ids) && InRange(Pick(ops, ids), p)
    ensures InRange(ops, Through(ids, p)) && Replay(m, Pick(ops, ids), p) == Replay(m, ops, Through(ids, p))
  {
    if p != [] {
      var q := p[..|p| - 1];
      ReplayPick(m, ops, ids, q);
      assert Through(ids, p)[..|p| - 1] == Through(ids, q);
    }
  }

  ghost function IndexIn(ids: seq<nat>, x: nat): (i: nat)
    requires x in ids
    ensures i < |ids| && ids[i] == x
  {
    var i :| 0 <= i < |ids| && ids[i] == x;
    i
  }

  ghost function Indices(ids: seq<nat>, q: seq<nat>): (p: seq<nat>)
    requires forall x :: x in q ==> x in ids
    ensures |p| == |q| && (forall i :: 0 <= i < |p| ==> p[i] < |ids|) && Through(ids, p) == q
  {
    seq(|q|, i requires 0 <= i < |q| => IndexIn(ids, q[i]))
  }

  /** `q` orders the operations `ids` as a linearization would. */
  ghost predicate Orders<S, I, O>(m: Model<S, I, O>, ops: seq<Operation<I, O>>, ids: seq<nat>, q: seq<nat>) {
    && InRange(ops, q) && Distinct(q) && RealTime(ops, q) && Replay(m, ops, q).Some?
    && (forall x: nat :: x in q <==> x in ids)
  }

  lemma RenumberOut<S, I, O>(m: Model<S, I, O>, ops: seq<Operation<I, O>>, ids: seq<nat>, p: seq<nat>)
    requires InRange(ops, ids) && Distinct(ids) && IsLinearization(m, Pick(ops, ids), p)
    ensures Orders(m, ops, ids, Through(ids, p))
  {
    var q := Through(ids, p);
    ReplayPick(m, ops, ids, p);
    AllIn(|ids|, p);
    forall x: nat | x in ids
      ensures x in q
    {
      var i := IndexIn(ids, x);
      assert i in p;
      var j :| 0 <= j < |p| && p[j] == i;
      assert q[j] == x;
    }
  }

  lemma RenumberIn<S, I, O>(m: Model<S, I, O>, ops: seq<Operation<I, O>>, ids: seq<nat>, q: seq<nat>)
    requires InRange(ops, ids) && Distinct(ids) && Orders(m, ops, ids, q)
    ensures IsLinearization(m, Pick(ops, ids), Indices(ids, q))
  {
    var p := Indices(ids, q);
    ReplayPick(m, ops, ids, p);
    DistinctElems(q);
    DistinctElems(ids);
    assert Elems(q) == Elems(ids);
    forall i, j | 0 <= i < j < |p|
      ensures p[i] != p[j]
    {
      assert q[i] == ids[p[i]] && q[j] == ids[p[j]];
    }
  }

  ghost function Upto(n: nat): (r: seq<nat>)
    ensures |r| == n && forall i :: 0 <= i < n ==> r[i] == i
  {
    seq(n, i requires 0 <= i < n => i)
  }

  /** The first `n` operations that belong to key `k`, in the order of the history. */
  ghost function Group<K, I, O>(ops: seq<Operation<I, O>>, key: I -> K, n: nat, k: K): seq<Operation<I, O>>
    requires n <= |ops|
  {
    Pick(ops, OfKey(ops, key, Upto(n), k))
  }

  lemma {:induction false} OfKeyDistinct<K, I, O>(ops: seq<Operation<I, O>>, key: I -> K, p: seq<nat>, k: K)
    requires InRange(ops, p) && Distinct(p)
    ensures Distinct(OfKey(ops, key, p, k))
  {
    if p != [] {
      var q := p[..|p| - 1];
      OfKeyDistinct(ops, key, q, k);
      OfKeyElems(ops, key, q, k);
      var r := OfKey(ops, key, q, k);
      assert forall i :: 0 <= i < |r| ==> r[i] in r;
    }
  }

  lemma IdsOfKey<K, I, O>(ops: seq<Operation<I, O>>, key: I -> K, k: K)
    ensures var ids := OfKey(ops, key, Upto(|ops|), k);
            Distinct(ids) && forall x: nat :: x in ids <==> x < |ops| && key(ops[x].input) == k
  {
    var all := Upto(|ops|);
    OfKeyDistinct(ops, key, all, k);
    OfKeyElems(ops, key, all, k);
    forall x: nat | x < |ops|
      ensures x in all
    {
      assert all[x] == x;
    }
  }

  lemma OrdersIffOrdersKey<K(!new), S(!new), I(!new), O(!new)>(m: Model<S, I, O>, key: I -> K,
      ops: seq<Operation<I, O>>, k: K, q: seq<nat>)
    ensures Orders(m, ops, OfKey(ops, key, Upto(|ops|), k), q) <==> OrdersKey(m, key, ops, k, q)
  {
    IdsOfKey(ops, key, k);
  }

  lemma GroupToKey<K(!new), S(!new), I(!new), O(!new)>(m: Model<S, I, O>, key: I -> K, ops: seq<Operation<I, O>>, k: K)
    requires Linearizable(m, Group(ops, key, |ops|, k))
    ensures KeyLinearizable(m, key, ops, k)
  {
    var ids := OfKey(ops, key, Upto(|ops|), k);
    var p :| IsLinearization(m, Pick(ops, ids), p);
    IdsOfKey(ops, key, k);
    RenumberOut(m, ops, ids, p);
    OrdersIffOrdersKey(m, key, ops, k, Through(ids, p));
  }

  lemma KeyToGroup<K(!new), S(!new), I(!new), O(!new)>(m: Model<S, I, O>, key: I -> K, ops: seq<Operation<I, O>>, k: K)
    requires KeyLinearizable(m, key, ops, k)
    ensures Linearizable(m, Group(ops, key, |ops|, k))
  {
    var q :| OrdersKey(m, key, ops, k, q);
    IdsOfKey(ops, key, k);
    OrdersIffOrdersKey(m, key, ops, k, q);
    RenumberIn(m, ops, OfKey(ops, key, Upto(|ops|), k), q);
  }

  lemma GroupLinearizable<K(!new), S(!new), I(!new), O(!new)>(m: Model<S, I, O>, key: I -> K,
      ops: seq<Operation<I, O>>, k: K)
    ensures Linearizable(m, Group(ops, key, |ops|, k)) <==> KeyLinearizable(m, key, ops, k)
  {
    if Linearizable(m, Group(ops, key, |ops|, k)) {
      GroupToKey(m, key, ops, k);
    }
    if KeyLinearizable(m, key, ops, k) {
      KeyToGroup(m, key, ops, k);
    }
  }

  /** Locality: the groups of the keys together decide the store. */
  lemma StoreIffGroups<K(!new), T(!new), S(!new), I(!new), O(!new)>(
      store: Model<T, I, O>, m: Model<S, I, O>, key: I -> K, view: (T, K) -> S, ops: seq<Operation<I, O>>)
    requires IsProduct(store, m, key, view) && CallsBeforeReturns(ops)
    ensures Linearizable(store, ops) <==> forall k :: Linearizable(m, Group(ops, key, |ops|, k))
  {
    StoreIffKeys(store, m, key, view, ops);
    forall k
      ensures Linearizable(m, Group(ops, key, |ops|, k)) <==> KeyLinearizable(m, key, ops, k)
    {
      GroupLinearizable(m, key, ops, k);
    }
  }
}
