/** The key/value model: one string per key, with the history partitioned by key. */
module KeyValue {
  import opened Collections
  import opened Linearizability
  import opened Locality
  import opened Sorting
  import opened Strings

  datatype KvInput = KvInput(op: nat, key: string, value: string)   // op 0 is get, 1 is put, others append

  datatype KvOutput = KvOutput(value: string)

  type KvOperation = Operation<KvInput, KvOutput>

  function Key(i: KvInput): string { i.key }

  /** The value of one key. */
  function StepValue(st: string, inp: KvInput, out: KvOutput): (bool, string) {
    if inp.op == 0 then (out.value == st, st)
    else if inp.op == 1 then (true, inp.value)
    else (true, st + inp.value)
  }

  function KvModel(): Model<string, KvInput, KvOutput> {
    Model("", StepValue, (a, b) => a == b)
  }

  /** A whole store: a map in which missing keys read as empty strings. */
  function Get(st: map<string, string>, k: string): string {
    if k in st then st[k] else ""
  }

  function StepStore(st: map<string, string>, inp: KvInput, out: KvOutput): (bool, map<string, string>) {
    match inp.op
    case 0 => (out.value == Get(st, inp.key), st)
    case 1 => (true, st[inp.key := inp.value])
    case _ => (true, st[inp.key := Get(st, inp.key) + inp.value])
  }

  function StoreModel(): Model<map<string, string>, KvInput, KvOutput> {
    Model(map[], StepStore, (a, b) => a == b)
  }

  lemma StoreIsProduct()
    ensures IsProduct(StoreModel(), KvModel(), Key, Get)
  {
  }

  lemma KvEqualIsCongruence()
    ensures EqualIsCongruence(KvModel())
  {
  }

  /** The groups of the keys of a history, in the order of the keys, each group in the order of the history. */
  ghost predicate Partitions(history: seq<KvOperation>, keys: seq<string>, groups: seq<seq<KvOperation>>) {
    && |groups| == |keys| && Sorted(keys, Leq)
    && (forall i, j :: 0 <= i < j < |keys| ==> keys[i] != keys[j])
    && (forall x :: 0 <= x < |history| ==> history[x].input.key in keys)
    && (forall i :: 0 <= i < |keys| ==> groups[i] != [] && groups[i] == Group(history, Key, |history|, keys[i]))
  }

  lemma GroupSnoc(history: seq<KvOperation>, n: nat, k: string)
    requires n < |history|
    ensures Group(history, Key, n + 1, k) ==
      Group(history, Key, n, k) + if history[n].input.key == k then [history[n]] else []
  {
    assert Upto(n + 1) == Upto(n) + [n];
    OfKeySnoc(history, Key, Upto(n), n, k);
  }

  /** Collects the operations of each key. */
  method Collect(history: seq<KvOperation>) returns (m: map<string, seq<KvOperation>>)
    ensures forall k :: k in m <==> Group(history, Key, |history|, k) != []
    ensures forall k :: k in m ==> m[k] == Group(history, Key, |history|, k)
  {
    m := map[];
    assert forall k :: Group(history, Key, 0, k) == [];
    for i := 0 to |history|
      invariant forall k :: k in m <==> Group(history, Key, i, k) != []
      invariant forall k :: k in m ==> m[k] == Group(history, Key, i, k)
    {
      var v := history[i];
      var key := v.input.key;
      forall k: string
        ensures Group(history, Key, i + 1, k) == Group(history, Key, i, k) + if key == k then [v] else []
      {
        GroupSnoc(history, i, k);
      }
      m := m[key := (if key in m then m[key] else []) + [v]];
    }
  }

  lemma InGroup(history: seq<KvOperation>, x: nat)
    requires x < |history|
    ensures Group(history, Key, |history|, history[x].input.key) != []
  {
    IdsOfKey(history, Key, history[x].input.key);
    assert x in OfKey(history, Key, Upto(|history|), history[x].input.key);
  }

  /** The keys of a map, in no particular order. */
  method KeysOf(m: map<string, seq<KvOperation>>) returns (keys: seq<string>)
    ensures (forall k :: k in keys <==> k in m) && forall k :: multiset(keys)[k] <= 1
  {
    keys := [];
    var left := m.Keys;
    while left != {}
      invariant left <= m.Keys && (forall k :: k in keys <==> k in m.Keys - left)
      invariant forall k :: multiset(keys)[k] <= 1
      decreases |left|
    {
      var k :| k in left;
      assert k !in keys;
      left := left - {k};
      keys := keys + [k];
    }
  }

  method Partition(history: seq<KvOperation>) returns (ret: seq<seq<KvOperation>>, keys: seq<string>)
    ensures Partitions(history, keys, ret)
  {
    var m := Collect(history);
    keys := KeysOf(m);
    LeqOrders();
    ghost var unsorted := keys;
    keys := Sort(keys, Leq);
    SortedKeys(unsorted, keys);
    ret := [];
    for i := 0 to |keys|
      invariant |ret| == i && forall j :: 0 <= j < i ==> keys[j] in m && ret[j] == m[keys[j]]
    {
      assert keys[i] in keys;
      ret := ret + [m[keys[i]]];
    }
    forall x | 0 <= x < |history|
      ensures history[x].input.key in keys
    {
      InGroup(history, x);
    }
  }

  /** Sorting keeps the keys, each once. */
  lemma SortedKeys(a: seq<string>, b: seq<string>)
    requires multiset(a) == multiset(b) && forall k :: multiset(a)[k] <= 1
    ensures forall k :: k in b <==> k in a
    ensures forall i, j :: 0 <= i < j < |b| ==> b[i] != b[j]
  {
    forall k
      ensures k in b <==> k in a
    {
      assert k in a <==> k in multiset(a);
    }
    forall i, j | 0 <= i < j < |b|
      ensures b[i] != b[j]
    {
      AtMostOnce(b, i, j);
    }
  }

  lemma EmptyIsLinearizable<S, I, O>(m: Model<S, I, O>)
    ensures Linearizable(m, [])
  {
    assert IsLinearization(m, [], []);
  }

  /** The groups that `Partition` returns decide whether the whole store is linearizable. */
  lemma PartitionDecides(history: seq<KvOperation>, keys: seq<string>, groups: seq<seq<KvOperation>>)
    requires CallsBeforeReturns(history) && Partitions(history, keys, groups)
    ensures Linearizable(StoreModel(), history) <==>
            forall i :: 0 <= i < |groups| ==> Linearizable(KvModel(), groups[i])
  {
    StoreIsProduct();
    StoreIffGroups(StoreModel(), KvModel(), Key, Get, history);
    if Linearizable(StoreModel(), history) {
      forall i | 0 <= i < |groups|
        ensures Linearizable(KvModel(), groups[i])
      {
        assert Linearizable(KvModel(), Group(history, Key, |history|, keys[i]));
      }
    }
    if forall i :: 0 <= i < |groups| ==> Linearizable(KvModel(), groups[i]) {
      forall k: string
        ensures Linearizable(KvModel(), Group(history, Key, |history|, k))
      {
        GroupDecided(history, keys, groups, k);
      }
    }
  }

  lemma GroupDecided(history: seq<KvOperation>, keys: seq<string>, groups: seq<seq<KvOperation>>, k: string)
    requires Partitions(history, keys, groups) && forall i :: 0 <= i < |groups| ==> Linearizable(KvModel(), groups[i])
    ensures Linearizable(KvModel(), Group(history, Key, |history|, k))
  {
    if k in keys {
      var i :| 0 <= i < |keys| && keys[i] == k;
      assert Linearizable(KvModel(), groups[i]);
    } else {
      NoGroup(history, k);
      EmptyIsLinearizable(KvModel());
    }
  }

  lemma NoGroup(history: seq<KvOperation>, k: string)
    requires forall x :: 0 <= x < |history| ==> history[x].input.key != k
    ensures Group(history, Key, |history|, k) == []
  {
    IdsOfKey(history, Key, k);
    var ids := OfKey(history, Key, Upto(|history|), k);
    DistinctElems(ids);
    assert Elems(ids) == {};
  }
}
