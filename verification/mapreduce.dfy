/** Map/reduce: the distributed program, which splits the intermediate pairs into buckets, produces the
    same lines as the sequential one. */
module MapReduce {
  import opened Sorting
  import opened Strings

  datatype KeyValue = KeyValue(key: string, value: string)

  type Line = (string, string)

  type Mapper = (string, string) -> seq<KeyValue>

  type Reducer = (string, seq<string>) -> string

  // What the output should be

  ghost function Keys(s: seq<KeyValue>): set<string> { set i | 0 <= i < |s| :: s[i].key }

  /** The values of key `k`, in the order of `s`. */
  ghost function ValuesOf(s: seq<KeyValue>, k: string): seq<string> {
    if s == [] then [] else
    ValuesOf(s[..|s| - 1], k) + if s[|s| - 1].key == k then [s[|s| - 1].value] else []
  }

  ghost function LineKeys(lines: seq<Line>): set<string> { set i | 0 <= i < |lines| :: lines[i].0 }

  /** The lines come in the order of their keys. */
  ghost predicate InKeyOrder(lines: seq<Line>) {
    forall i, j :: 0 <= i < j < |lines| ==> Leq(lines[i].0, lines[j].0)
  }

  ghost predicate DistinctKeys(lines: seq<Line>) {
    forall i, j :: 0 <= i < j < |lines| ==> lines[i].0 != lines[j].0
  }

  /** `w` holds the values of key `k`, in some order. */
  ghost predicate Arranges(s: seq<KeyValue>, k: string, w: seq<string>) {
    multiset(w) == multiset(ValuesOf(s, k))
  }

  /** The line holds a reduction of all values of its key, in some order. */
  ghost predicate ReducesKey(reducef: Reducer, s: seq<KeyValue>, line: Line) {
    exists w :: Arranges(s, line.0, w) && line.1 == reducef(line.0, w)
  }

  /** One line for each key, with a reduction of all its values. The sort leaves the order of the values open. */
  ghost predicate Reduces(reducef: Reducer, s: seq<KeyValue>, lines: seq<Line>) {
    && DistinctKeys(lines) && LineKeys(lines) == Keys(s)
    && (forall i :: 0 <= i < |lines| ==> ReducesKey(reducef, s, lines[i]))
  }

  /** What the grouping loop prints of a sorted sequence: the values of a key are reduced in their order there. */
  ghost predicate Prints(reducef: Reducer, t: seq<KeyValue>, lines: seq<Line>) {
    && DistinctKeys(lines) && LineKeys(lines) == Keys(t)
    && (forall i :: 0 <= i < |lines| ==> lines[i].1 == reducef(lines[i].0, ValuesOf(t, lines[i].0)))
  }

  /** `t` is one of the orders in which the sort may leave the pairs. */
  ghost predicate SortedPairs(s: seq<KeyValue>, t: seq<KeyValue>) {
    multiset(t) == multiset(s) && Sorted(t, ByKey)
  }

  /** Lines that the sequential program may print for these pairs. */
  ghost predicate Printed(reducef: Reducer, s: seq<KeyValue>, lines: seq<Line>) {
    exists t :: SortedPairs(s, t) && Prints(reducef, t, lines)
  }

  /** No reduction depends on the order of the values that the pairs hold for its key. */
  ghost predicate OrderInsensitive(reducef: Reducer, s: seq<KeyValue>) {
    forall k, v, w :: k in Keys(s) && Arranges(s, k, v) && Arranges(s, k, w) ==> reducef(k, v) == reducef(k, w)
  }

  // Permutations

  lemma {:induction false} ValuesCount(s: seq<KeyValue>, k: string, v: string)
    ensures multiset(ValuesOf(s, k))[v] == multiset(s)[KeyValue(k, v)]
  {
    if s != [] {
      var (t, x) := (s[..|s| - 1], s[|s| - 1]);
      ValuesCount(t, k, v);
      assert s == t + [x];
    }
  }

  lemma SamePairs(s: seq<KeyValue>, t: seq<KeyValue>, k: string)
    requires multiset(s) == multiset(t)
    ensures Keys(s) == Keys(t) && multiset(ValuesOf(s, k)) == multiset(ValuesOf(t, k))
  {
    forall v
      ensures multiset(ValuesOf(s, k))[v] == multiset(ValuesOf(t, k))[v]
    {
      ValuesCount(s, k, v);
      ValuesCount(t, k, v);
    }
    SubKeys(s, t);
    SubKeys(t, s);
  }

  lemma SubKeys(s: seq<KeyValue>, t: seq<KeyValue>)
    requires multiset(s) == multiset(t)
    ensures Keys(s) <= Keys(t)
  {
    forall k | k in Keys(s)
      ensures k in Keys(t)
    {
      var i :| 0 <= i < |s| && s[i].key == k;
      assert s[i] in multiset(t);
      var j :| 0 <= j < |t| && t[j] == s[i];
    }
  }

  /** Reducing the pairs in another order reduces the pairs. */
  lemma ReducesPermuted(reducef: Reducer, s: seq<KeyValue>, t: seq<KeyValue>, lines: seq<Line>)
    requires multiset(s) == multiset(t) && Reduces(reducef, s, lines)
    ensures Reduces(reducef, t, lines)
  {
    SamePairs(s, t, "");
    forall i | 0 <= i < |lines|
      ensures ReducesKey(reducef, t, lines[i])
    {
      SamePairs(s, t, lines[i].0);
      var w :| Arranges(s, lines[i].0, w) && lines[i].1 == reducef(lines[i].0, w);
      assert Arranges(t, lines[i].0, w);
    }
  }

  // Buckets

  function Bucket(hash: string -> nat, nReduce: nat, k: string): nat
    requires nReduce > 0
  {
    hash(k) % nReduce
  }

  /** The pairs that reduce task `b` is responsible for. */
  ghost function InBucket(s: seq<KeyValue>, hash: string -> nat, nReduce: nat, b: nat): seq<KeyValue>
    requires nReduce > 0
  {
    if s == [] then [] else
    InBucket(s[..|s| - 1], hash, nReduce, b) + if Bucket(hash, nReduce, s[|s| - 1].key) == b then [s[|s| - 1]] else []
  }

  lemma {:induction false} BucketKeys(s: seq<KeyValue>, hash: string -> nat, nReduce: nat, b: nat)
    requires nReduce > 0
    ensures forall k :: k in Keys(InBucket(s, hash, nReduce, b)) <==> k in Keys(s) && Bucket(hash, nReduce, k) == b
  {
    if s != [] {
      var (t, x) := (s[..|s| - 1], s[|s| - 1]);
      BucketKeys(t, hash, nReduce, b);
      KeysSnoc(t, x);
      KeysSnoc(InBucket(t, hash, nReduce, b), x);
      assert s == t + [x];
      assert InBucket(s, hash, nReduce, b) ==
        if Bucket(hash, nReduce, x.key) == b then InBucket(t, hash, nReduce, b) + [x]
          else InBucket(t, hash, nReduce, b);
    }
  }

  lemma KeysSnoc(s: seq<KeyValue>, x: KeyValue)
    ensures Keys(s + [x]) == Keys(s) + {x.key}
  {
    assert forall i :: 0 <= i < |s| ==> (s + [x])[i] == s[i];
    assert (s + [x])[|s|] == x;
  }

  lemma {:induction false} BucketValues(s: seq<KeyValue>, hash: string -> nat, nReduce: nat, k: string)
    requires nReduce > 0
    ensures ValuesOf(InBucket(s, hash, nReduce, Bucket(hash, nReduce, k)), k) == ValuesOf(s, k)
  {
    if s != [] {
      var (t, x, b) := (s[..|s| - 1], s[|s| - 1], Bucket(hash, nReduce, k));
      BucketValues(t, hash, nReduce, k);
      var (r, r') := (InBucket(t, hash, nReduce, b), InBucket(s, hash, nReduce, b));
      if Bucket(hash, nReduce, x.key) == b {
        assert r' == r + [x] && r'[..|r'| - 1] == r;
      } else {
        assert r' == r && x.key != k;
        assert ValuesOf(s, k) == ValuesOf(t, k);
      }
    }
  }

  lemma {:induction false} BucketConcat(s: seq<KeyValue>, t: seq<KeyValue>, hash: string -> nat, nReduce: nat, b: nat)
    requires nReduce > 0
    ensures InBucket(s + t, hash, nReduce, b) == InBucket(s, hash, nReduce, b) + InBucket(t, hash, nReduce, b)
    decreases |t|
  {
    if t == [] {
      assert s + t == s;
    } else {
      var (u, x) := (t[..|t| - 1], t[|t| - 1]);
      BucketConcat(s, u, hash, nReduce, b);
      assert (s + t)[..|s + t| - 1] == s + u;
    }
  }

  // Putting the outputs together

  ghost function Concat<T>(parts: seq<seq<T>>): seq<T> {
    if parts == [] then [] else Concat(parts[..|parts| - 1]) + parts[|parts| - 1]
  }

  lemma {:induction false} InConcat<T>(parts: seq<seq<T>>, x: T)
    ensures x in Concat(parts) <==> exists b :: 0 <= b < |parts| && x in parts[b]
  {
    if parts != [] {
      var n := |parts| - 1;
      InConcat(parts[..n], x);
      assert forall b :: 0 <= b < n ==> parts[..n][b] == parts[b];
      if x in Concat(parts[..n]) {
        var b :| 0 <= b < n && x in parts[..n][b];
        assert x in parts[b];
      }
    }
  }

  lemma {:induction false} ConcatDistinct(outs: seq<seq<Line>>, hash: string -> nat, nReduce: nat)
    requires nReduce > 0 && forall b :: 0 <= b < |outs| ==> DistinctKeys(outs[b])
    requires forall b, i :: 0 <= b < |outs| && 0 <= i < |outs[b]| ==> Bucket(hash, nReduce, outs[b][i].0) == b
    ensures DistinctKeys(Concat(outs))
    ensures forall i :: 0 <= i < |Concat(outs)| ==> Bucket(hash, nReduce, Concat(outs)[i].0) < |outs|
  {
    if outs != [] {
      var n := |outs| - 1;
      ConcatDistinct(outs[..n], hash, nReduce);
      assert DistinctKeys(outs[n]);
    }
  }

  /** If each bucket has been reduced, the outputs together reduce all pairs and each line is in its bucket's output. */
  lemma ReducesTogether(reducef: Reducer, s: seq<KeyValue>, hash: string -> nat, nReduce: nat, outs: seq<seq<Line>>)
    requires nReduce > 0 && |outs| == nReduce
    requires forall b :: 0 <= b < nReduce ==> Reduces(reducef, InBucket(s, hash, nReduce, b), outs[b])
    ensures Reduces(reducef, s, Concat(outs))
    ensures forall b, i :: 0 <= b < nReduce && 0 <= i < |outs[b]| ==> Bucket(hash, nReduce, outs[b][i].0) == b
  {
    forall b, i | 0 <= b < nReduce && 0 <= i < |outs[b]|
      ensures Bucket(hash, nReduce, outs[b][i].0) == b && outs[b][i].0 in Keys(s)
      ensures ReducesKey(reducef, s, outs[b][i])
    {
      LineFromBucket(reducef, s, hash, nReduce, b, outs[b], i);
    }
    forall b | 0 <= b < nReduce
      ensures DistinctKeys(outs[b])
    {
      assert Reduces(reducef, InBucket(s, hash, nReduce, b), outs[b]);
    }
    ConcatDistinct(outs, hash, nReduce);
    var all := Concat(outs);
    forall i | 0 <= i < |all|
      ensures all[i].0 in Keys(s) && ReducesKey(reducef, s, all[i])
    {
      assert all[i] in all;
      InConcat(outs, all[i]);
      var b :| 0 <= b < nReduce && all[i] in outs[b];
      var j :| 0 <= j < |outs[b]| && outs[b][j] == all[i];
    }
    forall k | k in Keys(s)
      ensures k in LineKeys(all)
    {
      KeyHasLine(reducef, s, hash, nReduce, outs, k);
    }
  }

  lemma LineFromBucket(reducef: Reducer, s: seq<KeyValue>, hash: string -> nat, nReduce: nat, b: nat, lines: seq<Line>,
      i: nat)
    requires nReduce > 0 && Reduces(reducef, InBucket(s, hash, nReduce, b), lines) && i < |lines|
    ensures Bucket(hash, nReduce, lines[i].0) == b && lines[i].0 in Keys(s)
    ensures ReducesKey(reducef, s, lines[i])
  {
    assert lines[i].0 in LineKeys(lines);
    BucketKeys(s, hash, nReduce, b);
    BucketValues(s, hash, nReduce, lines[i].0);
    var w :| Arranges(InBucket(s, hash, nReduce, b), lines[i].0, w) && lines[i].1 == reducef(lines[i].0, w);
    assert Arranges(s, lines[i].0, w);
  }

  lemma KeyHasLine(reducef: Reducer, s: seq<KeyValue>, hash: string -> nat, nReduce: nat, outs: seq<seq<Line>>,
      k: string)
    requires nReduce > 0 && |outs| == nReduce && k in Keys(s)
    requires forall b :: 0 <= b < nReduce ==> Reduces(reducef, InBucket(s, hash, nReduce, b), outs[b])
    ensures k in LineKeys(Concat(outs))
  {
    var b := Bucket(hash, nReduce, k);
    BucketKeys(s, hash, nReduce, b);
    assert Reduces(reducef, InBucket(s, hash, nReduce, b), outs[b]);
    assert k in LineKeys(outs[b]);
    var j :| 0 <= j < |outs[b]| && outs[b][j].0 == k;
    var line := outs[b][j];
    assert line in outs[b];
    InConcat(outs, line);
    var i :| 0 <= i < |Concat(outs)| && Concat(outs)[i] == line;
  }

  /** Two outputs that both reduce the same pairs consist of the same lines. */
  lemma SameLines(reducef: Reducer, s: seq<KeyValue>, a: seq<Line>, b: seq<Line>)
    requires OrderInsensitive(reducef, s) && Reduces(reducef, s, a) && Reduces(reducef, s, b)
    ensures multiset(a) == multiset(b)
  {
    forall x: Line
      ensures multiset(a)[x] == multiset(b)[x]
    {
      OnceIfKeysDistinct(a, x);
      OnceIfKeysDistinct(b, x);
      SameLine(reducef, s, a, b, x);
      SameLine(reducef, s, b, a, x);
    }
  }

  lemma SameLine(reducef: Reducer, s: seq<KeyValue>, a: seq<Line>, b: seq<Line>, x: Line)
    requires OrderInsensitive(reducef, s) && Reduces(reducef, s, a) && Reduces(reducef, s, b)
    ensures x in a ==> x in b
  {
    if x in a {
      var i :| 0 <= i < |a| && a[i] == x;
      assert x.0 in LineKeys(a);
      var j :| 0 <= j < |b| && b[j].0 == x.0;
      assert ReducesKey(reducef, s, a[i]) && ReducesKey(reducef, s, b[j]);
      assert b[j] == x;
    }
  }

  /** The keys of `s`, each once. */
  ghost function KeyList(s: seq<KeyValue>): (r: seq<string>)
    ensures forall i, j :: 0 <= i < j < |r| ==> r[i] != r[j]
    ensures forall k :: k in r <==> k in Keys(s)
  {
    if s == [] then [] else
    var (t, x) := (s[..|s| - 1], s[|s| - 1]);
    KeysSnoc(t, x);
    assert s == t + [x];
    var r := KeyList(t);
    if x.key in r then r else r + [x.key]
  }

  /** The lines that are printed of a sorted sequence, in some order. */
  ghost function LinesOf(reducef: Reducer, t: seq<KeyValue>): (lines: seq<Line>)
    ensures Prints(reducef, t, lines)
    ensures forall k :: k in Keys(t) ==> (k, reducef(k, ValuesOf(t, k))) in lines
  {
    var ks := KeyList(t);
    var lines := seq(|ks|, i requires 0 <= i < |ks| => (ks[i], reducef(ks[i], ValuesOf(t, ks[i]))));
    assert forall i :: 0 <= i < |ks| ==> ks[i] in ks && lines[i].0 == ks[i];
    assert LineKeys(lines) == Keys(t);
    assert forall k :: k in Keys(t) ==> (k, reducef(k, ValuesOf(t, k))) in lines by {
      forall k | k in Keys(t)
        ensures (k, reducef(k, ValuesOf(t, k))) in lines
      {
        var i :| 0 <= i < |ks| && ks[i] == k;
        assert lines[i] == (k, reducef(k, ValuesOf(t, k)));
      }
    }
    lines
  }

  lemma PrintsReduces(reducef: Reducer, t: seq<KeyValue>, lines: seq<Line>)
    requires Prints(reducef, t, lines)
    ensures Reduces(reducef, t, lines)
  {
    forall i | 0 <= i < |lines|
      ensures ReducesKey(reducef, t, lines[i])
    {
      assert Arranges(t, lines[i].0, ValuesOf(t, lines[i].0));
    }
  }

  lemma PrintedReduces(reducef: Reducer, s: seq<KeyValue>, lines: seq<Line>)
    requires Printed(reducef, s, lines)
    ensures Reduces(reducef, s, lines)
  {
    var t :| SortedPairs(s, t) && Prints(reducef, t, lines);
    PrintsReduces(reducef, t, lines);
    ReducesPermuted(reducef, t, s, lines);
  }

  /** `t` with the values of key `k` replaced by those of `w`, from the end. */
  ghost function Rearranged(t: seq<KeyValue>, k: string, w: seq<string>): seq<KeyValue> {
    if t == [] then [] else
    var (p, x) := (t[..|t| - 1], t[|t| - 1]);
    if x.key == k && w != [] then Rearranged(p, k, w[..|w| - 1]) + [KeyValue(k, w[|w| - 1])]
    else Rearranged(p, k, w) + [x]
  }

  lemma {:induction false} RearrangedKeys(t: seq<KeyValue>, k: string, w: seq<string>)
    ensures |Rearranged(t, k, w)| == |t| && forall i :: 0 <= i < |t| ==> Rearranged(t, k, w)[i].key == t[i].key
  {
    if t != [] {
      RearrangedKeys(t[..|t| - 1], k, if t[|t| - 1].key == k && w != [] then w[..|w| - 1] else w);
    }
  }

  lemma RearrangedSnoc(p: seq<KeyValue>, x: KeyValue, k: string, v: seq<string>, last: string)
    ensures x.key == k ==> Rearranged(p + [x], k, v + [last]) == Rearranged(p, k, v) + [KeyValue(k, last)]
    ensures x.key != k ==> Rearranged(p + [x], k, v) == Rearranged(p, k, v) + [x]
  {
    assert (p + [x])[..|p|] == p && (v + [last])[..|v|] == v;
  }

  lemma {:induction false} RearrangedValues(t: seq<KeyValue>, k: string, w: seq<string>)
    requires |w| == |ValuesOf(t, k)|
    ensures ValuesOf(Rearranged(t, k, w), k) == w
  {
    if t != [] {
      var (p, x) := (t[..|t| - 1], t[|t| - 1]);
      assert t == p + [x];
      ValuesSnoc(p, x, k);
      if x.key == k {
        var (v, last) := (w[..|w| - 1], w[|w| - 1]);
        assert w == v + [last];
        RearrangedValues(p, k, v);
        RearrangedSnoc(p, x, k, v, last);
        ValuesSnoc(Rearranged(p, k, v), KeyValue(k, last), k);
      } else {
        RearrangedValues(p, k, w);
        RearrangedSnoc(p, x, k, w, "");
        ValuesSnoc(Rearranged(p, k, w), x, k);
      }
    }
  }

  lemma ValuesSnoc(s: seq<KeyValue>, x: KeyValue, k: string)
    ensures ValuesOf(s + [x], k) == if x.key == k then ValuesOf(s, k) + [x.value] else ValuesOf(s, k)
  {
    assert (s + [x])[..|s|] == s;
  }

  lemma CountSnoc(s: seq<KeyValue>, x: KeyValue, y: KeyValue)
    ensures multiset(s + [x])[y] == multiset(s)[y] + if x == y then 1 else 0
  {
  }

  lemma {:induction false} RearrangedOthers(t: seq<KeyValue>, k: string, w: seq<string>, y: KeyValue)
    requires y.key != k
    ensures multiset(Rearranged(t, k, w))[y] == multiset(t)[y]
  {
    if t != [] {
      var (p, x) := (t[..|t| - 1], t[|t| - 1]);
      assert t == p + [x];
      CountSnoc(p, x, y);
      if x.key == k && w != [] {
        RearrangedOthers(p, k, w[..|w| - 1], y);
        CountSnoc(Rearranged(p, k, w[..|w| - 1]), KeyValue(k, w[|w| - 1]), y);
      } else {
        RearrangedOthers(p, k, w, y);
        CountSnoc(Rearranged(p, k, w), x, y);
      }
    }
  }

  /** Every arrangement of the values of a key is the one of some order in which the sort may leave the pairs. */
  lemma EveryArrangement(s: seq<KeyValue>, k: string, w: seq<string>) returns (t: seq<KeyValue>)
    requires Arranges(s, k, w)
    ensures SortedPairs(s, t) && ValuesOf(t, k) == w
  {
    ByKeyOrders();
    var t0 := SortedBy(s, ByKey);
    SamePairs(s, t0, k);
    assert |w| == |multiset(w)| && |ValuesOf(t0, k)| == |multiset(ValuesOf(t0, k))|;
    t := Rearranged(t0, k, w);
    RearrangedKeys(t0, k, w);
    RearrangedValues(t0, k, w);
    forall x: KeyValue
      ensures multiset(t)[x] == multiset(s)[x]
    {
      if x.key == k {
        ValuesCount(t, k, x.value);
        ValuesCount(t0, k, x.value);
      } else {
        RearrangedOthers(t0, k, w, x);
      }
    }
    forall i, j | 0 <= i < j < |t|
      ensures ByKey(t[i], t[j])
    {
      assert ByKey(t0[i], t0[j]);
    }
  }

  /** The exact condition: whatever order the sort leaves equal keys in, the sequential program prints the same
      lines if and only if no reduction depends on the order of the values of its key. */
  lemma SameLinesIff(reducef: Reducer, s: seq<KeyValue>)
    ensures OrderInsensitive(reducef, s) <==>
            forall a, b :: Printed(reducef, s, a) && Printed(reducef, s, b) ==> multiset(a) == multiset(b)
  {
    if OrderInsensitive(reducef, s) {
      forall a, b | Printed(reducef, s, a) && Printed(reducef, s, b)
        ensures multiset(a) == multiset(b)
      {
        PrintedReduces(reducef, s, a);
        PrintedReduces(reducef, s, b);
        SameLines(reducef, s, a, b);
      }
    } else {
      var k, v, w :| k in Keys(s) && Arranges(s, k, v) && Arranges(s, k, w) && reducef(k, v) != reducef(k, w);
      var a := PrintedWith(reducef, s, k, v);
      var b := PrintedWith(reducef, s, k, w);
      OneLinePerKey(a, (k, reducef(k, v)), (k, reducef(k, w)));
      assert (k, reducef(k, w)) in multiset(b);
    }
  }

  lemma PrintedWith(reducef: Reducer, s: seq<KeyValue>, k: string, w: seq<string>) returns (lines: seq<Line>)
    requires k in Keys(s) && Arranges(s, k, w)
    ensures Printed(reducef, s, lines) && DistinctKeys(lines) && (k, reducef(k, w)) in lines
  {
    var t := EveryArrangement(s, k, w);
    SamePairs(s, t, k);
    lines := LinesOf(reducef, t);
    assert Prints(reducef, t, lines);
  }

  lemma OneLinePerKey(a: seq<Line>, x: Line, y: Line)
    requires DistinctKeys(a) && x in a && x.0 == y.0 && x != y
    ensures y !in a
  {
  }

  lemma {:induction false} OnceIfKeysDistinct(a: seq<Line>, x: Line)
    requires DistinctKeys(a)
    ensures multiset(a)[x] == if x in a then 1 else 0
  {
    if a != [] {
      var (r, y) := (a[..|a| - 1], a[|a| - 1]);
      OnceIfKeysDistinct(r, x);
      assert a == r + [y];
    }
  }

  // The programs

  predicate ByKey(a: KeyValue, b: KeyValue) { Leq(a.key, b.key) }

  lemma ByKeyOrders()
    ensures IsTotalPreorder(ByKey)
  {
    forall a, b
      ensures ByKey(a, b) || ByKey(b, a)
    {
      LeqTotal(a.key, b.key);
    }
    forall a, b, c | ByKey(a, b) && ByKey(b, c)
      ensures ByKey(a, c)
    {
      LeqTransitive(a.key, b.key, c.key);
    }
  }

  /** In a sorted sequence equal keys are neighbours. */
  lemma Contiguous(s: seq<KeyValue>, i: nat, m: nat, j: nat)
    requires Sorted(s, ByKey) && i <= m <= j < |s| && s[i].key == s[j].key
    ensures s[m].key == s[i].key
  {
    if i < m < j {
      assert ByKey(s[i], s[m]) && ByKey(s[m], s[j]);
      LeqAntisymmetric(s[i].key, s[m].key);
    }
  }

  /** The values of the pairs from `i` up to `j`. */
  ghost function Slice(s: seq<KeyValue>, i: nat, j: nat): seq<string>
    requires i <= j <= |s|
  {
    seq(j - i, m requires 0 <= m < j - i => s[i + m].value)
  }

  lemma {:induction false} ValuesOfSlice(s: seq<KeyValue>, i: nat, j: nat, n: nat, k: string)
    requires i < j <= |s| && n <= |s| && forall m :: 0 <= m < |s| ==> (s[m].key == k <==> i <= m < j)
    ensures ValuesOf(s[..n], k) == if n <= i then [] else if n <= j then Slice(s, i, n) else Slice(s, i, j)
  {
    if n > 0 {
      ValuesOfSlice(s, i, j, n - 1, k);
      assert s[..n][..n - 1] == s[..n - 1];
      if i < n <= j {
        assert Slice(s, i, n) == (if n - 1 <= i then [] else Slice(s, i, n - 1)) + [s[n - 1].value];
      }
    }
  }

  /** The end of the run of equal keys that starts at `i`, and its values. */
  method Group(s: seq<KeyValue>, i: nat) returns (j: nat, values: seq<string>)
    requires Sorted(s, ByKey) && i < |s| && (i > 0 ==> s[i - 1].key != s[i].key)
    ensures i < j <= |s| && (j < |s| ==> s[j - 1].key != s[j].key)
    ensures values == ValuesOf(s, s[i].key)
    ensures forall m :: 0 <= m < |s| ==> (s[m].key == s[i].key <==> i <= m < j)
  {
    j := i + 1;
    while j < |s| && s[j].key == s[i].key
      invariant i < j <= |s| && forall m :: i <= m < j ==> s[m].key == s[i].key
    {
      j := j + 1;
    }
    values := [];
    for k := i to j
      invariant values == Slice(s, i, k)
    {
      values := values + [s[k].value];
    }
    OnlyInRun(s, i, j);
    ValuesOfSlice(s, i, j, |s|, s[i].key);
    assert s[..|s|] == s;
  }

  lemma OnlyInRun(s: seq<KeyValue>, i: nat, j: nat)
    requires Sorted(s, ByKey) && i < j <= |s| && (i > 0 ==> s[i - 1].key != s[i].key) &&
      (j < |s| ==> s[j].key != s[i].key)
    requires forall m :: i <= m < j ==> s[m].key == s[i].key
    ensures forall m :: 0 <= m < |s| ==> (s[m].key == s[i].key <==> i <= m < j)
  {
    forall m | 0 <= m < |s| && s[m].key == s[i].key
      ensures i <= m < j
    {
      if m < i {
        Contiguous(s, m, i - 1, i);
      } else if m >= j {
        Contiguous(s, i, j, m);
      }
    }
  }

  /** The grouping loop of both programs: one line for each run of equal keys. */
  method ReduceSorted(s: seq<KeyValue>, reducef: Reducer) returns (lines: seq<Line>)
    requires Sorted(s, ByKey)
    ensures Prints(reducef, s, lines) && InKeyOrder(lines)
  {
    lines := [];
    var i := 0;
    while i < |s|
      invariant 0 <= i <= |s| && (0 < i < |s| ==> s[i - 1].key != s[i].key)
      invariant PrintedUpTo(reducef, s, i, lines)
    {
      var j, values := Group(s, i);
      PrintNext(reducef, s, i, j, lines, (s[i].key, reducef(s[i].key, values)));
      lines := lines + [(s[i].key, reducef(s[i].key, values))];
      i := j;
    }
    assert s[..|s|] == s;
  }

  /** The lines of the keys before `i`, which do not occur from `i` on. */
  ghost predicate PrintedUpTo(reducef: Reducer, s: seq<KeyValue>, i: nat, lines: seq<Line>)
    requires i <= |s|
  {
    && DistinctKeys(lines) && InKeyOrder(lines) && LineKeys(lines) == Keys(s[..i])
    && (forall m :: 0 <= m < |lines| ==> lines[m].1 == reducef(lines[m].0, ValuesOf(s, lines[m].0)))
    && (forall m, q :: 0 <= m < i <= q < |s| ==> s[m].key != s[q].key)
  }

  lemma PrintNext(reducef: Reducer, s: seq<KeyValue>, i: nat, j: nat, lines: seq<Line>, line: Line)
    requires Sorted(s, ByKey) && i < j <= |s| && PrintedUpTo(reducef, s, i, lines)
    requires line == (s[i].key, reducef(s[i].key, ValuesOf(s, s[i].key)))
    requires forall m :: 0 <= m < |s| ==> (s[m].key == s[i].key <==> i <= m < j)
    ensures PrintedUpTo(reducef, s, j, lines + [line])
  {
    LinesGrow(s, i, j, lines, line);
    KeyAfterLines(s, i, lines);
  }

  /** The keys of the lines come before the next key. */
  lemma KeyAfterLines(s: seq<KeyValue>, i: nat, lines: seq<Line>)
    requires Sorted(s, ByKey) && i < |s| && LineKeys(lines) == Keys(s[..i])
    ensures forall m :: 0 <= m < |lines| ==> Leq(lines[m].0, s[i].key)
  {
    forall m | 0 <= m < |lines|
      ensures Leq(lines[m].0, s[i].key)
    {
      assert lines[m].0 in Keys(s[..i]);
      var q :| 0 <= q < i && s[..i][q].key == lines[m].0;
      assert ByKey(s[q], s[i]);
    }
  }

  lemma LinesGrow(s: seq<KeyValue>, i: nat, j: nat, lines: seq<Line>, line: Line)
    requires i < j <= |s| && LineKeys(lines) == Keys(s[..i]) && DistinctKeys(lines) && line.0 == s[i].key
    requires forall m :: i <= m < j ==> s[m].key == s[i].key
    requires forall m :: 0 <= m < i ==> s[m].key != s[i].key
    ensures LineKeys(lines + [line]) == Keys(s[..j]) && DistinctKeys(lines + [line])
  {
    var (a, b) := (s[..i], s[..j]);
    assert forall m :: 0 <= m < i ==> b[m] == a[m];
    assert b[i].key == line.0;
    assert line.0 !in Keys(a);
    assert forall m :: 0 <= m < |lines| ==> lines[m].0 in LineKeys(lines);
    assert forall m :: 0 <= m < |lines| ==> (lines + [line])[m] == lines[m];
    assert (lines + [line])[|lines|] == line;
    assert LineKeys(lines + [line]) == LineKeys(lines) + {line.0};
    assert Keys(b) == Keys(a) + {line.0};
  }

  /** The pairs that the map function makes of the inputs. */
  ghost function Mapped(inputs: seq<(string, string)>, mapf: Mapper): seq<KeyValue> {
    if inputs == [] then [] else
    Mapped(inputs[..|inputs| - 1], mapf) + mapf(inputs[|inputs| - 1].0, inputs[|inputs| - 1].1)
  }

  /** The sequential program. */
  method Sequential(inputs: seq<(string, string)>, mapf: Mapper, reducef: Reducer) returns (lines: seq<Line>)
    ensures Printed(reducef, Mapped(inputs, mapf), lines) && Reduces(reducef, Mapped(inputs, mapf), lines)
    ensures InKeyOrder(lines)
  {
    var intermediate: seq<KeyValue> := [];
    for i := 0 to |inputs|
      invariant intermediate == Mapped(inputs[..i], mapf)
    {
      assert inputs[..i + 1][..i] == inputs[..i];
      intermediate := intermediate + mapf(inputs[i].0, inputs[i].1);
    }
    assert inputs[..|inputs|] == inputs;
    ByKeyOrders();
    var sorted := Sort(intermediate, ByKey);
    lines := ReduceSorted(sorted, reducef);
    assert SortedPairs(intermediate, sorted);
    PrintedReduces(reducef, intermediate, lines);
  }

  /** A map task: each pair goes to the bucket of its key. */
  method DoMapTask(inter: seq<KeyValue>, hash: string -> nat, nReduce: nat) returns (partitions: seq<seq<KeyValue>>)
    requires nReduce > 0
    ensures |partitions| == nReduce && forall b :: 0 <= b < nReduce ==>
      partitions[b] == InBucket(inter, hash, nReduce, b)
  {
    partitions := seq(nReduce, _ => []);
    for i := 0 to |inter|
      invariant |partitions| == nReduce
      invariant forall b :: 0 <= b < nReduce ==> partitions[b] == InBucket(inter[..i], hash, nReduce, b)
    {
      var kv := inter[i];
      var bucket := hash(kv.key) % nReduce;
      assert inter[..i + 1][..i] == inter[..i];
      partitions := partitions[bucket := partitions[bucket] + [kv]];
    }
    assert inter[..|inter|] == inter;
  }

  /** The intermediate files: row `m` holds the buckets of map task `m`. */
  ghost predicate FilesOf(inputs: seq<(string, string)>, mapf: Mapper, hash: string -> nat, nReduce: nat,
      files: seq<seq<seq<KeyValue>>>)
    requires nReduce > 0
  {
    && |files| == |inputs|
    && (forall m :: 0 <= m < |files| ==> |files[m]| == nReduce)
    && (forall m, b :: 0 <= m < |files| && 0 <= b < nReduce ==>
      files[m][b] == InBucket(mapf(inputs[m].0, inputs[m].1), hash, nReduce, b))
  }

  /** All map tasks of a distributed job. */
  method MapAll(inputs: seq<(string, string)>, mapf: Mapper, hash: string -> nat, nReduce: nat)
    returns (files: seq<seq<seq<KeyValue>>>)
    requires nReduce > 0
    ensures FilesOf(inputs, mapf, hash, nReduce, files)
  {
    files := [];
    for m := 0 to |inputs|
      invariant FilesOf(inputs[..m], mapf, hash, nReduce, files)
    {
      var partitions := DoMapTask(mapf(inputs[m].0, inputs[m].1), hash, nReduce);
      files := files + [partitions];
    }
    assert inputs[..|inputs|] == inputs;
  }

  /** A reduce task: gathers its bucket from all map tasks, sorts and reduces it. */
  method DoReduceTask(files: seq<seq<seq<KeyValue>>>, b: nat, reducef: Reducer, hash: string -> nat, nReduce: nat,
      ghost inputs: seq<(string, string)>, ghost mapf: Mapper)
    returns (lines: seq<Line>)
    requires b < nReduce && FilesOf(inputs, mapf, hash, nReduce, files)
    ensures Reduces(reducef, InBucket(Mapped(inputs, mapf), hash, nReduce, b), lines) && InKeyOrder(lines)
  {
    var intermediate: seq<KeyValue> := [];
    for i := 0 to |files|
      invariant intermediate == InBucket(Mapped(inputs[..i], mapf), hash, nReduce, b)
    {
      assert inputs[..i + 1][..i] == inputs[..i];
      BucketConcat(Mapped(inputs[..i], mapf), mapf(inputs[i].0, inputs[i].1), hash, nReduce, b);
      intermediate := intermediate + files[i][b];
    }
    assert inputs[..|inputs|] == inputs;
    ByKeyOrders();
    var sorted := Sort(intermediate, ByKey);
    lines := ReduceSorted(sorted, reducef);
    PrintsReduces(reducef, sorted, lines);
    ReducesPermuted(reducef, sorted, intermediate, lines);
  }

  /** All tasks of a distributed job. */
  method Distributed(inputs: seq<(string, string)>, mapf: Mapper, reducef: Reducer, hash: string -> nat, nReduce: nat)
    returns (outs: seq<seq<Line>>)
    requires nReduce > 0
    ensures Reduces(reducef, Mapped(inputs, mapf), Concat(outs)) && |outs| == nReduce
    ensures forall b :: 0 <= b < nReduce ==> InKeyOrder(outs[b])
    ensures forall b, i :: 0 <= b < nReduce && 0 <= i < |outs[b]| ==> Bucket(hash, nReduce, outs[b][i].0) == b
  {
    var files := MapAll(inputs, mapf, hash, nReduce);
    outs := [];
    for b := 0 to nReduce
      invariant |outs| == b
      invariant forall c :: 0 <= c < b ==> Reduces(reducef, InBucket(Mapped(inputs, mapf), hash, nReduce, c), outs[c])
      invariant forall c :: 0 <= c < b ==> InKeyOrder(outs[c])
    {
      var lines := DoReduceTask(files, b, reducef, hash, nReduce, inputs, mapf);
      outs := outs + [lines];
    }
    ReducesTogether(reducef, Mapped(inputs, mapf), hash, nReduce, outs);
  }

  /** Both programs on the same inputs: the reduce outputs together are exactly the sequential output. */
  method RunBoth(inputs: seq<(string, string)>, mapf: Mapper, reducef: Reducer, hash: string -> nat, nReduce: nat)
    returns (lines: seq<Line>, outs: seq<seq<Line>>)
    requires nReduce > 0
    ensures DistinctKeys(Concat(outs)) && LineKeys(Concat(outs)) == LineKeys(lines)
    ensures OrderInsensitive(reducef, Mapped(inputs, mapf)) ==> multiset(Concat(outs)) == multiset(lines)
  {
    lines := Sequential(inputs, mapf, reducef);
    outs := Distributed(inputs, mapf, reducef, hash, nReduce);
    if OrderInsensitive(reducef, Mapped(inputs, mapf)) {
      SameLines(reducef, Mapped(inputs, mapf), Concat(outs), lines);
    }
  }
}
