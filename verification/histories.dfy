/** Turning recorded operations and events into the time-ordered entries that the checker reads. */
module Histories {
  import opened Collections
  import opened Linearizability
  import opened Entries
  import opened Sorting

  function CallEntry<I, O>(history: seq<Operation<I, O>>, x: nat): Entry<I, O>
    requires x < |history|
  {
    Entry(false, In(history[x].input), x, history[x].call, history[x].clientId)
  }

  function ReturnEntry<I, O>(history: seq<Operation<I, O>>, x: nat): Entry<I, O>
    requires x < |history|
  {
    Entry(true, Out(history[x].output), x, history[x].ret, history[x].clientId)
  }

  /** Both entries of each operation, in the order of the history. */
  ghost function Unsorted<I, O>(history: seq<Operation<I, O>>): seq<Entry<I, O>> {
    seq(2 * |history|, i requires 0 <= i < 2 * |history| =>
      if i % 2 == 0 then CallEntry(history, i / 2) else ReturnEntry(history, i / 2))
  }

  ghost predicate ByTime<I, O>(s: seq<Entry<I, O>>) {
    forall i, j :: 0 <= i < j < |s| ==> s[i].time <= s[j].time
  }

  /** Operations take time, and no call has the time stamp of a return. */
  ghost predicate Stamped<I, O>(history: seq<Operation<I, O>>) {
    && (forall x :: 0 <= x < |history| ==> history[x].call < history[x].ret)
    && (forall x, y :: 0 <= x < |history| && 0 <= y < |history| ==> history[x].call != history[y].ret)
  }

  /** The entries of all operations, sorted by time; nothing more is known about the order of equal stamps. */
  method MakeEntries<I(!new), O(!new)>(history: seq<Operation<I, O>>) returns (entries: seq<Entry<I, O>>)
    ensures SortedEntries(history, entries)
  {
    entries := [];
    for id := 0 to |history|
      invariant entries == Unsorted(history)[..2 * id]
    {
      entries := entries + [CallEntry(history, id)];
      entries := entries + [ReturnEntry(history, id)];
    }
    assert Unsorted(history)[..2 * |history|] == Unsorted(history);
    entries := Sort(entries, (a: Entry<I, O>, b: Entry<I, O>) => a.time <= b.time);
  }

  lemma {:induction false} OnceEach<T>(s: seq<T>, e: T)
    requires forall i, j :: 0 <= i < j < |s| ==> s[i] != s[j]
    ensures multiset(s)[e] <= 1
  {
    if s != [] {
      var (r, x) := (s[..|s| - 1], s[|s| - 1]);
      OnceEach(r, e);
      assert s == r + [x];
    }
  }

  /** What sorting leaves of the entries: each operation has one call entry and one return entry. */
  ghost predicate EntriesOf<I, O>(history: seq<Operation<I, O>>, h: seq<Entry<I, O>>) {
    && |h| == 2 * |history|
    && (forall p :: 0 <= p < |h| ==>
          h[p].id < |history| && h[p] == if h[p].isReturn then ReturnEntry(history, h[p].id)
            else CallEntry(history, h[p].id))
    && (forall p, q :: 0 <= p < q < |h| && h[p].id == h[q].id ==> h[p].isReturn != h[q].isReturn)
    && (forall x: nat :: x < |history| ==> HasCall(h, x) && HasReturn(h, x))
  }

  lemma PermutationOf<I, O>(history: seq<Operation<I, O>>, h: seq<Entry<I, O>>)
    requires multiset(h) == multiset(Unsorted(history))
    ensures EntriesOf(history, h)
  {
    var u := Unsorted(history);
    assert |h| == |multiset(h)| && |u| == |multiset(u)|;
    forall p | 0 <= p < |h|
      ensures h[p].id < |history| && h[p] == if h[p].isReturn then ReturnEntry(history, h[p].id)
        else CallEntry(history, h[p].id)
    {
      assert h[p] in multiset(u);
      var i :| 0 <= i < |u| && u[i] == h[p];
    }
    forall p, q | 0 <= p < q < |h| && h[p].id == h[q].id
      ensures h[p].isReturn != h[q].isReturn
    {
      UnsortedDistinct(history);
      OnceEach(u, h[p]);
      AtMostOnce(h, p, q);
    }
    forall x: nat | x < |history|
      ensures HasCall(h, x) && HasReturn(h, x)
    {
      assert u[2 * x] in multiset(h) && u[2 * x + 1] in multiset(h);
      assert u[2 * x] == CallEntry(history, x) && u[2 * x + 1] == ReturnEntry(history, x);
      var p :| 0 <= p < |h| && h[p] == CallEntry(history, x);
      var q :| 0 <= q < |h| && h[q] == ReturnEntry(history, x);
    }
  }

  lemma UnsortedDistinct<I, O>(history: seq<Operation<I, O>>)
    ensures var u := Unsorted(history); forall i, j :: 0 <= i < j < |u| ==> u[i] != u[j]
  {
  }

  /** `h` is one of the orders in which the sort may leave the entries. */
  ghost predicate SortedEntries<I, O>(history: seq<Operation<I, O>>, h: seq<Entry<I, O>>) {
    ByTime(h) && multiset(h) == multiset(Unsorted(history))
  }

  /** `h` is well formed and describes the operations of the history, and an operation of `h` returns before another
      is called exactly if it does in the history. */
  ghost predicate SameOrder<I, O>(history: seq<Operation<I, O>>, h: seq<Entry<I, O>>) {
    && WellFormed(h) && |OperationsOf(h)| == |history|
    && (forall x, y :: 0 <= x < |history| && 0 <= y < |history| ==>
          (OperationsOf(h)[x].ret < OperationsOf(h)[y].call <==> history[x].ret < history[y].call))
    && (forall x :: 0 <= x < |history| ==> SameButTimes(OperationsOf(h)[x], history[x]))
  }

  ghost predicate SameButTimes<I, O>(a: Operation<I, O>, b: Operation<I, O>) {
    a.clientId == b.clientId && a.input == b.input && a.output == b.output
  }

  /** What the entries of an operation say of it. */
  lemma EntryTimes<I, O>(history: seq<Operation<I, O>>, h: seq<Entry<I, O>>, x: nat)
    requires WellFormed(h) && EntriesOf(history, h) && x < |history|
    ensures |OperationsOf(h)| == |history|
    ensures var op := OperationsOf(h)[x];
            && 0 <= op.call < op.ret < |h|
            && h[op.call] == CallEntry(history, x) && h[op.ret] == ReturnEntry(history, x)
            && SameButTimes(op, history[x])
  {
    OperationEntries(h, x);
  }

  lemma StampedSuffices<I, O>(history: seq<Operation<I, O>>, h: seq<Entry<I, O>>)
    requires Stamped(history) && SortedEntries(history, h)
    ensures SameOrder(history, h)
  {
    PermutationOf(history, h);
    EntriesWellFormed(history, h);
    forall x, y | 0 <= x < |history| && 0 <= y < |history|
      ensures OperationsOf(h)[x].ret < OperationsOf(h)[y].call <==> history[x].ret < history[y].call
    {
      EntryTimes(history, h, x);
      EntryTimes(history, h, y);
    }
    forall x | 0 <= x < |history|
      ensures SameButTimes(OperationsOf(h)[x], history[x])
    {
      EntryTimes(history, h, x);
    }
  }

  /** The order by time in which returns come before calls of the same time. */
  predicate ReturnsFirst<I, O>(a: Entry<I, O>, b: Entry<I, O>) {
    a.time < b.time || (a.time == b.time && (a.isReturn || !b.isReturn))
  }

  /** What this order says of two operations of a history that it leaves unharmed. */
  lemma ReturnsFirstStamps<I, O>(history: seq<Operation<I, O>>, h: seq<Entry<I, O>>, x: nat, y: nat)
    requires SameOrder(history, h) && EntriesOf(history, h) && x < |history| && y < |history|
    requires Sorted(h, (a: Entry<I, O>, b: Entry<I, O>) => ReturnsFirst(a, b))
    ensures history[x].call < history[x].ret && history[x].call != history[y].ret
  {
    EntryTimes(history, h, x);
    EntryTimes(history, h, y);
    var (c, r, s) := (OperationsOf(h)[x].call, OperationsOf(h)[x].ret, OperationsOf(h)[y].ret);
    assert ReturnsFirst(h[c], h[r]);
    assert c < s ==> ReturnsFirst(h[c], h[s]);
  }

  /** The exact condition under which the unstable sort does no harm: whichever way it leaves equal stamps,
      the entries are well formed and in the real-time order of the history. */
  lemma StampedIff<I(!new), O(!new)>(history: seq<Operation<I, O>>)
    ensures Stamped(history) <==> forall h :: SortedEntries(history, h) ==> SameOrder(history, h)
  {
    if Stamped(history) {
      forall h | SortedEntries(history, h)
        ensures SameOrder(history, h)
      {
        StampedSuffices(history, h);
      }
    }
    if forall h :: SortedEntries(history, h) ==> SameOrder(history, h) {
      var leq := (a: Entry<I, O>, b: Entry<I, O>) => ReturnsFirst(a, b);
      var h := SortedBy(Unsorted(history), leq);
      assert SortedEntries(history, h);
      PermutationOf(history, h);
      forall x, y | 0 <= x < |history| && 0 <= y < |history|
        ensures history[x].call < history[x].ret && history[x].call != history[y].ret
      {
        ReturnsFirstStamps(history, h, x, y);
      }
    }
  }

  /** The entries describe the same linearizability problem as the operations they were made from. */
  lemma EntriesFaithful<S, I, O>(m: Model<S, I, O>, history: seq<Operation<I, O>>, h: seq<Entry<I, O>>)
    requires Stamped(history) && SortedEntries(history, h)
    ensures WellFormed(h)
    ensures Linearizable(m, OperationsOf(h)) <==> Linearizable(m, history)
  {
    StampedSuffices(history, h);
    OrderIsomorphic(m, OperationsOf(h), history);
  }

  lemma EntriesWellFormed<I, O>(history: seq<Operation<I, O>>, h: seq<Entry<I, O>>)
    requires Stamped(history) && ByTime(h) && EntriesOf(history, h)
    ensures WellFormed(h)
  {
  }
}
