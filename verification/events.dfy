/** Histories given as call and return events with arbitrary ids. */
module Events {
  import opened Collections
  import opened Linearizability
  import opened Entries

  datatype Event<I, O> = Event(clientId: int, isReturn: bool, value: Value<I, O>, id: int)

  /** Each id that occurs belongs to one call event and one return event after it. */
  ghost predicate Paired<I, O>(events: seq<Event<I, O>>) {
    && (forall p :: 0 <= p < |events| ==> if events[p].isReturn then events[p].value.Out? else events[p].value.In?)
    && (forall p, q :: 0 <= p < q < |events| && events[p].id == events[q].id ==>
          !events[p].isReturn && events[q].isReturn)
    && (forall p :: 0 <= p < |events| ==> HasPartner(events, p))
  }

  ghost predicate HasPartner<I, O>(events: seq<Event<I, O>>, p: nat)
    requires p < |events|
  {
    exists q :: 0 <= q < |events| && events[q].id == events[p].id && events[q].isReturn != events[p].isReturn
  }

  /** `r` is `events` with its ids renamed one to one to 0..n-1. */
  ghost predicate Renamed<I, O>(events: seq<Event<I, O>>, r: seq<Event<I, O>>, n: nat) {
    && |r| == |events|
    && (forall p :: 0 <= p < |r| ==> 0 <= r[p].id < n && r[p].(id := events[p].id) == events[p])
    && (forall p, q :: 0 <= p < |r| && 0 <= q < |r| ==> (r[p].id == r[q].id <==> events[p].id == events[q].id))
    && (forall v: nat :: v < n ==> Occurs(r, v))
  }

  /** No earlier event has the id of the event at `p`. */
  ghost predicate IsNew<I, O>(events: seq<Event<I, O>>, p: nat)
    requires p < |events|
  {
    forall j :: 0 <= j < p ==> events[j].id != events[p].id
  }

  /** How many ids occur before `p`. */
  ghost function NewBefore<I, O>(events: seq<Event<I, O>>, p: nat): nat
    requires p <= |events|
  {
    if p == 0 then 0 else NewBefore(events, p - 1) + if IsNew(events, p - 1) then 1 else 0
  }

  /** The ids are numbered in the order of their first events. */
  ghost predicate InOrder<I, O>(events: seq<Event<I, O>>, r: seq<Event<I, O>>, n: nat)
    requires |r| == |events|
  {
    n == NewBefore(events, |events|) && forall p :: 0 <= p < |r| && IsNew(events, p) ==> r[p].id == NewBefore(events, p)
  }

  ghost predicate Occurs<I, O>(r: seq<Event<I, O>>, v: int) {
    exists p :: 0 <= p < |r| && r[p].id == v
  }

  ghost predicate Seen<I, O>(events: seq<Event<I, O>>, i: nat, k: int)
    requires i <= |events|
  {
    exists p :: 0 <= p < i && events[p].id == k
  }

  /** The first `i` events have been renamed with the numbering `m`. */
  ghost predicate Numbered<I, O>(events: seq<Event<I, O>>, i: nat, e: seq<Event<I, O>>, m: map<int, int>, n: nat)
    requires i <= |events|
  {
    && |e| == i
    && (forall k :: k in m ==> 0 <= m[k] < n && Seen(events, i, k))
    && (forall k, l :: k in m && l in m && m[k] == m[l] ==> k == l)
    && (forall p :: 0 <= p < i ==> events[p].id in m && e[p] == events[p].(id := m[events[p].id]))
    && (forall v: nat :: v < n ==> Occurs(e, v))
  }

  /** The numbers so far are those of the first events. */
  ghost predicate Ranked<I, O>(events: seq<Event<I, O>>, i: nat, e: seq<Event<I, O>>, n: nat)
    requires i <= |events| && |e| == i
  {
    n == NewBefore(events, i) && forall p :: 0 <= p < i && IsNew(events, p) ==> e[p].id == NewBefore(events, p)
  }

  lemma NumberedOld<I, O>(events: seq<Event<I, O>>, i: nat, e: seq<Event<I, O>>, m: map<int, int>, n: nat)
    requires i < |events| && Numbered(events, i, e, m, n) && events[i].id in m
    ensures Numbered(events, i + 1, e + [events[i].(id := m[events[i].id])], m, n) && !IsNew(events, i)
  {
    Grown(e, e + [events[i].(id := m[events[i].id])]);
    forall k | k in m
      ensures Seen(events, i + 1, k)
    {
      assert Seen(events, i, k);
    }
  }

  lemma NumberedNew<I, O>(events: seq<Event<I, O>>, i: nat, e: seq<Event<I, O>>, m: map<int, int>, n: nat)
    requires i < |events| && Numbered(events, i, e, m, n) && events[i].id !in m
    ensures Numbered(events, i + 1, e + [events[i].(id := n)], m[events[i].id := n], n + 1) && IsNew(events, i)
  {
    var v := events[i];
    var after := m[v.id := n];
    Grown(e, e + [v.(id := n)]);
    forall k | k in after
      ensures Seen(events, i + 1, k)
    {
      assert k != v.id ==> Seen(events, i, k);
    }
  }

  lemma RankedNext<I, O>(events: seq<Event<I, O>>, i: nat, e: seq<Event<I, O>>, n: nat, x: Event<I, O>)
    requires i < |events| && |e| == i && Ranked(events, i, e, n) && (IsNew(events, i) ==> x.id == n)
    ensures Ranked(events, i + 1, e + [x], if IsNew(events, i) then n + 1 else n)
  {
  }

  /** Numbers the ids in the order of their first events. */
  method Renumber<I, O>(events: seq<Event<I, O>>) returns (e: seq<Event<I, O>>, n: nat)
    ensures Renamed(events, e, n) && InOrder(events, e, n)
  {
    e, n := [], 0;
    var m: map<int, int> := map[];
    for i := 0 to |events|
      invariant Numbered(events, i, e, m, n) && Ranked(events, i, e, n)
    {
      var v := events[i];
      if v.id in m {
        NumberedOld(events, i, e, m, n);
        RankedNext(events, i, e, n, v.(id := m[v.id]));
        e := e + [v.(id := m[v.id])];
      } else {
        NumberedNew(events, i, e, m, n);
        RankedNext(events, i, e, n, v.(id := n));
        e := e + [v.(id := n)];
        m := m[v.id := n];
        n := n + 1;
      }
    }
    NumberedAll(events, e, m, n);
  }

  lemma NumberedAll<I, O>(events: seq<Event<I, O>>, e: seq<Event<I, O>>, m: map<int, int>, n: nat)
    requires Numbered(events, |events|, e, m, n)
    ensures Renamed(events, e, n)
  {
  }

  lemma Grown<I, O>(before: seq<Event<I, O>>, after: seq<Event<I, O>>)
    requires |after| == |before| + 1 && after[..|before|] == before
    ensures Occurs(after, after[|before|].id) && forall v :: Occurs(before, v) ==> Occurs(after, v)
  {
  }

  /** The position of an event serves as its time. */
  method ConvertEntries<I, O>(events: seq<Event<I, O>>) returns (entries: seq<Entry<I, O>>)
    requires forall p :: 0 <= p < |events| ==> events[p].id >= 0
    ensures entries == Converted(events)
  {
    entries := [];
    for i := 0 to |events|
      invariant entries == Converted(events)[..i]
    {
      entries := entries + [Entry(events[i].isReturn, events[i].value, events[i].id, i, events[i].clientId)];
    }
  }

  ghost function Converted<I, O>(events: seq<Event<I, O>>): seq<Entry<I, O>>
    requires forall p :: 0 <= p < |events| ==> events[p].id >= 0
  {
    seq(|events|, i requires 0 <= i < |events| =>
      Entry(events[i].isReturn, events[i].value, events[i].id, i, events[i].clientId))
  }

  lemma HasBoth<I, O>(events: seq<Event<I, O>>, r: seq<Event<I, O>>, n: nat, v: nat)
    requires Paired(events) && Renamed(events, r, n) && v < n
    ensures HasCall(Converted(r), v) && HasReturn(Converted(r), v)
  {
    var h := Converted(r);
    assert Occurs(r, v);
    var p :| 0 <= p < |r| && r[p].id == v;
    assert HasPartner(events, p);
    var q :| 0 <= q < |events| && events[q].id == events[p].id && events[q].isReturn != events[p].isReturn;
    assert h[p].id == v && h[q].id == v;
  }

  /** The positions of the calls, or of the returns, of the ids below `n`. */
  ghost function Positions<I, O>(h: seq<Entry<I, O>>, n: nat, isReturn: bool): (r: set<nat>)
    requires forall p, q :: 0 <= p < q < |h| && h[p].id == h[q].id ==> h[p].isReturn != h[q].isReturn
    requires forall v: nat :: v < n ==> HasCall(h, v) && HasReturn(h, v)
    ensures |r| == n
    ensures forall p: nat :: p in r <==> p < |h| && h[p].isReturn == isReturn && h[p].id < n
  {
    if n == 0 then {} else
    var before := Positions(h, n - 1, isReturn);
    var q := if isReturn then ReturnAt(h, n - 1) else CallAt(h, n - 1);
    assert forall p :: 0 <= p < |h| && h[p].isReturn == isReturn && h[p].id == n - 1 ==> p == q;
    assert q !in before;
    before + {q}
  }

  /** With one call and one return per id, there are twice as many entries as ids. */
  lemma TwicePerId<I, O>(h: seq<Entry<I, O>>, n: nat)
    requires forall p :: 0 <= p < |h| ==> h[p].id < n
    requires forall p, q :: 0 <= p < q < |h| && h[p].id == h[q].id ==> h[p].isReturn != h[q].isReturn
    requires forall v: nat :: v < n ==> HasCall(h, v) && HasReturn(h, v)
    ensures |h| == 2 * n
  {
    var (a, b) := (Positions(h, n, false), Positions(h, n, true));
    assert a !! b && a + b == Below(|h|);
  }

  /** The events at `p` and `q` are the call and the return of one operation. */
  ghost predicate CallAndReturn<I, O>(events: seq<Event<I, O>>, p: int, q: int) {
    && 0 <= p < |events| && 0 <= q < |events| && events[p].id == events[q].id
    && !events[p].isReturn && events[q].isReturn
  }

  /** The entries made from paired events describe exactly the operations of the events. */
  lemma EventsFaithful<I, O>(events: seq<Event<I, O>>, r: seq<Event<I, O>>, n: nat)
    requires Paired(events) && Renamed(events, r, n)
    ensures WellFormed(Converted(r)) && |OperationsOf(Converted(r))| == n
    ensures forall p :: 0 <= p < |r| ==> Converted(r)[p].time == p && Converted(r)[p].clientId == events[p].clientId
    ensures forall p, q :: CallAndReturn(events, p, q) ==>
      && r[p].id < n
      && OperationsOf(Converted(r))[r[p].id] ==
           Operation(events[p].clientId, events[p].value.input, p, events[q].value.output, q)
  {
    var h := Converted(r);
    forall v: nat | v < n
      ensures HasCall(h, v) && HasReturn(h, v)
    {
      HasBoth(events, r, n, v);
    }
    forall p, q | 0 <= p < q < |h| && h[p].id == h[q].id
      ensures !h[p].isReturn && h[q].isReturn
    {
      assert events[p].id == events[q].id;
    }
    TwicePerId(h, n);
    forall p, q | CallAndReturn(events, p, q)
      ensures r[p].id < n
      ensures OperationsOf(h)[r[p].id] ==
        Operation(events[p].clientId, events[p].value.input, p, events[q].value.output, q)
    {
      EntryIsCallOrReturn(h, p);
      EntryIsCallOrReturn(h, q);
    }
  }

  // The operations of the events, in the order of their calls and whatever their ids

  ghost function PartnerOf<I, O>(events: seq<Event<I, O>>, p: nat): (q: nat)
    requires p < |events| && HasPartner(events, p)
    ensures q < |events| && events[q].id == events[p].id && events[q].isReturn != events[p].isReturn
  {
    var q :| 0 <= q < |events| && events[q].id == events[p].id && events[q].isReturn != events[p].isReturn;
    q
  }

  ghost function OperationOf<I, O>(events: seq<Event<I, O>>, p: nat): Operation<I, O>
    requires Paired(events) && p < |events| && !events[p].isReturn
  {
    var q := PartnerOf(events, p);
    Operation(events[p].clientId, events[p].value.input, p, events[q].value.output, q)
  }

  /** The positions of the calls before `k`. */
  ghost function CallsBefore<I, O>(events: seq<Event<I, O>>, k: nat): (r: seq<nat>)
    requires k <= |events|
    ensures forall x :: 0 <= x < |r| ==> r[x] < k && !events[r[x]].isReturn
  {
    if k == 0 then [] else CallsBefore(events, k - 1) + if events[k - 1].isReturn then [] else [k - 1]
  }

  ghost function EventOperations<I, O>(events: seq<Event<I, O>>): seq<Operation<I, O>>
    requires Paired(events)
  {
    var calls := CallsBefore(events, |events|);
    seq(|calls|, x requires 0 <= x < |calls| => OperationOf(events, calls[x]))
  }

  lemma NewIffCall<I, O>(events: seq<Event<I, O>>, p: nat)
    requires Paired(events) && p < |events|
    ensures IsNew(events, p) <==> !events[p].isReturn
  {
    var q := PartnerOf(events, p);
  }

  lemma {:induction false} CallRank<I, O>(events: seq<Event<I, O>>, k: nat)
    requires Paired(events) && k <= |events|
    ensures |CallsBefore(events, k)| == NewBefore(events, k)
    ensures forall x :: 0 <= x < |CallsBefore(events, k)| ==> NewBefore(events, CallsBefore(events, k)[x]) == x
  {
    if k > 0 {
      CallRank(events, k - 1);
      NewIffCall(events, k - 1);
    }
  }

  /** The entries that are checked describe the operations of the events, in the order of their calls. */
  lemma SameOperations<I, O>(events: seq<Event<I, O>>, r: seq<Event<I, O>>, n: nat)
    requires Paired(events) && Renamed(events, r, n) && InOrder(events, r, n)
    ensures WellFormed(Converted(r)) && OperationsOf(Converted(r)) == EventOperations(events)
  {
    var (calls, ops) := (CallsBefore(events, |events|), EventOperations(events));
    EventsFaithful(events, r, n);
    CallRank(events, |events|);
    forall x | 0 <= x < n
      ensures OperationsOf(Converted(r))[x] == ops[x]
    {
      var p := calls[x];
      NewIffCall(events, p);
      assert r[p].id == x && CallAndReturn(events, p, PartnerOf(events, p));
    }
  }
}
