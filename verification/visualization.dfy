/** Replaying recorded partial linearizations for display. */
module Visualization {
  import opened Linearizability
  import opened Entries
  import opened Search
  import opened Parallel

  /** The inputs and outputs of the operations, by id. */
  method Values<I, O>(h: seq<Entry<I, O>>) returns (calls: map<nat, I>, rets: map<nat, O>)
    requires WellFormed(h)
    ensures ValuesOf(OperationsOf(h), calls, rets)
  {
    ghost var ops := OperationsOf(h);
    forall p | 0 <= p < |h|
      ensures EntryOf(h[p], ops)
    {
      EntryIsCallOrReturn(h, p);
    }
    calls, rets := Collect(h, ops);
    forall x: nat | x < |ops|
      ensures x in calls && x in rets
    {
      OperationEntries(h, x);
      assert !h[ops[x].call].isReturn && h[ops[x].ret].isReturn;
    }
  }

  ghost predicate EntryOf<I, O>(e: Entry<I, O>, ops: seq<Operation<I, O>>) {
    e.id < |ops| && e.value == if e.isReturn then Out(ops[e.id].output) else In(ops[e.id].input)
  }

  method Collect<I, O>(h: seq<Entry<I, O>>, ghost ops: seq<Operation<I, O>>)
    returns (calls: map<nat, I>, rets: map<nat, O>)
    requires forall p :: 0 <= p < |h| ==> EntryOf(h[p], ops)
    ensures forall q :: 0 <= q < |h| ==> if h[q].isReturn then h[q].id in rets else h[q].id in calls
    ensures forall x :: x in calls ==> x < |ops| && calls[x] == ops[x].input
    ensures forall x :: x in rets ==> x < |ops| && rets[x] == ops[x].output
  {
    calls, rets := map[], map[];
    for p := 0 to |h|
      invariant forall q :: 0 <= q < p ==> if h[q].isReturn then h[q].id in rets else h[q].id in calls
      invariant forall x :: x in calls ==> x < |ops| && calls[x] == ops[x].input
      invariant forall x :: x in rets ==> x < |ops| && rets[x] == ops[x].output
    {
      if h[p].isReturn {
        rets := rets[h[p].id := h[p].value.output];
      } else {
        calls := calls[h[p].id := h[p].value.input];
      }
    }
  }

  ghost predicate ValuesOf<I, O>(ops: seq<Operation<I, O>>, calls: map<nat, I>, rets: map<nat, O>) {
    && (forall x: nat :: x < |ops| ==> x in calls && x in rets)
    && (forall x: nat :: x < |ops| ==> calls[x] == ops[x].input && rets[x] == ops[x].output)
  }

  /** Replays one sequence. The model accepts each step, so the replay never stops early, and the
      states shown are the states of the linearization. */
  method ReplayPartial<S, I, O>(m: Model<S, I, O>, ghost ops: seq<Operation<I, O>>, calls: map<nat, I>,
      rets: map<nat, O>, partial: seq<nat>)
    returns (panicked: bool, shown: seq<(nat, S)>)
    requires ValuesOf(ops, calls, rets) && InRange(ops, partial) && Replay(m, ops, partial).Some?
    ensures !panicked && Shows(m, ops, partial, shown, |partial|)
  {
    var state := m.init;
    shown := [];
    for j := 0 to |partial|
      invariant Shows(m, ops, partial, shown, j) && Replay(m, ops, partial[..j]) == Some(state)
    {
      var id := partial[j];
      PrefixAccepted(m, ops, partial, j + 1);
      assert partial[..j + 1][..j] == partial[..j];
      var (ok, t) := m.step(state, calls[id], rets[id]);
      if !ok {
        return true, shown;
      }
      state := t;
      shown := shown + [(id, state)];
    }
    panicked := false;
  }

  /** The first `k` ids of `p`, each with the state it leads to. */
  ghost predicate Shows<S, I, O>(m: Model<S, I, O>, ops: seq<Operation<I, O>>, p: seq<nat>, shown: seq<(nat, S)>,
      k: nat)
    requires InRange(ops, p) && k <= |p|
  {
    |shown| == k && forall j :: 0 <= j < k ==> shown[j].0 == p[j] && ReplayTo(m, ops, p, j + 1) == Some(shown[j].1)
  }

  ghost function ReplayTo<S, I, O>(m: Model<S, I, O>, ops: seq<Operation<I, O>>, p: seq<nat>, k: nat): Option<S>
    requires InRange(ops, p) && k <= |p|
  {
    Replay(m, ops, p[..k])
  }

  /** `l` is one of the longest of the first `n` sequences that contain `x`, if there is one. */
  ghost predicate Best(partials: seq<seq<nat>>, n: nat, x: nat, l: Option<nat>)
    requires n <= |partials|
  {
    match l
    case None => forall i :: 0 <= i < n ==> x !in partials[i]
    case Some(k) => k < n && x in partials[k] && forall i :: 0 <= i < n && x in partials[i] ==>
      |partials[i]| <= |partials[k]|
  }

  ghost function NoteOf(m: map<nat, nat>, x: nat): Option<nat> { if x in m then Some(m[x]) else None }

  /** `largest` points to a longest of the first `n` sequences for each operation that is in one of them. */
  ghost predicate PointsToLargest(partials: seq<seq<nat>>, n: nat, largest: map<nat, nat>)
    requires n <= |partials|
  {
    forall x :: Best(partials, n, x, NoteOf(largest, x))
  }

  ghost predicate SizesOf(partials: seq<seq<nat>>, largest: map<nat, nat>, sizes: map<nat, nat>) {
    && sizes.Keys == largest.Keys
    && (forall x :: x in largest ==> largest[x] < |partials| && sizes[x] == |partials[largest[x]]|)
  }

  /** The choice that the loop makes for an operation of sequence `i`, whether or not it has been made before. */
  lemma BestNext(partials: seq<seq<nat>>, i: nat, x: nat, l: Option<nat>, seen: bool)
    requires i < |partials| && x in partials[i] && Best(partials, if seen then i + 1 else i, x, l)
    ensures if l.None? || |partials[l.value]| < |partials[i]| then Best(partials, i + 1, x, Some(i))
      else Best(partials, i + 1, x, l)
  {
  }

  /** Notes sequence `i` for each of its operations that has no longer one. */
  method NoteLargest(partials: seq<seq<nat>>, i: nat, largest: map<nat, nat>, sizes: map<nat, nat>)
    returns (largest': map<nat, nat>, sizes': map<nat, nat>)
    requires i < |partials| && PointsToLargest(partials, i, largest) && SizesOf(partials, largest, sizes)
    ensures PointsToLargest(partials, i + 1, largest') && SizesOf(partials, largest', sizes')
  {
    largest', sizes' := largest, sizes;
    ghost var p := partials[i];
    for j := 0 to |partials[i]|
      invariant SizesOf(partials, largest', sizes')
      invariant forall x :: Best(partials, if x in p[..j] then i + 1 else i, x, NoteOf(largest', x))
    {
      var id := partials[i][j];
      BestNext(partials, i, id, NoteOf(largest', id), id in p[..j]);
      ghost var before := largest';
      if (if id in sizes' then sizes'[id] else 0) < |partials[i]| {
        largest', sizes' := largest'[id := i], sizes'[id := |partials[i]|];
      }
      forall x
        ensures Best(partials, if x in p[..j + 1] then i + 1 else i, x, NoteOf(largest', x))
      {
        assert x != id ==> NoteOf(largest', x) == NoteOf(before, x) && (x in p[..j + 1] <==> x in p[..j]);
      }
    }
    forall x
      ensures Best(partials, i + 1, x, NoteOf(largest', x))
    {
      assert p[..|p|] == p;
      assert Best(partials, if x in p then i + 1 else i, x, NoteOf(largest', x));
    }
  }

  /** Replays every recorded sequence; none of them makes the model reject a step. For each operation one of the
      longest sequences that contain it is noted. */
  method ReplayPartials<S, I, O>(m: Model<S, I, O>, ghost ops: seq<Operation<I, O>>, calls: map<nat, I>,
      rets: map<nat, O>, partials: seq<seq<nat>>, ghost longest: seq<Option<seq<nat>>>)
    returns (panicked: bool, linearizations: seq<seq<(nat, S)>>, largest: map<nat, nat>)
    requires ValuesOf(ops, calls, rets) && SoundRecords(m, ops, longest)
    requires forall i :: 0 <= i < |partials| ==> Some(partials[i]) in longest
    ensures !panicked && |linearizations| == |partials| && PointsToLargest(partials, |partials|, largest)
    ensures forall i :: 0 <= i < |partials| ==>
      InRange(ops, partials[i]) && Shows(m, ops, partials[i], linearizations[i], |partials[i]|)
  {
    linearizations, largest := [], map[];
    var sizes: map<nat, nat> := map[];
    for i := 0 to |partials|
      invariant |linearizations| == i && PointsToLargest(partials, i, largest) && SizesOf(partials, largest, sizes)
      invariant forall k :: 0 <= k < i ==>
        InRange(ops, partials[k]) && Shows(m, ops, partials[k], linearizations[k], |partials[k]|)
    {
      var shown;
      RecordedIsAccepted(m, ops, longest, partials[i]);
      panicked, shown := ReplayPartial(m, ops, calls, rets, partials[i]);
      if panicked {
        return;
      }
      linearizations := linearizations + [shown];
      largest, sizes := NoteLargest(partials, i, largest, sizes);
    }
    panicked := false;
  }

  /** After a failed search, the sequence pointed to for an operation is a longest partial linearization with it. */
  lemma LargestIsLongest<S, I, O>(m: Model<S, I, O>, ops: seq<Operation<I, O>>, longest: seq<Option<seq<nat>>>,
      partials: seq<seq<nat>>, largest: map<nat, nat>, p: seq<nat>, x: nat)
    requires LongestPerOperation(m, ops, longest) && PointsToLargest(partials, |partials|, largest)
    requires forall y :: 0 <= y < |longest| && longest[y].Some? ==> longest[y].value in partials
    requires IsPartial(m, ops, p) && x in p
    ensures x in largest && largest[x] < |partials| && x in partials[largest[x]] && |p| <= |partials[largest[x]]|
  {
    assert x < |ops| && longest[x].Some?;
    var i :| 0 <= i < |partials| && partials[i] == longest[x].value;
    assert Best(partials, |partials|, x, NoteOf(largest, x));
  }

  lemma RecordedIsAccepted<S, I, O>(m: Model<S, I, O>, ops: seq<Operation<I, O>>, longest: seq<Option<seq<nat>>>,
      p: seq<nat>)
    requires SoundRecords(m, ops, longest) && Some(p) in longest
    ensures InRange(ops, p) && Replay(m, ops, p).Some?
  {
  }

  /** Shows partition `i` of a finished check that has collected information: the recorded sequences are those of its
      worker and the replay never panics. Without a timeout, if the partition fits, whole linearizations are shown, and
      if it has failed, the sequence noted for an operation is a longest partial linearization with it. */
  method ShowPartition<S(!new), I(!new), O(!new)>(m: Model<S, I, O>, h: seq<Entry<I, O>>, longest: Longest,
      ghost job: Job<S, I, O>, ghost run: seq<State>, ghost k: nat, ghost i: nat)
    returns (panicked: bool, partials: seq<seq<nat>>, linearizations: seq<seq<(nat, S)>>, largest: map<nat, nat>)
    requires job.Valid() && job.IsRun(run) && k < |run| && run[k].phase.Done? && job.computeInfo
    requires i < |job.histories| && job.m == m && job.histories[i] == h
    requires !run[k].workers[i].Running? && run[k].workers[i].longest == longest
    ensures !panicked && |linearizations| == |partials| && PointsToLargest(partials, |partials|, largest)
    ensures forall p :: p in partials <==> Some(p) in longest
    ensures forall j :: 0 <= j < |partials| ==>
      InRange(OperationsOf(h), partials[j]) && Shows(m, OperationsOf(h), partials[j], linearizations[j], |partials[j]|)
    ensures !run[k].timedOut && !job.Fits(i) ==> forall p, x :: IsPartial(m, OperationsOf(h), p) && x in p ==>
      x in largest && largest[x] < |partials| && x in partials[largest[x]] && |p| <= |partials[largest[x]]|
    ensures !run[k].timedOut && job.Fits(i) ==> forall p :: p in partials ==> IsLinearization(m, OperationsOf(h), p)
  {
    InfoIsComplete(job, run, k, i);
    ghost var ops := OperationsOf(h);
    var calls, rets := Values(h);
    partials := Partials(longest);
    assert forall j :: 0 <= j < |partials| ==> partials[j] in partials;
    panicked, linearizations, largest := ReplayPartials(m, ops, calls, rets, partials, longest);
    if !run[k].timedOut && job.Fits(i) {
      forall p | p in partials
        ensures IsLinearization(m, ops, p)
      {
        var x :| 0 <= x < |longest| && longest[x] == Some(p);
      }
    }
    if !run[k].timedOut && !job.Fits(i) {
      forall p, x | IsPartial(m, ops, p) && x in p
        ensures x in largest && largest[x] < |partials| && x in partials[largest[x]] && |p| <= |partials[largest[x]]|
      {
        AllRecorded(longest, partials);
        LargestIsLongest(m, ops, longest, partials, largest, p, x);
      }
    }
  }

  lemma AllRecorded(longest: Longest, partials: seq<seq<nat>>)
    requires forall p :: p in partials <==> Some(p) in longest
    ensures forall y :: 0 <= y < |longest| && longest[y].Some? ==> longest[y].value in partials
  {
    forall y | 0 <= y < |longest| && longest[y].Some?
      ensures longest[y].value in partials
    {
      assert Some(longest[y].value) == longest[y];
    }
  }
}
