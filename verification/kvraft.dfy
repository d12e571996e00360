/** The replicated key/value server: applying the committed log with a filter for repeated writes, and
    snapshots of the result. */
module KvRaft {
  import opened Linearizability
  import opened Locality
  import opened KeyValue

  datatype Method = Get | Put | Append

  datatype Op = Op(kind: Method, key: string, value: string, clientId: int, msgId: int)

  datatype State = State(data: map<string, string>, lastApplied: map<int, int>)

  const Empty := State(map[], map[])

  predicate IsWrite(op: Op) { op.kind.Put? || op.kind.Append? }

  function Lookup(data: map<string, string>, k: string): string { if k in data then data[k] else "" }

  function Write(data: map<string, string>, op: Op): map<string, string> {
    match op.kind
    case Get => data
    case Put => data[op.key := op.value]
    case Append => data[op.key := Lookup(data, op.key) + op.value]
  }

  predicate Repeat(s: State, op: Op) {
    op.clientId in s.lastApplied && s.lastApplied[op.clientId] == op.msgId
  }

  function Apply(s: State, op: Op): State {
    if IsWrite(op) && !Repeat(s, op) then State(Write(s.data, op), s.lastApplied[op.clientId := op.msgId]) else s
  }

  ghost function Run(s: State, log: seq<Op>): State {
    if log == [] then s else Apply(Run(s, log[..|log| - 1]), log[|log| - 1])
  }

  // The specification: each write takes effect once

  /** Writes of the same client. */
  predicate SameWriter(a: Op, b: Op) {
    IsWrite(a) && IsWrite(b) && a.clientId == b.clientId
  }

  /** The same write of the same client. */
  predicate SameWrite(a: Op, b: Op) {
    SameWriter(a, b) && a.msgId == b.msgId
  }

  /** The entry at `i` is a write that does not occur before. */
  ghost predicate FirstAt(log: seq<Op>, i: nat)
    requires i < |log|
  {
    IsWrite(log[i]) && forall j :: 0 <= j < i ==> !SameWrite(log[j], log[i])
  }

  /** The data after applying each distinct write once, where it first occurs. */
  ghost function Once(log: seq<Op>): map<string, string> {
    if log == [] then map[] else
    var (before, n) := (Once(log[..|log| - 1]), |log| - 1);
    if FirstAt(log, n) then Write(before, log[n]) else before
  }

  /** The entry at `i` gets past the filter. */
  ghost predicate AppliedAt(log: seq<Op>, i: nat)
    requires i < |log|
  {
    IsWrite(log[i]) && !Repeat(Run(Empty, log[..i]), log[i])
  }

  /** No repetition of a write comes after a later write of the same client. */
  ghost predicate NoLateRetry(log: seq<Op>) {
    forall i, k, j :: 0 <= i < k < j < |log| && SameWrite(log[i], log[j]) && SameWriter(log[i], log[k]) ==>
      SameWrite(log[i], log[k])
  }

  /** The position of the last write of client `c`, or -1. */
  ghost function LastWrite(log: seq<Op>, c: int): (p: int)
    ensures -1 <= p < |log|
    ensures p >= 0 ==> IsWrite(log[p]) && log[p].clientId == c
    ensures forall j :: p < j < |log| ==> !(IsWrite(log[j]) && log[j].clientId == c)
  {
    if log == [] then -1 else
    var n := |log| - 1;
    if IsWrite(log[n]) && log[n].clientId == c then n else
    var p := LastWrite(log[..n], c);
    assert forall j :: p < j < n ==> log[j] == log[..n][j];
    p
  }

  /** The filter remembers the last write of each client, whether or not it was applied. */
  lemma {:induction false} RemembersLast(log: seq<Op>, c: int)
    ensures var (p, s) := (LastWrite(log, c), Run(Empty, log));
            if p == -1 then c !in s.lastApplied else c in s.lastApplied && s.lastApplied[c] == log[p].msgId
  {
    if log != [] {
      RemembersLast(log[..|log| - 1], c);
    }
  }

  lemma AppliedIff(log: seq<Op>, i: nat)
    requires i < |log|
    ensures var p := LastWrite(log[..i], log[i].clientId);
            AppliedAt(log, i) <==> IsWrite(log[i]) && (p == -1 || log[p].msgId != log[i].msgId)
  {
    RemembersLast(log[..i], log[i].clientId);
  }

  lemma FirstIsApplied(log: seq<Op>, i: nat)
    requires i < |log| && FirstAt(log, i)
    ensures AppliedAt(log, i)
  {
    AppliedIff(log, i);
    var p := LastWrite(log[..i], log[i].clientId);
    assert p >= 0 ==> log[..i][p] == log[p] && !SameWrite(log[p], log[i]);
  }

  lemma AppliedIsFirst(log: seq<Op>, i: nat)
    requires i < |log| && NoLateRetry(log) && AppliedAt(log, i)
    ensures FirstAt(log, i)
  {
    AppliedIff(log, i);
    var q := log[..i];
    var p := LastWrite(q, log[i].clientId);
    forall j | 0 <= j < i
      ensures !SameWrite(log[j], log[i])
    {
      assert q[j] == log[j] && (p >= 0 ==> q[p] == log[p]);
    }
  }

  /** If a repetition comes after a later write, some write is applied twice. */
  lemma {:induction false} LateRetryApplied(log: seq<Op>, i: nat, k: nat, j: nat) returns (l: nat)
    requires i < k < j < |log| && SameWrite(log[i], log[j])
    requires IsWrite(log[k]) && log[k].clientId == log[i].clientId && log[k].msgId != log[i].msgId
    ensures k < l <= j && AppliedAt(log, l) && !FirstAt(log, l)
    decreases j
  {
    var q := log[..j];
    var p := LastWrite(q, log[j].clientId);
    assert q[k] == log[k];
    assert p >= k && q[p] == log[p];
    if log[p].msgId == log[i].msgId {
      l := LateRetryApplied(log, i, k, p);
    } else {
      AppliedIff(log, j);
      l := j;
    }
  }

  /** The filter applies exactly the first occurrences if and only if no repetition comes too late. */
  lemma FilterIsExact(log: seq<Op>)
    ensures NoLateRetry(log) <==> forall i :: 0 <= i < |log| ==> (AppliedAt(log, i) <==> FirstAt(log, i))
  {
    if NoLateRetry(log) {
      forall i | 0 <= i < |log|
        ensures AppliedAt(log, i) <==> FirstAt(log, i)
      {
        if FirstAt(log, i) {
          FirstIsApplied(log, i);
        }
        if AppliedAt(log, i) {
          AppliedIsFirst(log, i);
        }
      }
    } else {
      var i, k, j :| 0 <= i < k < j < |log| && SameWrite(log[i], log[j]) && SameWriter(log[i], log[k]) &&
        !SameWrite(log[i], log[k]);
      var l := LateRetryApplied(log, i, k, j);
      assert AppliedAt(log, l) && !FirstAt(log, l);
    }
  }

  /** Without late repetitions, the data is that of applying each write once. */
  lemma {:induction false} AppliesOnce(log: seq<Op>)
    requires NoLateRetry(log)
    ensures Run(Empty, log).data == Once(log)
  {
    if log != [] {
      var n := |log| - 1;
      assert forall i :: 0 <= i < n ==> log[..n][i] == log[i];
      AppliesOnce(log[..n]);
      FilterIsExact(log);
      assert AppliedAt(log, n) <==> FirstAt(log, n);
    }
  }

  /** A late repetition does change the data. */
  lemma LateRetryIsAppliedAgain() returns (log: seq<Op>)
    ensures Run(Empty, log).data != Once(log)
  {
    var (a, b) := (Op(Append, "k", "x", 1, 1), Op(Append, "k", "y", 1, 2));
    var (l1, l2) := ([a], [a, b]);
    log := [a, b, a];
    assert log[..|log| - 1] == l2 && l2[..|l2| - 1] == l1 && l1[..|l1| - 1] == [];
    assert FirstAt(l1, 0) && FirstAt(l2, 1) && SameWrite(log[0], log[2]) && !FirstAt(log, 2);
    assert Once(l1) == Write(map[], a) && Once(log) == Once(l2) == Write(Once(l1), b);
    assert Lookup(Once(log), "k") == "" + "x" + "y";
    assert Run(Empty, l1) == State(Write(map[], a), map[1 := 1]);
    assert Run(Empty, l2) == State(Once(l2), map[1 := 2]);
    assert Lookup(Run(Empty, log).data, "k") == Lookup(Once(log), "k") + "x";
  }

  // The server serves the store against which histories are checked

  /** The operation as the key/value model sees it. */
  function InputOf(op: Op): KvInput {
    KvInput(match op.kind case Get => 0 case Put => 1 case Append => 2, op.key, op.value)
  }

  /** The entry at `i` takes effect: it reads, or it is a write that gets past the filter. */
  ghost predicate Effective(log: seq<Op>, i: nat)
    requires i < |log|
  {
    log[i].kind.Get? || AppliedAt(log, i)
  }

  /** The operations that take effect, in the order of the log, with the values that the server answers. */
  ghost function Served(log: seq<Op>): seq<KvOperation> {
    if log == [] then [] else
    Served(log[..|log| - 1]) + if Effective(log, |log| - 1) then [LastServed(log)] else []
  }

  /** One operation of the server is a step of the store. */
  lemma ServesStep(data: map<string, string>, op: Op)
    ensures StepStore(data, InputOf(op), KvOutput(Lookup(Write(data, op), op.key))) == (true, Write(data, op))
  {
  }

  /** The operation of the last entry. */
  ghost function LastServed(log: seq<Op>): KvOperation
    requires log != []
  {
    var (n, op) := (|log| - 1, log[|log| - 1]);
    Operation(op.clientId, InputOf(op), 2 * n, KvOutput(Lookup(Run(Empty, log).data, op.key)), 2 * n + 1)
  }

  /** The operations follow each other, and all are over before `end`. */
  ghost predicate OneAfterTheOther(s: seq<KvOperation>, end: int) {
    && (forall x :: 0 <= x < |s| ==> s[x].call < s[x].ret < end)
    && (forall x, y :: 0 <= x < y < |s| ==> s[x].ret < s[y].call)
  }

  lemma {:induction false} ServedTimes(log: seq<Op>)
    ensures OneAfterTheOther(Served(log), 2 * |log|)
  {
    if log != [] {
      var n := |log| - 1;
      ServedTimes(log[..n]);
      assert OneAfterTheOther(Served(log[..n]), 2 * n);
      assert Served(log) == Served(log[..n]) + if Effective(log, n) then [LastServed(log)] else [];
    }
  }

  /** Replaying one more operation. */
  lemma ReplaySnoc(ops: seq<KvOperation>, op: KvOperation, st: map<string, string>)
    requires Replay(StoreModel(), ops, Upto(|ops|)) == Some(st) && StepStore(st, op.input, op.output).0
    ensures Replay(StoreModel(), ops + [op], Upto(|ops| + 1)) == Some(StepStore(st, op.input, op.output).1)
  {
    var (all, p) := (ops + [op], Upto(|ops| + 1));
    assert p[..|p| - 1] == Upto(|ops|);
    SamePrefixReplay(StoreModel(), ops, all, Upto(|ops|));
  }

  lemma {:induction false} SamePrefixReplay<S, I, O>(m: Model<S, I, O>, a: seq<Operation<I, O>>,
      b: seq<Operation<I, O>>, p: seq<nat>)
    requires |a| <= |b| && b[..|a|] == a && InRange(a, p)
    ensures InRange(b, p) && Replay(m, b, p) == Replay(m, a, p)
  {
    if p != [] {
      SamePrefixReplay(m, a, b, p[..|p| - 1]);
      assert a[p[|p| - 1]] == b[p[|p| - 1]];
    }
  }

  lemma {:induction false} ServedReplay(log: seq<Op>)
    ensures Replay(StoreModel(), Served(log), Upto(|Served(log)|)) == Some(Run(Empty, log).data)
  {
    if log != [] {
      var n := |log| - 1;
      ServedReplay(log[..n]);
      if Effective(log, n) {
        var (before, s) := (Served(log[..n]), Served(log));
        var data := Run(Empty, log[..n]).data;
        ServesStep(data, log[n]);
        assert Run(Empty, log).data == Write(data, log[n]);
        ReplaySnoc(before, LastServed(log), data);
        assert s == before + [LastServed(log)];
      } else {
        assert Served(log) == Served(log[..n]) && Run(Empty, log) == Run(Empty, log[..n]);
      }
    }
  }

  /** For every log, what the server answers is linearizable against the store, in the order of the log. */
  lemma ServesStore(log: seq<Op>)
    ensures IsLinearization(StoreModel(), Served(log), Upto(|Served(log)|)) && Linearizable(StoreModel(), Served(log))
  {
    ServedReplay(log);
    ServedTimes(log);
    var (s, p) := (Served(log), Upto(|Served(log)|));
    forall i, j | 0 <= i < j < |p|
      ensures !(s[p[j]].ret < s[p[i]].call)
    {
      assert p[i] == i && p[j] == j && s[i].ret < s[j].call;
    }
  }

  // The value of a key

  /** The entry at `i` is a put to `k` that takes effect. */
  ghost predicate PutsAt(log: seq<Op>, k: string, i: nat)
    requires i < |log|
  {
    AppliedAt(log, i) && log[i].kind.Put? && log[i].key == k
  }

  /** The values appended to `k` from `i` up to `n`, one after the other. */
  ghost function Appended(log: seq<Op>, k: string, i: nat, n: nat): string
    requires n <= |log|
  {
    if n <= i then "" else
    var op := log[n - 1];
    Appended(log, k, i, n - 1) + if AppliedAt(log, n - 1) && op.kind.Append? && op.key == k then op.value else ""
  }

  /** The value put by the last put to `k` before `n`, followed by everything appended since. */
  ghost function ValueAt(log: seq<Op>, k: string, n: nat, i: nat): string
    requires i <= n <= |log|
  {
    if i == 0 then Appended(log, k, 0, n)
    else if PutsAt(log, k, i - 1) then log[i - 1].value + Appended(log, k, i, n)
    else ValueAt(log, k, n, i - 1)
  }

  /** One more entry at the end. */
  lemma {:induction false} ValueGrows(log: seq<Op>, k: string, n: nat, i: nat)
    requires i <= n < |log| && !PutsAt(log, k, n)
    ensures var op := log[n];
            ValueAt(log, k, n + 1, i) ==
              ValueAt(log, k, n, i) + if AppliedAt(log, n) && op.kind.Append? && op.key == k then op.value else ""
  {
    if i > 0 && !PutsAt(log, k, i - 1) {
      ValueGrows(log, k, n, i - 1);
    }
  }

  /** The value of a key is that of its last put, followed by everything appended since. */
  lemma {:induction false} ValueIs(log: seq<Op>, k: string, n: nat)
    requires n <= |log|
    ensures Lookup(Run(Empty, log[..n]).data, k) == ValueAt(log, k, n, n)
  {
    if n > 0 {
      var (q, op) := (log[..n], log[n - 1]);
      assert q[..n - 1] == log[..n - 1];
      ValueIs(log, k, n - 1);
      if PutsAt(log, k, n - 1) {
        assert ValueAt(log, k, n, n) == op.value + Appended(log, k, n, n);
      } else {
        ValueGrows(log, k, n - 1, n - 1);
      }
    }
  }

  /** Runs can be cut anywhere. */
  lemma {:induction false} RunCut(s: State, a: seq<Op>, b: seq<Op>)
    ensures Run(s, a + b) == Run(Run(s, a), b)
    decreases |b|
  {
    if b == [] {
      assert a + b == a;
    } else {
      var n := |b| - 1;
      RunCut(s, a, b[..n]);
      assert (a + b)[..|a + b| - 1] == a + b[..n];
    }
  }

  /** A snapshot: what `saveSnapshot` encodes, and how far the log had been applied. */
  datatype Snapshot = Snapshot(state: State, index: nat)

  class KVServer {
    var data: map<string, string>
    var lastApplied: map<int, int>
    var snapshot: Snapshot
    ghost var applied: seq<Op>      // the part of the committed log that has been applied

    ghost function Current(): State
      reads this
    {
      State(data, lastApplied)
    }

    /** The server and its snapshot are what the log makes of the empty store. */
    ghost predicate Valid()
      reads this
    {
      && Current() == Run(Empty, applied)
      && snapshot.index <= |applied| && snapshot.state == Run(Empty, applied[..snapshot.index])
    }

    constructor ()
      ensures Valid() && applied == []
    {
      data, lastApplied, snapshot, applied := map[], map[], Snapshot(Empty, 0), [];
    }

    method CheckApplied(msgId: int, clientId: int) returns (repeat: bool)
      ensures repeat == (clientId in lastApplied && lastApplied[clientId] == msgId)
    {
      repeat := false;
      if clientId in lastApplied {
        repeat := msgId == lastApplied[clientId];
      }
    }

    /** Applies one committed operation, and saves a snapshot if the log has become too long. */
    method ApplyOp(op: Op, index: nat, tooLong: bool) returns (value: string)
      requires Valid() && index == |applied| + 1
      modifies this
      ensures Valid() && applied == old(applied) + [op] && Current() == Apply(old(Current()), op)
      ensures value == Lookup(data, op.key)
      ensures snapshot == if tooLong then Snapshot(Current(), |applied|) else old(snapshot)
    {
      var repeat := CheckApplied(op.msgId, op.clientId);
      if !repeat && op.kind == Put {
        data := data[op.key := op.value];
        lastApplied := lastApplied[op.clientId := op.msgId];
      } else if !repeat && op.kind == Append {
        var v := if op.key in data then data[op.key] else "";
        data := data[op.key := v + op.value];
        lastApplied := lastApplied[op.clientId := op.msgId];
      }
      assert Current() == Apply(old(Current()), op);
      applied := applied + [op];
      assert applied[..|applied| - 1] == old(applied);
      assert applied[..old(snapshot).index] == old(applied)[..old(snapshot).index];
      assert Current() == Run(Empty, applied);
      if tooLong {
        SaveSnapshot(index);
      }
      value := if op.key in data then data[op.key] else "";
    }

    method SaveSnapshot(index: nat)
      requires Current() == Run(Empty, applied) && index == |applied|
      modifies this`snapshot
      ensures Valid() && snapshot == Snapshot(Current(), index)
    {
      snapshot := Snapshot(State(data, lastApplied), index);
      assert applied[..|applied|] == applied;
    }

    method ReadSnapshot()
      requires Valid()
      modifies this
      ensures Valid() && snapshot == old(snapshot) && snapshot.index <= |old(applied)| &&
        applied == old(applied)[..snapshot.index]
    {
      data, lastApplied := snapshot.state.data, snapshot.state.lastApplied;
      applied := applied[..snapshot.index];
      assert applied[..snapshot.index] == applied;
    }

    /** Applies the rest of a committed log, of which the server has applied a beginning. */
    method WaitApplyCh(log: seq<Op>, from: nat, tooLong: nat -> bool)
      requires Valid() && from == |applied| <= |log| && applied == log[..from]
      modifies this
      ensures Valid() && applied == log && Current() == Run(Empty, log)
    {
      for i := from to |log|
        invariant Valid() && applied == log[..i]
      {
        var _ := ApplyOp(log[i], i + 1, tooLong(i));
      }
    }

    /** Cut the run anywhere, restore the last snapshot and go on from there: the state is the one of an
        uninterrupted run, and if no repetition comes too late, each write has been applied once. */
    method CrashAndRecover(log: seq<Op>, cut: nat, tooLong: nat -> bool)
      requires Valid() && applied == [] && cut <= |log|
      modifies this
      ensures Valid() && Current() == Run(Empty, log)
      ensures NoLateRetry(log) ==> data == Once(log)
    {
      WaitApplyCh(log[..cut], 0, tooLong);
      ReadSnapshot();
      assert applied == log[..snapshot.index];
      WaitApplyCh(log, snapshot.index, tooLong);
      if NoLateRetry(log) {
        AppliesOnce(log);
      }
    }
  }
}
