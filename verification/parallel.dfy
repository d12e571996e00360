/** Checking the partitions of a history concurrently: one worker per partition, a shared kill flag,
    and a main thread that collects results until it knows the verdict or runs out of time. */
module Parallel {
  import opened Collections
  import opened Linearizability
  import opened Entries
  import opened Search
  import opened Checker
  import opened Histories
  import opened Locality
  import opened KeyValue
  import Events

  datatype Verdict = Unknown | Ok | Illegal

  type Longest = seq<Option<seq<nat>>>

  /** What a worker may answer about `h`, given whether the kill flag was up by the time it answered. */
  ghost predicate MayAnswer<S, I, O>(m: Model<S, I, O>, h: seq<Entry<I, O>>, computeInfo: bool, killed: bool, ok: bool,
      longest: Longest)
    requires WellFormed(h)
  {
    && SoundRecords(m, OperationsOf(h), longest)
    && (ok ==> Linearizable(m, OperationsOf(h)) && CompleteRecords(m, OperationsOf(h), longest))
    && (!ok && !computeInfo ==> NoRecords(longest))
    && (!ok && !killed ==>
          !Linearizable(m, OperationsOf(h)) && (computeInfo ==> LongestPerOperation(m, OperationsOf(h), longest)))
  }

  /** The body of a worker. */
  method RunWorker<S(!new), I(!new), O(!new)>(m: Model<S, I, O>, h: seq<Entry<I, O>>, computeInfo: bool,
      kill: nat -> bool)
    returns (ok: bool, longest: Longest)
    requires WellFormed(h) && EqualIsCongruence(m)
    ensures MayAnswer(m, h, computeInfo, exists t :: kill(t), ok, longest)
  {
    ok, longest := CheckSingle(m, h, computeInfo, kill);
  }

  datatype Worker =
    | Running
    | Sent(ok: bool, longest: Longest)      // the result is in the channel
    | Counted(ok: bool, longest: Longest)   // taken from the channel by the main loop
    | Drained(ok: bool, longest: Longest)   // taken after the loop, only to wait for the worker

  datatype Phase = Looping | Waiting | Done(verdict: Verdict)

  datatype State = State(workers: seq<Worker>, kill: bool, ok: bool, timedOut: bool, count: nat, phase: Phase)

  datatype Event =
    | Finish(worker: nat, ok: bool, longest: Longest)
    | Receive(worker: nat)
    | Timeout
    | Drain(worker: nat)
    | Decide

  /** The arguments of a check. */
  datatype Job<!S, !I, !O> = Job(m: Model<S, I, O>, histories: seq<seq<Entry<I, O>>>, computeInfo: bool,
    timeout: bool) {
    ghost predicate Valid() {
      forall i :: 0 <= i < |histories| ==> WellFormed(histories[i])
    }

    ghost predicate Fits(i: nat)
      requires Valid() && i < |histories|
    {
      Linearizable(m, OperationsOf(histories[i]))
    }

    ghost predicate AllFit()
      requires Valid()
    {
      forall i :: 0 <= i < |histories| ==> Fits(i)
    }

    ghost function Initial(): State {
      State(seq(|histories|, _ => Running), false, true, false, 0, Looping)
    }

    ghost predicate Enabled(s: State, e: Event)
      requires Valid() && |s.workers| == |histories|
    {
      match e
      case Finish(i, ok, longest) =>
        i < |histories| && s.workers[i].Running? && MayAnswer(m, histories[i], computeInfo, s.kill, ok, longest)
      case Receive(i) => s.phase.Looping? && i < |histories| && s.workers[i].Sent?
      case Timeout => s.phase.Looping? && timeout
      case Drain(i) => s.phase.Waiting? && computeInfo && i < |histories| && s.workers[i].Sent?
      case Decide => s.phase.Waiting? && (!computeInfo || s.count >= |histories|)
    }

    ghost function After(s: State, e: Event): (t: State)
      requires Valid() && |s.workers| == |histories| && Enabled(s, e)
      ensures |t.workers| == |histories|
    {
      match e
      case Finish(i, ok, longest) => s.(workers := s.workers[i := Sent(ok, longest)])
      case Receive(i) =>
        var (r, count) := (s.workers[i], s.count + 1);
        var t := s.(workers := s.workers[i := Counted(r.ok, r.longest)], count := count, ok := s.ok && r.ok);
        if !t.ok && !computeInfo then t.(kill := true, phase := Waiting)
        else if count >= |histories| then t.(phase := Waiting)
        else t
      case Timeout => s.(timedOut := true, kill := true, phase := Waiting)
      case Drain(i) =>
        var r := s.workers[i];
        s.(workers := s.workers[i := Drained(r.ok, r.longest)], count := s.count + 1)
      case Decide =>
        s.(phase := Done(if !s.ok then Illegal else if s.timedOut then Unknown else Ok))
    }

    /** `run` lists the states of an execution from the initial state. */
    ghost predicate IsRun(run: seq<State>)
      requires Valid()
    {
      && run != [] && run[0] == Initial()
      && (forall k :: 0 <= k < |run| ==> |run[k].workers| == |histories|)
      && (forall k, l :: 0 <= k < |run| && 0 <= l < |run| && l == k + 1 ==> StepsTo(run[k], run[l]))
    }

    ghost predicate StepsTo(s: State, t: State)
      requires Valid() && |s.workers| == |histories|
    {
      exists e :: Enabled(s, e) && t == After(s, e)
    }

    /** An answer that no kill has spoilt. */
    ghost predicate Exact(i: nat, w: Worker)
      requires Valid() && i < |histories|
    {
      && (w.Sent? || w.Counted? ==> w.ok == Fits(i))
      && (computeInfo && (w.Sent? || w.Counted?) && !w.ok ==>
        LongestPerOperation(m, OperationsOf(histories[i]), w.longest))
      && ((w.Sent? || w.Counted?) && w.ok ==> CompleteRecords(m, OperationsOf(histories[i]), w.longest))
    }

    ghost predicate AnswersInv(s: State)
      requires Valid()
    {
      && |s.workers| == |histories|
      && (forall i :: 0 <= i < |histories| ==>
            s.workers[i].Running? || SoundRecords(m, OperationsOf(histories[i]), s.workers[i].longest))
      && (forall i :: 0 <= i < |histories| && (!s.kill || s.workers[i].Counted?) ==> Exact(i, s.workers[i]))
    }

    ghost predicate CountsInv(s: State) {
      && |s.workers| == |histories| && s.count == |Taken(s.workers)|
      && (s.ok <==> forall i :: 0 <= i < |histories| && s.workers[i].Counted? ==> s.workers[i].ok)
      && (s.phase.Looping? ==> forall i :: 0 <= i < |histories| ==> !s.workers[i].Drained?)
      && (!s.phase.Looping? && (s.ok || computeInfo) && !s.timedOut ==> forall i :: 0 <= i < |histories| ==>
        s.workers[i].Counted?)
    }

    ghost predicate PhaseInv(s: State) {
      && (s.phase.Looping? ==> !s.kill && !s.timedOut && (|histories| > 0 ==> s.count < |histories|))
      && (s.phase.Done? ==> s.phase.verdict == if !s.ok then Illegal else if s.timedOut then Unknown else Ok)
      && (s.phase.Done? && computeInfo ==> s.count >= |histories|)
      && (s.timedOut ==> timeout)
    }

    ghost predicate Inv(s: State)
      requires Valid()
    {
      AnswersInv(s) && CountsInv(s) && PhaseInv(s)
    }
  }

  /** The workers whose results have been taken from the channel. */
  ghost function Taken(workers: seq<Worker>): set<nat> {
    set i: nat | i < |workers| && (workers[i].Counted? || workers[i].Drained?)
  }

  lemma Takes(workers: seq<Worker>, i: nat, w: Worker)
    requires i < |workers| && workers[i].Sent? && (w.Counted? || w.Drained?)
    ensures |Taken(workers[i := w])| == |Taken(workers)| + 1
  {
    assert Taken(workers[i := w]) == Taken(workers) + {i};
  }

  lemma AllTaken(workers: seq<Worker>)
    requires |Taken(workers)| >= |workers|
    ensures forall i :: 0 <= i < |workers| ==> workers[i].Counted? || workers[i].Drained?
  {
    ElemsBound(|workers|, Taken(workers));
    forall i | 0 <= i < |workers|
      ensures workers[i].Counted? || workers[i].Drained?
    {
      assert i in Taken(workers);
    }
  }

  lemma EveryoneTaken(workers: seq<Worker>)
    ensures (forall i :: 0 <= i < |workers| ==> workers[i].Counted? || workers[i].Drained?) ==>
      |Taken(workers)| == |workers|
  {
    if forall i :: 0 <= i < |workers| ==> workers[i].Counted? || workers[i].Drained? {
      assert Taken(workers) == Below(|workers|);
    }
  }

  lemma InvAtFirst<S, I, O>(job: Job<S, I, O>)
    requires job.Valid()
    ensures job.Inv(job.Initial())
  {
    assert Taken(job.Initial().workers) == {};
  }

  lemma AnswersStep<S, I, O>(job: Job<S, I, O>, s: State, e: Event)
    requires job.Valid() && job.AnswersInv(s) && job.PhaseInv(s) && job.Enabled(s, e)
    ensures job.AnswersInv(job.After(s, e))
  {
    var t := job.After(s, e);
    forall i | 0 <= i < |job.histories|
      ensures t.workers[i].Running? || SoundRecords(job.m, OperationsOf(job.histories[i]), t.workers[i].longest)
      ensures !t.kill || t.workers[i].Counted? ==> job.Exact(i, t.workers[i])
    {
      assert !s.kill || s.workers[i].Counted? ==> job.Exact(i, s.workers[i]);
    }
  }

  lemma CountsStep<S, I, O>(job: Job<S, I, O>, s: State, e: Event)
    requires job.Valid() && job.CountsInv(s) && job.PhaseInv(s) && job.Enabled(s, e)
    ensures job.CountsInv(job.After(s, e)) && job.PhaseInv(job.After(s, e))
  {
    var t := job.After(s, e);
    if !s.ok {
      var j :| 0 <= j < |job.histories| && s.workers[j].Counted? && !s.workers[j].ok;
      assert t.workers[j] == s.workers[j];
    }
    match e
    case Finish(i, ok, longest) =>
      assert Taken(t.workers) == Taken(s.workers);
    case Receive(i) =>
      Takes(s.workers, i, t.workers[i]);
      if t.count >= |job.histories| {
        AllTaken(t.workers);
      }
    case Timeout =>
    case Drain(i) =>
      Takes(s.workers, i, t.workers[i]);
    case Decide =>
  }

  lemma {:induction false} RunsKeepInv<S, I, O>(job: Job<S, I, O>, run: seq<State>, k: nat)
    requires job.Valid() && job.IsRun(run) && k < |run|
    ensures job.Inv(run[k])
  {
    if k == 0 {
      InvAtFirst(job);
    } else {
      RunsKeepInv(job, run, k - 1);
      assert job.StepsTo(run[k - 1], run[k]);
      var e :| job.Enabled(run[k - 1], e) && run[k] == job.After(run[k - 1], e);
      AnswersStep(job, run[k - 1], e);
      CountsStep(job, run[k - 1], e);
    }
  }

  /** In every run, under every interleaving: `Illegal` only if some partition is not linearizable, `Ok`
      only if all are, `Unknown` only after a timeout; without one the verdict is exact. */
  lemma VerdictIsRight<S, I, O>(job: Job<S, I, O>, run: seq<State>, k: nat)
    requires job.Valid() && job.IsRun(run) && k < |run| && run[k].phase.Done?
    ensures var v := run[k].phase.verdict;
            && (v == Illegal ==> !job.AllFit())
            && (v == Ok ==> job.AllFit())
            && (v == Unknown ==> run[k].timedOut && job.timeout)
            && (!run[k].timedOut ==> v == if job.AllFit() then Ok else Illegal)
  {
    RunsKeepInv(job, run, k);
    var s := run[k];
    if !s.ok {
      var i :| 0 <= i < |job.histories| && s.workers[i].Counted? && !s.workers[i].ok;
      assert job.Exact(i, s.workers[i]);
    } else if !s.timedOut {
      forall i | 0 <= i < |job.histories|
        ensures job.Fits(i)
      {
        assert job.Exact(i, s.workers[i]);
      }
    }
  }

  /** When information is asked for, the main thread reads the recorded sequences only after every
      worker has answered, and what it reads replays without a rejected step. */
  lemma InfoIsComplete<S, I, O>(job: Job<S, I, O>, run: seq<State>, k: nat, i: nat)
    requires job.Valid() && job.IsRun(run) && k < |run| && run[k].phase.Done? && job.computeInfo && i < |job.histories|
    ensures run[k].workers[i].Counted? || run[k].workers[i].Drained?
    ensures SoundRecords(job.m, OperationsOf(job.histories[i]), run[k].workers[i].longest)
    ensures !run[k].timedOut && !job.Fits(i) ==>
      LongestPerOperation(job.m, OperationsOf(job.histories[i]), run[k].workers[i].longest)
    ensures !run[k].timedOut && job.Fits(i) ==>
      CompleteRecords(job.m, OperationsOf(job.histories[i]), run[k].workers[i].longest)
  {
    RunsKeepInv(job, run, k);
    AllTaken(run[k].workers);
    assert run[k].workers[i].Counted? ==> job.Exact(i, run[k].workers[i]);
  }

  /** The distinct recorded sequences of a partition, in no particular order. */
  method Partials(longest: Longest) returns (partials: seq<seq<nat>>)
    ensures forall p :: p in partials <==> Some(p) in longest
    ensures forall i, j :: 0 <= i < j < |partials| ==> partials[i] != partials[j]
  {
    var unique: set<seq<nat>> := {};
    for x := 0 to |longest|
      invariant forall p :: p in unique <==> Some(p) in longest[..x]
    {
      assert longest[..x + 1] == longest[..x] + [longest[x]];
      if longest[x].Some? {
        unique := unique + {longest[x].value};
      }
    }
    assert longest[..|longest|] == longest;
    partials := [];
    var left := unique;
    while left != {}
      invariant left <= unique && forall p :: p in partials <==> p in unique - left
      invariant forall i, j :: 0 <= i < j < |partials| ==> partials[i] != partials[j]
      decreases |left|
    {
      var p :| p in left;
      assert p !in partials;
      left := left - {p};
      partials := partials + [p];
    }
  }

  ghost function Weight(w: Worker): nat {
    match w
    case Running => 2
    case Sent(_, _) => 1
    case _ => 0
  }

  ghost function TotalWeight(workers: seq<Worker>): nat {
    if workers == [] then 0 else TotalWeight(workers[..|workers| - 1]) + Weight(workers[|workers| - 1])
  }

  /** How much is left to do: an upper bound on the length of the rest of the run. */
  ghost function Remaining(s: State): nat {
    TotalWeight(s.workers) + match s.phase case Looping => 2 case Waiting => 1 case Done(_) => 0
  }

  lemma {:induction false} WeightDrops(workers: seq<Worker>, i: nat, w: Worker)
    requires i < |workers|
    ensures TotalWeight(workers[i := w]) == TotalWeight(workers) - Weight(workers[i]) + Weight(w)
  {
    var n := |workers| - 1;
    if i < n {
      WeightDrops(workers[..n], i, w);
      assert workers[i := w][..n] == workers[..n][i := w];
    } else {
      assert workers[i := w][..n] == workers[..n];
    }
  }

  /** Every step leaves less to do, so every run ends. */
  lemma StepsEnd<S, I, O>(job: Job<S, I, O>, s: State, e: Event)
    requires job.Valid() && |s.workers| == |job.histories| && job.Enabled(s, e)
    ensures Remaining(job.After(s, e)) < Remaining(s)
  {
    match e
    case Finish(i, ok, longest) => WeightDrops(s.workers, i, Sent(ok, longest));
    case Receive(i) => WeightDrops(s.workers, i, Counted(s.workers[i].ok, s.workers[i].longest));
    case Drain(i) => WeightDrops(s.workers, i, Drained(s.workers[i].ok, s.workers[i].longest));
    case Timeout =>
    case Decide =>
  }

  /** The length of a longest partial linearization with `x`, if there is one of at most `len` operations. */
  ghost function LongestWith<S, I, O>(m: Model<S, I, O>, ops: seq<Operation<I, O>>, x: nat, len: nat): Option<seq<nat>>
  {
    if p :| IsPartial(m, ops, p) && x in p && |p| == len then Some(p)
    else if len == 0 then None
    else LongestWith(m, ops, x, len - 1)
  }

  lemma {:induction false} LongestWithIsLongest<S, I, O>(m: Model<S, I, O>, ops: seq<Operation<I, O>>, x: nat, len: nat)
    ensures var l := LongestWith(m, ops, x, len); l.Some? ==> IsPartial(m, ops, l.value) && x in l.value
    ensures forall p :: IsPartial(m, ops, p) && x in p && |p| <= len ==>
      LongestWith(m, ops, x, len).Some? && |p| <= |LongestWith(m, ops, x, len).value|
  {
    if len > 0 {
      LongestWithIsLongest(m, ops, x, len - 1);
    }
  }

  /** Whatever the history, there is an answer that a worker may give. */
  lemma AnswerExists<S, I, O>(m: Model<S, I, O>, h: seq<Entry<I, O>>, computeInfo: bool, killed: bool)
    returns (ok: bool, longest: Longest)
    requires WellFormed(h)
    ensures MayAnswer(m, h, computeInfo, killed, ok, longest)
  {
    var ops := OperationsOf(h);
    ok := Linearizable(m, ops);
    if ok {
      longest := AllComplete(m, h);
    } else if computeInfo {
      longest := AllLongest(m, ops);
    } else {
      longest := seq(|ops|, _ => None);
    }
  }

  lemma AllComplete<S, I, O>(m: Model<S, I, O>, h: seq<Entry<I, O>>) returns (longest: Longest)
    requires WellFormed(h) && Linearizable(m, OperationsOf(h))
    ensures SoundRecords(m, OperationsOf(h), longest) && CompleteRecords(m, OperationsOf(h), longest)
  {
    var ops := OperationsOf(h);
    var p :| IsLinearization(m, ops, p);
    forall x | 0 <= x < |ops|
      ensures ops[x].call <= ops[x].ret
    {
      OperationEntries(h, x);
    }
    CompleteIffPartial(m, ops, p);
    AllIn(|ops|, p);
    longest := seq(|ops|, _ => Some(p));
  }

  lemma AllLongest<S, I, O>(m: Model<S, I, O>, ops: seq<Operation<I, O>>) returns (longest: Longest)
    ensures LongestPerOperation(m, ops, longest)
  {
    longest := seq(|ops|, x requires 0 <= x < |ops| => LongestWith(m, ops, x, |ops|));
    forall x | 0 <= x < |ops|
      ensures longest[x].Some? ==> IsPartial(m, ops, longest[x].value) && x in longest[x].value
      ensures forall p :: IsPartial(m, ops, p) && x in p ==> longest[x].Some? && |p| <= |longest[x].value|
    {
      LongestWithIsLongest(m, ops, x, |ops|);
      forall p | IsPartial(m, ops, p)
        ensures |p| <= |ops|
      {
        DistinctElems(p);
        ElemsBound(|ops|, Elems(p));
      }
    }
  }

  /** With at least one partition a check is never stuck: until it is done, a worker can answer or the main
      thread can move. */
  lemma NeverStuck<S, I, O>(job: Job<S, I, O>, run: seq<State>, k: nat) returns (e: Event)
    requires job.Valid() && job.IsRun(run) && k < |run| && |job.histories| > 0 && !run[k].phase.Done?
    ensures job.Enabled(run[k], e)
  {
    RunsKeepInv(job, run, k);
    var s := run[k];
    if exists i :: 0 <= i < |job.histories| && s.workers[i].Running? {
      var i :| 0 <= i < |job.histories| && s.workers[i].Running?;
      var ok, longest := AnswerExists(job.m, job.histories[i], job.computeInfo, s.kill);
      e := Finish(i, ok, longest);
    } else if s.phase.Waiting? && (!job.computeInfo || s.count >= |job.histories|) {
      e := Decide;
    } else {
      EveryoneTaken(s.workers);
      var i :| 0 <= i < |job.histories| && s.workers[i].Sent?;
      e := if s.phase.Looping? then Receive(i) else Drain(i);
    }
  }

  /** Without partitions and without a timeout, the main loop waits for ever. */
  lemma NothingToCheckHangs<S, I, O>(job: Job<S, I, O>, run: seq<State>)
    requires job.Valid() && job.histories == [] && !job.timeout && job.IsRun(run)
    ensures |run| == 1 && run[0].phase.Looping? && forall e :: !job.Enabled(run[0], e)
  {
    assert forall e :: !job.Enabled(run[0], e);
    assert !(|run| > 1 && job.StepsTo(run[0], run[1]));
  }

  /** Nothing is left to do at step `k`, or something can happen. */
  ghost predicate DoneOrMoves<S(!new), I(!new), O(!new)>(job: Job<S, I, O>, run: seq<State>, k: nat)
    requires job.Valid() && job.IsRun(run) && k < |run|
  {
    run[k].phase.Done? || exists e :: job.Enabled(run[k], e)
  }

  /** A check runs on to its verdict in every run exactly if there is a partition or a timeout. */
  lemma MovesIff<S(!new), I(!new), O(!new)>(job: Job<S, I, O>)
    requires job.Valid()
    ensures job.histories != [] || job.timeout <==>
            forall run: seq<State>, k: nat :: job.IsRun(run) && k < |run| ==> DoneOrMoves(job, run, k)
  {
    if job.histories != [] || job.timeout {
      forall run: seq<State>, k: nat | job.IsRun(run) && k < |run|
        ensures DoneOrMoves(job, run, k)
      {
        if !run[k].phase.Done? && job.histories != [] {
          var e := NeverStuck(job, run, k);
        } else if !run[k].phase.Done? {
          assert job.Enabled(run[k], if run[k].phase.Looping? then Timeout else Decide);
        }
      }
    } else {
      var run := [job.Initial()];
      assert job.IsRun(run);
      NothingToCheckHangs(job, run);
      assert !DoneOrMoves(job, run, 0);
    }
  }

  // Checking a whole key/value history.

  lemma GroupStamped(history: seq<KvOperation>, k: string)
    requires Stamped(history)
    ensures Stamped(Group(history, Key, |history|, k))
  {
  }

  /** A check of the operations of a key/value store: the history is partitioned by key, each group is
      turned into entries, and the entries are checked concurrently. */
  ghost predicate ChecksOperations(job: Job<string, KvInput, KvOutput>, history: seq<KvOperation>, keys: seq<string>,
      groups: seq<seq<KvOperation>>)
  {
    && job.m == KvModel() && Partitions(history, keys, groups) && |job.histories| == |groups|
    && (forall i :: 0 <= i < |groups| ==> SortedEntries(groups[i], job.histories[i]))
  }

  method PrepareOperations(history: seq<KvOperation>, computeInfo: bool, timeout: bool)
    returns (l: seq<seq<Entry<KvInput, KvOutput>>>, keys: seq<string>, groups: seq<seq<KvOperation>>)
    ensures ChecksOperations(Job(KvModel(), l, computeInfo, timeout), history, keys, groups)
  {
    groups, keys := Partition(history);
    l := EntriesOfAll(groups);
  }

  method EntriesOfAll<I(!new), O(!new)>(groups: seq<seq<Operation<I, O>>>) returns (l: seq<seq<Entry<I, O>>>)
    ensures |l| == |groups| && forall i :: 0 <= i < |groups| ==> SortedEntries(groups[i], l[i])
  {
    l := [];
    for i := 0 to |groups|
      invariant |l| == i && forall j :: 0 <= j < i ==> SortedEntries(groups[j], l[j])
    {
      var entries := MakeEntries(groups[i]);
      l := l + [entries];
    }
  }

  /** Only an empty history leaves nothing to check. */
  lemma NothingToCheckIff(job: Job<string, KvInput, KvOutput>, history: seq<KvOperation>, keys: seq<string>,
      groups: seq<seq<KvOperation>>)
    requires ChecksOperations(job, history, keys, groups)
    ensures job.histories == [] <==> history == []
  {
    if history != [] {
      assert history[0].input.key in keys;
    } else if keys != [] {
      NoGroup(history, keys[0]);
      assert false;
    }
  }

  lemma GroupsFaithful(job: Job<string, KvInput, KvOutput>, history: seq<KvOperation>, keys: seq<string>,
      groups: seq<seq<KvOperation>>)
    requires Stamped(history) && ChecksOperations(job, history, keys, groups)
    ensures job.Valid() && (job.AllFit() <==> Linearizable(StoreModel(), history))
  {
    PartitionDecides(history, keys, groups);
    forall i | 0 <= i < |groups|
      ensures WellFormed(job.histories[i])
      ensures Linearizable(job.m, OperationsOf(job.histories[i])) <==> Linearizable(KvModel(), groups[i])
    {
      GroupStamped(history, keys[i]);
      EntriesFaithful(KvModel(), groups[i], job.histories[i]);
    }
    assert job.Valid();
    assert forall i :: 0 <= i < |groups| ==> (job.Fits(i) <==> Linearizable(KvModel(), groups[i]));
  }

  /** A check that does not time out decides whether the whole store is linearizable, and one that does
      never gives a wrong verdict. */
  lemma CheckDecidesStore(job: Job<string, KvInput, KvOutput>, history: seq<KvOperation>, keys: seq<string>,
      groups: seq<seq<KvOperation>>, run: seq<State>, k: nat)
    requires Stamped(history) && ChecksOperations(job, history, keys, groups)
    requires job.Valid() && job.IsRun(run) && k < |run| && run[k].phase.Done?
    ensures !run[k].timedOut ==> run[k].phase.verdict == if Linearizable(StoreModel(), history) then Ok else Illegal
    ensures run[k].phase.verdict == Ok ==> Linearizable(StoreModel(), history)
    ensures run[k].phase.verdict == Illegal ==> !Linearizable(StoreModel(), history)
    ensures run[k].phase.verdict == Unknown ==> run[k].timedOut
    ensures history != [] ==> |job.histories| > 0
  {
    NothingToCheckIff(job, history, keys, groups);
    GroupsFaithful(job, history, keys, groups);
    VerdictIsRight(job, run, k);
  }

  // Checking a history of events, which is not partitioned.

  method PrepareEvents<I, O>(history: seq<Events.Event<I, O>>)
    returns (l: seq<seq<Entry<I, O>>>, e: seq<Events.Event<I, O>>, n: nat)
    ensures Events.Renamed(history, e, n) && Events.InOrder(history, e, n) && l == [Events.Converted(e)]
  {
    e, n := Events.Renumber(history);
    var entries := Events.ConvertEntries(e);
    l := [entries];
  }

  /** A check of paired events decides whether the operations of the events are linearizable. */
  lemma CheckDecidesEvents<S, I, O>(job: Job<S, I, O>, history: seq<Events.Event<I, O>>, e: seq<Events.Event<I, O>>,
      n: nat, run: seq<State>, k: nat)
    requires Events.Paired(history) && Events.Renamed(history, e, n) && Events.InOrder(history, e, n)
    requires job.histories == [Events.Converted(e)]
    requires job.Valid() && job.IsRun(run) && k < |run| && run[k].phase.Done?
    ensures var (v, fits) := (run[k].phase.verdict, Linearizable(job.m, Events.EventOperations(history)));
            && (!run[k].timedOut ==> v == if fits then Ok else Illegal)
            && (v == Ok ==> fits) && (v == Illegal ==> !fits) && (v == Unknown ==> run[k].timedOut)
  {
    Events.SameOperations(history, e, n);
    VerdictIsRight(job, run, k);
    assert job.AllFit() <==> job.Fits(0);
  }

  // Why no call may carry the time stamp of a return: a get that starts when a put returns.

  ghost function Tied(): seq<KvOperation> {
    [Operation(0, KvInput(1, "k", "a"), 0, KvOutput(""), 5), Operation(1, KvInput(0, "k", ""), 5, KvOutput(""), 9)]
  }

  /** A sorted order of its entries, which puts the return of the put before the call of the get. */
  ghost function TiedEntries(): seq<Entry<KvInput, KvOutput>> {
    [CallEntry(Tied(), 0), ReturnEntry(Tied(), 0), CallEntry(Tied(), 1), ReturnEntry(Tied(), 1)]
  }

  lemma TiedOperations()
    ensures WellFormed(TiedEntries()) && |OperationsOf(TiedEntries())| == 2
    ensures var ops := OperationsOf(TiedEntries());
            && ops[0].ret < ops[1].call
            && ops[0].input == Tied()[0].input && ops[1].input == Tied()[1].input && ops[1].output == Tied()[1].output
  {
    var h := TiedEntries();
    assert h[0].id == 0 && h[1].id == 0 && h[2].id == 1 && h[3].id == 1;
    EntryIsCallOrReturn(h, 0);
    EntryIsCallOrReturn(h, 1);
    EntryIsCallOrReturn(h, 2);
    EntryIsCallOrReturn(h, 3);
  }

  lemma TiedIsLinearizable()
    ensures Linearizable(KvModel(), Tied())
  {
    var p: seq<nat> := [1, 0];
    assert p[..1] == [1] && [1][..0] == [];
    assert Replay(KvModel(), Tied(), [1]) == Some("");
    assert Replay(KvModel(), Tied(), p) == Some("a");
    assert IsLinearization(KvModel(), Tied(), p);
  }

  /** A get after a put does not find the empty string. */
  lemma StaleGet(ops: seq<KvOperation>, p: seq<nat>)
    requires |ops| == 2 && ops[0].ret < ops[1].call
    requires ops[0].input == KvInput(1, "k", "a") && ops[1].input.op == 0 && ops[1].output == KvOutput("")
    ensures !IsLinearization(KvModel(), ops, p)
  {
    if InRange(ops, p) && Distinct(p) && |p| == 2 && p[0] == 0 {
      assert p[..1] == [0] && [0][..0] == [];
      assert Replay(KvModel(), ops, [0]) == Some("a");
      assert Replay(KvModel(), ops, p) == None;
    }
  }

  /** With such a tie the verdict depends on how the sort orders equal stamps. */
  lemma TiesMatter()
    ensures forall x :: 0 <= x < |Tied()| ==> Tied()[x].call < Tied()[x].ret
    ensures SortedEntries(Tied(), TiedEntries()) && WellFormed(TiedEntries())
    ensures Linearizable(KvModel(), Tied()) && !Linearizable(KvModel(), OperationsOf(TiedEntries()))
  {
    assert Unsorted(Tied()) == TiedEntries();
    TiedIsLinearizable();
    TiedOperations();
    forall p: seq<nat>
      ensures !IsLinearization(KvModel(), OperationsOf(TiedEntries()), p)
    {
      StaleGet(OperationsOf(TiedEntries()), p);
    }
  }
}
