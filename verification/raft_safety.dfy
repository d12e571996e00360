/** What holds in every run without snapshots: Log Matching, stable acknowledged prefixes, and
    progress of the fast back-up. */
module RaftSafety {
  import opened Collections
  import opened Hiding
  import opened RaftServer
  import opened RaftNetwork
  import opened RaftElection
  import opened RaftLog

  /** The leaders' logs after the first `k` steps of a run. */
  ghost function LogsOf(run: Run, n: nat, k: nat): Logs
    requires run.Valid(n) && k < |run.states|
  {
    if k == 0 then map[] else
    assert run.StepAt(k - 1);
    NewLogs(LogsOf(run, n, k - 1), run.states[k - 1].servers[run.events[k - 1].server], run.events[k - 1])
  }

  ghost predicate InvAt(run: Run, n: nat, k: nat)
    requires run.Valid(n) && k < |run.states|
  {
    forall u {:trigger Unfold(u)} :: Unfold(u) ==>
      && |run.states[k].servers| == n
      && ElectionInv(PastOf(run, n, k), run.states[k])
      && LogInv(PastOf(run, n, k), LogsOf(run, n, k), run.states[k])
  }

  lemma InitialInv(run: Run, n: nat)
    requires run.Valid(n)
    ensures InvAt(run, n, 0)
  {
    RunElectionInv(run, n, 0);
  }

  /** What the invariant says about one server. */
  lemma ServerAt(run: Run, n: nat, k: nat, i: nat)
    requires run.Valid(n) && k < |run.states| && i < |run.states[k].servers| && InvAt(run, n, k)
    ensures i < n && ServerLogInv(LogsOf(run, n, k), run.states[k].servers[i], n)
  {
    assert Unfold(true);
  }

  lemma InvParts(run: Run, n: nat, k: nat)
    requires run.Valid(n) && k < |run.states| && InvAt(run, n, k)
    ensures |run.states[k].servers| == n && ElectionInv(PastOf(run, n, k), run.states[k])
    ensures LogInv(PastOf(run, n, k), LogsOf(run, n, k), run.states[k])
  {
    assert Unfold(true);
  }

  lemma LeaderAt(run: Run, n: nat, k: nat, i: nat)
    requires run.Valid(n) && k < |run.states| && i < |run.states[k].servers| && InvAt(run, n, k)
    requires run.states[k].servers[i].role.Leader?
    ensures var (logs, s) := (LogsOf(run, n, k), run.states[k].servers[i]);
            s.me == i && s.term in logs && LeaderLogOk(logs, s.term)
  {
    assert Unfold(true);
    var s := run.states[k].servers[i];
    assert ServerLogInv(LogsOf(run, n, k), s, n) && ServerInv(PastOf(run, n, k), i, s, n);
  }

  /** What the invariant says about the next step. */
  lemma StepAt(run: Run, n: nat, k: nat)
    requires run.Valid(n) && run.SnapshotFree() && k + 1 < |run.states| && InvAt(run, n, k)
    ensures Enabled(run.states[k], run.events[k]) && |run.states[k].servers| == n
    ensures var (c, e, logs) := (run.states[k], run.events[k], LogsOf(run, n, k));
            var s := c.servers[e.server];
            && run.states[k + 1] == After(c, e) && LogsOf(run, n, k + 1) == NewLogs(logs, s, e)
            && s.me == e.server && EventOk(logs, s, e) && ServerLogInv(logs, s, n) &&
              (s.term in logs ==> LeaderLogOk(logs, s.term))
  {
    assert Unfold(true);
    assert run.StepAt(k);
    EventIsOk(PastOf(run, n, k), LogsOf(run, n, k), run.states[k], run.events[k]);
    var i := run.events[k].server;
    assert ServerLogInv(LogsOf(run, n, k), run.states[k].servers[i], n) &&
      ServerInv(PastOf(run, n, k), i, run.states[k].servers[i], n);
  }

  lemma InvNext(run: Run, n: nat, k: nat)
    requires run.Valid(n) && run.SnapshotFree() && k + 1 < |run.states| && InvAt(run, n, k)
    ensures InvAt(run, n, k + 1) && Grows(LogsOf(run, n, k), LogsOf(run, n, k + 1))
  {
    var (past, logs, c, e) := (PastOf(run, n, k), LogsOf(run, n, k), run.states[k], run.events[k]);
    var (past', more, c') := (PastOf(run, n, k + 1), LogsOf(run, n, k + 1), run.states[k + 1]);
    assert Steps(past, logs, c, e, more, c') && past' == NewPast(past, c.servers[e.server], e) by {
      assert Unfold(true);
      assert run.StepAt(k);
    }
    LogStep(past, logs, c, e, more, c');
    FoldInv(run, n, k + 1);
  }

  lemma FoldInv(run: Run, n: nat, k: nat)
    requires run.Valid(n) && k < |run.states| && LogInv(PastOf(run, n, k), LogsOf(run, n, k), run.states[k])
    ensures InvAt(run, n, k)
  {
    RunElectionInv(run, n, k);
  }

  lemma GrowsNext(run: Run, n: nat, k: nat)
    requires run.Valid(n) && run.SnapshotFree() && k + 1 < |run.states|
    ensures Grows(LogsOf(run, n, k), LogsOf(run, n, k + 1))
  {
    RunInv(run, n, k);
    InvNext(run, n, k);
  }

  lemma {:induction false} RunInv(run: Run, n: nat, k: nat)
    requires run.Valid(n) && run.SnapshotFree() && k < |run.states|
    ensures InvAt(run, n, k)
  {
    if k == 0 {
      InitialInv(run, n);
    } else {
      RunInv(run, n, k - 1);
      InvNext(run, n, k - 1);
    }
  }

  lemma {:induction false} LogsGrow(run: Run, n: nat, k: nat, l: nat)
    requires run.Valid(n) && run.SnapshotFree() && k <= l < |run.states|
    ensures Grows(LogsOf(run, n, k), LogsOf(run, n, l))
    decreases l - k
  {
    if k < l {
      LogsGrow(run, n, k, l - 1);
      GrowsNext(run, n, l - 1);
      GrowsOn(LogsOf(run, n, k), LogsOf(run, n, l - 1), LogsOf(run, n, l));
    }
  }

  lemma GrowsOn(a: Logs, b: Logs, c: Logs)
    requires Grows(a, b) && Grows(b, c)
    ensures Grows(a, c)
  {
  }

  lemma LogIsOk(run: Run, n: nat, k: nat, l: nat, i: nat)
    requires run.Valid(n) && run.SnapshotFree() && k <= l < |run.states| && i < |run.states[k].servers|
    ensures LogOk(LogsOf(run, n, l), run.states[k].servers[i].log)
  {
    RunInv(run, n, k);
    LogsGrow(run, n, k, l);
    ServerAt(run, n, k, i);
    GrowsLogOk(LogsOf(run, n, k), LogsOf(run, n, l), run.states[k].servers[i].log);
  }

  /** Log Matching: if two logs, of the same or of different servers at the same or at different times,
      hold entries with the same index and term, they agree on everything up to that index. */
  lemma LogMatching(run: Run, n: nat, k: nat, l: nat, a: nat, b: nat, i: nat)
    requires run.Valid(n) && run.SnapshotFree() && k < |run.states| && l < |run.states|
    requires a < |run.states[k].servers| && b < |run.states[l].servers|
    requires i < |run.states[k].servers[a].log| && i < |run.states[l].servers[b].log|
    requires run.states[k].servers[a].log[i].term == run.states[l].servers[b].log[i].term
    ensures run.states[k].servers[a].log[..i + 1] == run.states[l].servers[b].log[..i + 1]
  {
    var last := if k < l then l else k;
    LogIsOk(run, n, k, last, a);
    LogIsOk(run, n, l, last, b);
    SamePrefix(LogsOf(run, n, last), run.states[k].servers[a].log, run.states[l].servers[b].log, i);
  }

  /** A leader only appends to its log. */
  lemma LeaderAppendsOnly(run: Run, n: nat, k: nat, l: nat, i: nat)
    requires run.Valid(n) && run.SnapshotFree() && k <= l < |run.states|
    requires i < |run.states[k].servers| && i < |run.states[l].servers|
    requires run.states[k].servers[i].role.Leader? && run.states[l].servers[i].role.Leader?
    requires run.states[k].servers[i].term == run.states[l].servers[i].term
    ensures IsPrefix(run.states[k].servers[i].log, run.states[l].servers[i].log)
  {
    RunInv(run, n, k);
    RunInv(run, n, l);
    LogsGrow(run, n, k, l);
    ServerAt(run, n, k, i);
    ServerAt(run, n, l, i);
  }

  // Acknowledged prefixes

  /** The server is past term `t`, or its log is a start of the leader's log that goes beyond `end`. */
  ghost predicate Holds(logs: Logs, s: Server, t: int, end: nat) {
    && t in logs && s.term >= t
    && (s.term == t ==> end < |s.log| && IsPrefix(s.log, logs[t].log))
  }

  /** A late request cannot cut the log back: it ends where the leader's log ended when it was sent, which is
      not before the leader's term began, so that a shorter request is recognised as out of order. */
  lemma AppendHolds(logs: Logs, s: Server, n: nat, a: AppendArgs, t: int, end: nat)
    requires ServerLogInv(logs, s, n) && RequestOk(logs, a) && LeaderLogOk(logs, a.term) && Holds(logs, s, t, end)
    ensures Holds(logs, OnAppend(s, a).0, t, end)
  {
    if a.term == t && OnAppend(s, a).1.success {
      AcceptedLog(logs, s, a, n);
      var (l, last) := (logs[t], |s.log| - 1);
      assert s.log[last] == l.log[last];
      assert last >= l.base ==> l.log[last].term == t;
    }
  }

  /** Events other than a request, a command or a win leave log and term alone or raise the term. */
  lemma HoldsQuietly(logs: Logs, s: Server, n: nat, e: Event, t: int, end: nat)
    requires ServerLogInv(logs, s, n) && EventOk(logs, s, e) && Holds(logs, s, t, end)
    requires !e.DeliverAppend? && !e.Propose? && !e.Win?
    ensures NewLogs(logs, s, e) == logs && Holds(logs, NewServer(s, e), t, end)
  {
  }

  lemma HoldsStep(logs: Logs, s: Server, n: nat, e: Event, t: int, end: nat)
    requires ServerLogInv(logs, s, n) && EventOk(logs, s, e) && (s.term in logs ==> LeaderLogOk(logs, s.term)) &&
      Holds(logs, s, t, end)
    ensures Holds(NewLogs(logs, s, e), NewServer(s, e), t, end)
  {
    if e.DeliverAppend? {
      AppendHolds(logs, s, n, e.args, t, end);
    } else if e.Propose? || e.Win? {
      MoverStep(logs, s, n, e);
      assert ServerLogInv(NewLogs(logs, s, e), NewServer(s, e), n);
    } else {
      HoldsQuietly(logs, s, n, e, t, end);
    }
  }

  lemma HoldsNext(run: Run, n: nat, k: nat, i: nat, t: int, end: nat)
    requires run.Valid(n) && run.SnapshotFree() && k + 1 < |run.states| && i < n && |run.states[k].servers| == n &&
      InvAt(run, n, k)
    requires Holds(LogsOf(run, n, k), run.states[k].servers[i], t, end)
    ensures |run.states[k + 1].servers| == n && Holds(LogsOf(run, n, k + 1), run.states[k + 1].servers[i], t, end)
  {
    StepAt(run, n, k);
    InvNext(run, n, k);
    var (c, e, logs, more) := (run.states[k], run.events[k], LogsOf(run, n, k), LogsOf(run, n, k + 1));
    if i == e.server {
      HoldsStep(logs, c.servers[i], n, e, t, end);
    } else {
      assert run.states[k + 1].servers[i] == c.servers[i];
      assert IsPrefix(logs[t].log, more[t].log);
    }
  }

  lemma {:induction false} HoldsOn(run: Run, n: nat, k: nat, l: nat, i: nat, t: int, end: nat)
    requires run.Valid(n) && run.SnapshotFree() && k <= l < |run.states| && i < |run.states[k].servers| == n
    requires Holds(LogsOf(run, n, k), run.states[k].servers[i], t, end)
    ensures |run.states[l].servers| == n && Holds(LogsOf(run, n, l), run.states[l].servers[i], t, end)
    decreases l - k
  {
    if k < l {
      HoldsOn(run, n, k, l - 1, i, t, end);
      RunInv(run, n, l - 1);
      HoldsNext(run, n, l - 1, i, t, end);
    }
  }

  /** Just after an acknowledgement, the follower's log is the start of the leader's log that ends with
      the request. */
  lemma Acknowledged(run: Run, n: nat, k: nat, i: nat, a: AppendArgs)
    requires run.Valid(n) && run.SnapshotFree() && k + 1 < |run.states| && i < |run.states[k].servers| && i < n
    requires run.events[k] == DeliverAppend(i, a) && OnAppend(run.states[k].servers[i], a).1.success
    ensures |run.states[k + 1].servers| == n && 0 <= a.prevIndex &&
      |run.states[k + 1].servers[i].log| == a.prevIndex + |a.entries| + 1
    ensures Holds(LogsOf(run, n, k + 1), run.states[k + 1].servers[i], a.term, a.prevIndex + |a.entries|)
    ensures run.states[k + 1].servers[i].term == a.term
  {
    RunInv(run, n, k);
    StepAt(run, n, k);
    AcceptedLog(LogsOf(run, n, k), run.states[k].servers[i], a, n);
  }

  /** Once a follower has acknowledged a request of term T that ends at index e, its entries up to e neither
      go away nor change while it stays in term T. */
  lemma AcknowledgedIsStable(run: Run, n: nat, k: nat, l: nat, i: nat, a: AppendArgs)
    requires run.Valid(n) && run.SnapshotFree() && k < l < |run.states|
    requires i < |run.states[k].servers| && i < |run.states[k + 1].servers| && i < |run.states[l].servers|
    requires run.events[k] == DeliverAppend(i, a) && OnAppend(run.states[k].servers[i], a).1.success
    requires run.states[l].servers[i].term == a.term
    ensures |run.states[k + 1].servers[i].log| == a.prevIndex + |a.entries| + 1
    ensures IsPrefix(run.states[k + 1].servers[i].log, run.states[l].servers[i].log)
  {
    RunInv(run, n, k);
    ServerAt(run, n, k, i);
    Acknowledged(run, n, k, i, a);
    HoldsOn(run, n, k + 1, l, i, a.term, a.prevIndex + |a.entries|);
    LogsGrow(run, n, k + 1, l);
    PrefixesAgree(run.states[k + 1].servers[i].log, run.states[l].servers[i].log,
                  LogsOf(run, n, k + 1)[a.term].log, LogsOf(run, n, l)[a.term].log);
  }

  lemma PrefixesAgree<T>(a: seq<T>, b: seq<T>, c: seq<T>, d: seq<T>)
    requires IsPrefix(a, c) && IsPrefix(c, d) && IsPrefix(b, d) && |a| <= |b|
    ensures IsPrefix(a, b)
  {
  }

  // Fast back-up

  /** The `nextIndex` of a leader stays within its log, and it never reads outside it. */
  lemma NextIndexInRange(run: Run, n: nat, k: nat, i: nat, p: nat)
    requires run.Valid(n) && run.SnapshotFree() && k < |run.states|
    requires i < |run.states[k].servers| && p < n && run.states[k].servers[i].role.Leader?
    ensures var s := run.states[k].servers[i];
            && |s.nextIndex| == n && 1 <= s.nextIndex[p] <= s.LastIndex() + 1
            && RequestFor(s, p).Request?
  {
    RunInv(run, n, k);
    ServerAt(run, n, k, i);
  }

  /** Each mismatch that a leader learns of moves its `nextIndex` for that peer strictly down, and a
      snapshot is never asked for. */
  lemma MismatchMovesDown(run: Run, n: nat, k: nat, i: nat, p: nat, a: AppendArgs, r: AppendReply)
    requires run.Valid(n) && run.SnapshotFree() && k + 1 < |run.states| &&
      run.events[k] == DeliverAppendReply(i, p, a, r)
    requires i < |run.states[k].servers| && i < n && p < n && Mismatch(r)
    requires run.states[k].servers[i].role.Leader? && run.states[k].servers[i].term == a.term
    ensures |run.states[k + 1].servers| == n &&
      |run.states[k].servers[i].nextIndex| == |run.states[k + 1].servers[i].nextIndex| == n
    ensures 1 <= run.states[k + 1].servers[i].nextIndex[p] < run.states[k].servers[i].nextIndex[p]
    ensures !OnAppendReply(run.states[k].servers[i], p, a, r).1
  {
    RunInv(run, n, k);
    StepAt(run, n, k);
    BackUpBounds(LogsOf(run, n, k), run.states[k].servers[i], n, a, r);
  }

  /** Nothing comes before index 0, so a request from there is never answered with a mismatch. */
  lemma NoMismatchAtZero(run: Run, n: nat, k: nat, p: nat, a: AppendArgs, r: AppendReply)
    requires run.Valid(n) && run.SnapshotFree() && k < |run.states|
    requires AppendAnswer(p, a, r) in run.states[k].messages && a.prevIndex == 0
    ensures !Mismatch(r)
  {
    RunInv(run, n, k);
    assert Unfold(true);
    assert MessageOk(LogsOf(run, n, k), AppendAnswer(p, a, r));
  }

  /** Step `k` tells the leader `i` that `p` accepted a request. */
  ghost predicate AcceptedAt(run: Run, k: nat, i: nat, p: nat)
    requires k < |run.events|
  {
    var e := run.events[k];
    e.DeliverAppendReply? && e.server == i && e.peer == p && e.reply.success
  }

  ghost predicate MismatchAt(run: Run, k: nat, i: nat, p: nat)
    requires k < |run.events|
  {
    var e := run.events[k];
    e.DeliverAppendReply? && e.server == i && e.peer == p && Mismatch(e.reply)
  }

  /** How many mismatches of peer `p` the server `i` learns of between steps `k` and `l` from requests of term `t`. */
  ghost function Mismatches(run: Run, k: nat, l: nat, i: nat, p: nat, t: int): nat
    requires k <= l <= |run.events|
    decreases l - k
  {
    if k == l then 0 else
    Mismatches(run, k, l - 1, i, p, t) + if MismatchAt(run, l - 1, i, p) && run.events[l - 1].args.term == t then 1
      else 0
  }

  ghost predicate LeadsAt(run: Run, k: nat, i: nat, t: int) {
    k < |run.states| && i < |run.states[k].servers| && run.states[k].servers[i].role.Leader? &&
      run.states[k].servers[i].term == t
  }

  lemma NextIndexNext(run: Run, n: nat, k: nat, i: nat, p: nat, t: int)
    requires run.Valid(n) && run.SnapshotFree() && k + 1 < |run.states| && p < n && p != i
    requires LeadsAt(run, k, i, t) && LeadsAt(run, k + 1, i, t) && !AcceptedAt(run, k, i, p)
    requires |run.states[k].servers[i].nextIndex| == |run.states[k + 1].servers[i].nextIndex| == n
    ensures run.states[k + 1].servers[i].nextIndex[p] +
      (if MismatchAt(run, k, i, p) && run.events[k].args.term == t then 1 else 0) <=
      run.states[k].servers[i].nextIndex[p]
  {
    RunInv(run, n, k);
    StepAt(run, n, k);
    ServerAt(run, n, k, i);
    var (s, e) := (run.states[k].servers[i], run.events[k]);
    if e.server == i && e.DeliverAppendReply? && e.peer == p && Mismatch(e.reply) && e.args.term == t {
      MismatchMovesDown(run, n, k, i, p, e.args, e.reply);
    } else if e.server == i {
      NextIndexSame(LogsOf(run, n, k), s, n, e, p);
    }
  }

  /** Other events than a mismatch or a success of the peer leave its index alone. */
  lemma NextIndexSame(logs: Logs, s: Server, n: nat, e: Event, p: nat)
    requires ServerLogInv(logs, s, n) && EventOk(logs, s, e) && s.role.Leader? && p < n && p != s.me
    requires !(e.DeliverAppendReply? && e.peer == p && (e.reply.success ||
      (Mismatch(e.reply) && e.args.term == s.term)))
    ensures NewServer(s, e).role.Leader? && |NewServer(s, e).nextIndex| == n ==>
      NewServer(s, e).nextIndex[p] == s.nextIndex[p]
  {
    match e
    case DeliverAppendReply(_, q, _, _) =>
      if q != p {
        AnswerKeepsOthers(s, e, p);
      }
    case Propose(_, _) =>
    case Win(_, _) =>
    case _ => IndicesKept(s, e);
  }

  /** While a leader has no success with a peer, it backs up at most as often as there are indices below
      the one it started from. */
  lemma {:induction false} RetriesAreBounded(run: Run, n: nat, k: nat, l: nat, i: nat, p: nat, t: int)
    requires run.Valid(n) && run.SnapshotFree() && k <= l < |run.states| && p < n && p != i
    requires forall j :: k <= j <= l ==> LeadsAt(run, j, i, t)
    requires forall j :: k <= j < l ==> !AcceptedAt(run, j, i, p)
    ensures LeadsAt(run, k, i, t) && LeadsAt(run, l, i, t)
    ensures |run.states[k].servers[i].nextIndex| == |run.states[l].servers[i].nextIndex| == n
    ensures Mismatches(run, k, l, i, p,
      t) + run.states[l].servers[i].nextIndex[p] <= run.states[k].servers[i].nextIndex[p]
    ensures Mismatches(run, k, l, i, p, t) <= run.states[k].servers[i].LastIndex()
    decreases l - k
  {
    assert LeadsAt(run, k, i, t) && LeadsAt(run, l, i, t);
    NextIndexInRange(run, n, k, i, p);
    NextIndexInRange(run, n, l, i, p);
    if k < l {
      RetriesAreBounded(run, n, k, l - 1, i, p, t);
      NextIndexNext(run, n, l - 1, i, p, t);
    }
  }
}
