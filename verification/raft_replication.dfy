/** What a leader and a follower achieve together: which requests are accepted, where a rejection leads, and that the
    two logs become equal. */
module RaftReplication {
  import opened Collections
  import opened Hiding
  import opened RaftServer
  import opened RaftNetwork
  import opened RaftElection
  import opened RaftLog
  import opened RaftSafety

  /** A leader and a peer, as they are at some time of a run without snapshots. */
  ghost predicate Pair(logs: Logs, s: Server, f: Server, p: nat, n: nat) {
    && ServerLogInv(logs, s, n) && ServerLogInv(logs, f, n) && s.role.Leader? && p < n && p != s.me
    && LeaderLogOk(logs, s.term) && f.term <= s.term
  }

  /** Where the request for the peer starts. */
  ghost function Start(logs: Logs, s: Server, f: Server, p: nat, n: nat): nat
    requires Pair(logs, s, f, p, n)
  {
    s.nextIndex[p] - 1
  }

  /** The follower has the entry before the request's. */
  ghost predicate Meets(logs: Logs, s: Server, f: Server, p: nat, n: nat)
    requires Pair(logs, s, f, p, n)
  {
    var k := Start(logs, s, f, p, n);
    k < |f.log| && f.log[k].term == s.log[k].term
  }

  /** A log with an entry of the leader's term is not longer than the leader's. */
  lemma FreshIsInOrder(logs: Logs, s: Server, f: Server, p: nat, n: nat)
    requires Pair(logs, s, f, p, n)
    ensures !OutOfOrder(f, RequestFor(s, p).args)
  {
    SentRequestOk(logs, s, n, p);
    var last := |f.log| - 1;
    if f.log[last].term == s.term {
      assert Canonical(logs, f.log, last);
      assert f.log[..last + 1] == f.log;
    }
  }

  /** A request that has just been sent is accepted exactly if the follower has the entry before it, and then the
      logs are equal and the follower has committed what the leader has. */
  lemma FreshRequest(logs: Logs, s: Server, f: Server, p: nat, n: nat)
    requires Pair(logs, s, f, p, n)
    ensures var (t, r) := OnAppend(f, RequestFor(s, p).args);
            && (r.success <==> Meets(logs, s, f, p, n))
            && (r.success ==> t.log == s.log && t.term == s.term)
            && (r.success && s.commitIndex > f.commitIndex ==> t.commitIndex == Min(s.commitIndex, s.LastIndex()))
            && (r.success && s.commitIndex <= f.commitIndex ==> t.commitIndex == f.commitIndex)
  {
    var a := RequestFor(s, p).args;
    FreshIsInOrder(logs, s, f, p, n);
    SentRequestOk(logs, s, n, p);
    if OnAppend(f, a).1.success {
      AcceptedLog(logs, f, a, n);
      assert s.log[..|s.log|] == s.log;
    }
  }

  /** Where a rejection sends the leader: to the end of a log that is too short, and otherwise to the first entry
      of the term that the follower has instead. */
  ghost predicate PointsBack(f: Server, k: nat, next: int) {
    if |f.log| <= k then next == |f.log|
    else 1 <= next <= k && f.log[next].term == f.log[k].term && forall j :: 1 <= j < next ==>
      f.log[j].term != f.log[k].term
  }

  lemma FreshRejection(logs: Logs, s: Server, f: Server, p: nat, n: nat)
    requires Pair(logs, s, f, p, n) && !Meets(logs, s, f, p, n)
    ensures var (a, k) := (RequestFor(s, p).args, Start(logs, s, f, p, n));
            var r := OnAppend(f, a).1;
            && Mismatch(r) && AnswerOk(a, r) && PointsBack(f, k, BackUp(s, r))
            && OnAppend(f, a).0.log == f.log && OnAppend(f, a).0.term == s.term
  {
    var a := RequestFor(s, p).args;
    FreshRequest(logs, s, f, p, n);
    SentRequestOk(logs, s, n, p);
    AppendStep(logs, f, n, a);
    var r := OnAppend(f, a).1;
    assert Mismatch(r);
    NoTermZero(logs, s, n);
  }

  lemma NoTermZero(logs: Logs, s: Server, n: nat)
    requires ServerLogInv(logs, s, n)
    ensures LastOfTerm(s.log, 0, |s.log|) == -1
  {
    forall i | 1 <= i < |s.log|
      ensures s.log[i].term != 0
    {
      assert Canonical(logs, s.log, i);
    }
  }

  /** A new leader starts every peer at the end of its log, and knows only of its own. */
  lemma NewLeader(s: Server, p: nat)
    requires p < s.peers
    ensures var t := OnElected(s);
            && t.role.Leader? && t.term == s.term && t.log == s.log && |t.nextIndex| == |t.matchIndex| == s.peers
            && t.nextIndex[p] == s.LastIndex() + 1 && t.matchIndex[p] == if p == s.me then s.LastIndex() else 0
  {
  }

  /** A request and its answer. */
  ghost function Exchange(s: Server, f: Server, p: nat): (Server, Server) {
    match RequestFor(s, p)
    case OutOfRange => (s, f)
    case Request(a) => (OnAppendReply(s, p, a, OnAppend(f, a).1).0, OnAppend(f, a).0)
  }

  ghost function Exchanges(s: Server, f: Server, p: nat, m: nat): (Server, Server)
    decreases m
  {
    if m == 0 then (s, f) else
    var (t, g) := Exchange(s, f, p);
    Exchanges(t, g, p, m - 1)
  }

  /** What the leader knows after a rejection: it will go back to where the answer points. */
  lemma RejectedExchange(logs: Logs, s: Server, f: Server, p: nat, n: nat)
    requires Pair(logs, s, f, p, n) && !Meets(logs, s, f, p, n)
    ensures var (t, g) := Exchange(s, f, p);
            && Pair(logs, t, g, p, n) && t.log == s.log && t.term == s.term && g.log == f.log && t.me == s.me
            && PointsBack(f, s.nextIndex[p] - 1, t.nextIndex[p]) && 1 <= t.nextIndex[p] < s.nextIndex[p]
            && t.nextIndex == s.nextIndex[p := t.nextIndex[p]]
            && t.matchIndex == s.matchIndex[p := t.nextIndex[p] - 1] && t.commitIndex == s.commitIndex
  {
    var a := RequestFor(s, p).args;
    var r := OnAppend(f, a).1;
    FreshRejection(logs, s, f, p, n);
    SentRequestOk(logs, s, n, p);
    AppendStep(logs, f, n, a);
    ReplyStep(logs, s, n, p, a, r);
    BackUpBounds(logs, s, n, a, r);
  }

  /** What the leader knows after an acceptance: the peer holds all of its log. It commits what a majority is known to
      hold, if the request ended with an entry of its own term. */
  lemma AcceptedExchange(logs: Logs, s: Server, f: Server, p: nat, n: nat)
    requires Pair(logs, s, f, p, n) && Meets(logs, s, f, p, n)
    ensures var (t, g) := Exchange(s, f, p);
            && g.log == s.log == t.log && t.term == s.term
            && t.nextIndex == s.nextIndex[p := |s.log|] && t.matchIndex == s.matchIndex[p := s.LastIndex()]
            && t.commitIndex ==
                 if s.nextIndex[p] < |s.log| && s.LastTerm() == s.term
                 then MajorityIndex(t.matchIndex, n, s.commitIndex, s.LastIndex() + 1) else s.commitIndex
  {
    var a := RequestFor(s, p).args;
    FreshRequest(logs, s, f, p, n);
    SentRequestOk(logs, s, n, p);
    AcceptedAnswer(s, p, n);
  }

  lemma AcceptedAnswer(s: Server, p: nat, n: nat)
    requires s.peers == n == |s.nextIndex| == |s.matchIndex| && p < n && s.log != [] && s.snapIndex == 0 &&
      s.role.Leader?
    requires 1 <= s.nextIndex[p] <= |s.log| && s.term >= 0
    ensures var (a, t) := (RequestFor(s, p).args, OnAccepted(s, p, RequestFor(s, p).args));
            && t.log == s.log && t.term == s.term
            && t.nextIndex == s.nextIndex[p := |s.log|] && t.matchIndex == s.matchIndex[p := s.LastIndex()]
            && t.commitIndex ==
                 if s.nextIndex[p] < |s.log| && s.LastTerm() == s.term
                 then MajorityIndex(t.matchIndex, n, s.commitIndex, s.LastIndex() + 1) else s.commitIndex
  {
    var a := RequestFor(s, p).args;
    assert a.entries != [] ==> a.entries[|a.entries| - 1] == s.log[|s.log| - 1];
  }

  /** After `m` exchanges the follower has the log of `l`, and the leader knows it. */
  ghost predicate Reaches(s: Server, f: Server, p: nat, m: nat, l: Server) {
    forall u {:trigger Unfold(u)} :: Unfold(u) ==>
      var (t, g) := Exchanges(s, f, p, m);
      g.log == l.log == t.log && p < |t.matchIndex| && t.matchIndex[p] == l.LastIndex()
  }

  lemma ReachesNow(logs: Logs, s: Server, f: Server, p: nat, n: nat)
    requires Pair(logs, s, f, p, n) && Meets(logs, s, f, p, n)
    ensures Reaches(s, f, p, 1, s)
  {
    AcceptedExchange(logs, s, f, p, n);
    var (t, g) := Exchange(s, f, p);
    assert Exchanges(s, f, p, 1) == Exchanges(t, g, p, 0);
  }

  /** A leader and a peer for which the next request starts after index `x`. */
  ghost predicate PairFrom(logs: Logs, s: Server, f: Server, p: nat, n: nat, x: nat) {
    forall u {:trigger Unfold(u)} :: Unfold(u) ==> Pair(logs, s, f, p, n) && s.nextIndex[p] == x + 1
  }

  lemma ReachesLater(logs: Logs, s: Server, f: Server, p: nat, n: nat) returns (t: Server, g: Server)
    requires Pair(logs, s, f, p, n) && !Meets(logs, s, f, p, n)
    ensures Pair(logs, t, g, p, n) && 1 <= t.nextIndex[p] < s.nextIndex[p]
    ensures forall m: nat :: Reaches(t, g, p, m, t) ==> Reaches(s, f, p, m + 1, s)
  {
    RejectedExchange(logs, s, f, p, n);
    t, g := Exchange(s, f, p).0, Exchange(s, f, p).1;
    forall m: nat | Reaches(t, g, p, m, t)
      ensures Reaches(s, f, p, m + 1, s)
    {
      ReachesNext(s, f, p, m, t, g);
    }
  }

  /** One exchange: the logs are equal, or the leader starts further down. */
  lemma NextExchange(logs: Logs, s: Server, f: Server, p: nat, n: nat, x: nat)
    returns (done: bool, t: Server, g: Server, y: nat)
    requires PairFrom(logs, s, f, p, n, x)
    ensures done ==> Reaches(s, f, p, 1, s)
    ensures !done ==> y < x && PairFrom(logs, t, g, p, n, y)
    ensures !done ==> forall m: nat :: Reaches(t, g, p, m, t) ==> Reaches(s, f, p, m + 1, s)
  {
    assert Pair(logs, s, f, p, n) && s.nextIndex[p] == x + 1 by {
      assert Unfold(true);
    }
    done, t, g, y := Meets(logs, s, f, p, n), s, f, x;
    if done {
      ReachesNow(logs, s, f, p, n);
    } else {
      t, g := ReachesLater(logs, s, f, p, n);
      y := t.nextIndex[p] - 1;
    }
  }

  lemma ReachesNext(s: Server, f: Server, p: nat, m: nat, t: Server, g: Server)
    requires Exchange(s, f, p) == (t, g) && Reaches(t, g, p, m, t) && t.log == s.log && t.LastIndex() == s.LastIndex()
    ensures Reaches(s, f, p, m + 1, s)
  {
    assert Exchanges(s, f, p, m + 1) == Exchanges(t, g, p, m);
  }

  /** Left alone, a leader and a follower reach equal logs: after at most as many exchanges as the index that the leader
      starts from, the follower has the leader's log, and the leader knows it. */
  lemma {:induction false} CatchesUp(logs: Logs, s: Server, f: Server, p: nat, n: nat, x: nat) returns (m: nat)
    requires PairFrom(logs, s, f, p, n, x)
    ensures m <= x + 1 && Reaches(s, f, p, m, s)
    decreases x
  {
    var done, t, g, y := NextExchange(logs, s, f, p, n, x);
    m := 1;
    if !done {
      m := CatchesUp(logs, t, g, p, n, y);
      m := m + 1;
    }
  }

  // At any time of a run

  lemma PairAt(run: Run, n: nat, k: nat, i: nat, p: nat)
    requires run.Valid(n) && run.SnapshotFree() && k < |run.states| && |run.states[k].servers| == n && i < n && p < n
    requires var (s, f) := (run.states[k].servers[i], run.states[k].servers[p]);
             s.role.Leader? && p != i && f.term <= s.term
    ensures Pair(LogsOf(run, n, k), run.states[k].servers[i], run.states[k].servers[p], p, n)
  {
    RunInv(run, n, k);
    ServerAt(run, n, k, i);
    ServerAt(run, n, k, p);
    LeaderAt(run, n, k, i);
  }

  /** In every run without snapshots: the request that a leader would send now to a peer in its term or an earlier one
      is accepted exactly if the peer has the entry before it, and then leaves the peer with the leader's log. */
  lemma FreshRequestInRun(run: Run, n: nat, k: nat, i: nat, p: nat)
    requires run.Valid(n) && run.SnapshotFree() && k < |run.states| && |run.states[k].servers| == n && i < n && p < n
    requires var (s, f) := (run.states[k].servers[i], run.states[k].servers[p]);
             s.role.Leader? && p != i && f.term <= s.term
    ensures var (s, f) := (run.states[k].servers[i], run.states[k].servers[p]);
            && |s.nextIndex| == n && 1 <= s.nextIndex[p] <= |s.log| && RequestFor(s, p).Request?
            && var (x, a) := (s.nextIndex[p] - 1, RequestFor(s, p).args);
               && (OnAppend(f, a).1.success <==> x < |f.log| && f.log[x].term == s.log[x].term)
               && (OnAppend(f, a).1.success ==> OnAppend(f, a).0.log == s.log)
  {
    PairAt(run, n, k, i, p);
    SentRequestOk(LogsOf(run, n, k), run.states[k].servers[i], n, p);
    FreshRequest(LogsOf(run, n, k), run.states[k].servers[i], run.states[k].servers[p], p, n);
  }

  /** In every run without snapshots a leader and a peer in its term or an earlier one that exchange requests and
      answers reach equal logs. */
  lemma CatchesUpInRun(run: Run, n: nat, k: nat, i: nat, p: nat) returns (m: nat)
    requires run.Valid(n) && run.SnapshotFree() && k < |run.states| && |run.states[k].servers| == n && i < n && p < n
    requires var (s, f) := (run.states[k].servers[i], run.states[k].servers[p]);
             s.role.Leader? && p != i && f.term <= s.term
    ensures var s := run.states[k].servers[i];
            && m <= s.LastIndex() + 1
            && var (t, g) := Exchanges(s, run.states[k].servers[p], p, m);
               g.log == s.log == t.log && p < |t.matchIndex| && t.matchIndex[p] == s.LastIndex()
  {
    PairAt(run, n, k, i, p);
    var s := run.states[k].servers[i];
    m := CatchesUp(LogsOf(run, n, k), s, run.states[k].servers[p], p, n, s.nextIndex[p] - 1);
    assert Unfold(true);
  }
}
