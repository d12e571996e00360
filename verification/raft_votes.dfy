/** What a vote says about logs, in runs without snapshots. */
module RaftVotes {
  import opened Collections
  import opened RaftServer
  import opened RaftNetwork
  import opened RaftElection
  import opened RaftLog
  import opened RaftSafety

  /** The log of `c` is later than that of `s`, or continues it. */
  ghost predicate Covers(s: Server, c: Server) {
    s.LastTerm() < c.LastTerm() || (s.LastTerm() == c.LastTerm() && IsPrefix(s.log, c.log))
  }

  /** Comparing the ends of two logs compares the logs. */
  lemma UpToDateIff(logs: Logs, s: Server, c: Server)
    requires LogOk(logs, s.log) && LogOk(logs, c.log) && s.snapIndex == 0 && c.snapIndex == 0
    ensures UpToDate(s, VoteArgsOf(c)) <==> Covers(s, c)
  {
    var (i, j) := (|s.log| - 1, |c.log| - 1);
    if s.log[i].term == c.log[j].term && i <= j {
      if i > 0 {
        assert Canonical(logs, s.log, i) && Canonical(logs, c.log, j);
        assert s.log[..i + 1] == s.log && c.log[..j + 1] == c.log;
      } else {
        assert s.log == [NoEntry] && c.log[..1] == [NoEntry];
      }
    }
  }

  /** A server that hears of a newer term grants its vote exactly if the candidate's log is later than its own or
      continues it. */
  lemma VoteIff(logs: Logs, s: Server, c: Server)
    requires LogOk(logs, s.log) && LogOk(logs, c.log) && s.snapIndex == 0 && c.snapIndex == 0 && s.term < c.term
    ensures OnRequestVote(s, VoteArgsOf(c)).1 <==> Covers(s, c)
  {
    UpToDateIff(logs, s, c);
  }

  /** Exactly when a vote is granted: as a repetition, or for the first time in the term after comparing the logs. */
  lemma GrantIff(s: Server, a: VoteArgs)
    ensures OnRequestVote(s, a).1 <==> s.term <= a.term && (Repeats(s, a) || (FirstVote(s, a) && UpToDate(s, a)))
  {
  }

  predicate Repeats(s: Server, a: VoteArgs) { s.term == a.term && s.voteFor == a.candidate }

  predicate FirstVote(s: Server, a: VoteArgs) { s.term < a.term || s.voteFor == -1 }

  // Requests for votes describe the candidate

  /** The requests of a candidate for its current term carry its last index and term. */
  ghost predicate RequestsMatch(c: Cluster) {
    forall to, a :: VoteRequest(to, a) in c.messages ==> RequestMatches(c, a)
  }

  ghost predicate RequestMatches(c: Cluster, a: VoteArgs) {
    && a.candidate < |c.servers|
    && var s := c.servers[a.candidate];
       a.term <= s.disk.term && (s.role.Candidate? && s.term == a.term ==> a == VoteArgsOf(s))
  }

  /** A candidate's log does not change while it stays one. */
  lemma CandidateStays(s: Server, e: Event)
    requires s.snapIndex == 0 && !e.ElectionTimeout? && !e.Save? && !e.DeliverInstall? && s.disk.term <= s.term
    ensures var t := NewServer(s, e);
            && s.disk.term <= t.disk.term && t.me == s.me
            && (t.role.Candidate? ==>
                  s.role.Candidate? && t.term == s.term && t.log == s.log && t.snapIndex == s.snapIndex)
  {
  }

  lemma TimeoutMatches(s: Server)
    requires s.disk.term <= s.term
    ensures var t := OnElectionTimeout(s);
            && s.disk.term <= t.disk.term && (s.role.Leader? ==> t == s)
            && (!s.role.Leader? ==> t.term == s.term + 1 == t.disk.term)
  {
  }

  lemma OldRequest(c: Cluster, e: Event, a: VoteArgs)
    requires Enabled(c, e) && !e.Save? && !e.DeliverInstall? && RequestMatches(c, a)
    requires var s := c.servers[e.server]; s.snapIndex == 0 && s.disk.term == s.term
    ensures RequestMatches(After(c, e), a)
  {
    var s := c.servers[e.server];
    if e.ElectionTimeout? {
      TimeoutMatches(s);
    } else {
      CandidateStays(s, e);
    }
  }

  lemma NewRequest(c: Cluster, e: Event, to: nat, a: VoteArgs)
    requires Enabled(c, e) && VoteRequest(to, a) in Sent(c, c.servers[e.server], e) &&
      c.servers[e.server].me == e.server
    ensures RequestMatches(After(c, e), a)
  {
  }

  lemma RequestsStep(past: Past, logs: Logs, c: Cluster, e: Event, to: nat, a: VoteArgs)
    requires ElectionInv(past, c) && LogInv(past, logs, c) && Enabled(c, e) && !e.Save? && RequestsMatch(c)
    requires VoteRequest(to, a) in After(c, e).messages
    ensures RequestMatches(After(c, e), a)
  {
    var s := c.servers[e.server];
    EventIsOk(past, logs, c, e);
    assert ServerInv(past, e.server, s, |c.servers|) && ServerLogInv(logs, s, |c.servers|);
    if VoteRequest(to, a) in c.messages {
      assert RequestMatches(c, a);
      OldRequest(c, e, a);
    } else {
      NewRequest(c, e, to, a);
    }
  }

  lemma {:induction false} RunRequests(run: Run, n: nat, k: nat)
    requires run.Valid(n) && run.SnapshotFree() && k < |run.states|
    ensures RequestsMatch(run.states[k])
  {
    if k > 0 {
      RunRequests(run, n, k - 1);
      RunInv(run, n, k - 1);
      RequestsNext(run, n, k - 1);
    }
  }

  lemma RequestsNext(run: Run, n: nat, k: nat)
    requires run.Valid(n) && run.SnapshotFree() && k + 1 < |run.states| && InvAt(run, n, k) &&
      RequestsMatch(run.states[k])
    ensures RequestsMatch(run.states[k + 1])
  {
    InvParts(run, n, k);
    assert run.StepAt(k);
    forall to, a | VoteRequest(to, a) in run.states[k + 1].messages
      ensures RequestMatches(run.states[k + 1], a)
    {
      RequestsStep(PastOf(run, n, k), LogsOf(run, n, k), run.states[k], run.events[k], to, a);
    }
  }

  // Where votes come from

  lemma {:induction false} MessagesStay(run: Run, n: nat, j: nat, k: nat, m: Message)
    requires run.Valid(n) && j <= k < |run.states| && m in run.states[j].messages
    ensures m in run.states[k].messages
    decreases k - j
  {
    if j < k {
      MessagesStay(run, n, j, k - 1, m);
      assert run.StepAt(k - 1);
    }
  }

  /** A vote that has arrived was given at some step. */
  lemma {:induction false} VoteOrigin(run: Run, n: nat, k: nat, v: nat, a: VoteArgs) returns (j: nat)
    requires run.Valid(n) && k < |run.states| && VoteReply(v, a, true) in run.states[k].messages
    ensures j < k && run.events[j] == DeliverVote(v, a) && Enabled(run.states[j], run.events[j])
    ensures OnRequestVote(run.states[j].servers[v], a).1
  {
    assert k > 0;
    assert run.StepAt(k - 1);
    if VoteReply(v, a, true) in run.states[k - 1].messages {
      j := VoteOrigin(run, n, k - 1, v, a);
    } else {
      j := k - 1;
    }
  }

  /** The votes of a winner: each was given at some earlier step, for the first time in the term or as a repetition.
      The winner's log is later than the voter's or continues it, exactly unless the vote was a repetition to a
      candidate that is behind. */
  lemma WinnerCoversVoters(run: Run, n: nat, k: nat, i: nat, voters: set<nat>, v: nat) returns (j: nat, a: VoteArgs)
    requires run.Valid(n) && run.SnapshotFree() && k + 1 < |run.states| && run.events[k] == Win(i, voters) &&
      v in voters
    ensures j < k && run.events[j] == DeliverVote(v, a) && i < |run.states[k].servers| && v < |run.states[j].servers|
    ensures var (w, x) := (run.states[k].servers[i], run.states[j].servers[v]);
            && a == VoteArgsOf(w) && OnRequestVote(x, a).1
            && (Repeats(x, a) || FirstVote(x, a)) && (Covers(x, w) <==> !Repeats(x, a) || UpToDate(x, a))
  {
    assert run.StepAt(k);
    var (c, w) := (run.states[k], run.states[k].servers[i]);
    assert HasVote(c, w, v);
    a :| VoteReply(v, a, true) in c.messages && a.term == w.term && a.candidate == w.me;
    j := VoteOrigin(run, n, k, v, a);
    MessagesStay(run, n, j, k, VoteRequest(v, a));
    RunRequests(run, n, k);
    RunElectionInv(run, n, k);
    assert ServerInv(PastOf(run, n, k), i, w, n);
    assert RequestMatches(c, a);
    GrantIff(run.states[j].servers[v], a);
    ComparedAt(run, n, j, k, v, i);
  }

  /** A vote compares the logs of voter and candidate even if time passes between. */
  lemma ComparedAt(run: Run, n: nat, j: nat, k: nat, v: nat, i: nat)
    requires run.Valid(n) && run.SnapshotFree() && j <= k < |run.states|
    requires v < |run.states[j].servers| && i < |run.states[k].servers|
    ensures UpToDate(run.states[j].servers[v], VoteArgsOf(run.states[k].servers[i])) <==>
            Covers(run.states[j].servers[v], run.states[k].servers[i])
  {
    RunInv(run, n, j);
    RunInv(run, n, k);
    ServerAt(run, n, j, v);
    ServerAt(run, n, k, i);
    LogIsOk(run, n, j, k, v);
    UpToDateIff(LogsOf(run, n, k), run.states[j].servers[v], run.states[k].servers[i]);
  }
}
