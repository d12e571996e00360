/** A run without snapshots in which a server wins with the vote of a server whose log is later than its own: the
    vote was kept when a late answer raised the voter's term, and a repeated vote skips the comparison of logs. */
module RaftStaleVote {
  import opened RaftServer
  import opened RaftNetwork
  import opened RaftVotes
  import opened RaftWitness

  /** The state of one of three servers. */
  ghost predicate Is(s: Server, i: nat, role: Role, term: int, voteFor: int, log: seq<LogEntry>) {
    && s.me == i && s.peers == 3 && s.role == role && s.term == term && s.voteFor == voteFor && s.log == log
    && s.snapIndex == 0 && s.disk == s.Saved()
  }

  ghost predicate Reached(run: Run) {
    run.Valid(3) && run.SnapshotFree() && |Last(run).servers| == 3
  }

  /** One more event. */
  lemma Next(run: Run, e: Event) returns (r: Run)
    requires Reached(run) && Enabled(Last(run), e) && !e.Save?
    ensures Reached(r) && r.events == run.events + [e] && |r.states| == |run.states| + 1 &&
      r.states[..|run.states|] == run.states
    ensures var (c, s) := (Last(run), Last(run).servers[e.server]);
            && Last(r).servers == c.servers[e.server := NewServer(s, e)]
            && Last(r).messages == c.messages + Sent(c, s, e) && Last(r).calls == NewCalls(c, s, e)
  {
    r := Extend(run, 3, e);
  }

  /** Server `i` stands for election. */
  lemma Stands(run: Run, i: nat, role: Role, term: int, voteFor: int, log: seq<LogEntry>) returns (r: Run)
    requires Reached(run) && i < 3 && Is(Last(run).servers[i], i, role, term, voteFor, log) && !role.Leader?
    ensures Reached(r) && Is(Last(r).servers[i], i, Candidate, term + 1, i, log)
    ensures Last(r).servers == Last(run).servers[i := Last(r).servers[i]]
    ensures Last(run).messages <= Last(r).messages && Last(r).calls == Last(run).calls
    ensures forall p: nat :: p < 3 && p != i ==> VoteRequest(p, VoteArgsOf(Last(r).servers[i])) in Last(r).messages
  {
    r := Next(run, ElectionTimeout(i));
  }

  /** Server `v` hears of the newer term of candidate `i` and votes for it. */
  lemma Grants(run: Run, i: nat, v: nat, role: Role, term: int, voteFor: int, log: seq<LogEntry>) returns (r: Run)
    requires Reached(run) && i < 3 && v < 3 && i != v && Is(Last(run).servers[v], v, role, term, voteFor, log)
    requires VoteRequest(v, VoteArgsOf(Last(run).servers[i])) in Last(run).messages && Last(run).servers[i].me == i
    requires term < Last(run).servers[i].term && UpToDate(Last(run).servers[v], VoteArgsOf(Last(run).servers[i]))
    ensures Reached(r) && Is(Last(r).servers[v], v, Follower, Last(run).servers[i].term, i, log)
    ensures Last(r).servers == Last(run).servers[v := Last(r).servers[v]]
    ensures Last(run).messages <= Last(r).messages && Last(r).calls == Last(run).calls
    ensures VoteReply(v, VoteArgsOf(Last(run).servers[i]), true) in Last(r).messages
  {
    r := Next(run, DeliverVote(v, VoteArgsOf(Last(run).servers[i])));
  }

  /** Candidate `i` wins with the vote of `v`. */
  lemma Wins(run: Run, i: nat, v: nat, term: int, log: seq<LogEntry>) returns (r: Run)
    requires Reached(run) && i < 3 && v < 3 && i != v && Is(Last(run).servers[i], i, Candidate, term, i, log) &&
      log != []
    requires VoteReply(v, VoteArgsOf(Last(run).servers[i]), true) in Last(run).messages
    ensures Reached(r) && Is(Last(r).servers[i], i, Leader, term, i, log) && r.events == run.events + [Win(i, {v})]
    ensures |r.states| == |run.states| + 1 && r.states[..|run.states|] == run.states
    ensures |Last(r).servers[i].nextIndex| == 3 && forall p :: 0 <= p < 3 ==> Last(r).servers[i].nextIndex[p] == |log|
    ensures Last(r).servers == Last(run).servers[i := Last(r).servers[i]]
    ensures Last(run).messages <= Last(r).messages && Last(r).calls == Last(run).calls
  {
    assert HasVote(Last(run), Last(run).servers[i], v);
    r := Next(run, Win(i, {v}));
  }

  /** Server 0 leads term 1 and waits for an answer of server 2 to a request of that term. */
  lemma LateRequest() returns (r: Run, a: AppendArgs)
    ensures Reached(r) && a.term == 1 && AppendRequest(2, a) in Last(r).messages
    ensures (0, 2) in Last(r).calls && Last(r).calls[(0, 2)] == a
    ensures var c := Last(r).servers;
            && Is(c[0], 0, Leader, 1, 0, [NoEntry]) && Is(c[1], 1, Follower, 1, 0, [NoEntry])
            && Is(c[2], 2, Follower, 0, -1, [NoEntry])
  {
    var r0 := Run([Initial(3)], []);
    var r1 := Stands(r0, 0, Follower, 0, -1, [NoEntry]);
    var r2 := Grants(r1, 0, 1, Follower, 0, -1, [NoEntry]);
    var r3 := Wins(r2, 0, 1, 1, [NoEntry]);
    var s := Last(r3).servers[0];
    assert RequestFor(s, 2) == Request(AppendArgs(1, 0, 0, 0, [], s.commitIndex));
    a := RequestFor(s, 2).args;
    r := Next(r3, SendAppend(0, 2));
  }

  /** Server 0 votes for server 1 in term 2. */
  lemma SecondTerm() returns (r: Run, a: AppendArgs)
    ensures Reached(r) && a.term == 1 && AppendRequest(2, a) in Last(r).messages
    ensures (0, 2) in Last(r).calls && Last(r).calls[(0, 2)] == a
    ensures var c := Last(r).servers;
            && Is(c[0], 0, Follower, 2, 1, [NoEntry]) && Is(c[1], 1, Candidate, 2, 1, [NoEntry])
            && Is(c[2], 2, Follower, 0, -1, [NoEntry])
  {
    var r1, b := LateRequest();
    var r2 := Stands(r1, 1, Follower, 1, 0, [NoEntry]);
    r := Grants(r2, 1, 0, Leader, 1, 0, [NoEntry]);
    a := b;
  }

  /** Server 2 leads term 3 with the vote of server 1. */
  lemma ThirdTerm() returns (r: Run, a: AppendArgs)
    ensures Reached(r) && a.term == 1 && AppendRequest(2, a) in Last(r).messages
    ensures (0, 2) in Last(r).calls && Last(r).calls[(0, 2)] == a
    ensures var c := Last(r).servers;
            && Is(c[0], 0, Follower, 2, 1, [NoEntry]) && Is(c[1], 1, Follower, 3, 2, [NoEntry])
            && Is(c[2], 2, Leader, 3, 2, [NoEntry]) && |c[2].nextIndex| == 3 && c[2].nextIndex[0] == 1
  {
    var r1, b := SecondTerm();
    var r2 := Stands(r1, 2, Follower, 0, -1, [NoEntry]);
    var r3 := Stands(r2, 2, Candidate, 1, 2, [NoEntry]);
    var r4 := Stands(r3, 2, Candidate, 2, 2, [NoEntry]);
    var r5 := Grants(r4, 2, 1, Candidate, 2, 1, [NoEntry]);
    r := Wins(r5, 2, 1, 3, [NoEntry]);
    a := b;
  }

  /** Server 0 takes over an entry of term 3 and keeps its vote. */
  lemma Replicates() returns (r: Run, a: AppendArgs)
    ensures Reached(r) && a.term == 1 && AppendRequest(2, a) in Last(r).messages
    ensures (0, 2) in Last(r).calls && Last(r).calls[(0, 2)] == a
    ensures var c := Last(r).servers;
            && Is(c[0], 0, Follower, 3, 1, [NoEntry, LogEntry(9, 3)]) && Is(c[1], 1, Follower, 3, 2, [NoEntry])
            && Is(c[2], 2, Leader, 3, 2, [NoEntry, LogEntry(9, 3)])
  {
    var r1, b := ThirdTerm();
    a := b;
    var r2 := Next(r1, Propose(2, 9));
    var s := Last(r2).servers[2];
    assert s.log == [NoEntry, LogEntry(9, 3)] && s.nextIndex[0] == 1;
    var d := AppendArgs(3, 2, 0, 0, [LogEntry(9, 3)], s.commitIndex);
    assert RequestFor(s, 0) == Request(d);
    var r3 := Next(r2, SendAppend(2, 0));
    r := Next(r3, DeliverAppend(0, d));
    TakesOver(Last(r3).servers[0], d);
  }

  lemma TakesOver(s: Server, d: AppendArgs)
    requires Is(s, 0, Follower, 2, 1, [NoEntry]) && d == AppendArgs(3, 2, 0, 0, [LogEntry(9, 3)], d.leaderCommit)
    ensures Is(OnAppend(s, d).0, 0, Follower, 3, 1, [NoEntry, LogEntry(9, 3)])
  {
    assert s.log[..1] + d.entries == [NoEntry, LogEntry(9, 3)];
  }

  /** The late answer of server 2 takes server 0 to term 4, and it keeps its vote. */
  lemma LateAnswer() returns (r: Run)
    ensures Reached(r)
    ensures var c := Last(r).servers;
            Is(c[0], 0, Follower, 4, 1, [NoEntry, LogEntry(9, 3)]) && Is(c[1], 1, Follower, 3, 2, [NoEntry])
  {
    var r1, a := Replicates();
    var log := [NoEntry, LogEntry(9, 3)];
    var r2 := Next(r1, Crash(2));
    assert Is(Last(r2).servers[2], 2, Follower, 3, 2, log);
    assert Last(r2).calls[(0, 2)] == a;
    var r3 := Stands(r2, 2, Follower, 3, 2, log);
    var r4 := Next(r3, DeliverAppend(2, a));
    var reply := OnAppend(Last(r3).servers[2], a).1;
    assert reply.term == 4;
    r := Next(r4, DeliverAppendReply(0, 2, a, reply));
  }

  /** Server 1 wins term 4 with the repeated vote of server 0, whose log is later. */
  lemma StaleVoteWins() returns (run: Run, k: nat)
    ensures run.Valid(3) && run.SnapshotFree() && k + 1 < |run.states| && run.events[k] == Win(1, {0})
    ensures |run.states[k].servers| == |run.states[k + 1].servers| == 3 && run.states[k + 1].servers[1].role.Leader?
    ensures !Covers(run.states[k].servers[0], run.states[k].servers[1])
  {
    var r1 := LateAnswer();
    var r2 := Stands(r1, 1, Follower, 3, 2, [NoEntry]);
    var a := VoteArgsOf(Last(r2).servers[1]);
    var r3 := Next(r2, DeliverVote(0, a));
    assert VoteReply(0, a, true) in Last(r3).messages;
    run := Wins(r3, 1, 0, 4, [NoEntry]);
    k := |r3.states| - 1;
    assert run.states[k] == Last(r3) && |run.states| == |run.events| + 1 && |r3.states| == |r3.events| + 1;
  }
}
