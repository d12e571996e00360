/** A run of a cluster in which a compacted log accepts a request that the uncompacted log would reject. */
module RaftWitness {
  import opened RaftServer
  import opened RaftNetwork

  ghost function Last(run: Run): Cluster
    requires run.states != []
  {
    run.states[|run.states| - 1]
  }

  lemma Extend(run: Run, n: nat, e: Event) returns (r: Run)
    requires run.Valid(n) && Enabled(Last(run), e)
    ensures r.Valid(n) && r.states == run.states + [After(Last(run), e)] && r.events == run.events + [e]
    ensures run.SnapshotFree() && !e.Save? ==> r.SnapshotFree()
  {
    r := Run(run.states + [After(Last(run), e)], run.events + [e]);
    forall k | 0 <= k < |r.events|
      ensures r.StepAt(k)
    {
      if k < |run.events| {
        assert run.StepAt(k);
      }
    }
  }

  /** A server that has given its vote. */
  function Voted(s: Server, a: VoteArgs): Server {
    s.(term := a.term, role := Follower, voteFor := a.candidate).Persist()
  }

  ghost predicate Votes(s: Server, a: VoteArgs) {
    s.term < a.term && UpToDate(s, a)
  }

  lemma Vote(run: Run, n: nat, v: nat, a: VoteArgs) returns (r: Run)
    requires run.Valid(n) && v < |Last(run).servers| && VoteRequest(v, a) in Last(run).messages
    requires Votes(Last(run).servers[v], a)
    ensures r.Valid(n) && |r.states| == |run.states| + 1 && IsExtension(run, r)
    ensures Last(r).servers == Last(run).servers[v := Voted(Last(run).servers[v], a)]
    ensures Last(r).messages == Last(run).messages + {VoteReply(v, a, true)}
  {
    r := Extend(run, n, DeliverVote(v, a));
  }

  ghost predicate IsExtension(run: Run, r: Run) {
    |run.states| <= |r.states| && r.states[..|run.states|] == run.states
  }

  lemma Stand(run: Run, n: nat, i: nat) returns (r: Run)
    requires run.Valid(n) && i < |Last(run).servers| == n && !Last(run).servers[i].role.Leader?
    ensures r.Valid(n) && |r.states| == |run.states| + 1 && IsExtension(run, r)
    ensures Last(r).servers == Last(run).servers[i := OnElectionTimeout(Last(run).servers[i])]
    ensures forall p: nat :: p < n && p != i ==>
      VoteRequest(p, VoteArgsOf(OnElectionTimeout(Last(run).servers[i]))) in Last(r).messages
  {
    r := Extend(run, n, ElectionTimeout(i));
  }

  lemma WinWith(run: Run, n: nat, i: nat, v: nat, w: nat, a: VoteArgs) returns (r: Run)
    requires run.Valid(n) && |Last(run).servers| == n <= 5 && i < n && v < n && w < n && i != v && i != w && v != w
    requires VoteReply(v, a, true) in Last(run).messages && VoteReply(w, a, true) in Last(run).messages
    requires var s := Last(run).servers[i]; s.role.Candidate? && s.me == i == a.candidate && s.term == a.term
    ensures r.Valid(n) && |r.states| == |run.states| + 1 && IsExtension(run, r)
    ensures Last(r).servers == Last(run).servers[i := OnElected(Last(run).servers[i])]
  {
    assert |{v, w}| == 2;
    assert HasVote(Last(run), Last(run).servers[i], v) && HasVote(Last(run), Last(run).servers[i], w);
    r := Extend(run, n, Win(i, {v, w}));
  }

  /** The servers after `i` has stood for election and won with the votes of `v` and `w`. */
  ghost function Elected(servers: seq<Server>, i: nat, v: nat, w: nat): seq<Server>
    requires i < |servers| && v < |servers| && w < |servers|
  {
    var t := OnElectionTimeout(servers[i]);
    var a := VoteArgsOf(t);
    servers[i := t][v := Voted(servers[v], a)][w := Voted(servers[w], a)][i := OnElected(t)]
  }

  ghost predicate CanWin(servers: seq<Server>, i: nat, v: nat, w: nat) {
    && |servers| <= 5 && i < |servers| && v < |servers| && w < |servers| && i != v && i != w && v != w
    && servers[i].me == i && !servers[i].role.Leader?
    && var a := VoteArgsOf(OnElectionTimeout(servers[i]));
       Votes(servers[v], a) && Votes(servers[w], a)
  }

  lemma Elect(run: Run, n: nat, i: nat, v: nat, w: nat) returns (r: Run)
    requires run.Valid(n) && |Last(run).servers| == n && CanWin(Last(run).servers, i, v, w)
    ensures r.Valid(n) && |r.states| == |run.states| + 4 && IsExtension(run, r)
    ensures Last(r).servers == Elected(Last(run).servers, i, v, w)
  {
    var t := OnElectionTimeout(Last(run).servers[i]);
    var a := VoteArgsOf(t);
    var r1 := Stand(run, n, i);
    var r2 := Vote(r1, n, v, a);
    var r3 := Vote(r2, n, w, a);
    r := WinWith(r3, n, i, v, w, a);
    Extends(run, r1, r2);
    Extends(run, r2, r3);
    Extends(run, r3, r);
  }

  lemma Extends(a: Run, b: Run, c: Run)
    requires IsExtension(a, b) && IsExtension(b, c)
    ensures IsExtension(a, c)
  {
  }

  /** One more event, seen from the servers and the messages. */
  lemma Do(run: Run, n: nat, e: Event) returns (r: Run)
    requires run.Valid(n) && Enabled(Last(run), e)
    ensures r.Valid(n) && |r.states| == |run.states| + 1 && IsExtension(run, r) && r.events == run.events + [e]
    ensures var (c, s) := (Last(run), Last(run).servers[e.server]);
            && Last(r).servers == c.servers[e.server := NewServer(s, e)]
            && Last(r).messages == c.messages + Sent(c, s, e)
  {
    r := Extend(run, n, e);
  }

  /** A follower or a server that has just started, with the log that is given. */
  ghost predicate Holds(s: Server, i: nat, term: int, log: seq<LogEntry>) {
    s.me == i && s.peers == 5 && s.role.Follower? && s.term == term && s.log == log && s.snapIndex == 0 &&
      s.disk == s.Saved()
  }

  /** A leader with the log that is given, whose next request to server 0 starts at `next`. */
  ghost predicate Leads(s: Server, i: nat, term: int, log: seq<LogEntry>, next: int) {
    && s.me == i && s.peers == 5 && s.role.Leader? && s.term == term && s.log == log && s.snapIndex == 0
    && s.disk == s.Saved() && |s.nextIndex| == 5 && s.nextIndex[0] == next
  }

  lemma WinnerLeads(s: Server, i: nat, term: int, log: seq<LogEntry>)
    requires Holds(s, i, term, log)
    ensures Leads(OnElected(OnElectionTimeout(s)), i, term + 1, log, |log|)
  {
  }

  lemma ProposerLeads(s: Server, i: nat, term: int, log: seq<LogEntry>, next: int, c: int)
    requires Leads(s, i, term, log, next) && i != 0
    ensures Leads(OnStart(s, c), i, term, log + [LogEntry(c, term)], next)
  {
  }

  lemma RestartedHolds(s: Server, i: nat, term: int, log: seq<LogEntry>, next: int)
    requires Leads(s, i, term, log, next)
    ensures Holds(Restart(s), i, term, log)
  {
  }

  lemma VoterHolds(s: Server, i: nat, term: int, log: seq<LogEntry>, a: VoteArgs)
    requires Holds(s, i, term, log)
    ensures Holds(Voted(s, a), i, a.term, log)
  {
  }

  /** An election in which all have the logs that are given. */
  lemma Election(run: Run, i: nat, v: nat, w: nat, term: int, log: seq<LogEntry>, t: int) returns (r: Run)
    requires run.Valid(5) && |Last(run).servers| == 5 && i < 5 && v < 5 && w < 5 && i != v && i != w && v != w
    requires Holds(Last(run).servers[i], i, term, log) && t <= term && 0 < |log| && log[|log| - 1].term >= 0
    requires Holds(Last(run).servers[v], v, t, [NoEntry]) && Holds(Last(run).servers[w], w, t, [NoEntry])
    ensures r.Valid(5) && IsExtension(run, r) && |Last(r).servers| == 5
    ensures Leads(Last(r).servers[i], i, term + 1, log, |log|)
    ensures Holds(Last(r).servers[v], v, term + 1, [NoEntry]) && Holds(Last(r).servers[w], w, term + 1, [NoEntry])
    ensures forall j :: 0 <= j < 5 && j != i && j != v && j != w ==> Last(r).servers[j] == Last(run).servers[j]
  {
    var (c, a) := (Last(run).servers, VoteArgsOf(OnElectionTimeout(Last(run).servers[i])));
    WinnerLeads(c[i], i, term, log);
    VoterHolds(c[v], v, t, [NoEntry], a);
    VoterHolds(c[w], w, t, [NoEntry], a);
    r := Elect(run, 5, i, v, w);
  }

  /** Server 1 leads term 1 with the votes of 0 and 2, and has an entry of its own. */
  lemma FirstElection() returns (r: Run)
    ensures r.Valid(5) && |Last(r).servers| == 5
    ensures var servers := Last(r).servers;
            && Holds(servers[0], 0, 1, [NoEntry]) && Holds(servers[2], 2, 1, [NoEntry])
            && Holds(servers[3], 3, 0, [NoEntry]) && Holds(servers[4], 4, 0, [NoEntry])
            && Leads(servers[1], 1, 1, [NoEntry, LogEntry(7, 1)], 1)
  {
    var r0 := Run([Initial(5)], []);
    var r1 := Election(r0, 1, 0, 2, 0, [NoEntry], 0);
    ProposerLeads(Last(r1).servers[1], 1, 1, [NoEntry], 1, 7);
    r := Do(r1, 5, Propose(1, 7));
  }

  /** Server 0 accepts the entry. */
  lemma FirstTerm() returns (r: Run)
    ensures r.Valid(5) && |Last(r).servers| == 5
    ensures var servers := Last(r).servers;
            && Holds(servers[0], 0, 1, [NoEntry, LogEntry(7, 1)]) && Holds(servers[2], 2, 1, [NoEntry])
            && Holds(servers[3], 3, 0, [NoEntry]) && Holds(servers[4], 4, 0, [NoEntry])
  {
    var r1 := FirstElection();
    var (s, t) := (Last(r1).servers[1], Last(r1).servers[0]);
    var a := AppendArgs(1, 1, 0, 0, [LogEntry(7, 1)], s.commitIndex);
    assert RequestFor(s, 0) == Request(a);
    var r2 := Do(r1, 5, SendAppend(1, 0));
    r := Do(r2, 5, DeliverAppend(0, a));
    assert Last(r).servers[0] == OnAppend(t, a).0;
    FirstAppend(t, a);
  }

  lemma FirstAppend(t: Server, a: AppendArgs)
    requires Holds(t, 0, 1, [NoEntry]) && a == AppendArgs(1, 1, 0, 0, [LogEntry(7, 1)], a.leaderCommit)
    ensures Holds(OnAppend(t, a).0, 0, 1, [NoEntry, LogEntry(7, 1)])
  {
    assert t.log[..1] + a.entries == [NoEntry, LogEntry(7, 1)];
  }

  /** Server 2 leads term 2 with the votes of 3 and 4, adds an entry of its own, and comes back to lead term 3. */
  lemma LaterTerms(run: Run) returns (r: Run)
    requires run.Valid(5) && |Last(run).servers| == 5 && Holds(Last(run).servers[2], 2, 1, [NoEntry])
    requires Holds(Last(run).servers[3], 3, 0, [NoEntry]) && Holds(Last(run).servers[4], 4, 0, [NoEntry])
    ensures r.Valid(5) && IsExtension(run, r) && |Last(r).servers| == 5 && Last(r).servers[0] == Last(run).servers[0]
    ensures Leads(Last(r).servers[2], 2, 3, [NoEntry, LogEntry(8, 2)], 2)
  {
    var r1 := Election(run, 2, 3, 4, 1, [NoEntry], 0);
    ProposerLeads(Last(r1).servers[2], 2, 2, [NoEntry], 1, 8);
    var r2 := Do(r1, 5, Propose(2, 8));
    RestartedHolds(Last(r2).servers[2], 2, 2, [NoEntry, LogEntry(8, 2)], 1);
    var r3 := Do(r2, 5, Crash(2));
    r := Election(r3, 2, 3, 4, 2, [NoEntry, LogEntry(8, 2)], 2);
    Extends(run, r1, r2);
    Extends(run, r2, r3);
    Extends(run, r3, r);
  }

  /** A run with a snapshot in which a request arrives that the server accepts only because it has dropped the entry
      that the request contradicts: without the snapshot it would reject it. */
  lemma StaleTermIsAccepted() returns (run: Run, k: nat, a: AppendArgs)
    ensures run.Valid(5) && k + 1 < |run.states| && |run.states[k].servers| == 5 && |Last(run).servers| == 5
    ensures Enabled(Last(run), DeliverAppend(0, a))
    ensures var (u, s) := (run.states[k].servers[0], Last(run).servers[0]);
            && s == OnSaveSnapshot(u, 1, []) && u.snapIndex == 0 && u.LastIndex() == 1 == a.prevIndex
            && OnAppend(s, a).1.success && !OnAppend(u, a).1.success
  {
    var r1 := FirstTerm();
    var u := Last(r1).servers[0];
    k := |r1.states| - 1;
    var r2 := Do(r1, 5, Save(0, 1, []));
    var r3 := LaterTerms(r2);
    var leader := Last(r3).servers[2];
    run := Do(r3, 5, SendAppend(2, 0));
    a := AppendArgs(3, 2, 1, 2, [], leader.commitIndex);
    assert RequestFor(leader, 0) == Request(a);
    Extends(r1, r2, r3);
    Extends(r1, r3, run);
    assert run.states[k] == Last(r1);
  }
}
