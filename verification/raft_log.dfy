/** Log replication in runs without snapshots: every log is made of pieces of leaders' logs. */
module RaftLog {
  import opened Collections
  import opened RaftServer
  import opened RaftNetwork
  import opened RaftElection

  /** The log of the leader of a term. Entries from `base` on were proposed in that term. */
  datatype LeaderLog = LeaderLog(base: nat, log: seq<LogEntry>)

  type Logs = map<int, LeaderLog>

  /** Winning a term or proposing in it changes the log of its leader; nothing else does. */
  ghost function NewLogs(logs: Logs, s: Server, e: Event): Logs {
    if e.Win? then logs[s.term := LeaderLog(|s.log|, s.log)]
    else if e.Propose? && s.role.Leader? && s.term in logs then
      logs[s.term := logs[s.term].(log := OnStart(s, e.command).log)]
    else logs
  }

  /** Up to its entry at `i`, `log` is the log of the leader in whose term that entry was proposed. */
  ghost predicate Canonical(logs: Logs, log: seq<LogEntry>, i: nat)
    requires i < |log|
  {
    var t := log[i].term;
    t >= 1 && t in logs && IsPrefix(log[..i + 1], logs[t].log)
  }

  ghost predicate LogOk(logs: Logs, log: seq<LogEntry>) {
    log != [] && log[0] == NoEntry && forall i :: 1 <= i < |log| ==> Canonical(logs, log, i)
  }

  ghost predicate TermsAtMost(log: seq<LogEntry>, t: int) {
    forall i :: 0 <= i < |log| ==> log[i].term <= t
  }

  ghost predicate LeaderLogOk(logs: Logs, t: int)
    requires t in logs
  {
    var l := logs[t];
    && t >= 1 && LogOk(logs, l.log) && 1 <= l.base <= |l.log| && TermsAtMost(l.log, t)
    && (forall i :: l.base <= i < |l.log| ==> l.log[i].term == t)
  }

  /** A request is a piece of its leader's log that reaches at least to where that log began. */
  ghost predicate RequestOk(logs: Logs, a: AppendArgs) {
    && a.term in logs && 0 <= a.prevIndex
    && var (l, end) := (logs[a.term], a.prevIndex + 1 + |a.entries|);
       && l.base <= end <= |l.log| && a.prevTerm == l.log[a.prevIndex].term
       && a.entries == l.log[a.prevIndex + 1..end]
  }

  /** An answer is a mismatch if the follower's log lacks or contradicts the entry before the request's. */
  predicate Mismatch(r: AppendReply) {
    !r.success && r.nextIndex != -1 && r.term == 0
  }

  /** A mismatch points back into the part of the log that the request did not cover. */
  ghost predicate AnswerOk(a: AppendArgs, r: AppendReply) {
    && (r.term == 0 || r.term > a.term)
    && (Mismatch(r) ==> if r.xLen != -1 then 1 <= r.xLen <= a.prevIndex else 1 <= r.xIndex <= a.prevIndex)
  }

  ghost predicate ServerLogInv(logs: Logs, s: Server, n: nat) {
    && s.peers == n && s.snapIndex == 0 && s.disk.snapIndex == 0 && s.disk.log == s.log && LogOk(logs, s.log)
    && 0 <= s.disk.term == s.term && (s.role.Candidate? ==> s.term >= 1) && TermsAtMost(s.log, s.term)
    && (s.role.Leader? ==> LeadsOk(logs, s, n))
  }

  ghost predicate LeadsOk(logs: Logs, s: Server, n: nat) {
    && s.term in logs && logs[s.term].log == s.log
    && |s.nextIndex| == n && (forall p :: 0 <= p < n ==> 1 <= s.nextIndex[p] <= |s.log|)
    && |s.matchIndex| == n && (s.me < n ==> s.matchIndex[s.me] == s.LastIndex())
  }

  ghost predicate MessageOk(logs: Logs, m: Message) {
    match m
    case AppendRequest(_, a) => RequestOk(logs, a)
    case AppendAnswer(_, a, r) => AnswerOk(a, r)
    case InstallRequest(_, _) => false
    case _ => true
  }

  /** While a leader waits for an answer, its `nextIndex` is the one it sent the request for. */
  ghost predicate CallOk(logs: Logs, s: Server, p: nat, a: AppendArgs) {
    && RequestOk(logs, a) && p != s.me
    && (s.role.Leader? && s.term == a.term && p < |s.nextIndex| ==> s.nextIndex[p] == a.prevIndex + 1)
  }

  // Growing logs

  ghost predicate Grows(logs: Logs, more: Logs) {
    forall t :: t in logs ==> t in more && more[t].base == logs[t].base && IsPrefix(logs[t].log, more[t].log)
  }

  lemma GrowsLogOk(logs: Logs, more: Logs, log: seq<LogEntry>)
    requires Grows(logs, more) && LogOk(logs, log)
    ensures LogOk(more, log)
  {
    forall i | 1 <= i < |log|
      ensures Canonical(more, log, i)
    {
      assert Canonical(logs, log, i);
      var t := log[i].term;
      assert IsPrefix(logs[t].log, more[t].log);
      assert more[t].log[..i + 1] == logs[t].log[..i + 1];
    }
  }

  lemma GrowsRequestOk(logs: Logs, more: Logs, a: AppendArgs)
    requires Grows(logs, more) && RequestOk(logs, a) && LeaderLogOk(logs, a.term)
    ensures RequestOk(more, a)
  {
  }

  lemma PrefixLogOk(logs: Logs, log: seq<LogEntry>, k: nat)
    requires LogOk(logs, log) && 0 < k <= |log|
    ensures LogOk(logs, log[..k])
  {
    forall i | 1 <= i < k
      ensures Canonical(logs, log[..k], i)
    {
      assert Canonical(logs, log, i);
      assert log[..k][..i + 1] == log[..i + 1];
    }
  }

  /** Log Matching for two logs: an entry in common means that everything before is in common. */
  lemma SamePrefix(logs: Logs, a: seq<LogEntry>, b: seq<LogEntry>, i: nat)
    requires LogOk(logs, a) && LogOk(logs, b) && i < |a| && i < |b| && a[i].term == b[i].term
    ensures a[..i + 1] == b[..i + 1]
  {
    if i > 0 {
      assert Canonical(logs, a, i) && Canonical(logs, b, i);
    }
  }

  /** An accepted request leaves the follower with a piece of the leader's log, from the start. */
  lemma AcceptedLog(logs: Logs, s: Server, a: AppendArgs, n: nat)
    requires ServerLogInv(logs, s, n) && RequestOk(logs, a) && LeaderLogOk(logs, a.term) && OnAppend(s, a).1.success
    ensures OnAppend(s, a).0.log == logs[a.term].log[..a.prevIndex + 1 + |a.entries|]
  {
    var (l, p) := (logs[a.term].log, a.prevIndex);
    assert s.log[..p + 1] == l[..p + 1] by {
      if p > 0 {
        SamePrefix(logs, s.log, l, p);
      }
    }
    assert l[..p + 1] + l[p + 1..p + 1 + |a.entries|] == l[..p + 1 + |a.entries|];
  }

  // Steps

  lemma AppendStep(logs: Logs, s: Server, n: nat, a: AppendArgs)
    requires ServerLogInv(logs, s, n) && RequestOk(logs, a) && LeaderLogOk(logs, a.term)
    ensures ServerLogInv(logs, OnAppend(s, a).0, n) && AnswerOk(a, OnAppend(s, a).1)
  {
    if OnAppend(s, a).1.success {
      AcceptedLog(logs, s, a, n);
      PrefixLogOk(logs, logs[a.term].log, a.prevIndex + 1 + |a.entries|);
    }
  }

  /** No entry has term 0, so the leader never finds the term it looks for and goes back to `xIndex`. */
  lemma BackUpBounds(logs: Logs, s: Server, n: nat, a: AppendArgs, r: AppendReply)
    requires ServerLogInv(logs, s, n) && AnswerOk(a, r) && Mismatch(r)
    ensures 1 <= BackUp(s, r) <= a.prevIndex
  {
    forall i | 1 <= i < |s.log|
      ensures s.log[i].term != 0
    {
      assert Canonical(logs, s.log, i);
    }
  }

  lemma ReplyStep(logs: Logs, s: Server, n: nat, p: nat, a: AppendArgs, r: AppendReply)
    requires ServerLogInv(logs, s, n) && CallOk(logs, s, p, a) && AnswerOk(a, r)
    ensures ServerLogInv(logs, OnAppendReply(s, p, a, r).0, n) && !OnAppendReply(s, p, a, r).1
  {
    if Mismatch(r) {
      BackUpBounds(logs, s, n, a, r);
    }
  }

  lemma WinLogStep(logs: Logs, s: Server, n: nat, e: Event)
    requires ServerLogInv(logs, s, n) && e.Win? && s.role.Candidate? && s.term !in logs
    ensures Grows(logs, NewLogs(logs, s, e))
    ensures LeaderLogOk(NewLogs(logs, s, e), s.term) && ServerLogInv(NewLogs(logs, s, e), OnElected(s), n)
  {
    GrowsLogOk(logs, NewLogs(logs, s, e), s.log);
  }

  lemma ProposeStep(logs: Logs, s: Server, n: nat, e: Event)
    requires ServerLogInv(logs, s, n) && e.Propose? && s.role.Leader? && LeadsOk(logs, s, n) &&
      LeaderLogOk(logs, s.term)
    ensures Grows(logs, NewLogs(logs, s, e))
    ensures LeaderLogOk(NewLogs(logs, s, e), s.term) && ServerLogInv(NewLogs(logs, s, e), OnStart(s, e.command), n)
  {
    var (more, log) := (NewLogs(logs, s, e), OnStart(s, e.command).log);
    assert log == s.log + [LogEntry(e.command, s.term)];
    assert IsPrefix(s.log, log);
    GrowsLogOk(logs, more, s.log);
    forall i | 1 <= i < |log|
      ensures Canonical(more, log, i)
    {
      if i < |s.log| {
        assert Canonical(more, s.log, i);
        assert log[..i + 1] == s.log[..i + 1];
      } else {
        assert log[..i + 1] == log;
      }
    }
  }

  // The whole cluster

  ghost predicate LogInv(past: Past, logs: Logs, c: Cluster) {
    && logs.Keys == past.leaders.Keys && c.installs == {}
    && (forall t :: t in logs ==> LeaderLogOk(logs, t))
    && (forall i :: 0 <= i < |c.servers| ==> ServerLogInv(logs, c.servers[i], |c.servers|))
    && (forall m :: m in c.messages ==> MessageOk(logs, m))
    && (forall k :: k in c.calls ==> k.0 < |c.servers| && CallOk(logs, c.servers[k.0], k.1, c.calls[k]))
  }

  /** What holds of an event of a run without snapshots. */
  ghost predicate EventOk(logs: Logs, s: Server, e: Event) {
    match e
    case Win(_, _) => s.role.Candidate? && s.term !in logs
    case DeliverAppend(_, a) => RequestOk(logs, a) && LeaderLogOk(logs, a.term)
    case DeliverAppendReply(_, p, a, r) => CallOk(logs, s, p, a) && AnswerOk(a, r)
    case Save(_, _, _) => false
    case SendInstall(_, _) => false
    case DeliverInstall(_, _) => false
    case DeliverInstallReply(_, _, _, _) => false
    case _ => true
  }

  lemma EventIsOk(past: Past, logs: Logs, c: Cluster, e: Event)
    requires ElectionInv(past, c) && LogInv(past, logs, c) && Enabled(c, e) && !e.Save?
    ensures EventOk(logs, c.servers[e.server], e)
  {
    match e
    case Win(_, _) =>
      LeadersKept(past, c, e);
    case DeliverAppend(i, a) =>
      assert MessageOk(logs, AppendRequest(i, a));
    case DeliverAppendReply(i, p, a, r) =>
      assert MessageOk(logs, AppendAnswer(p, a, r)) && CallOk(logs, c.servers[i], p, c.calls[(i, p)]);
    case _ =>
  }

  lemma QuietStep(logs: Logs, s: Server, n: nat, e: Event)
    requires ServerLogInv(logs, s, n)
    requires e.ElectionTimeout? || e.DeliverVote? || e.SendAppend? || e.Crash? || (e.Propose? && !s.role.Leader?)
    ensures NewLogs(logs, s, e) == logs && ServerLogInv(logs, NewServer(s, e), n)
  {
  }

  /** A step by one server keeps what is known about its log, and the leaders' logs only grow. */
  lemma MoverStep(logs: Logs, s: Server, n: nat, e: Event)
    requires ServerLogInv(logs, s, n) && EventOk(logs, s, e) && (s.term in logs ==> LeaderLogOk(logs, s.term))
    ensures var more := NewLogs(logs, s, e);
            Grows(logs, more) && ServerLogInv(more, NewServer(s, e), n) &&
              (s.term in more ==> LeaderLogOk(more, s.term))
  {
    match e
    case Win(_, _) => WinLogStep(logs, s, n, e);
    case DeliverAppend(_, a) => AppendStep(logs, s, n, a);
    case DeliverAppendReply(_, p, a, r) => ReplyStep(logs, s, n, p, a, r);
    case Propose(_, _) =>
      if s.role.Leader? {
        ProposeStep(logs, s, n, e);
      } else {
        QuietStep(logs, s, n, e);
      }
    case _ => QuietStep(logs, s, n, e);
  }

  lemma LeaderLogsStep(logs: Logs, s: Server, n: nat, e: Event, t: int)
    requires ServerLogInv(logs, s, n) && EventOk(logs, s, e) && (s.term in logs ==> LeaderLogOk(logs, s.term))
    requires t in NewLogs(logs, s, e) && (t in logs ==> LeaderLogOk(logs, t))
    ensures LeaderLogOk(NewLogs(logs, s, e), t)
  {
    MoverStep(logs, s, n, e);
    var more := NewLogs(logs, s, e);
    if t != s.term {
      GrowsLogOk(logs, more, logs[t].log);
    }
  }

  /** The other servers: a leader's log changes only by its own steps. */
  lemma OthersStep(logs: Logs, more: Logs, s: Server, n: nat)
    requires ServerLogInv(logs, s, n) && Grows(logs, more)
    requires s.role.Leader? && s.term in logs ==> more[s.term] == logs[s.term]
    ensures ServerLogInv(more, s, n)
  {
    GrowsLogOk(logs, more, s.log);
  }

  /** What a leader sends is a piece of its log. */
  lemma SentRequestOk(logs: Logs, s: Server, n: nat, p: nat)
    requires ServerLogInv(logs, s, n) && s.role.Leader? && s.term in logs && LeaderLogOk(logs, s.term) && p < n
    ensures RequestFor(s, p).Request? && RequestOk(logs, RequestFor(s, p).args)
    ensures RequestFor(s, p).args.prevIndex == s.nextIndex[p] - 1 && RequestFor(s, p).args.term == s.term
    ensures RequestFor(s, p).args.prevIndex + |RequestFor(s, p).args.entries| == s.LastIndex()
  {
  }

  lemma SentOk(logs: Logs, c: Cluster, n: nat, e: Event, m: Message)
    requires Enabled(c, e) && n == |c.servers| && ServerLogInv(logs, c.servers[e.server], n) &&
      EventOk(logs, c.servers[e.server], e)
    requires c.servers[e.server].term in logs ==> LeaderLogOk(logs, c.servers[e.server].term)
    requires m in Sent(c, c.servers[e.server], e)
    ensures MessageOk(logs, m)
  {
    var s := c.servers[e.server];
    match e
    case SendAppend(_, p) => SentRequestOk(logs, s, n, p);
    case DeliverAppend(_, a) => AppendStep(logs, s, n, a);
    case _ =>
  }

  lemma GrowsMessageOk(logs: Logs, more: Logs, m: Message)
    requires MessageOk(logs, m) && Grows(logs, more) && forall t :: t in logs ==> LeaderLogOk(logs, t)
    ensures MessageOk(more, m)
  {
  }

  /** Most steps leave a leader's indices alone or end its leadership. */
  lemma IndicesKept(s: Server, e: Event)
    requires !e.Propose? && !e.DeliverAppendReply? && !e.DeliverInstallReply? && !e.Win?
    ensures var t := NewServer(s, e);
            t.me == s.me && (t.role.Leader? ==> s.role.Leader? && t.term == s.term && t.nextIndex == s.nextIndex)
  {
  }

  lemma AnswerKeepsOthers(s: Server, e: Event, p: nat)
    requires e.DeliverAppendReply? && e.peer != p
    ensures var t := NewServer(s, e);
            && t.me == s.me && |t.nextIndex| == |s.nextIndex|
            && (t.role.Leader? ==>
                  s.role.Leader? && t.term == s.term && (p < |t.nextIndex| ==> t.nextIndex[p] == s.nextIndex[p]))
  {
  }

  lemma CallKept(logs: Logs, s: Server, n: nat, e: Event, p: nat, a: AppendArgs)
    requires ServerLogInv(logs, s, n) && EventOk(logs, s, e) && CallOk(logs, s, p, a)
    requires !e.Crash? && !(e.DeliverAppendReply? && e.peer == p)
    ensures var t := NewServer(s, e);
            t.me == s.me && (t.role.Leader? && t.term == a.term && p < |t.nextIndex| ==>
              t.nextIndex[p] == a.prevIndex + 1)
  {
    match e
    case DeliverAppendReply(_, _, _, _) => AnswerKeepsOthers(s, e, p);
    case Propose(_, _) =>
    case Win(_, _) =>
    case _ => IndicesKept(s, e);
  }

  /** A step of the cluster, seen from the logs. */
  ghost predicate Steps(past: Past, logs: Logs, c: Cluster, e: Event, more: Logs, c': Cluster) {
    && ElectionInv(past, c) && LogInv(past, logs, c) && Enabled(c, e) && !e.Save?
    && more == NewLogs(logs, c.servers[e.server], e) && c' == After(c, e)
  }

  lemma LogsStep(past: Past, logs: Logs, c: Cluster, e: Event, more: Logs, c': Cluster)
    requires Steps(past, logs, c, e, more, c')
    ensures EventOk(logs, c.servers[e.server], e) && Grows(logs, more)
    ensures ServerLogInv(more, c'.servers[e.server], |c.servers|)
    ensures forall t :: t in more ==> LeaderLogOk(more, t)
  {
    var (s, n) := (c.servers[e.server], |c.servers|);
    assert ServerLogInv(logs, s, n);
    EventIsOk(past, logs, c, e);
    AllLeaderLogs(logs, s, n, e);
  }

  lemma AllLeaderLogs(logs: Logs, s: Server, n: nat, e: Event)
    requires ServerLogInv(logs, s, n) && EventOk(logs, s, e) && forall t :: t in logs ==> LeaderLogOk(logs, t)
    ensures var more := NewLogs(logs, s, e);
            && Grows(logs, more) && ServerLogInv(more, NewServer(s, e), n)
            && forall t :: t in more ==> LeaderLogOk(more, t)
  {
    MoverStep(logs, s, n, e);
    var more := NewLogs(logs, s, e);
    forall t | t in more
      ensures LeaderLogOk(more, t)
    {
      LeaderLogsStep(logs, s, n, e, t);
    }
  }

  lemma ServersStep(past: Past, logs: Logs, c: Cluster, e: Event, more: Logs, c': Cluster, i: nat)
    requires Steps(past, logs, c, e, more, c') && Grows(logs, more) && i < |c.servers| && i != e.server
    ensures ServerLogInv(more, c'.servers[i], |c.servers|)
  {
    assert ServerInv(past, i, c.servers[i], |c.servers|) && ServerInv(past, e.server, c.servers[e.server], |c.servers|);
    EventIsOk(past, logs, c, e);
    assert ServerLogInv(logs, c.servers[i], |c.servers|);
    OthersStep(logs, more, c.servers[i], |c.servers|);
  }

  lemma MessagesStep(past: Past, logs: Logs, c: Cluster, e: Event, more: Logs, c': Cluster, m: Message)
    requires Steps(past, logs, c, e, more, c') && Grows(logs, more) && m in c'.messages
    ensures MessageOk(more, m)
  {
    var s := c.servers[e.server];
    assert ServerLogInv(logs, s, |c.servers|);
    if m !in c.messages {
      EventIsOk(past, logs, c, e);
      SentOk(logs, c, |c.servers|, e, m);
    }
    GrowsMessageOk(logs, more, m);
  }

  /** Where the calls after a step come from. */
  lemma CallSource(c: Cluster, e: Event, k: (nat, nat))
    requires Enabled(c, e) && k in NewCalls(c, c.servers[e.server], e)
    ensures var (s, a) := (c.servers[e.server], NewCalls(c, c.servers[e.server], e)[k]);
      || (e.SendAppend? && k == (e.server, e.peer) && RequestFor(s, e.peer) == Request(a))
      || (&& k in c.calls && c.calls[k] == a
          && (k.0 == e.server ==> !e.Crash? && !(e.DeliverAppendReply? && e.peer == k.1)))
  {
  }

  lemma OldCall(logs: Logs, c: Cluster, e: Event, more: Logs, k: (nat, nat))
    requires Enabled(c, e) && EventOk(logs, c.servers[e.server], e) &&
      ServerLogInv(logs, c.servers[e.server], |c.servers|)
    requires k in c.calls && k.0 < |c.servers| && CallOk(logs, c.servers[k.0], k.1, c.calls[k])
    requires LeaderLogOk(logs, c.calls[k].term) && Grows(logs, more)
    requires k.0 == e.server ==> !e.Crash? && !(e.DeliverAppendReply? && e.peer == k.1)
    ensures CallOk(more, After(c, e).servers[k.0], k.1, c.calls[k])
  {
    if k.0 == e.server {
      CallKept(logs, c.servers[k.0], |c.servers|, e, k.1, c.calls[k]);
    }
    GrowsRequestOk(logs, more, c.calls[k]);
  }

  lemma CallsStep(past: Past, logs: Logs, c: Cluster, e: Event, more: Logs, c': Cluster, k: (nat, nat))
    requires Steps(past, logs, c, e, more, c') && Grows(logs, more) && EventOk(logs, c.servers[e.server], e) &&
      k in c'.calls
    ensures k.0 < |c.servers| && CallOk(more, c'.servers[k.0], k.1, c'.calls[k])
  {
    var (s, n) := (c.servers[e.server], |c.servers|);
    assert ServerLogInv(logs, s, n) && ServerInv(past, e.server, s, n);
    CallSource(c, e, k);
    if e.SendAppend? && k == (e.server, e.peer) {
      SentRequestOk(logs, s, n, e.peer);
    } else {
      assert k.0 < n && CallOk(logs, c.servers[k.0], k.1, c.calls[k]);
      OldCall(logs, c, e, more, k);
    }
  }

  lemma InstallsStep(past: Past, logs: Logs, c: Cluster, e: Event, more: Logs, c': Cluster)
    requires Steps(past, logs, c, e, more, c') && EventOk(logs, c.servers[e.server], e)
    ensures c'.installs == {} && more.Keys == NewPast(past, c.servers[e.server], e).leaders.Keys
  {
    var (s, n) := (c.servers[e.server], |c.servers|);
    assert ServerLogInv(logs, s, n);
    if e.DeliverAppendReply? {
      ReplyStep(logs, s, n, e.peer, e.args, e.reply);
    }
  }

  lemma LogStep(past: Past, logs: Logs, c: Cluster, e: Event, more: Logs, c': Cluster)
    requires Steps(past, logs, c, e, more, c')
    ensures LogInv(NewPast(past, c.servers[e.server], e), more, c') && Grows(logs, more)
  {
    LogsStep(past, logs, c, e, more, c');
    InstallsStep(past, logs, c, e, more, c');
    forall i | 0 <= i < |c'.servers|
      ensures ServerLogInv(more, c'.servers[i], |c'.servers|)
    {
      if i != e.server {
        ServersStep(past, logs, c, e, more, c', i);
      }
    }
    forall m | m in c'.messages
      ensures MessageOk(more, m)
    {
      MessagesStep(past, logs, c, e, more, c', m);
    }
    forall k | k in c'.calls
      ensures k.0 < |c'.servers| && CallOk(more, c'.servers[k.0], k.1, c'.calls[k])
    {
      CallsStep(past, logs, c, e, more, c', k);
    }
  }
}
