/** A cluster of Raft servers as a step system. Messages stay in the network for ever once they are
    sent, so any of them can be delivered late, out of order, more than once, or never. */
module RaftNetwork {
  import opened RaftServer

  datatype Message =
    | VoteRequest(to: nat, voteArgs: VoteArgs)
    | VoteReply(voter: nat, voteArgs: VoteArgs, granted: bool)
    | AppendRequest(to: nat, args: AppendArgs)
    | AppendAnswer(from: nat, args: AppendArgs, reply: AppendReply)
    | InstallRequest(to: nat, installArgs: InstallArgs)
    | InstallAnswer(from: nat, installArgs: InstallArgs, term: int)

  /** `calls` holds, for a server and a peer, the request whose answer the server waits for; `installs`
      the peers to which a server is sending a snapshot. */
  datatype Cluster = Cluster(servers: seq<Server>, messages: set<Message>,
                             calls: map<(nat, nat), AppendArgs>, installs: set<(nat, nat)>)

  datatype Event =
    | ElectionTimeout(server: nat)
    | DeliverVote(server: nat, voteArgs: VoteArgs)
    | Win(server: nat, voters: set<nat>)
    | Propose(server: nat, command: int)
    | SendAppend(server: nat, peer: nat)
    | DeliverAppend(server: nat, args: AppendArgs)
    | DeliverAppendReply(server: nat, peer: nat, args: AppendArgs, reply: AppendReply)
    | Save(server: nat, index: int, data: Snapshot)
    | SendInstall(server: nat, peer: nat)
    | DeliverInstall(server: nat, installArgs: InstallArgs)
    | DeliverInstallReply(server: nat, peer: nat, installArgs: InstallArgs, term: int)
    | Crash(server: nat)

  ghost function Initial(n: nat): Cluster {
    Cluster(seq(n, i requires 0 <= i < n => Boot(i, n)), {}, map[], {})
  }

  /** The votes for the election of `s` in its current term that have arrived. */
  ghost predicate HasVote(c: Cluster, s: Server, v: nat) {
    exists a :: VoteReply(v, a, true) in c.messages && a.term == s.term && a.candidate == s.me
  }

  ghost predicate Enabled(c: Cluster, e: Event) {
    && e.server < |c.servers|
    && var s := c.servers[e.server];
       match e
       case ElectionTimeout(_) => true
       case DeliverVote(i, a) => VoteRequest(i, a) in c.messages
       case Win(i, voters) =>
         && s.role.Candidate? && |voters| >= |c.servers| / 2
         && (forall v :: v in voters ==> v != i && v < |c.servers| && HasVote(c, s, v))
       case Propose(_, _) => true
       case SendAppend(i, p) => s.role.Leader? && p != i && p < |c.servers|
       case DeliverAppend(i, a) => AppendRequest(i, a) in c.messages
       case DeliverAppendReply(i, p, a, r) =>
         (i, p) in c.calls && c.calls[(i, p)] == a && AppendAnswer(p, a, r) in c.messages
       case Save(_, index, _) => index <= s.LastIndex()
       case SendInstall(i, p) => (i, p) in c.installs
       case DeliverInstall(i, a) => InstallRequest(i, a) in c.messages
       case DeliverInstallReply(i, p, a, t) => (i, p) in c.installs && InstallAnswer(p, a, t) in c.messages
       case Crash(_) => true
  }

  /** The new state of the server that takes the step. */
  ghost function NewServer(s: Server, e: Event): Server {
    match e
    case ElectionTimeout(_) => OnElectionTimeout(s)
    case DeliverVote(_, a) => OnRequestVote(s, a).0
    case Win(_, _) => OnElected(s)
    case Propose(_, command) => OnStart(s, command)
    case SendAppend(_, _) => s
    case DeliverAppend(_, a) => OnAppend(s, a).0
    case DeliverAppendReply(_, p, a, r) => OnAppendReply(s, p, a, r).0
    case Save(_, index, data) => OnSaveSnapshot(s, index, data)
    case SendInstall(_, _) => s
    case DeliverInstall(_, a) => OnInstall(s, a).0
    case DeliverInstallReply(_, p, _, t) => OnInstallReply(s, p, t)
    case Crash(_) => Restart(s)
  }

  /** What the step adds to the network. */
  ghost function Sent(c: Cluster, s: Server, e: Event): set<Message> {
    match e
    case ElectionTimeout(i) =>
      if s.role.Leader? then {} else
      set p: nat | p < |c.servers| && p != i :: VoteRequest(p, VoteArgsOf(OnElectionTimeout(s)))
    case DeliverVote(i, a) => {VoteReply(i, a, OnRequestVote(s, a).1)}
    case SendAppend(_, p) =>
      (match RequestFor(s, p) case Request(a) => {AppendRequest(p, a)} case OutOfRange => {})
    case DeliverAppend(i, a) => {AppendAnswer(i, a, OnAppend(s, a).1)}
    case SendInstall(_, p) => {InstallRequest(p, InstallArgsOf(s))}
    case DeliverInstall(i, a) => {InstallAnswer(i, a, OnInstall(s, a).1)}
    case _ => {}
  }

  ghost function NewCalls(c: Cluster, s: Server, e: Event): map<(nat, nat), AppendArgs> {
    match e
    case SendAppend(i, p) =>
      (match RequestFor(s, p) case Request(a) => c.calls[(i, p) := a] case OutOfRange => c.calls)
    case DeliverAppendReply(i, p, _, _) => c.calls - {(i, p)}
    case Crash(i) => map k | k in c.calls && k.0 != i :: c.calls[k]
    case _ => c.calls
  }

  ghost function NewInstalls(c: Cluster, s: Server, e: Event): set<(nat, nat)> {
    match e
    case DeliverAppendReply(i, p, a, r) => if OnAppendReply(s, p, a, r).1 then c.installs + {(i, p)} else c.installs
    case DeliverInstallReply(i, p, _, _) => c.installs - {(i, p)}
    case Crash(i) => set k | k in c.installs && k.0 != i
    case _ => c.installs
  }

  ghost function After(c: Cluster, e: Event): Cluster
    requires Enabled(c, e)
  {
    var s := c.servers[e.server];
    Cluster(c.servers[e.server := NewServer(s, e)], c.messages + Sent(c, s, e), NewCalls(c, s, e), NewInstalls(c, s, e))
  }

  /** An execution: the states of the cluster and the events between them. */
  datatype Run = Run(states: seq<Cluster>, events: seq<Event>) {
    ghost predicate Valid(n: nat) {
      && |states| == |events| + 1 && states[0] == Initial(n)
      && (forall k :: 0 <= k < |events| ==> StepAt(k))
    }

    ghost predicate StepAt(k: nat) {
      k + 1 < |states| && k < |events| && Enabled(states[k], events[k]) && states[k + 1] == After(states[k], events[k])
    }

    /** No server ever compacts its log. */
    ghost predicate SnapshotFree() {
      forall k :: 0 <= k < |events| ==> !events[k].Save?
    }
  }
}
