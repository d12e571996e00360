/** One Raft server: what it stores, what it persists, and what each handler makes of its state.
    The handlers are those of the program, quirks included. */
module RaftServer {

  datatype Role = Follower | Candidate | Leader

  datatype LogEntry = LogEntry(command: int, term: int)

  /** The bytes of a snapshot of the service's state. */
  type Snapshot = seq<int>

  /** What `persist` writes, with the snapshot beside it, and a restarted server reads back. */
  datatype Disk = Disk(term: int, voteFor: int, commitIndex: int, snapTerm: int, snapIndex: int, log: seq<LogEntry>,
                       snapshot: Snapshot)

  /** `log[0]` stands for the entry at `snapIndex`, which is 0 until the log is compacted. */
  datatype Server = Server(me: nat, peers: nat, role: Role, term: int, voteFor: int, log: seq<LogEntry>,
                           snapIndex: int, snapTerm: int, commitIndex: int, nextIndex: seq<int>, matchIndex: seq<int>,
                             disk: Disk)
  {
    function Saved(): Disk { Disk(term, voteFor, commitIndex, snapTerm, snapIndex, log, disk.snapshot) }

    function Persist(): Server { this.(disk := Saved()) }

    /** Writes the state together with a new snapshot. */
    function PersistWith(data: Snapshot): Server { this.(disk := Saved().(snapshot := data)) }

    function LastIndex(): int { snapIndex + |log| - 1 }

    function LastTerm(): int { if log == [] then 0 else log[|log| - 1].term }

    function SetNext(p: nat, i: int): Server {
      if p < |nextIndex| then this.(nextIndex := nextIndex[p := i]) else this
    }

    function FollowCommit(leaderCommit: int): Server {
      if leaderCommit > commitIndex then this.(commitIndex := Min(leaderCommit, LastIndex())) else this
    }

    function SetMatch(p: nat, i: int): Server {
      if p < |matchIndex| then this.(matchIndex := matchIndex[p := i]) else this
    }
  }

  function Min(x: int, y: int): int { if x < y then x else y }

  const NoEntry := LogEntry(0, 0)

  /** A server that starts for the first time. */
  function Boot(me: nat, peers: nat): Server {
    Server(me, peers, Follower, 0, -1, [NoEntry], 0, 0, 0, [], [], Disk(0, -1, 0, 0, 0, [NoEntry], []))
  }

  /** What is left after a crash. */
  function Restart(s: Server): Server {
    Server(s.me, s.peers, Follower, s.disk.term, s.disk.voteFor, s.disk.log, s.disk.snapIndex, s.disk.snapTerm,
           s.disk.commitIndex, [], [], s.disk)
  }

  /** A server that persists and crashes comes back as a follower with all that it had persisted. */
  lemma PersistSurvives(s: Server)
    ensures var r := Restart(s.Persist());
            && r == s.(role := Follower, nextIndex := [], matchIndex := [], disk := r.disk)
            && r.disk == r.Saved() && r.disk.snapshot == s.disk.snapshot
  {
  }

  // Elections

  datatype VoteArgs = VoteArgs(term: int, candidate: nat, lastIndex: int, lastTerm: int)

  function OnElectionTimeout(s: Server): Server {
    if s.role.Leader? then s else s.(role := Candidate, term := s.term + 1, voteFor := s.me).Persist()
  }

  function VoteArgsOf(s: Server): VoteArgs { VoteArgs(s.term, s.me, s.LastIndex(), s.LastTerm()) }

  predicate UpToDate(s: Server, args: VoteArgs) {
    s.LastTerm() < args.lastTerm || (s.LastTerm() == args.lastTerm && s.LastIndex() <= args.lastIndex)
  }

  /** The new state, and whether the vote is granted. A repeated request from the candidate that already
      has the vote is granted without a look at the logs. */
  function OnRequestVote(s: Server, args: VoteArgs): (Server, bool) {
    if args.term < s.term then (s.Persist(), false)
    else if args.term == s.term && s.voteFor == args.candidate then (s.(role := Follower).Persist(), true)
    else if args.term == s.term && s.voteFor != -1 then (s.Persist(), false)
    else
      var t := if args.term > s.term then s.(term := args.term, role := Follower, voteFor := -1) else s;
      if UpToDate(s, args) then (t.(voteFor := args.candidate, role := Follower).Persist(), true)
      else (t.Persist(), false)
  }

  function OnElected(s: Server): Server {
    s.(role := Leader, nextIndex := seq(s.peers, _ => s.LastIndex() + 1),
       matchIndex := seq(s.peers, i => if i == s.me then s.LastIndex() else 0)).Persist()
  }

  // Log replication

  function OnStart(s: Server, command: int): Server {
    if !s.role.Leader? then s else
    s.(log := s.log + [LogEntry(command, s.term)])
     .SetNext(s.me, s.LastIndex() + 2).SetMatch(s.me, s.LastIndex() + 1).Persist()
  }

  datatype AppendArgs = AppendArgs(term: int, leader: nat, prevIndex: int, prevTerm: int, entries: seq<LogEntry>,
                                   leaderCommit: int)

  datatype AppendReply = AppendReply(success: bool, term: int, xTerm: int, xIndex: int, xLen: int, nextIndex: int)

  datatype Request = Request(args: AppendArgs) | OutOfRange

  /** What a leader sends to peer `p`; `OutOfRange` if it would read outside its log. */
  function RequestFor(s: Server, p: nat): Request {
    if p >= |s.nextIndex| || s.log == [] then OutOfRange
    else if s.nextIndex[p] <= s.snapIndex then Request(AppendArgs(s.term, s.me, s.LastIndex(), s.LastTerm(), [],
      s.commitIndex))
    else
      var i := s.nextIndex[p] - s.snapIndex;
      if i > |s.log| then OutOfRange
      else Request(AppendArgs(s.term, s.me, s.nextIndex[p] - 1, s.log[i - 1].term, s.log[i..], s.commitIndex))
  }

  /** A delayed request: the log already holds newer entries. */
  predicate OutOfOrder(s: Server, args: AppendArgs) {
    args.term < s.LastTerm() || (args.prevIndex + |args.entries| < s.LastIndex() && s.LastTerm() == args.term)
  }

  /** The least position after the first at which `log` holds an entry of term `t`. */
  function FirstOfTerm(log: seq<LogEntry>, t: int, from: nat): (i: nat)
    requires from <= |log|
    ensures from <= i <= |log|
    ensures i < |log| ==> log[i].term == t
    ensures forall j :: from <= j < i ==> log[j].term != t
    decreases |log| - from
  {
    if from == |log| || log[from].term == t then from else FirstOfTerm(log, t, from + 1)
  }

  const Rejected := AppendReply(false, 0, -1, -1, -1, 0)

  function OnAppend(s: Server, args: AppendArgs): (Server, AppendReply) {
    if args.term < s.term then (s, Rejected.(term := s.term)) else
    var t := s.(term := args.term, role := Follower);
    if s.LastIndex() < args.prevIndex then (t.Persist(), Rejected.(xLen := s.LastIndex() + 1))
    else if args.prevIndex < s.snapIndex then (t.Persist(), Rejected.(nextIndex := s.snapIndex + 1))
    else
      var i := args.prevIndex - s.snapIndex;
      if i == 0 || args.prevTerm == s.log[i].term then
        if OutOfOrder(s, args) then (t.Persist(), Rejected.(nextIndex := -1))
        else (t.(log := s.log[..i + 1] + args.entries).FollowCommit(args.leaderCommit).Persist(),
          Rejected.(success := true))
      else
        (t.Persist(), Rejected.(xTerm := s.log[i].term, xIndex := s.snapIndex + FirstOfTerm(s.log, s.log[i].term, 1)))
  }

  /** Once the term is accepted, the follower's own role and term do not matter. */
  lemma AppendAfterTerm(s: Server, args: AppendArgs)
    requires s.term <= args.term
    ensures OnAppend(s.(term := args.term, role := Follower), args) == OnAppend(s, args)
  {
  }

  /** The greatest position after the first that holds an entry of term `t`, or -1. */
  function LastOfTerm(log: seq<LogEntry>, t: int, upto: nat): (i: int)
    requires upto <= |log|
    ensures i == -1 || (0 < i < upto && log[i].term == t)
    ensures forall j :: (if i == -1 then 0 else i) < j < upto ==> log[j].term != t
  {
    if upto <= 1 then -1 else if log[upto - 1].term == t then upto - 1 else LastOfTerm(log, t, upto - 1)
  }

  /** Where a leader goes on after a rejection. It looks for `reply.term`, not for `reply.xTerm`. */
  function BackUp(s: Server, reply: AppendReply): int {
    if reply.xLen != -1 then reply.xLen
    else if reply.term == -1 then 0
    else
      var i := LastOfTerm(s.log, reply.term, |s.log|);
      if i != -1 then i + s.snapIndex else reply.xIndex
  }

  /** How many peers are known to hold the entry at `i`. */
  function Holders(matchIndex: seq<int>, i: int): nat {
    if matchIndex == [] then 0
    else Holders(matchIndex[..|matchIndex| - 1], i) + if matchIndex[|matchIndex| - 1] >= i then 1 else 0
  }

  /** The greatest index after `c`, up to `last`, that a majority is known to hold, or `c`. */
  function MajorityIndex(matchIndex: seq<int>, peers: nat, c: int, last: int): (r: int)
    ensures r == c || (c < r <= last && Holders(matchIndex, r) > peers / 2)
    ensures forall i :: r < i <= last ==> Holders(matchIndex, i) <= peers / 2
    decreases last - c
  {
    if last <= c then c
    else if Holders(matchIndex, last) > peers / 2 then last
    else MajorityIndex(matchIndex, peers, c, last - 1)
  }

  /** The loop goes one index beyond the log. */
  function OnLeaderCommit(s: Server): Server {
    s.(commitIndex := MajorityIndex(s.matchIndex, s.peers, s.commitIndex, s.LastIndex() + 1))
  }

  /** An accepted request: the peer holds its entries. */
  function OnAccepted(s: Server, p: nat, args: AppendArgs): Server {
    if p >= |s.nextIndex| then s else
    var next := s.nextIndex[p] + |args.entries|;
    var t := s.SetNext(p, next).SetMatch(p, next - 1);
    if args.entries != [] && args.entries[|args.entries| - 1].term == s.term then OnLeaderCommit(t) else t
  }

  /** The new state, and whether the peer needs a snapshot. */
  function OnAppendReply(s: Server, p: nat, args: AppendArgs, reply: AppendReply): (Server, bool) {
    if reply.term > s.term then (s.(role := Follower, term := reply.term).Persist(), false)
    else if !s.role.Leader? || s.term != args.term then (s, false)
    else if reply.success then (OnAccepted(s, p, args), false)
    else if reply.nextIndex == -1 then (s, false)
    else (s.SetNext(p, BackUp(s, reply)).SetMatch(p, BackUp(s, reply) - 1), BackUp(s, reply) <= s.snapIndex)
  }

  // Snapshots

  function OnSaveSnapshot(s: Server, index: int, data: Snapshot): Server {
    if index < s.snapIndex || index > s.LastIndex() then s else
    var i := index - s.snapIndex;
    s.(log := s.log[i..], snapIndex := index, snapTerm := s.log[i].term).PersistWith(data)
  }

  datatype InstallArgs = InstallArgs(term: int, leader: nat, lastIndex: int, lastTerm: int, data: Snapshot)

  function InstallArgsOf(s: Server): InstallArgs {
    InstallArgs(s.term, s.me, s.snapIndex, s.snapTerm, s.disk.snapshot)
  }

  /** The new state, and the term in the reply. */
  function OnInstall(s: Server, args: InstallArgs): (Server, int) {
    if args.term < s.term then (s, s.term) else
    var t := if args.term > s.term then s.(role := Follower, term := args.term).Persist() else s;
    if args.lastIndex <= s.snapIndex then (t, s.term) else
    var offset := args.lastIndex - s.snapIndex;
    var log := if offset >= |s.log| then [LogEntry(0, args.lastTerm)] else s.log[offset..];
    (t.(log := log, snapIndex := args.lastIndex, snapTerm := args.lastTerm).PersistWith(args.data), s.term)
  }

  /** The term is raised without persisting it. */
  function OnInstallReply(s: Server, p: nat, term: int): Server {
    var t := s.SetNext(p, s.snapIndex + 1).SetMatch(p, s.snapIndex);
    if term > s.term then t.(term := term, role := Follower) else t
  }
}
