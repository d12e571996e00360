/** Compacting the log: a server that has thrown away a prefix of its log behaves like one that has not. */
module RaftCompaction {
  import opened RaftServer

  /** `s` is `u` without the part of its log before `s.snapIndex`. How far each has committed is left aside. */
  ghost predicate Compacts(u: Server, s: Server) {
    && s.me == u.me && s.peers == u.peers && s.role == u.role && s.term == u.term && s.voteFor == u.voteFor
    && s.nextIndex == u.nextIndex && s.matchIndex == u.matchIndex
    && u.snapIndex <= s.snapIndex <= u.LastIndex()
    && s.log == u.log[s.snapIndex - u.snapIndex..]
  }

  lemma SaveCompacts(u: Server, index: int, data: Snapshot)
    requires u.snapIndex <= index <= u.LastIndex()
    ensures Compacts(u, OnSaveSnapshot(u, index, data)) && OnSaveSnapshot(u, index, data).snapIndex == index
    ensures OnSaveSnapshot(u, index, data).snapTerm == u.log[index - u.snapIndex].term
    ensures u.disk == u.Saved() ==> Compacts(Restart(u), Restart(OnSaveSnapshot(u, index, data)))
  {
  }

  /** A saved snapshot is there after a restart. */
  lemma SnapshotSurvives(u: Server, index: int, data: Snapshot)
    requires u.snapIndex <= index <= u.LastIndex()
    ensures var r := Restart(OnSaveSnapshot(u, index, data));
            && r.disk.snapshot == data && r.snapIndex == index && r.snapTerm == u.log[index - u.snapIndex].term
            && r.log == u.log[index - u.snapIndex..]
  {
  }

  /** A saved snapshot reaches a peer that is behind: it stores the snapshot with its index and term, and keeps exactly
      the entries that it has after that index. */
  lemma SnapshotTravels(u: Server, index: int, data: Snapshot, p: Server)
    requires u.snapIndex <= index <= u.LastIndex() && p.term <= u.term && p.snapIndex < index && p.log != []
    ensures var (q, term) := OnInstall(p, InstallArgsOf(OnSaveSnapshot(u, index, data)));
            && term == p.term && q.term == u.term && q.snapIndex == index &&
              q.snapTerm == u.log[index - u.snapIndex].term
            && q.disk.snapshot == data && q.disk == q.Saved() && Restart(q).disk.snapshot == data && q.log != []
            && (p.term < u.term ==> q.role.Follower?) && q.voteFor == p.voteFor
            && (index <= p.LastIndex() ==> q.log == p.log[index - p.snapIndex..] && q.LastIndex() == p.LastIndex())
            && (index > p.LastIndex() ==> q.LastIndex() == index && q.LastTerm() == q.snapTerm)
  {
  }

  /** A snapshot that is not newer, or that comes from an earlier term, changes neither log nor snapshot. */
  lemma OldSnapshotIgnored(p: Server, args: InstallArgs)
    requires args.term < p.term || args.lastIndex <= p.snapIndex
    ensures var q := OnInstall(p, args).0;
            q.log == p.log && q.snapIndex == p.snapIndex && q.snapTerm == p.snapTerm &&
              q.disk.snapshot == p.disk.snapshot
  {
  }

  /** Handling a snapshot keeps what is persisted up to date. */
  lemma InstallPersists(p: Server, args: InstallArgs)
    requires p.disk == p.Saved()
    ensures var q := OnInstall(p, args).0;
            q.disk == q.Saved() && q.term == if args.term > p.term then args.term else p.term
  {
  }

  /** A peer that has installed the leader's snapshot in place of its log takes the leader's next request, and then
      has the leader's entries after the snapshot. */
  lemma InstallThenAppend(u: Server, index: int, data: Snapshot, q: Server, p: nat)
    requires u.role.Leader? && u.snapIndex <= index <= u.LastIndex() && p < |u.nextIndex| == |u.matchIndex|
    requires q.term <= u.term && q.snapIndex < index && q.LastIndex() < index && q.log != []
    requires u.log[index - u.snapIndex].term <= u.term
    ensures var s := OnSaveSnapshot(u, index, data);
            var (t, term) := OnInstall(q, InstallArgsOf(s));
            var l := OnInstallReply(s, p, term);
            && l.role.Leader? && l.term == u.term && l.nextIndex[p] == index + 1 && l.matchIndex[p] == index
            && RequestFor(l, p).Request? && OnAppend(t, RequestFor(l, p).args).1.success
            && var g := OnAppend(t, RequestFor(l, p).args).0;
               g.snapIndex == l.snapIndex && g.log[0].term == l.log[0].term && g.log[1..] == l.log[1..]
  {
  }

  /** A peer whose next entry is gone gets a request without entries, from the end of the log. */
  lemma BehindSnapshot(s: Server, p: nat)
    requires p < |s.nextIndex| && s.nextIndex[p] <= s.snapIndex && s.log != []
    ensures RequestFor(s, p) == Request(AppendArgs(s.term, s.me, s.LastIndex(), s.LastTerm(), [], s.commitIndex))
  {
  }

  /** A request from before the snapshot is turned down, with the index after the snapshot, and changes no log. */
  lemma BeforeSnapshot(s: Server, a: AppendArgs)
    requires s.term <= a.term && a.prevIndex < s.snapIndex && a.prevIndex <= s.LastIndex()
    ensures var (t, r) := OnAppend(s, a);
            && !r.success && r.nextIndex == s.snapIndex + 1 && r.xLen == r.xTerm == r.xIndex == -1 && r.term == 0
            && t.log == s.log && t.term == a.term && t.role.Follower? && t.disk == t.Saved()
  {
  }

  lemma SameLast(u: Server, s: Server)
    requires Compacts(u, s)
    ensures s.LastIndex() == u.LastIndex() && s.LastTerm() == u.LastTerm()
  {
  }

  lemma SameVote(u: Server, s: Server, a: VoteArgs)
    requires Compacts(u, s)
    ensures OnRequestVote(s, a).1 == OnRequestVote(u, a).1 && Compacts(OnRequestVote(u, a).0, OnRequestVote(s, a).0)
  {
    SameLast(u, s);
    VoteOutcome(u, a);
    VoteOutcome(s, a);
  }

  /** A vote changes term, role and vote only, and looks at the log only to compare its end. */
  lemma VoteOutcome(s: Server, a: VoteArgs)
    ensures var t := OnRequestVote(s, a).0;
            && t == s.(term := t.term, role := t.role, voteFor := t.voteFor, disk := t.disk) && t.disk == t.Saved()
            && (t.term, t.role, t.voteFor, OnRequestVote(s, a).1) ==
                 VoteDecision(s.term, s.role, s.voteFor, UpToDate(s, a), a)
  {
  }

  function VoteDecision(term: int, role: Role, voteFor: int, upToDate: bool, a: VoteArgs): (int, Role, int, bool) {
    if a.term < term then (term, role, voteFor, false)
    else if a.term == term && voteFor != -1 then
      if voteFor == a.candidate then (term, Follower, voteFor, true) else (term, role, voteFor, false)
    else if upToDate then (a.term, Follower, a.candidate, true)
    else (a.term, if a.term > term then Follower else role, -1, false)
  }

  /** What a leader sends does not change either, unless the peer needs entries that are gone. */
  lemma SameRequest(u: Server, s: Server, p: nat)
    requires Compacts(u, s) && p < |u.nextIndex| && s.snapIndex < u.nextIndex[p]
    ensures RequestFor(s, p) == RequestFor(u.(commitIndex := s.commitIndex), p)
  {
  }

  /** The same decision about a request and the same log afterwards. */
  ghost predicate SameAppend(u: Server, s: Server, a: AppendArgs) {
    OnAppend(s, a).1.success == OnAppend(u, a).1.success && Compacts(OnAppend(u, a).0, OnAppend(s, a).0)
  }

  /** The requests that are rejected whatever the log holds at `prevIndex`. */
  predicate RejectedAnyway(u: Server, a: AppendArgs) {
    a.term < u.term || u.LastIndex() < a.prevIndex || OutOfOrder(u, a)
  }

  /** The requests that compaction up to `index` treats alike: those from after `index`, those from `index`
      itself with the right term, and those from before that are rejected in any case. */
  predicate TreatedAlike(u: Server, index: int, a: AppendArgs)
    requires u.snapIndex <= index <= u.LastIndex()
  {
    || RejectedAnyway(u, a) || a.prevIndex > index || a.prevIndex < u.snapIndex
    || (a.prevIndex == index && (index == u.snapIndex || a.prevTerm == u.log[index - u.snapIndex].term))
    || (u.snapIndex < a.prevIndex < index && a.prevTerm != u.log[a.prevIndex - u.snapIndex].term)
  }

  predicate Accepts(s: Server, a: AppendArgs) {
    && s.term <= a.term && s.snapIndex <= a.prevIndex <= s.LastIndex() && !OutOfOrder(s, a)
    && (a.prevIndex == s.snapIndex || a.prevTerm == s.log[a.prevIndex - s.snapIndex].term)
  }

  /** What a request does to the state. */
  ghost predicate Outcome(s: Server, a: AppendArgs, t: Server) {
    && t.me == s.me && t.peers == s.peers && t.voteFor == s.voteFor && t.nextIndex == s.nextIndex
    && t.matchIndex == s.matchIndex && t.snapIndex == s.snapIndex
    && (if s.term <= a.term then t.term == a.term && t.role == Follower else t.term == s.term && t.role == s.role)
    && t.log == if Accepts(s, a) then s.log[..a.prevIndex - s.snapIndex + 1] + a.entries else s.log
  }

  lemma AppendOutcome(s: Server, a: AppendArgs)
    ensures OnAppend(s, a).1.success == Accepts(s, a) && Outcome(s, a, OnAppend(s, a).0)
  {
  }

  lemma AcceptsIff(u: Server, s: Server, a: AppendArgs)
    requires Compacts(u, s)
    ensures Accepts(u, a) == Accepts(s, a) <==> TreatedAlike(u, s.snapIndex, a)
    ensures Accepts(s, a) ==> s.snapIndex <= a.prevIndex
  {
  }

  lemma SameCut(l: seq<LogEntry>, m: seq<LogEntry>, d: nat, k: nat, j: nat, entries: seq<LogEntry>)
    requires d <= k < |l| && m == l[d..] && j == k - d
    ensures (l[..k + 1] + entries)[d..] == m[..j + 1] + entries && d < |l[..k + 1] + entries|
  {
  }

  lemma AcceptedCompact(u: Server, s: Server, a: AppendArgs, l: seq<LogEntry>, m: seq<LogEntry>)
    requires Compacts(u, s) && s.snapIndex <= a.prevIndex <= u.LastIndex()
    requires l == u.log[..a.prevIndex - u.snapIndex + 1] + a.entries
    requires m == s.log[..a.prevIndex - s.snapIndex + 1] + a.entries
    ensures s.snapIndex - u.snapIndex < |l| && m == l[s.snapIndex - u.snapIndex..]
  {
    SameCut(u.log, s.log, s.snapIndex - u.snapIndex, a.prevIndex - u.snapIndex, a.prevIndex - s.snapIndex, a.entries);
  }

  lemma OutcomesCompact(u: Server, s: Server, a: AppendArgs, u': Server, s': Server)
    requires Compacts(u, s) && Outcome(u, a, u') && Outcome(s, a, s') && Accepts(u, a) == Accepts(s, a)
    ensures Compacts(u', s')
  {
    var d := s.snapIndex - u.snapIndex;
    assert d < |u'.log| && s'.log == u'.log[d..] by {
      if Accepts(u, a) {
        AcceptedCompact(u, s, a, u'.log, s'.log);
      }
    }
    NewLogsCompact(u', s', d);
  }

  lemma NewLogsCompact(u': Server, s': Server, d: nat)
    requires u'.me == s'.me && u'.peers == s'.peers && u'.role == s'.role && u'.term == s'.term &&
      u'.voteFor == s'.voteFor
    requires u'.nextIndex == s'.nextIndex && u'.matchIndex == s'.matchIndex
    requires s'.snapIndex == u'.snapIndex + d && d < |u'.log| && s'.log == u'.log[d..]
    ensures Compacts(u', s')
  {
  }

  /** Exactly these requests are treated alike. */
  lemma SameAppendIff(u: Server, s: Server, a: AppendArgs)
    requires Compacts(u, s)
    ensures SameAppend(u, s, a) <==> TreatedAlike(u, s.snapIndex, a)
  {
    AppendOutcome(u, a);
    AppendOutcome(s, a);
    AcceptsIff(u, s, a);
    if TreatedAlike(u, s.snapIndex, a) {
      OutcomesCompact(u, s, a, OnAppend(u, a).0, OnAppend(s, a).0);
    }
  }

  // What the answers say

  /** The part of the log that `s` has dropped holds no entry of term `t`. */
  ghost predicate NotDropped(u: Server, s: Server, t: int)
    requires Compacts(u, s)
  {
    forall i :: 0 < i <= s.snapIndex - u.snapIndex ==> u.log[i].term != t
  }

  /** The requests to which a compacted log gives the same answer in every field: those that are turned down before
      the logs are compared, and those from the snapshot or after it that match, or that contradict an entry of a
      term of which nothing has been dropped. */
  ghost predicate SameReplies(u: Server, s: Server, a: AppendArgs)
    requires Compacts(u, s)
  {
    || a.term < u.term || u.LastIndex() < a.prevIndex || s.snapIndex == u.snapIndex
    || (a.prevIndex == s.snapIndex && a.prevTerm == u.log[a.prevIndex - u.snapIndex].term)
    || (a.prevIndex > s.snapIndex &&
          var t := u.log[a.prevIndex - u.snapIndex].term;
          a.prevTerm == t || NotDropped(u, s, t))
  }

  /** Where the first entry of a term is found. */
  lemma FirstOfTermAlike(u: Server, s: Server, k: nat)
    requires Compacts(u, s) && s.snapIndex - u.snapIndex < k < |u.log|
    ensures var t := u.log[k].term;
            var (i, j) := (FirstOfTerm(u.log, t, 1), FirstOfTerm(s.log, t, 1));
            u.snapIndex + i == s.snapIndex + j <==> NotDropped(u, s, t)
  {
    var (t, d) := (u.log[k].term, s.snapIndex - u.snapIndex);
    var (i, j) := (FirstOfTerm(u.log, t, 1), FirstOfTerm(s.log, t, 1));
    assert forall l :: 0 <= l < |s.log| ==> s.log[l] == u.log[l + d];
    assert s.log[k - d].term == t && i <= k && j <= k - d;
    assert u.log[j + d].term == t;
    if i > d {
      assert s.log[i - d].term == t;
    }
  }

  /** The answer to a request whose term is accepted and that starts within the log. */
  lemma ReplyAt(s: Server, a: AppendArgs, i: nat)
    requires s.term <= a.term && i < |s.log| && a.prevIndex == s.snapIndex + i
    ensures OnAppend(s, a).1 ==
      if i != 0 && a.prevTerm != s.log[i].term then
        Rejected.(xTerm := s.log[i].term, xIndex := s.snapIndex + FirstOfTerm(s.log, s.log[i].term, 1))
      else if OutOfOrder(s, a) then Rejected.(nextIndex := -1)
      else Rejected.(success := true)
  {
  }

  lemma SameReplyInside(u: Server, s: Server, a: AppendArgs)
    requires Compacts(u, s) && u.term <= a.term && s.snapIndex <= a.prevIndex <= u.LastIndex()
    ensures OnAppend(u, a).1 == OnAppend(s, a).1 <==> SameReplies(u, s, a)
  {
    SameLast(u, s);
    var (i, j) := (a.prevIndex - u.snapIndex, a.prevIndex - s.snapIndex);
    assert s.log[j] == u.log[i] && OutOfOrder(u, a) == OutOfOrder(s, a);
    ReplyAt(u, a, i);
    ReplyAt(s, a, j);
    if j > 0 {
      FirstOfTermAlike(u, s, i);
    }
  }

  /** Exactly these requests are answered alike. */
  lemma SameReplyIff(u: Server, s: Server, a: AppendArgs)
    requires Compacts(u, s) && 0 <= u.snapIndex
    ensures OnAppend(u, a).1 == OnAppend(s, a).1 <==> SameReplies(u, s, a)
  {
    SameLast(u, s);
    if u.term <= a.term && s.snapIndex <= a.prevIndex <= u.LastIndex() {
      SameReplyInside(u, s, a);
    }
  }

  /** The leader goes back to an earlier index because of this answer. */
  predicate ActsOn(s: Server, a: AppendArgs, r: AppendReply) {
    r.term <= s.term && s.role.Leader? && s.term == a.term && !r.success && r.nextIndex != -1
  }

  /** The two ask for a snapshot alike, unless the leader goes back into what only one of them still holds. */
  lemma InstallIff(u: Server, s: Server, p: nat, a: AppendArgs, r: AppendReply)
    requires Compacts(u, s) && (ActsOn(u, a, r) ==> BackUp(u, r) == BackUp(s, r))
    ensures OnAppendReply(u, p, a, r).1 == OnAppendReply(s, p, a, r).1 <==>
            !(ActsOn(u, a, r) && u.snapIndex < BackUp(u, r) <= s.snapIndex)
  {
  }

  // Whole runs of a server

  datatype Input =
    | Timeout
    | Win
    | Vote(voteArgs: VoteArgs)
    | Append(args: AppendArgs)
    | Command(command: int)
    | Answer(peer: nat, request: AppendArgs, reply: AppendReply)
    | Crash
    | Save(index: int, data: Snapshot)

  /** What a handler sends or returns. */
  datatype Output =
    | Nothing
    | Ask(voteArgs: VoteArgs)
    | Granted(granted: bool)
    | Reply(reply: AppendReply)
    | Started(index: int, term: int, isLeader: bool)
    | Install(install: bool)

  /** The new state, and the output. A server that never compacts ignores the request to save a snapshot. */
  function Handle(s: Server, x: Input, compacts: bool): (Server, Output) {
    match x
    case Timeout => (OnElectionTimeout(s), if s.role.Leader? then Nothing else Ask(VoteArgsOf(OnElectionTimeout(s))))
    case Win => (if s.role.Candidate? then OnElected(s) else s, Nothing)
    case Vote(a) => (OnRequestVote(s, a).0, Granted(OnRequestVote(s, a).1))
    case Append(a) => (OnAppend(s, a).0, Reply(OnAppend(s, a).1))
    case Command(c) => (OnStart(s, c), Started(s.LastIndex() + 1, s.term, s.role.Leader?))
    case Answer(p, a, r) => (OnAppendReply(s, p, a, r).0, Install(OnAppendReply(s, p, a, r).1))
    case Crash => (Restart(s), Nothing)
    case Save(i, data) => (if compacts then OnSaveSnapshot(s, i, data) else s, Nothing)
  }

  /** The state after the inputs. */
  ghost function StateAfter(s: Server, xs: seq<Input>, compacts: bool): Server {
    if xs == [] then s else Handle(StateAfter(s, xs[..|xs| - 1], compacts), xs[|xs| - 1], compacts).0
  }

  /** The output for input `k`. */
  ghost function OutputAt(s: Server, xs: seq<Input>, compacts: bool, k: nat): Output
    requires k < |xs|
  {
    Handle(StateAfter(s, xs[..k], compacts), xs[k], compacts).1
  }

  /** What is persisted is the current term, vote and log. */
  ghost predicate Synced(s: Server) {
    s.disk.term == s.term && s.disk.voteFor == s.voteFor && s.disk.log == s.log && s.disk.snapIndex == s.snapIndex
  }

  /** A request is treated alike, a rejection does not send a leader back to a term that only the dropped part
      holds, and at a crash the persisted state is up to date. */
  ghost predicate Agrees(u: Server, s: Server, x: Input)
    requires Compacts(u, s)
  {
    match x
    case Append(a) => TreatedAlike(u, s.snapIndex, a)
    case Answer(_, a, r) => ActsOn(u, a, r) ==> NotDropped(u, s, r.term)
    case Crash => Synced(u) && Synced(s)
    case _ => true
  }

  /** The two decide alike: the same votes, requests, indices and terms, and the same requests accepted. */
  predicate SameDecision(o: Output, p: Output) {
    match (o, p)
    case (Reply(r), Reply(q)) => r.success == q.success
    case (Install(_), Install(_)) => true
    case _ => o == p
  }

  /** The inputs to which the outputs are the same in every field. */
  ghost predicate SameOutput(u: Server, s: Server, x: Input)
    requires Compacts(u, s)
  {
    match x
    case Append(a) => SameReplies(u, s, a)
    case Answer(_, a, r) => !(ActsOn(u, a, r) && u.snapIndex < BackUp(u, r) <= s.snapIndex)
    case _ => true
  }

  lemma AppendAlike(u: Server, s: Server, a: AppendArgs)
    requires Compacts(u, s) && Agrees(u, s, Append(a))
    ensures SameAppend(u, s, a) && OnAppend(u, a).0.snapIndex == u.snapIndex
  {
    SameAppendIff(u, s, a);
    AppendOutcome(u, a);
  }

  lemma LastOfTermAlike(u: Server, s: Server, t: int)
    requires Compacts(u, s) && NotDropped(u, s, t)
    ensures var (i, j) := (LastOfTerm(u.log, t, |u.log|), LastOfTerm(s.log, t, |s.log|));
            if i == -1 then j == -1 else j != -1 && i + u.snapIndex == j + s.snapIndex
  {
    var d := s.snapIndex - u.snapIndex;
    var (i, j) := (LastOfTerm(u.log, t, |u.log|), LastOfTerm(s.log, t, |s.log|));
    assert forall k :: 0 <= k < |s.log| ==> s.log[k] == u.log[k + d];
    if i != -1 {
      assert s.log[i - d].term == t;
    }
    if j != -1 {
      assert u.log[j + d].term == t;
    }
  }

  /** Indices kept for peers, and how far each server has committed, may change. */
  lemma IndicesAlike(u: Server, s: Server, next: seq<int>, matched: seq<int>, c: int, d: int)
    requires Compacts(u, s)
    ensures Compacts(u.(nextIndex := next, matchIndex := matched, commitIndex := c),
                    s.(nextIndex := next, matchIndex := matched, commitIndex := d))
  {
  }

  /** What an answer that does not end the leader's term changes. */
  lemma AnswerChanges(s: Server, p: nat, a: AppendArgs, r: AppendReply)
    requires r.term <= s.term
    ensures var t := OnAppendReply(s, p, a, r).0;
            t == s.(nextIndex := t.nextIndex, matchIndex := t.matchIndex, commitIndex := t.commitIndex)
  {
  }

  lemma AcceptedIndices(s: Server, p: nat, a: AppendArgs)
    ensures var t := OnAccepted(s, p, a);
            && t.nextIndex == (if p < |s.nextIndex| then s.nextIndex[p := s.nextIndex[p] + |a.entries|]
              else s.nextIndex)
            && t.matchIndex == if p < |s.nextIndex| && p < |s.matchIndex|
                 then s.matchIndex[p := s.nextIndex[p] + |a.entries| - 1] else s.matchIndex
  {
  }

  lemma SameIndices(u: Server, s: Server, p: nat, a: AppendArgs, r: AppendReply)
    requires Compacts(u, s) && r.term <= s.term && (ActsOn(u, a, r) ==> BackUp(u, r) == BackUp(s, r))
    ensures var (v, t) := (OnAppendReply(u, p, a, r).0, OnAppendReply(s, p, a, r).0);
            v.nextIndex == t.nextIndex && v.matchIndex == t.matchIndex
  {
    AcceptedIndices(u, p, a);
    AcceptedIndices(s, p, a);
  }

  lemma BackUpAlike(u: Server, s: Server, a: AppendArgs, r: AppendReply)
    requires Compacts(u, s) && (ActsOn(u, a, r) ==> NotDropped(u, s, r.term))
    ensures ActsOn(u, a, r) ==> BackUp(u, r) == BackUp(s, r)
  {
    if ActsOn(u, a, r) {
      LastOfTermAlike(u, s, r.term);
    }
  }

  lemma AnswerAlike(u: Server, s: Server, p: nat, a: AppendArgs, r: AppendReply)
    requires Compacts(u, s) && Agrees(u, s, Answer(p, a, r))
    ensures Compacts(OnAppendReply(u, p, a, r).0, OnAppendReply(s, p, a, r).0)
    ensures OnAppendReply(u, p, a, r).0.snapIndex == u.snapIndex
  {
    if r.term <= s.term {
      BackUpAlike(u, s, a, r);
      SameIndices(u, s, p, a, r);
      AnswerChanges(u, p, a, r);
      AnswerChanges(s, p, a, r);
      var (v, t) := (OnAppendReply(u, p, a, r).0, OnAppendReply(s, p, a, r).0);
      IndicesAlike(u, s, t.nextIndex, t.matchIndex, v.commitIndex, t.commitIndex);
    }
  }

  lemma SaveAlike(u: Server, s: Server, index: int, data: Snapshot)
    requires Compacts(u, s)
    ensures Compacts(u, OnSaveSnapshot(s, index, data))
  {
    SameLast(u, s);
  }

  lemma CommandAlike(u: Server, s: Server, c: int)
    requires Compacts(u, s)
    ensures Compacts(OnStart(u, c), OnStart(s, c))
  {
    SameLast(u, s);
  }

  lemma TimeoutAlike(u: Server, s: Server)
    requires Compacts(u, s)
    ensures Compacts(OnElectionTimeout(u), OnElectionTimeout(s))
  {
  }

  lemma ElectedAlike(u: Server, s: Server)
    requires Compacts(u, s)
    ensures Compacts(OnElected(u), OnElected(s))
  {
    SameLast(u, s);
    assert OnElected(u).matchIndex == OnElected(s).matchIndex;
    assert OnElected(u).nextIndex == OnElected(s).nextIndex;
  }

  lemma RestartAlike(u: Server, s: Server)
    requires Compacts(u, s) && Synced(u) && Synced(s)
    ensures Compacts(Restart(u), Restart(s))
  {
  }

  lemma HandleAlike(u: Server, s: Server, x: Input)
    requires Compacts(u, s) && Agrees(u, s, x)
    ensures Compacts(Handle(u, x, false).0, Handle(s, x, true).0)
    ensures Handle(u, x, false).0.snapIndex == u.snapIndex
  {
    match x
    case Timeout => TimeoutAlike(u, s);
    case Win => ElectedAlike(u, s);
    case Vote(a) => SameVote(u, s, a);
    case Append(a) => AppendAlike(u, s, a);
    case Command(c) => CommandAlike(u, s, c);
    case Answer(p, a, r) => AnswerAlike(u, s, p, a, r);
    case Crash => RestartAlike(u, s);
    case Save(i, data) => SaveAlike(u, s, i, data);
  }

  /** The outputs agree in what they decide, and exactly under this condition in every field. */
  lemma OutputAlike(u: Server, s: Server, x: Input)
    requires Compacts(u, s) && Agrees(u, s, x) && 0 <= u.snapIndex
    ensures SameDecision(Handle(u, x, false).1, Handle(s, x, true).1)
    ensures Handle(u, x, false).1 == Handle(s, x, true).1 <==> SameOutput(u, s, x)
  {
    SameLast(u, s);
    match x
    case Vote(a) => SameVote(u, s, a);
    case Append(a) =>
      AppendAlike(u, s, a);
      SameReplyIff(u, s, a);
    case Answer(p, a, r) =>
      BackUpAlike(u, s, a, r);
      InstallIff(u, s, p, a, r);
    case _ =>
  }

  /** Both servers exist side by side up to input `k`, and the next input agrees with what has been dropped. */
  ghost predicate AgreesAt(u: Server, s: Server, xs: seq<Input>, k: nat)
    requires k < |xs|
  {
    var (v, t) := (StateAfter(u, xs[..k], false), StateAfter(s, xs[..k], true));
    Compacts(v, t) ==> Agrees(v, t, xs[k])
  }

  /** A server that saves any number of snapshots keeps the logical log of one that saves none, over every
      sequence of inputs that agrees with what has been dropped at the time. */
  lemma {:induction false} StatesAlike(u: Server, s: Server, xs: seq<Input>)
    requires Compacts(u, s) && forall k :: 0 <= k < |xs| ==> AgreesAt(u, s, xs, k)
    ensures Compacts(StateAfter(u, xs, false), StateAfter(s, xs, true))
    ensures StateAfter(u, xs, false).snapIndex == u.snapIndex
    decreases |xs|
  {
    if xs != [] {
      var n := |xs| - 1;
      PrefixAgrees(u, s, xs, n);
      StatesAlike(u, s, xs[..n]);
      assert AgreesAt(u, s, xs, n);
      HandleAlike(StateAfter(u, xs[..n], false), StateAfter(s, xs[..n], true), xs[n]);
    }
  }

  lemma PrefixAgrees(u: Server, s: Server, xs: seq<Input>, n: nat)
    requires n <= |xs| && forall k :: 0 <= k < |xs| ==> AgreesAt(u, s, xs, k)
    ensures forall k :: 0 <= k < n ==> AgreesAt(u, s, xs[..n], k)
  {
    forall k | 0 <= k < n
      ensures AgreesAt(u, s, xs[..n], k)
    {
      assert AgreesAt(u, s, xs, k) && xs[..n][..k] == xs[..k] && xs[..n][k] == xs[k];
    }
  }

  /** Compaction is invisible: over such a sequence the two servers take the same decisions at every input. They give
      the same output in every field exactly when a rejection does not point into what has been dropped and a
      leader is not sent back into it. */
  lemma CompactionIsInvisible(u: Server, s: Server, xs: seq<Input>, k: nat)
    requires Compacts(u, s) && 0 <= u.snapIndex && k < |xs| && forall k :: 0 <= k < |xs| ==> AgreesAt(u, s, xs, k)
    ensures SameDecision(OutputAt(u, xs, false, k), OutputAt(s, xs, true, k))
    ensures var (v, t) := (StateAfter(u, xs[..k], false), StateAfter(s, xs[..k], true));
            Compacts(v, t) && (OutputAt(u, xs, false, k) == OutputAt(s, xs, true, k) <==> SameOutput(v, t, xs[k]))
  {
    PrefixAgrees(u, s, xs, k);
    StatesAlike(u, s, xs[..k]);
    assert AgreesAt(u, s, xs, k);
    OutputAlike(StateAfter(u, xs[..k], false), StateAfter(s, xs[..k], true), xs[k]);
  }

  // The conditions on crashes and answers are always met

  /** Every handler persists what it changes, so that after any inputs the persisted state is up to date if it
      was at the start. */
  lemma SyncedStays(s: Server, x: Input, compacts: bool)
    requires Synced(s)
    ensures Synced(Handle(s, x, compacts).0)
  {
  }

  lemma {:induction false} SyncedAlways(s: Server, xs: seq<Input>, compacts: bool)
    requires Synced(s)
    ensures Synced(StateAfter(s, xs, compacts))
  {
    if xs != [] {
      SyncedAlways(s, xs[..|xs| - 1], compacts);
      SyncedStays(StateAfter(s, xs[..|xs| - 1], compacts), xs[|xs| - 1], compacts);
    }
  }

  ghost predicate PositiveTerms(log: seq<LogEntry>) {
    forall i :: 1 <= i < |log| ==> log[i].term >= 1
  }

  /** No entry after the first has term 0, and only followers are in term 0. */
  ghost predicate Termed(s: Server) {
    Synced(s) && PositiveTerms(s.log) && s.term >= 0 && (!s.role.Follower? ==> s.term >= 1)
  }

  /** What peers send: entries have a term, and an answer carries term 0 or a term above its request's. */
  ghost predicate FromPeer(x: Input) {
    match x
    case Append(a) => forall i :: 0 <= i < |a.entries| ==> a.entries[i].term >= 1
    case Answer(_, a, r) => r.term == 0 || r.term > a.term
    case _ => true
  }

  lemma TermedStays(s: Server, x: Input)
    requires Termed(s) && FromPeer(x)
    ensures Termed(Handle(s, x, false).0)
  {
    SyncedStays(s, x, false);
    match x
    case Append(a) => AppendOutcome(s, a);
    case Answer(p, a, r) =>
      if r.term <= s.term {
        AnswerChanges(s, p, a, r);
      }
    case _ =>
  }

  lemma {:induction false} TermedAlways(s: Server, xs: seq<Input>)
    requires Termed(s) && forall i :: 0 <= i < |xs| ==> FromPeer(xs[i])
    ensures Termed(StateAfter(s, xs, false))
  {
    if xs != [] {
      TermedAlways(s, xs[..|xs| - 1]);
      TermedStays(StateAfter(s, xs[..|xs| - 1], false), xs[|xs| - 1]);
    }
  }

  /** A server that has started has up-to-date persisted state and no entries. */
  lemma BootIsTermed(me: nat, peers: nat)
    ensures Termed(Boot(me, peers)) && Compacts(Boot(me, peers), Boot(me, peers))
  {
  }

  /** Since answers carry term 0 or a higher term, no answer from a peer sends a leader to a dropped term. */
  lemma AnswersAgree(u: Server, s: Server, x: Input)
    requires Compacts(u, s) && Termed(u) && Synced(s) && FromPeer(x) && !x.Append?
    ensures Agrees(u, s, x)
  {
  }

  /** For a server since its start, only the requests have to be treated alike. */
  lemma OnlyRequestsMatter(me: nat, peers: nat, xs: seq<Input>, k: nat)
    requires k < |xs| && forall i :: 0 <= i < |xs| ==> FromPeer(xs[i])
    ensures xs[k].Append? || AgreesAt(Boot(me, peers), Boot(me, peers), xs, k)
  {
    var b := Boot(me, peers);
    BootIsTermed(me, peers);
    TermedAlways(b, xs[..k]);
    SyncedAlways(b, xs[..k], true);
    var (v, t) := (StateAfter(b, xs[..k], false), StateAfter(b, xs[..k], true));
    if !xs[k].Append? && Compacts(v, t) {
      AnswersAgree(v, t, xs[k]);
    }
  }
}
