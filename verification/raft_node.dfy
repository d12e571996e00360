/** A Raft peer as the program keeps it: an object whose handlers update its fields. This module is a
    refinement layer only: each method is shown to perform the corresponding transition of `RaftServer`, and
    the theorems about runs are about those transitions. */
module RaftNode {
  import opened RaftServer

  lemma {:induction false} HoldersGrow(matchIndex: seq<int>, i: int, k: nat)
    requires k <= |matchIndex|
    ensures Holders(matchIndex[..k], i) <= Holders(matchIndex, i)
    decreases |matchIndex|
  {
    if k < |matchIndex| {
      var n := |matchIndex| - 1;
      HoldersGrow(matchIndex[..n], i, k);
      assert matchIndex[..n][..k] == matchIndex[..k];
    } else {
      assert matchIndex[..k] == matchIndex;
    }
  }

  /** The peers that are known to hold the entry at `i`. */
  ghost function HolderSet(matchIndex: seq<int>, i: int): set<nat> {
    set p: nat | p < |matchIndex| && matchIndex[p] >= i
  }

  lemma {:induction false} HoldersIsSize(matchIndex: seq<int>, i: int)
    ensures Holders(matchIndex, i) == |HolderSet(matchIndex, i)|
  {
    if matchIndex == [] {
      assert HolderSet(matchIndex, i) == {};
    } else {
      var n := |matchIndex| - 1;
      var (A, B) := (HolderSet(matchIndex[..n], i), HolderSet(matchIndex, i));
      HoldersIsSize(matchIndex[..n], i);
      if matchIndex[n] >= i {
        assert B == A + {n};
      } else {
        assert B == A;
      }
    }
  }

  class Raft {
    const me: nat
    const peers: nat
    var role: Role
    var currentTerm: int
    var voteFor: int
    var log: seq<LogEntry>
    var lastSnapshotIndex: int
    var lastSnapshotTerm: int
    var commitIndex: int
    var nextIndex: seq<int>
    var matchIndex: seq<int>
    var persister: Disk

    ghost predicate Valid()
      reads this
    {
      log != [] && (role.Leader? ==> |nextIndex| == peers && |matchIndex| == peers)
    }

    ghost function State(): Server
      reads this
    {
      Server(me, peers, role, currentTerm, voteFor, log, lastSnapshotIndex, lastSnapshotTerm,
             commitIndex, nextIndex, matchIndex, persister)
    }

    constructor (me: nat, peers: nat)
      ensures Valid() && State() == Boot(me, peers)
    {
      this.me, this.peers, role, currentTerm, voteFor := me, peers, Follower, 0, -1;
      log, lastSnapshotIndex, lastSnapshotTerm, commitIndex := [NoEntry], 0, 0, 0;
      nextIndex, matchIndex := [], [];
      persister := Disk(0, -1, 0, 0, 0, [NoEntry], []);
    }

    method Persist()
      modifies this`persister
      ensures State() == old(State()).Persist()
    {
      persister := Disk(currentTerm, voteFor, commitIndex, lastSnapshotTerm, lastSnapshotIndex, log,
        persister.snapshot);
    }

    method PersistWith(data: Snapshot)
      modifies this`persister
      ensures State() == old(State()).PersistWith(data)
    {
      persister := Disk(currentTerm, voteFor, commitIndex, lastSnapshotTerm, lastSnapshotIndex, log, data);
    }

    /** A new object that starts from what a crashed one has persisted. */
    constructor ReadPersist(me: nat, peers: nat, data: Disk)
      requires data.log != []
      ensures Valid()
      ensures forall s: Server :: s.me == me && s.peers == peers && s.disk == data ==> State() == Restart(s)
    {
      this.me, this.peers, role, currentTerm, voteFor := me, peers, Follower, data.term, data.voteFor;
      log, lastSnapshotIndex, lastSnapshotTerm, commitIndex := data.log, data.snapIndex, data.snapTerm,
        data.commitIndex;
      nextIndex, matchIndex := [], [];
      persister := data;
    }

    method LastLogTermIndex() returns (term: int, index: int)
      requires Valid()
      ensures term == State().LastTerm() && index == State().LastIndex()
    {
      var n := |log|;
      term := log[n - 1].term;
      index := lastSnapshotIndex + |log| - 1;
    }

    method ChangeRole(state: Role)
      requires Valid()
      requires state.Leader? ==> me < peers
      modifies this`role, this`currentTerm, this`voteFor, this`nextIndex, this`matchIndex
      ensures Valid()
      ensures State() ==
        match state
        case Follower => old(State()).(role := Follower)
        case Candidate => old(State()).(role := Candidate, term := old(currentTerm) + 1, voteFor := me)
        case Leader => old(State()).(role := Leader, nextIndex := seq(peers, _ => old(State()).LastIndex() + 1),
          matchIndex := seq(peers, i => if i == me then old(State()).LastIndex() else 0))
    {
      role := state;
      match state
      case Follower =>
      case Candidate =>
        currentTerm := currentTerm + 1;
        voteFor := me;
      case Leader =>
        var lastLogIndex := lastSnapshotIndex + |log| - 1;
        nextIndex := [];
        for i := 0 to peers
          invariant nextIndex == seq(i, _ => lastLogIndex + 1)
          invariant State() == old(State()).(role := Leader, nextIndex := nextIndex)
        {
          nextIndex := nextIndex + [lastLogIndex + 1];
        }
        matchIndex := seq(peers, _ => 0);
        matchIndex := matchIndex[me := lastLogIndex];
        assert matchIndex == seq(peers, i => if i == me then lastLogIndex else 0);
    }

    method RequestVote(args: VoteArgs) returns (granted: bool)
      requires Valid()
      modifies this
      ensures Valid()
      ensures State() == OnRequestVote(old(State()), args).0 && granted == OnRequestVote(old(State()), args).1
    {
      granted := false;
      var lastLogTerm, lastLogIndex := LastLogTermIndex();
      if args.term < currentTerm {
        Persist();
        return;
      } else if args.term > currentTerm {
        currentTerm := args.term;
        ChangeRole(Follower);
        voteFor := -1;
      } else {
        if voteFor == args.candidate {
          granted := true;
          ChangeRole(Follower);
          Persist();
          return;
        }
        if voteFor != -1 {
          Persist();
          return;
        }
      }
      if voteFor == -1 && (lastLogTerm < args.lastTerm || (lastLogTerm == args.lastTerm &&
        lastLogIndex <= args.lastIndex)) {
        voteFor := args.candidate;
        granted := true;
        ChangeRole(Follower);
      }
      Persist();
    }

    /** The first half of an election. */
    method StartElection() returns (started: bool, args: VoteArgs)
      requires Valid()
      modifies this
      ensures Valid() && State() == OnElectionTimeout(old(State()))
      ensures started == !old(role).Leader? && args == VoteArgsOf(State())
    {
      started := !role.Leader?;
      if started {
        ChangeRole(Candidate);
        Persist();
      }
      var lastTerm, lastIndex := LastLogTermIndex();
      args := VoteArgs(currentTerm, me, lastIndex, lastTerm);
    }

    /** The peers that granted their vote. */
    ghost function Granted(replies: seq<bool>): set<nat>
    {
      set i: nat | i < |replies| && i != me && replies[i]
    }

    /** Counts the votes that arrive in time; `replies[i]` says whether peer `i` granted its vote. */
    method CountVotes(replies: seq<bool>) returns (res: nat)
      ensures res == |Granted(replies)|
    {
      res := 0;
      ghost var counted: set<nat> := {};
      for i := 0 to |replies|
        invariant counted == (set j: nat | j < i && j != me && replies[j]) && res == |counted|
      {
        if i != me && replies[i] {
          res := res + 1;
          counted := counted + {i};
        }
      }
    }

    /** The second half: the server becomes leader if it is still a candidate of that term and has enough votes. */
    method FinishElection(args: VoteArgs, count: nat)
      requires Valid() && me < peers
      modifies this
      ensures Valid()
      ensures State() ==
        if old(role).Candidate? && old(currentTerm) == args.term && count >= peers / 2 then OnElected(old(State()))
          else old(State())
    {
      if role.Candidate? && currentTerm == args.term && count >= peers / 2 {
        ChangeRole(Leader);
        Persist();
      }
    }

    method Start(command: int) returns (index: int, term: int, isLeader: bool)
      requires Valid() && me < peers
      modifies this
      ensures Valid() && State() == OnStart(old(State()), command)
      ensures index == old(State()).LastIndex() + 1 && term == old(currentTerm) && isLeader == old(role).Leader?
    {
      term, isLeader := currentTerm, role.Leader?;
      var _, lastIndex := LastLogTermIndex();
      index := lastIndex + 1;
      if isLeader {
        log := log + [LogEntry(command, term)];
        nextIndex := nextIndex[me := index + 1];
        matchIndex := matchIndex[me := index];
        Persist();
      }
    }

    method GetRealLogIndex(index: int) returns (i: int)
      ensures i == if index < lastSnapshotIndex then -1 else index - lastSnapshotIndex
    {
      i := index - lastSnapshotIndex;
      if i < 0 {
        i := -1;
      }
    }

    /** The piece of the log that peer `p` gets next; `OutOfRange` where the program would read outside its log. */
    method GetAEInfo(p: nat) returns (r: Request)
      requires Valid() && p < |nextIndex|
      ensures r == RequestFor(State(), p)
    {
      var lastLogTerm, lastLogIndex := LastLogTermIndex();
      if nextIndex[p] <= lastSnapshotIndex {
        return Request(AppendArgs(currentTerm, me, lastLogIndex, lastLogTerm, [], commitIndex));
      }
      var prevIdx := nextIndex[p] - 1;
      var i := GetRealLogIndex(nextIndex[p]);
      if i > |log| {
        return OutOfRange;
      }
      var prevTerm := log[prevIdx - lastSnapshotIndex].term;
      r := Request(AppendArgs(currentTerm, me, prevIdx, prevTerm, log[i..], commitIndex));
    }

    method CheckIfAEOutOfOrder(args: AppendArgs) returns (b: bool)
      requires Valid()
      ensures b == OutOfOrder(State(), args)
    {
      var argsLastIndex := args.prevIndex + |args.entries|;
      var myLastTerm, myLastIndex := LastLogTermIndex();
      b := args.term < myLastTerm || (argsLastIndex < myLastIndex && myLastTerm == args.term);
    }

    /** Finds the first entry after the snapshot that has term `t`. */
    method FirstIndexOfTerm(t: int) returns (xIndex: int)
      requires Valid()
      ensures xIndex == lastSnapshotIndex + FirstOfTerm(log, t, 1)
    {
      xIndex := lastSnapshotIndex + 1;
      while xIndex - lastSnapshotIndex < |log| && log[xIndex - lastSnapshotIndex].term != t
        invariant 1 <= xIndex - lastSnapshotIndex <= |log|
        invariant FirstOfTerm(log, t, 1) == FirstOfTerm(log, t, xIndex - lastSnapshotIndex)
      {
        xIndex := xIndex + 1;
      }
    }

    method AppendEntries(args: AppendArgs) returns (reply: AppendReply)
      requires Valid()
      modifies this
      ensures Valid()
      ensures State() == OnAppend(old(State()), args).0 && reply == OnAppend(old(State()), args).1
    {
      reply := AppendReply(false, 0, -1, -1, -1, 0);
      if args.term < currentTerm {
        reply := reply.(term := currentTerm);
        return;
      }
      AppendAfterTerm(State(), args);
      currentTerm := args.term;
      ChangeRole(Follower);
      reply := MatchLog(args, reply);
      if reply.success {
        FollowLeaderCommit(args.leaderCommit);
      }
      Persist();
    }

    method FollowLeaderCommit(leaderCommit: int)
      requires Valid()
      modifies this`commitIndex
      ensures Valid() && State() == old(State()).FollowCommit(leaderCommit)
    {
      if leaderCommit > commitIndex {
        var _, lastIndex := LastLogTermIndex();
        commitIndex := Min(leaderCommit, lastIndex);
      }
    }

    /** The part of the handler that compares the logs. */
    method MatchLog(args: AppendArgs, r: AppendReply) returns (reply: AppendReply)
      requires Valid() && r == Rejected && currentTerm == args.term && role.Follower?
      modifies this`log
      ensures Valid()
      ensures reply == OnAppend(old(State()), args).1
      ensures OnAppend(old(State()), args).0 ==
        if reply.success then State().FollowCommit(args.leaderCommit).Persist() else State().Persist()
    {
      reply := r;
      var _, lastLogIndex := LastLogTermIndex();
      if lastLogIndex < args.prevIndex {
        reply := reply.(xLen := lastLogIndex + 1);
        return;
      }
      if args.prevIndex < lastSnapshotIndex {
        reply := reply.(nextIndex := lastSnapshotIndex + 1);
        return;
      }
      var i := GetRealLogIndex(args.prevIndex);
      var entry := log[i];
      if args.prevIndex == lastSnapshotIndex {
        var delayed := CheckIfAEOutOfOrder(args);
        if delayed {
          reply := reply.(nextIndex := -1);
        } else {
          log := log[..1] + args.entries;
          reply := reply.(success := true);
        }
      } else if args.prevTerm == entry.term {
        var delayed := CheckIfAEOutOfOrder(args);
        if delayed {
          reply := reply.(nextIndex := -1);
        } else {
          reply := reply.(success := true);
          log := log[..i + 1];
          log := log + args.entries;
        }
      } else {
        var xIndex := FirstIndexOfTerm(entry.term);
        reply := reply.(xTerm := entry.term, xIndex := xIndex);
      }
    }

    method ContainsXTerm(xTerm: int) returns (i: int)
      requires Valid()
      ensures i == LastOfTerm(log, xTerm, |log|)
    {
      i := |log| - 1;
      while i > 0
        invariant 0 <= i < |log| && LastOfTerm(log, xTerm, |log|) == LastOfTerm(log, xTerm, i + 1)
      {
        if log[i].term == xTerm {
          return;
        }
        i := i - 1;
      }
      i := -1;
    }

    /** Whether more than half of the peers are known to hold the entry at `i`. */
    method HeldByMajority(i: int) returns (yes: bool)
      ensures yes <==> Holders(matchIndex, i) > peers / 2
      ensures yes <==> |HolderSet(matchIndex, i)| > peers / 2
    {
      HoldersIsSize(matchIndex, i);
      var cnt := 0;
      for k := 0 to |matchIndex|
        invariant cnt == Holders(matchIndex[..k], i) <= peers / 2
      {
        assert matchIndex[..k + 1][..k] == matchIndex[..k];
        if matchIndex[k] >= i {
          cnt := cnt + 1;
          if cnt > peers / 2 {
            HoldersGrow(matchIndex, i, k + 1);
            return true;
          }
        }
      }
      assert matchIndex[..|matchIndex|] == matchIndex;
      return false;
    }

    /** Advances `commitIndex` to the greatest index that a majority is known to hold. */
    method LeaderCommit()
      requires Valid()
      modifies this`commitIndex
      ensures Valid() && State() == OnLeaderCommit(old(State()))
    {
      var i := commitIndex + 1;
      ghost var c := commitIndex;
      while i <= |log| + lastSnapshotIndex
        invariant c < i && (i <= |log| + lastSnapshotIndex + 1 || i == c + 1)
        invariant commitIndex == MajorityIndex(matchIndex, peers, c, i - 1)
      {
        var yes := HeldByMajority(i);
        if yes {
          commitIndex := i;
        }
        i := i + 1;
      }
    }

    /** What a server does with an answer to a request of its own. */
    method HandleAppendReply(p: nat, args: AppendArgs, reply: AppendReply) returns (install: bool)
      requires Valid() && p < peers
      modifies this
      ensures Valid()
      ensures State() == OnAppendReply(old(State()), p, args, reply).0 &&
        install == OnAppendReply(old(State()), p, args, reply).1
    {
      install := false;
      if reply.term > currentTerm {
        ChangeRole(Follower);
        currentTerm := reply.term;
        Persist();
        return;
      }
      if !role.Leader? || currentTerm != args.term {
        return;
      }
      if reply.success {
        nextIndex := nextIndex[p := nextIndex[p] + |args.entries|];
        matchIndex := matchIndex[p := nextIndex[p] - 1];
        if |args.entries| > 0 && args.entries[|args.entries| - 1].term == currentTerm {
          LeaderCommit();
        }
        return;
      }
      if reply.nextIndex == -1 {
        return;
      }
      var xTerm, xIndex, xLen := reply.term, reply.xIndex, reply.xLen;
      var next := 0;
      if xLen != -1 {
        next := xLen;
      } else if xTerm != -1 {
        var idx := ContainsXTerm(xTerm);
        if idx != -1 {
          next := idx + lastSnapshotIndex;
        } else {
          next := xIndex;
        }
      }
      nextIndex := nextIndex[p := next];
      matchIndex := matchIndex[p := next - 1];
      install := next <= lastSnapshotIndex;
    }

    /** Drops the log before `index`. Beyond the log the program would panic. */
    method SaveStateAndSnapshot(index: int, data: Snapshot) returns (panicked: bool)
      requires Valid()
      modifies this
      ensures Valid() && State() == OnSaveSnapshot(old(State()), index, data)
      ensures panicked == (index > old(State()).LastIndex() && index >= old(lastSnapshotIndex))
    {
      panicked := false;
      if index < lastSnapshotIndex {
        return;
      }
      var i := GetRealLogIndex(index);
      if i >= |log| {
        return true;
      }
      var lastLog := log[i];
      log := log[i..];
      lastSnapshotIndex := index;
      lastSnapshotTerm := lastLog.term;
      PersistWith(data);
    }

    method InstallSnapshot(args: InstallArgs) returns (replyTerm: int)
      requires Valid()
      modifies this
      ensures Valid()
      ensures State() == OnInstall(old(State()), args).0 && replyTerm == OnInstall(old(State()), args).1
    {
      replyTerm := currentTerm;
      if args.term < currentTerm {
        return;
      }
      if args.term > currentTerm {
        ChangeRole(Follower);
        currentTerm := args.term;
        Persist();
      }
      if lastSnapshotIndex >= args.lastIndex {
        return;
      }
      var offset := args.lastIndex - lastSnapshotIndex;
      if offset >= |log| {
        log := [LogEntry(0, args.lastTerm)];
      } else {
        log := log[offset..];
      }
      lastSnapshotIndex := args.lastIndex;
      lastSnapshotTerm := args.lastTerm;
      PersistWith(args.data);
    }
  }
}