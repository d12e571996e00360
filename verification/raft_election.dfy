/** Election Safety: whatever is lost, delayed, repeated or crashes, no term has two leaders. */
module RaftElection {
  import opened Collections
  import opened Hiding
  import opened RaftServer
  import opened RaftNetwork

  datatype Vote = Vote(voter: nat, term: int, candidate: nat)

  /** What the proof remembers of a run: every vote that was given and the leader of each term. */
  datatype Past = Past(votes: set<Vote>, leaders: map<int, nat>)

  /** The vote that a step gives, if any. */
  ghost function NewVotes(s: Server, e: Event): set<Vote> {
    match e
    case ElectionTimeout(i) => if s.role.Leader? then {} else {Vote(i, s.term + 1, i)}
    case DeliverVote(i, a) => if OnRequestVote(s, a).1 then {Vote(i, a.term, a.candidate)} else {}
    case _ => {}
  }

  ghost function NewPast(past: Past, s: Server, e: Event): Past {
    Past(past.votes + NewVotes(s, e), if e.Win? then past.leaders[s.term := e.server] else past.leaders)
  }

  ghost function Voters(votes: set<Vote>, t: int, c: nat): set<nat> {
    set v | v in votes && v.term == t && v.candidate == c :: v.voter
  }

  ghost predicate OneVotePerTerm(votes: set<Vote>) {
    forall v, w :: v in votes && w in votes && v.voter == w.voter && v.term == w.term ==> v == w
  }

  /** How the state of server `i` agrees with the votes and the leaders so far. */
  ghost predicate ServerInv(past: Past, i: nat, s: Server, n: nat) {
    && s.me == i && s.peers == n
    && s.disk.term <= s.term && s.disk.voteFor == s.voteFor
    && (forall v :: v in past.votes && v.voter == i ==>
          v.term <= s.disk.term && (v.term == s.disk.term ==> v.candidate == s.voteFor))
    && (s.role.Candidate? ==> s.disk.term == s.term && Vote(i, s.term, i) in past.votes)
    && (s.role.Leader? ==> s.term in past.leaders && past.leaders[s.term] == i)
    && (forall t :: t in past.leaders && past.leaders[t] == i ==>
          t <= s.disk.term && !(t == s.term && s.role.Candidate?))
  }

  ghost predicate VotesInv(past: Past, c: Cluster) {
    && OneVotePerTerm(past.votes)
    && (forall v :: v in past.votes ==> v.voter < |c.servers|)
    && (forall v, a :: VoteReply(v, a, true) in c.messages ==> Vote(v, a.term, a.candidate) in past.votes)
    && (forall t :: t in past.leaders ==> 2 * |Voters(past.votes, t, past.leaders[t])| > |c.servers|)
  }

  ghost predicate ElectionInv(past: Past, c: Cluster) {
    && VotesInv(past, c)
    && (forall i :: 0 <= i < |c.servers| ==> ServerInv(past, i, c.servers[i], |c.servers|))
  }

  /** A step that gives no vote and elects no leader: the server keeps its vote, its persisted term does
      not fall, and it keeps its role in its term or becomes a follower. */
  ghost predicate Calm(s: Server, t: Server) {
    && t.me == s.me && t.peers == s.peers && t.voteFor == s.voteFor == t.disk.voteFor
    && s.disk.term <= t.disk.term <= t.term
    && (t.role.Follower? || (t.role == s.role && t.term == s.term))
  }

  lemma AnswersAreCalm(s: Server, e: Event)
    requires s.disk.term <= s.term && s.disk.voteFor == s.voteFor
    requires e.DeliverAppendReply? || e.DeliverInstallReply? || e.Propose? || e.SendAppend? || e.SendInstall?
    ensures Calm(s, NewServer(s, e))
  {
  }

  lemma OtherStepsAreCalm(s: Server, e: Event)
    requires s.disk.term <= s.term && s.disk.voteFor == s.voteFor
    requires !e.ElectionTimeout? && !e.DeliverVote? && !e.Win?
    ensures Calm(s, NewServer(s, e))
  {
    match e
    case DeliverAppend(_, _) =>
    case Save(_, _, _) =>
    case DeliverInstall(_, _) =>
    case Crash(_) =>
    case _ => AnswersAreCalm(s, e);
  }

  lemma CalmKeepsInv(past: Past, i: nat, s: Server, t: Server, n: nat)
    requires ServerInv(past, i, s, n) && Calm(s, t)
    ensures ServerInv(past, i, t, n)
  {
  }

  lemma TimeoutStep(past: Past, i: nat, s: Server, n: nat, e: Event)
    requires ServerInv(past, i, s, n) && e == ElectionTimeout(i)
    ensures ServerInv(NewPast(past, s, e), i, NewServer(s, e), n)
    ensures OneVotePerTerm(past.votes) ==> OneVotePerTerm(NewPast(past, s, e).votes)
  {
  }

  lemma VoteStep(past: Past, i: nat, s: Server, n: nat, e: Event)
    requires ServerInv(past, i, s, n) && e.DeliverVote? && e.server == i
    ensures ServerInv(NewPast(past, s, e), i, NewServer(s, e), n)
    ensures OneVotePerTerm(past.votes) ==> OneVotePerTerm(NewPast(past, s, e).votes)
  {
  }

  lemma WinStep(past: Past, i: nat, s: Server, n: nat, e: Event)
    requires ServerInv(past, i, s, n) && e.Win? && e.server == i && s.role.Candidate?
    ensures ServerInv(NewPast(past, s, e), i, NewServer(s, e), n)
  {
  }

  lemma OtherStep(past: Past, i: nat, s: Server, n: nat, e: Event)
    requires ServerInv(past, i, s, n) && !e.ElectionTimeout? && !e.DeliverVote? && !e.Win?
    ensures NewPast(past, s, e) == past && ServerInv(past, i, NewServer(s, e), n)
  {
    OtherStepsAreCalm(s, e);
    CalmKeepsInv(past, i, s, NewServer(s, e), n);
  }

  /** What a step does to the server that takes it. */
  lemma ServerStep(past: Past, i: nat, s: Server, n: nat, e: Event)
    requires ServerInv(past, i, s, n) && e.server == i && (e.Win? ==> s.role.Candidate?)
    ensures ServerInv(NewPast(past, s, e), i, NewServer(s, e), n)
    ensures OneVotePerTerm(past.votes) ==> OneVotePerTerm(NewPast(past, s, e).votes)
  {
    if e.ElectionTimeout? {
      TimeoutStep(past, i, s, n, e);
    } else if e.DeliverVote? {
      VoteStep(past, i, s, n, e);
    } else if e.Win? {
      WinStep(past, i, s, n, e);
    } else {
      OtherStep(past, i, s, n, e);
    }
  }

  /** Two majorities share a voter, who voted once. */
  lemma SameLeader(past: Past, c: Cluster, t: int, a: nat, b: nat)
    requires VotesInv(past, c)
    requires 2 * |Voters(past.votes, t, a)| > |c.servers| && 2 * |Voters(past.votes, t, b)| > |c.servers|
    ensures a == b
  {
    var (A, B) := (Voters(past.votes, t, a), Voters(past.votes, t, b));
    if A !! B {
      VotersBound(past, c, A + B);
      assert false;
    }
    var v :| v in A && v in B;
    assert Vote(v, t, a) in past.votes && Vote(v, t, b) in past.votes;
  }

  lemma VotersBound(past: Past, c: Cluster, A: set<nat>)
    requires forall v :: v in A ==> v < |c.servers|
    ensures |A| <= |c.servers|
  {
    ElemsBound(|c.servers|, A);
  }

  /** The votes that a winner has collected, with its own, are a majority. */
  lemma WinnerHasMajority(past: Past, c: Cluster, e: Event)
    requires ElectionInv(past, c) && Enabled(c, e) && e.Win?
    ensures 2 * |Voters(past.votes, c.servers[e.server].term, e.server)| > |c.servers|
  {
    var (i, s) := (e.server, c.servers[e.server]);
    assert ServerInv(past, i, s, |c.servers|);
    var W := Voters(past.votes, s.term, i);
    forall v | v in e.voters + {i}
      ensures v in W
    {
      assert Vote(v, s.term, i) in past.votes;
    }
    assert |e.voters + {i}| == |e.voters| + 1;
    SubsetSize(e.voters + {i}, W);
  }

  lemma MoreVotes(votes: set<Vote>, more: set<Vote>, t: int, c: nat)
    requires votes <= more
    ensures |Voters(votes, t, c)| <= |Voters(more, t, c)|
  {
    SubsetSize(Voters(votes, t, c), Voters(more, t, c));
  }

  lemma RepliesStep(past: Past, c: Cluster, e: Event, v: nat, a: VoteArgs)
    requires VotesInv(past, c) && Enabled(c, e) && VoteReply(v, a, true) in After(c, e).messages
    ensures Vote(v, a.term, a.candidate) in past.votes + NewVotes(c.servers[e.server], e)
  {
    var s := c.servers[e.server];
    assert VoteReply(v, a, true) in c.messages || VoteReply(v, a, true) in Sent(c, s, e);
  }

  lemma MajorityStep(past: Past, c: Cluster, e: Event, t: int)
    requires ElectionInv(past, c) && Enabled(c, e) && t in NewPast(past, c.servers[e.server], e).leaders
    ensures var past' := NewPast(past, c.servers[e.server], e);
            2 * |Voters(past'.votes, t, past'.leaders[t])| > |c.servers|
  {
    var s := c.servers[e.server];
    var past' := NewPast(past, s, e);
    if e.Win? && t == s.term {
      WinnerHasMajority(past, c, e);
    }
    MoreVotes(past.votes, past'.votes, t, past'.leaders[t]);
  }

  lemma VotesStep(past: Past, c: Cluster, e: Event)
    requires ElectionInv(past, c) && Enabled(c, e)
    ensures VotesInv(NewPast(past, c.servers[e.server], e), After(c, e))
  {
    var s := c.servers[e.server];
    var past' := NewPast(past, s, e);
    assert OneVotePerTerm(past'.votes) by {
      assert ServerInv(past, e.server, s, |c.servers|);
      ServerStep(past, e.server, s, |c.servers|, e);
    }
    forall v, a | VoteReply(v, a, true) in After(c, e).messages
      ensures Vote(v, a.term, a.candidate) in past'.votes
    {
      RepliesStep(past, c, e, v, a);
    }
    forall t | t in past'.leaders
      ensures 2 * |Voters(past'.votes, t, past'.leaders[t])| > |c.servers|
    {
      MajorityStep(past, c, e, t);
    }
  }

  /** A winner does not replace another leader of its term. */
  lemma LeadersKept(past: Past, c: Cluster, e: Event)
    requires ElectionInv(past, c) && Enabled(c, e)
    ensures var past' := NewPast(past, c.servers[e.server], e);
            forall t :: t in past.leaders ==> t in past'.leaders && past'.leaders[t] == past.leaders[t]
    ensures e.Win? ==> c.servers[e.server].term !in past.leaders
  {
    if e.Win? {
      var s := c.servers[e.server];
      assert ServerInv(past, e.server, s, |c.servers|);
      WinnerHasMajority(past, c, e);
      if s.term in past.leaders {
        SameLeader(past, c, s.term, past.leaders[s.term], e.server);
        assert false;
      }
    }
  }

  lemma ElectionStep(past: Past, c: Cluster, e: Event)
    requires ElectionInv(past, c) && Enabled(c, e)
    ensures ElectionInv(NewPast(past, c.servers[e.server], e), After(c, e))
  {
    VotesStep(past, c, e);
    forall i | 0 <= i < |c.servers|
      ensures ServerInv(NewPast(past, c.servers[e.server], e), i, After(c, e).servers[i], |c.servers|)
    {
      EachServer(past, c, e, i);
    }
  }

  lemma EachServer(past: Past, c: Cluster, e: Event, i: nat)
    requires ElectionInv(past, c) && Enabled(c, e) && i < |c.servers|
    ensures ServerInv(NewPast(past, c.servers[e.server], e), i, After(c, e).servers[i], |c.servers|)
  {
    assert ServerInv(past, i, c.servers[i], |c.servers|);
    if i == e.server {
      ServerStep(past, i, c.servers[i], |c.servers|, e);
    } else {
      LeadersKept(past, c, e);
      OtherServer(past, c.servers[i], c.servers[e.server], |c.servers|, e, i);
    }
  }

  lemma OtherServer(past: Past, s: Server, mover: Server, n: nat, e: Event, i: nat)
    requires ServerInv(past, i, s, n) && i != e.server && (e.Win? ==> mover.term !in past.leaders)
    ensures ServerInv(NewPast(past, mover, e), i, s, n)
  {
    OthersUnaffected(past, NewPast(past, mover, e), i, s, n, e.server);
  }

  lemma OthersUnaffected(past: Past, past': Past, i: nat, s: Server, n: nat, j: nat)
    requires ServerInv(past, i, s, n) && i != j
    requires past.votes <= past'.votes && forall v :: v in past'.votes - past.votes ==> v.voter == j
    requires forall t :: t in past.leaders ==> t in past'.leaders && past'.leaders[t] == past.leaders[t]
    requires forall t :: t in past'.leaders && t !in past.leaders ==> past'.leaders[t] == j
    ensures ServerInv(past', i, s, n)
  {
  }

  /** The votes and leaders of the first `k` steps of a run. */
  ghost function PastOf(run: Run, n: nat, k: nat): Past
    requires run.Valid(n) && k < |run.states|
  {
    if k == 0 then Past({}, map[]) else
    assert run.StepAt(k - 1);
    NewPast(PastOf(run, n, k - 1), run.states[k - 1].servers[run.events[k - 1].server], run.events[k - 1])
  }

  lemma {:induction false} RunElectionInv(run: Run, n: nat, k: nat)
    requires run.Valid(n) && k < |run.states|
    ensures |run.states[k].servers| == n && ElectionInv(PastOf(run, n, k), run.states[k])
  {
    if k > 0 {
      RunElectionInv(run, n, k - 1);
      assert run.StepAt(k - 1);
      ElectionStep(PastOf(run, n, k - 1), run.states[k - 1], run.events[k - 1]);
    }
  }

  lemma LeadersStep(run: Run, n: nat, k: nat, t: int)
    requires run.Valid(n) && k + 1 < |run.states| && t in PastOf(run, n, k).leaders
    ensures t in PastOf(run, n, k + 1).leaders && PastOf(run, n, k + 1).leaders[t] == PastOf(run, n, k).leaders[t]
  {
    RunElectionInv(run, n, k);
    assert run.StepAt(k);
    LeadersKept(PastOf(run, n, k), run.states[k], run.events[k]);
  }

  /** Term `t` has been led by server `i`. */
  ghost predicate LedBy(run: Run, n: nat, k: nat, t: int, i: nat)
    requires run.Valid(n) && k < |run.states|
  {
    forall u {:trigger Unfold(u)} :: Unfold(u) ==> t in PastOf(run, n, k).leaders && PastOf(run, n, k).leaders[t] == i
  }

  lemma LedByNext(run: Run, n: nat, k: nat, t: int, i: nat)
    requires run.Valid(n) && k + 1 < |run.states| && LedBy(run, n, k, t, i)
    ensures LedBy(run, n, k + 1, t, i)
  {
    assert t in PastOf(run, n, k).leaders && PastOf(run, n, k).leaders[t] == i by {
      assert Unfold(true);
    }
    LeadersStep(run, n, k, t);
  }

  lemma {:induction false} LeadersStay(run: Run, n: nat, k: nat, l: nat, t: int, i: nat)
    requires run.Valid(n) && k <= l < |run.states| && LedBy(run, n, k, t, i)
    ensures LedBy(run, n, l, t, i)
  {
    if k < l {
      LeadersStay(run, n, k, l - 1, t, i);
      LedByNext(run, n, l - 1, t, i);
    }
  }

  lemma LeaderIsLedBy(run: Run, n: nat, k: nat, i: nat)
    requires run.Valid(n) && k < |run.states| && i < |run.states[k].servers| && run.states[k].servers[i].role.Leader?
    ensures LedBy(run, n, k, run.states[k].servers[i].term, i)
  {
    RunElectionInv(run, n, k);
    assert ServerInv(PastOf(run, n, k), i, run.states[k].servers[i], n);
  }

  /** Election Safety, for every run: servers that lead in the same term, at the same or at different
      times, are the same server. */
  lemma ElectionSafety(run: Run, n: nat, k: nat, l: nat, a: nat, b: nat)
    requires run.Valid(n) && k < |run.states| && l < |run.states|
    requires a < |run.states[k].servers| && b < |run.states[l].servers|
    requires run.states[k].servers[a].role.Leader? && run.states[l].servers[b].role.Leader?
    requires run.states[k].servers[a].term == run.states[l].servers[b].term
    ensures a == b
  {
    var t := run.states[k].servers[a].term;
    LeaderIsLedBy(run, n, k, a);
    LeaderIsLedBy(run, n, l, b);
    if k <= l {
      LeadersStay(run, n, k, l, t, a);
    } else {
      LeadersStay(run, n, l, k, t, b);
    }
    assert Unfold(true);
  }

  // The log check never blocks all elections

  /** A server whose log is at least as up to date as every other. */
  lemma {:induction false} MostUpToDate(servers: seq<Server>) returns (i: nat)
    requires servers != []
    ensures i < |servers| && forall j :: 0 <= j < |servers| ==> UpToDate(servers[j], VoteArgsOf(servers[i]))
  {
    var n := |servers| - 1;
    i := n;
    if n > 0 {
      var k := MostUpToDate(servers[..n]);
      assert forall j :: 0 <= j < n ==> servers[..n][j] == servers[j];
      if UpToDate(servers[n], VoteArgsOf(servers[k])) {
        i := k;
      }
    }
  }

  /** In any state of a cluster there is a server that, once its term is no smaller than any other and it is not
      leader, gets the vote of every other server when its election starts. */
  lemma SomeoneCanWin(c: Cluster) returns (i: nat)
    requires c.servers != []
    ensures i < |c.servers|
    ensures forall s: Server, j ::
      0 <= j < |c.servers| && s == c.servers[i].(term := s.term, role := s.role) && !s.role.Leader? &&
        c.servers[j].term <= s.term ==>
        OnRequestVote(c.servers[j], VoteArgsOf(OnElectionTimeout(s))).1
  {
    i := MostUpToDate(c.servers);
    forall s: Server, j |
      0 <= j < |c.servers| && s == c.servers[i].(term := s.term, role := s.role) && !s.role.Leader? &&
        c.servers[j].term <= s.term
      ensures OnRequestVote(c.servers[j], VoteArgsOf(OnElectionTimeout(s))).1
    {
      assert UpToDate(c.servers[j], VoteArgsOf(c.servers[i]));
    }
  }
}
