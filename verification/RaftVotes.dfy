/**
 Terms, votes and roles over the steps of a cluster (raft/raft.go:135-184, 313-366, 585-707): exactly which step
 takes back a vote or lowers a term, and which candidates are called behind.
 */
module RaftVotes {
  import opened Options
  import opened RaftNode
  import opened RaftCommit
  import opened RaftCluster
  import opened RaftReplies

  // ----- Votes

  /** The step makes the peer a follower again in the term it is in: an AppendEntries of that term, or a reply that names it. */
  ghost predicate ResetsVote<C, D>(s: Peer<C, D>, a: Action<C, D>) {
    match a
    case RecvAppend(_, append) => append.leaderTerm == s.p.currentTerm
    case StepDown(_, term) => term == s.p.currentTerm
    case RecvAppendReply(_, _, _, append, reply) => !reply.success && append.leaderTerm < reply.followerTerm == s.p.currentTerm
    case _ => false
  }

  /** A vote that was given is changed within its term only by such a step, which takes it back; so another one can follow. */
  lemma VoteTakenBackIff<C, D>(c: Cluster<C, D>, a: Action<C, D>)
    requires Good(c) && Enabled(c, a) && c.peers[a.i].p.votedFor != -1
    ensures var s, s' := c.peers[a.i], Step(c, a);
            && (s'.p.currentTerm == s.p.currentTerm && s'.p.votedFor != s.p.votedFor <==> ResetsVote(s, a))
            && (ResetsVote(s, a) ==> s'.p.votedFor == -1)
  {
    hide CommitUpTo, CommitPoint, FirstOfTerm, GoodPeer;
    var s := c.peers[a.i];
    GoodIsShape(c, a.i);
    match a
    case RecvAppend(_, append) => AppendTerm(s, append);
    case RecvAppendReply(_, me, peer, append, reply) => ReplyTerm(s, me, peer, append, reply);
    case _ =>
  }

  lemma GoodIsShape<C, D>(c: Cluster<C, D>, i: nat)
    requires Good(c) && i < |c.peers|
    ensures Shape(c.peers[i].p) && |c.peers[i].p.logs| > 0 && Restore(c.peers[i].stored) == c.peers[i].p
  {
  }

  lemma AppendTerm<C, D>(s: Peer<C, D>, args: AppendArgs<C>)
    requires Shape(s.p) && Contiguous(args) && AppendSafe(s, args)
    ensures var s' := OnAppend(s, args).0;
            if args.leaderTerm < s.p.currentTerm then s' == s
            else s'.p.currentTerm == args.leaderTerm && s'.p.votedFor == -1 && s'.role == Follower && s'.leader == None
  {
  }

  lemma ReplyTerm<C, D>(s: Peer<C, D>, me: nat, peer: nat, args: AppendArgs<C>, reply: AppendReply)
    requires Shape(s.p) && ReplyExpected(s, me, peer, args, reply)
    ensures var s' := OnAppendReply(s, me, peer, args, reply).0;
            if !reply.success && args.leaderTerm < reply.followerTerm then SteppedDown(s, s', reply.followerTerm)
            else s'.p == s.p && s'.role == s.role && (s'.leader.None? <==> s.leader.None?)
  {
  }

  /** A vote is given to a candidate only while there is none for another, and saved. */
  lemma GrantedOnce<C, D>(c: Cluster<C, D>, a: Action<C, D>)
    requires Good(c) && Enabled(c, a) && a.Grant?
    ensures var s, s' := c.peers[a.i], Step(c, a);
            && s'.p.currentTerm == s.p.currentTerm && s'.role == s.role
            && (s'.p.votedFor == a.candidate <==> s.p.votedFor == -1 || s.p.votedFor == a.candidate)
            && (s'.p.votedFor != a.candidate ==> s' == s)
            && (s'.p.votedFor == a.candidate ==> s'.stored == Some(s'.p))
  {
  }

  /** So one peer may vote for two candidates in a term: a vote, an AppendEntries of the same term, another vote. */
  lemma VotesTwice<C, D>(s: Peer<C, D>, first: int, second: int, leader: int)
    requires Shape(s.p) && s.p.votedFor == -1 && first != -1 && second != -1 && first != second
    ensures var heartbeat := AppendArgs(s.p.currentTerm, leader, -1, -1, [], s.commitIndex);
            && Contiguous(heartbeat) && AppendSafe(GrantVote(s, first), heartbeat)
            && var s1 := GrantVote(s, first);
               var s2 := OnAppend(s1, heartbeat).0;
               var s3 := GrantVote(s2, second);
               s1.p.votedFor == first && s3.p.votedFor == second && s1.p.currentTerm == s3.p.currentTerm == s.p.currentTerm
  {
  }

  // ----- Terms and roles

  /** The step is a reply that names a term later than the message's and earlier than the peer's own. */
  ghost predicate LowersTerm<C, D>(s: Peer<C, D>, a: Action<C, D>) {
    match a
    case StepDown(_, term) => term < s.p.currentTerm
    case RecvAppendReply(_, _, _, append, reply) => !reply.success && append.leaderTerm < reply.followerTerm < s.p.currentTerm
    case _ => false
  }

  /**
   A term goes down exactly then. A new term comes with a vote for nobody, or for the peer itself as a candidate;
   nobody leads in a term that has just begun, or after a crash.
   */
  lemma TermFallsIff<C, D>(c: Cluster<C, D>, a: Action<C, D>)
    requires Good(c) && Enabled(c, a)
    ensures var s, s' := c.peers[a.i], Step(c, a);
            && (s'.p.currentTerm < s.p.currentTerm <==> LowersTerm(s, a))
            && (s'.p.currentTerm != s.p.currentTerm ==>
                  s'.role != Leading && s'.p.votedFor == (if a.Elect? then a.me else -1) && s'.stored == Some(s'.p))
            && (a.Elect? ==> if s.role == Leading then s' == s else s'.p.currentTerm == s.p.currentTerm + 1 && s'.role == Candidate)
            && (s'.role == Leading && s.role != Leading ==> a.Win?)
            && (a.Crash? ==> s'.role == Follower && s'.leader == None)
  {
    hide CommitUpTo, CommitPoint, FirstOfTerm, GoodPeer;
    var s := c.peers[a.i];
    GoodIsShape(c, a.i);
    match a
    case RecvAppend(_, append) => AppendTerm(s, append); AppendSaved(s, append);
    case RecvAppendReply(_, me, peer, append, reply) => ReplyTerm(s, me, peer, append, reply);
    case _ =>
  }

  lemma AppendSaved<C, D>(s: Peer<C, D>, args: AppendArgs<C>)
    requires Shape(s.p) && Contiguous(args) && AppendSafe(s, args)
    ensures var s' := OnAppend(s, args).0;
            args.leaderTerm >= s.p.currentTerm ==> s'.stored == Some(s'.p)
  {
  }

  // ----- Who is behind

  /** Of any two logs at most one is behind the other, and neither is exactly when they end with the same term and index. */
  lemma BehindIsOrder<C>(p: Persistent<C>, q: Persistent<C>, r: Persistent<C>)
    requires |p.logs| > 0 && |q.logs| > 0 && |r.logs| > 0
    ensures !(Behind(p, Last(q).term, Last(q).index) && Behind(q, Last(p).term, Last(p).index))
    ensures !Behind(p, Last(q).term, Last(q).index) && !Behind(q, Last(p).term, Last(p).index) <==>
            Last(p).term == Last(q).term && Last(p).index == Last(q).index
    ensures Behind(p, Last(q).term, Last(q).index) && Behind(q, Last(r).term, Last(r).index) ==> Behind(p, Last(r).term, Last(r).index)
  {
  }

  /** A candidate whose log goes on from this one's is not behind, and one that lacks its end is. */
  lemma LongerIsNotBehind<C>(p: Persistent<C>, q: Persistent<C>)
    requires Shape(p) && Shape(q) && p.snapIndex == q.snapIndex && p.logs <= q.logs && Ascending(q.logs)
    ensures !Behind(p, Last(q).term, Last(q).index)
    ensures |p.logs| < |q.logs| ==> Behind(q, Last(p).term, Last(p).index)
  {
    LastIndex(p);
    LastIndex(q);
    assert p.logs[|p.logs| - 1] == q.logs[|p.logs| - 1];
  }
}
