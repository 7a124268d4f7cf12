/**
 What a reply says, and what the sender makes of it (raft/raft.go:450-555, 803-912, 935-961, 1062-1128): a success
 means that the entries are there, and a message from an older term changes nothing but the sender.
 */
module RaftReplies {
  import opened Options
  import opened RaftNode

  /**
   For every peer and message: success exactly when the message is accepted, and then every entry sent is in the log
   at its index, as the last ones; the reply carries the term that the peer has now, the larger of the two. A conflict
   with the sentinel is reported with Xindex 0.
   */
  lemma SuccessMeansHeld<C, D>(s: Peer<C, D>, args: AppendArgs<C>)
    requires Shape(s.p) && Contiguous(args) && AppendSafe(s, args)
    ensures var (s', reply, _) := OnAppend(s, args);
            && (reply.success <==> Accepts(s, args))
            && reply.followerTerm == s'.p.currentTerm
            && s'.p.currentTerm == (if args.leaderTerm < s.p.currentTerm then s.p.currentTerm else args.leaderTerm)
            && (reply.success && args.entries != [] ==>
                  && |s'.p.logs| > 0 && Last(s'.p) == args.entries[|args.entries| - 1]
                  && forall k {:trigger args.entries[k]} :: 0 <= k < |args.entries| ==>
                       Held(s'.p, args.entries[k].index) && At(s'.p, args.entries[k].index) == args.entries[k])
            && (SentinelConflict(s, args) ==> reply.xterm == s.p.logs[0].term && reply.xindex == 0)
  {
    LastIndex(s.p);
  }

  /** A new leader first sends to everybody its no-op, to go on from the last entry that it had before. */
  lemma NewLeaderSends<C, D>(s: Peer<C, D>, peers: nat, me: int, peer: nat)
    requires Shape(s.p) && peer < peers
    ensures var l, last := BecomeLeader(s, peers), Last(s.p);
            var noop := LogEntry(s.p.currentTerm, last.index + 1, None, last.cmdIndex, true);
            && Shape(l.p) && l.role == Leading && l.leader.Some? && l.p == s.p.(logs := s.p.logs + [noop]) && l.stored == Some(l.p)
            && |l.leader.value.nextIndex| == |l.leader.value.matchIndex| == peers
            && NextAppend(l, me, peer) == Some(AppendArgs(s.p.currentTerm, me, last.index, last.term, [noop], s.commitIndex))
  {
    LastIndex(s.p);
    var l := BecomeLeader(s, peers);
    LastIndex(l.p);
    assert l.p.logs[|s.p.logs|..] == [Last(l.p)];
  }

  /** The peer is a follower of this term, with nothing else changed, and saved. */
  ghost predicate SteppedDown<C, D>(l: Peer<C, D>, l': Peer<C, D>, term: int) {
    && l'.role == Follower && l'.leader == None && l'.p == l.p.(currentTerm := term, votedFor := -1)
    && l'.commitIndex == l.commitIndex && l'.lastApplied == l.lastApplied
    && l'.stored == Some(l'.p) && l'.snapshot == l.snapshot
  }

  /**
   A leader of an older term: the peer does nothing and says no, and whoever sent the message becomes a follower in
   the peer's term and commits nothing.
   */
  lemma OlderLeaderStepsDown<C, D>(s: Peer<C, D>, args: AppendArgs<C>, l: Peer<C, D>, me: nat, peer: nat)
    requires Shape(s.p) && Contiguous(args) && args.leaderTerm < s.p.currentTerm && Shape(l.p)
    ensures AppendSafe(s, args)
    ensures var (s', reply, out) := OnAppend(s, args);
            && s' == s && out == [] && !reply.success && reply.followerTerm == s.p.currentTerm
            && ReplyExpected(l, me, peer, args, reply)
            && OnAppendReply(l, me, peer, args, reply).1 == []
            && SteppedDown(l, OnAppendReply(l, me, peer, args, reply).0, s.p.currentTerm)
  {
  }

  /** The same for a snapshot, if its sender is still in the term in which it sent it. */
  lemma OlderInstallerStepsDown<C, D>(s: Peer<C, D>, args: InstallArgs<D>, l: Peer<C, D>, peer: nat)
    requires |s.p.logs| > 0 && args.term < s.p.currentTerm
    ensures var (s', term, out) := OnInstall(s, args);
            && s' == s && out == [] && term == s.p.currentTerm
            && InstallReplyExpected(l, peer, args, term)
            && (if l.p.currentTerm == args.term then SteppedDown(l, OnInstallReply(l, peer, args, term), s.p.currentTerm)
                else OnInstallReply(l, peer, args, term) == l)
  {
  }

  /** A reply to a message of another term changes nothing and commits nothing, unless it names a later term than the message's. */
  lemma OtherTermIgnored<C, D>(l: Peer<C, D>, me: nat, peer: nat, args: AppendArgs<C>, reply: AppendReply)
    requires Shape(l.p) && ReplyExpected(l, me, peer, args, reply) && args.leaderTerm != l.p.currentTerm
    ensures var (l', out) := OnAppendReply(l, me, peer, args, reply);
            && out == []
            && if reply.success || reply.followerTerm <= args.leaderTerm then l' == l else SteppedDown(l, l', reply.followerTerm)
  {
  }

  /** What a snapshot leaves: the reply never makes a sender of the same term step down, and the sentinel is internal. */
  lemma InstallAnswered<C, D>(s: Peer<C, D>, args: InstallArgs<D>)
    requires Shape(s.p) && args.term >= s.p.currentTerm
    ensures var (s', term, out) := OnInstall(s, args);
            && term <= args.term && s'.p.currentTerm == args.term
            && (args.snapIndex > s.p.snapIndex ==>
                  && |s'.p.logs| > 0 && s'.p.logs[0].internal && s'.p.logs[0].command == None && s'.snapshot == args.data
                  && out == [SnapshotMsg(args.data, args.snapIndex, args.snapTerm, args.snapCmdIndex)])
            && (args.snapIndex <= s.p.snapIndex ==> s'.p.logs == s.p.logs && out == [])
  {
  }
}
