/**
 What a leader knows of the others, in every run (raft/raft.go:149-184, 803-857, 953-957): matchIndexs holds only
 what was acknowledged in this term, and nothing is committed that too few have acknowledged.
 */
module RaftAcks {
  import opened Options
  import opened RaftNode
  import opened RaftCluster

  /** In this step peer i hears from j that it has everything up to index, by an append or a snapshot of this term. */
  ghost predicate AcksAt<C, D>(a: Action<C, D>, i: nat, j: nat, term: int, index: int) {
    match a
    case RecvAppendReply(i', _, peer, append, reply) =>
      && i' == i && peer == j && reply.success && append.leaderTerm == term
      && append.entries != [] && append.entries[|append.entries| - 1].index == index
    case RecvInstallReply(i', peer, install, replyTerm) =>
      i' == i && peer == j && install.term == term && replyTerm <= term && install.snapIndex == index
    case _ => false
  }

  ghost predicate Acked<C, D>(actions: seq<Action<C, D>>, n: nat, i: nat, j: nat, term: int, index: int) {
    exists m :: 0 <= m < n && m < |actions| && AcksAt(actions[m], i, j, term, index)
  }

  /** The peer has the state of a leader exactly when it leads, and what it has of the others they have acknowledged; its two cursors are one. */
  ghost predicate KnowsAcked<C, D>(actions: seq<Action<C, D>>, n: nat, i: nat, size: nat, s: Peer<C, D>) {
    && 0 <= s.p.snapIndex && 0 <= s.commitIndex == s.lastApplied
    && (s.leader.Some? <==> s.role == Leading)
    && (s.leader.Some? ==> MatchesAcked(actions, n, i, size, s.p.currentTerm, s.leader.value))
  }

  ghost predicate MatchesAcked<C, D>(actions: seq<Action<C, D>>, n: nat, i: nat, size: nat, term: int, leader: Leader) {
    && |leader.nextIndex| == |leader.matchIndex| == size
    && forall j :: 0 <= j < size && leader.matchIndex[j] != 0 ==> Acked(actions, n, i, j, term, leader.matchIndex[j])
  }

  ghost predicate AllKnowAcked<C, D>(actions: seq<Action<C, D>>, n: nat, c: Cluster<C, D>) {
    forall i :: 0 <= i < |c.peers| ==> KnowsAcked(actions, n, i, |c.peers|, c.peers[i])
  }

  // ----- Each step keeps it

  lemma MatchesLater<C, D>(actions: seq<Action<C, D>>, n: nat, i: nat, size: nat, term: int, leader: Leader)
    requires MatchesAcked(actions, n, i, size, term, leader)
    ensures MatchesAcked(actions, n + 1, i, size, term, leader)
  {
    forall j | 0 <= j < size && leader.matchIndex[j] != 0
      ensures Acked(actions, n + 1, i, j, term, leader.matchIndex[j])
    {
      assert Acked(actions, n, i, j, term, leader.matchIndex[j]);
    }
  }

  lemma MatchesOneMore<C, D>(actions: seq<Action<C, D>>, n: nat, i: nat, size: nat, term: int, leader: Leader, peer: nat, next: int, index: int)
    requires MatchesAcked(actions, n, i, size, term, leader) && peer < size && n < |actions| && AcksAt(actions[n], i, peer, term, index)
    ensures MatchesAcked(actions, n + 1, i, size, term, Leader(leader.nextIndex[peer := next], leader.matchIndex[peer := index]))
  {
    hide AcksAt;
    MatchesLater(actions, n, i, size, term, leader);
    assert Acked(actions, n + 1, i, peer, term, index);
  }

  lemma ReplyKnows<C, D>(s: Peer<C, D>, me: nat, peer: nat, args: AppendArgs<C>, reply: AppendReply,
                         actions: seq<Action<C, D>>, n: nat, i: nat, size: nat)
    requires Shape(s.p) && ReplyExpected(s, me, peer, args, reply) && KnowsAcked(actions, n, i, size, s)
    requires n < |actions| && actions[n] == RecvAppendReply(i, me, peer, args, reply)
    ensures KnowsAcked(actions, n + 1, i, size, OnAppendReply(s, me, peer, args, reply).0)
  {
    hide MatchesAcked;
    if s.leader.Some? {
      MatchesLater(actions, n, i, size, s.p.currentTerm, s.leader.value);
      MatchesSized(actions, n, i, size, s.p.currentTerm, s.leader.value);
      if Concerns(s, args, reply) {
        if reply.success && args.entries != [] {
          var acked := args.entries[|args.entries| - 1].index;
          CommitPointBounds(s.p, s.commitIndex, s.leader.value.matchIndex[peer := acked], me, acked);
          MatchesOneMore(actions, n, i, size, s.p.currentTerm, s.leader.value, peer, acked + 1, acked);
        } else if !reply.success {
          var next := NextAfterReject(s.p, reply, s.leader.value.nextIndex[peer]);
          NextMatters(actions, n + 1, i, size, s.p.currentTerm, s.leader.value, peer, next);
        }
      }
    }
  }

  lemma MatchesSized<C, D>(actions: seq<Action<C, D>>, n: nat, i: nat, size: nat, term: int, leader: Leader)
    requires MatchesAcked(actions, n, i, size, term, leader)
    ensures |leader.nextIndex| == |leader.matchIndex| == size
  {
  }

  lemma NextMatters<C, D>(actions: seq<Action<C, D>>, n: nat, i: nat, size: nat, term: int, leader: Leader, peer: nat, next: int)
    requires MatchesAcked(actions, n, i, size, term, leader) && peer < size
    ensures MatchesAcked(actions, n, i, size, term, leader.(nextIndex := leader.nextIndex[peer := next]))
  {
  }

  lemma InstallReplyKnows<C, D>(s: Peer<C, D>, peer: nat, args: InstallArgs<D>, term: int,
                                actions: seq<Action<C, D>>, n: nat, i: nat, size: nat)
    requires InstallReplyExpected(s, peer, args, term) && KnowsAcked(actions, n, i, size, s)
    requires n < |actions| && actions[n] == RecvInstallReply(i, peer, args, term)
    ensures KnowsAcked(actions, n + 1, i, size, OnInstallReply(s, peer, args, term))
  {
    hide MatchesAcked;
    if s.leader.Some? {
      MatchesLater(actions, n, i, size, s.p.currentTerm, s.leader.value);
      MatchesSized(actions, n, i, size, s.p.currentTerm, s.leader.value);
      if s.p.currentTerm == args.term && term <= s.p.currentTerm {
        MatchesOneMore(actions, n, i, size, s.p.currentTerm, s.leader.value, peer, args.snapIndex + 1, args.snapIndex);
      }
    }
  }

  lemma NothingAcked<C, D>(actions: seq<Action<C, D>>, n: nat, i: nat, size: nat, term: int, next: int)
    ensures MatchesAcked(actions, n, i, size, term, Leader(Fill(size, next), Fill(size, 0)))
  {
  }

  lemma AppendKnows<C, D>(s: Peer<C, D>, args: AppendArgs<C>, actions: seq<Action<C, D>>, n: nat, i: nat, size: nat)
    requires Shape(s.p) && Contiguous(args) && AppendSafe(s, args) && KnowsAcked(actions, n, i, size, s)
    ensures KnowsAcked(actions, n + 1, i, size, OnAppend(s, args).0)
  {
    hide MatchesAcked;
    if s.leader.Some? {
      MatchesLater(actions, n, i, size, s.p.currentTerm, s.leader.value);
    }
  }

  lemma StepKnowsAcked<C, D>(c: Cluster<C, D>, a: Action<C, D>, actions: seq<Action<C, D>>, n: nat)
    requires Good(c) && Enabled(c, a) && AllKnowAcked(actions, n, c) && n < |actions| && actions[n] == a
    ensures KnowsAcked(actions, n + 1, a.i, |c.peers|, Step(c, a))
  {
    hide MatchesAcked, OnAppend, OnAppendReply, OnInstallReply;
    var s, size := c.peers[a.i], |c.peers|;
    assert KnowsAcked(actions, n, a.i, size, s) && GoodPeer(s);
    if s.leader.Some? {
      MatchesLater(actions, n, a.i, size, s.p.currentTerm, s.leader.value);
    }
    match a
    case Win(_) => NothingAcked(actions, n + 1, a.i, size, s.p.currentTerm, Last(s.p).index + 1);
    case RecvAppend(_, append) => AppendKnows(s, append, actions, n, a.i, size);
    case RecvAppendReply(_, me, peer, append, reply) => ReplyKnows(s, me, peer, append, reply, actions, n, a.i, size);
    case RecvInstallReply(_, peer, install, term) => InstallReplyKnows(s, peer, install, term, actions, n, a.i, size);
    case _ =>
  }

  // ----- Every run

  lemma {:induction false} ReachableKnowsAcked<C, D>(states: seq<Cluster<C, D>>, actions: seq<Action<C, D>>, n: nat)
    requires Run(states, actions) && n < |states|
    ensures AllKnowAcked(actions, n, states[n])
  {
    if n > 0 {
      ReachableKnowsAcked(states, actions, n - 1);
      ReachableIsGood(states, actions, n - 1);
      assert Follows(states[n - 1], actions[n - 1], states[n]);
      var c, a := states[n - 1], actions[n - 1];
      StepKnowsAcked(c, a, actions, n - 1);
      NextPeers(c, a);
      hide Good, Enabled, Step, Next;
      forall i | 0 <= i < |states[n].peers|
        ensures KnowsAcked(actions, n, i, |states[n].peers|, states[n].peers[i])
      {
        assert KnowsAcked(actions, n - 1, i, |c.peers|, c.peers[i]);
        if i != a.i && c.peers[i].leader.Some? {
          MatchesLater(actions, n - 1, i, |c.peers|, c.peers[i].p.currentTerm, c.peers[i].leader.value);
        }
      }
    }
  }

  lemma NextPeers<C, D>(c: Cluster<C, D>, a: Action<C, D>)
    requires Good(c) && Enabled(c, a)
    ensures a.i < |c.peers| && Next(c, a).peers == c.peers[a.i := Step(c, a)]
  {
  }

  /** In every run, what a leader holds for another server, that server acknowledged to it in this term. */
  lemma {:induction false} MatchIsAcked<C, D>(states: seq<Cluster<C, D>>, actions: seq<Action<C, D>>, n: nat, i: nat, j: nat)
    requires Run(states, actions) && n < |states| && i < |states[n].peers| && states[n].peers[i].leader.Some? && j < |states[n].peers|
    ensures var s := states[n].peers[i];
            && s.role == Leading && |s.leader.value.matchIndex| == |states[n].peers|
            && (s.leader.value.matchIndex[j] != 0 ==> Acked(actions, n, i, j, s.p.currentTerm, s.leader.value.matchIndex[j]))
  {
    ReachableKnowsAcked(states, actions, n);
    assert KnowsAcked(actions, n, i, |states[n].peers|, states[n].peers[i]);
  }

  /** Server j is the leader itself, or acknowledged an index at or above this one. */
  ghost predicate HoldsAcked<C, D>(actions: seq<Action<C, D>>, n: nat, i: nat, me: nat, j: nat, term: int, index: int) {
    j == me || exists acked :: acked >= index && Acked(actions, n, i, j, term, acked)
  }

  /**
   In every run, a leader that commits moves its cursor to an entry of its own term that (n + 1) / 2 servers,
   itself among them, have acknowledged to it in this term.
   */
  lemma {:induction false} CommittedIsAcked<C, D>(states: seq<Cluster<C, D>>, actions: seq<Action<C, D>>, n: nat) returns (holders: set<nat>)
    requires Run(states, actions) && n < |actions| && actions[n].RecvAppendReply? && actions[n].i < |states[n].peers| == |states[n + 1].peers|
    requires states[n + 1].peers[actions[n].i].commitIndex > states[n].peers[actions[n].i].commitIndex
    ensures var a, s, index := actions[n], states[n].peers[actions[n].i], states[n + 1].peers[actions[n].i].commitIndex;
            && Held(s.p, index) && At(s.p, index).term == s.p.currentTerm
            && |holders| >= (|states[n].peers| + 1) / 2
            && (forall j :: j in holders ==> j < |states[n].peers| && HoldsAcked(actions, n + 1, a.i, a.me, j, s.p.currentTerm, index))
  {
    ReachableKnowsAcked(states, actions, n);
    ReachableKnowsAcked(states, actions, n + 1);
    ReachableIsGood(states, actions, n);
    assert Follows(states[n], actions[n], states[n + 1]);
    var a, s, s' := actions[n], states[n].peers[actions[n].i], states[n + 1].peers[actions[n].i];
    assert KnowsAcked(actions, n, a.i, |states[n].peers|, s) && KnowsAcked(actions, n + 1, a.i, |states[n].peers|, s');
    assert s' == OnAppendReply(s, a.me, a.peer, a.append, a.reply).0;
    var acked := a.append.entries[|a.append.entries| - 1].index;
    var match' := s'.leader.value.matchIndex;
    PointIsHeld(s.p, s.commitIndex, match', a.me, acked);
    holders := Holders(match', a.me, s'.commitIndex);
    forall j | j in holders
      ensures HoldsAcked(actions, n + 1, a.i, a.me, j, s.p.currentTerm, s'.commitIndex)
    {
      if j != a.me {
        assert Acked(actions, n + 1, a.i, j, s.p.currentTerm, match'[j]);
      }
    }
  }

  /** Where the loop stops above the cursor: an entry of the current term with a quorum. */
  lemma {:induction false} PointIsHeld<C>(p: Persistent<C>, commitIndex: int, matchIndex: seq<int>, me: nat, i: int)
    requires ScanSafe(p, commitIndex, matchIndex, me, i)
    ensures var n := CommitPoint(p, commitIndex, matchIndex, me, i);
            n > commitIndex ==> Held(p, n) && At(p, n).term == p.currentTerm && Quorum(Holders(matchIndex, me, n), |matchIndex|)
    decreases i - commitIndex
  {
    if i > commitIndex && At(p, i).term == p.currentTerm && !Quorum(Holders(matchIndex, me, i), |matchIndex|) {
      PointIsHeld(p, commitIndex, matchIndex, me, i - 1);
    }
  }
}
