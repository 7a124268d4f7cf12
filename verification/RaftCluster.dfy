/**
 What holds of every peer and every message in every run of a cluster
 (raft/raft.go): the log keeps its shape, and a crash loses none of the fields
 that matter. The network may lose, delay, repeat and reorder messages, and
 deliver them to anyone.
 */
module RaftCluster {
  import opened Options
  import opened RaftNode
  import opened RaftCommit

  datatype Cluster<C, D> = Cluster(peers: seq<Peer<C, D>>, appends: seq<AppendArgs<C>>, installs: seq<InstallArgs<D>>)

  datatype Action<C, D> =
    | Elect(i: nat, me: nat)
    | StepDown(i: nat, term: int)
    | SeeVoteRequest(i: nat, term: int)
    | Grant(i: nat, candidate: int)
    | Win(i: nat)
    | Command(i: nat, command: C)
    | SendAppend(i: nat, me: nat, peer: nat)
    | SendInstall(i: nat, me: nat)
    | RecvAppend(i: nat, append: AppendArgs<C>)
    | RecvAppendReply(i: nat, me: nat, peer: nat, append: AppendArgs<C>, reply: AppendReply)
    | RecvInstall(i: nat, install: InstallArgs<D>)
    | RecvInstallReply(i: nat, peer: nat, install: InstallArgs<D>, term: int)
    | Snapshot(i: nat, data: D, index: int)
    | Crash(i: nat)

  // ----- The invariant

  ghost predicate GoodPeer<C, D>(s: Peer<C, D>) {
    Shape(s.p) && Restore(s.stored) == s.p && s.p.logs[0].term == s.p.snapTerm
  }

  ghost predicate Good<C, D>(c: Cluster<C, D>) {
    && (forall i :: 0 <= i < |c.peers| ==> GoodPeer(c.peers[i]))
    && (forall k :: 0 <= k < |c.appends| ==> Contiguous(c.appends[k]))
  }

  // ----- The steps

  /** When the source can take the step without indexing outside its log or following a nil pointer. */
  ghost predicate Enabled<C, D>(c: Cluster<C, D>, a: Action<C, D>) {
    && a.i < |c.peers|
    && var s := c.peers[a.i];
       match a
       case SendAppend(_, _, peer) => s.leader.Some? && peer < |s.leader.value.nextIndex|
       case RecvAppend(_, append) => append in c.appends && !SentinelConflict(s, append) && AppendSafe(s, append)
       case RecvAppendReply(_, me, peer, append, reply) => ReplyExpected(s, me, peer, append, reply)
       case RecvInstall(_, install) => install in c.installs
       case RecvInstallReply(_, peer, install, term) => InstallReplyExpected(s, peer, install, term)
       case Snapshot(_, _, index) => index > s.p.snapIndex ==> Held(s.p, index)
       case _ => true
  }

  /** The peer after its step; what it sends to the application is left out here. */
  ghost function Step<C, D>(c: Cluster<C, D>, a: Action<C, D>): Peer<C, D>
    requires Good(c) && Enabled(c, a)
  {
    var s := c.peers[a.i];
    match a
    case Elect(_, me) => StartElection(s, me)
    case StepDown(_, term) => BecomeFollower(s, term)
    case SeeVoteRequest(_, term) => SeeCandidate(s, term)
    case Grant(_, candidate) => GrantVote(s, candidate)
    case Win(_) => BecomeLeader(s, |c.peers|)
    case Command(_, command) => StartCommand(s, command).0
    case SendAppend(_, _, _) => s
    case SendInstall(_, _) => s
    case RecvAppend(_, append) => OnAppend(s, append).0
    case RecvAppendReply(_, me, peer, append, reply) => OnAppendReply(s, me, peer, append, reply).0
    case RecvInstall(_, install) => OnInstall(s, install).0
    case RecvInstallReply(_, peer, install, term) => OnInstallReply(s, peer, install, term)
    case Snapshot(_, data, index) => TakeSnapshot(s, data, index)
    case Crash(_) => Restart(s.stored, s.snapshot).0
  }

  ghost function Next<C, D>(c: Cluster<C, D>, a: Action<C, D>): Cluster<C, D>
    requires Good(c) && Enabled(c, a)
  {
    var s := c.peers[a.i];
    var c' := c.(peers := c.peers[a.i := Step(c, a)]);
    match a
    case SendAppend(_, me, peer) =>
      var message := NextAppend(s, me, peer);
      if message.Some? then c'.(appends := c.appends + [message.value]) else c'
    case SendInstall(_, me) => c'.(installs := c.installs + [NextInstall(s, me)])
    case _ => c'
  }

  // ----- Each handler keeps the shape

  lemma {:induction false} AppendKeepsShape<C, D>(s: Peer<C, D>, args: AppendArgs<C>)
    requires GoodPeer(s) && Contiguous(args) && AppendSafe(s, args)
    ensures !SentinelConflict(s, args) <==> GoodPeer(OnAppend(s, args).0)
  {
    LastIndex(s.p);
    var s' := OnAppend(s, args).0;
    if SentinelConflict(s, args) {
      assert s'.p.logs == [];
    }
  }

  lemma {:induction false} InstallKeepsShape<C, D>(s: Peer<C, D>, args: InstallArgs<D>)
    requires GoodPeer(s)
    ensures GoodPeer(OnInstall(s, args).0)
  {
    LastIndex(s.p);
  }

  /** TakeSnapshot keeps the shape at every index of the log; only the cursor may end up inside the snapshot. */
  lemma {:induction false} SnapshotKeepsShape<C, D>(s: Peer<C, D>, data: D, index: int)
    requires GoodPeer(s) && (index > s.p.snapIndex ==> Held(s.p, index))
    ensures var t := TakeSnapshot(s, data, index);
            && GoodPeer(t)
            && (t.p.snapIndex <= t.commitIndex <==> s.p.snapIndex <= s.commitIndex && index <= s.commitIndex)
  {
    if index <= s.p.snapIndex {
      assert TakeSnapshot(s, data, index) == s;
    }
  }

  /**
   InstallSnapshot lowers commitIndex to args.snapIndex, and a snapshot that the application took
   before that, at an index committed then, is above it now. It is accepted, and the peer is in
   shape. Then the commit loop of the next message reads outside the log exactly when the message
   commits anything and the snapshot is more than one entry ahead.
   */
  lemma {:induction false} LateSnapshotBreaks<C, D>(s: Peer<C, D>, args: InstallArgs<D>, data: D, index: int, leaderCommit: int)
    requires GoodPeer(s) && args.term >= s.p.currentTerm
    requires s.p.snapIndex < args.snapIndex < index <= s.commitIndex && Held(s.p, index)
    requires At(s.p, args.snapIndex).term == args.snapTerm
    ensures var s' := OnInstall(s, args).0;
            && s'.commitIndex == args.snapIndex < s.commitIndex && Held(s'.p, index)
            && var t := TakeSnapshot(s', data, index);
               && GoodPeer(t) && t.p.snapIndex == index && t.commitIndex == args.snapIndex
               && ((exists k :: Reads(t, leaderCommit, k) && !Held(t.p, k)) <==>
                   leaderCommit > args.snapIndex && index > args.snapIndex + 1)
  {
    LastIndex(s.p);
    InstallKeepsShape(s, args);
    var s' := OnInstall(s, args).0;
    LastIndex(s'.p);
    SnapshotKeepsShape(s', data, index);
    FollowerReadsInside(TakeSnapshot(s', data, index), leaderCommit);
  }

  lemma ReplyKeepsShape<C, D>(s: Peer<C, D>, me: nat, peer: nat, args: AppendArgs<C>, reply: AppendReply)
    requires GoodPeer(s) && ReplyExpected(s, me, peer, args, reply)
    ensures GoodPeer(OnAppendReply(s, me, peer, args, reply).0)
  {
  }

  lemma {:induction false} SentIsContiguous<C, D>(s: Peer<C, D>, me: int, peer: nat)
    requires GoodPeer(s) && s.leader.Some? && peer < |s.leader.value.nextIndex|
    ensures var message := NextAppend(s, me, peer);
            message.Some? ==> Contiguous(message.value)
  {
    LastIndex(s.p);
  }

  lemma StepKeepsPeer<C, D>(c: Cluster<C, D>, a: Action<C, D>)
    requires Good(c) && Enabled(c, a)
    ensures GoodPeer(Step(c, a))
  {
    var s := c.peers[a.i];
    match a
    case RecvAppend(_, append) => AppendKeepsShape(s, append);
    case RecvAppendReply(_, me, peer, append, reply) => ReplyKeepsShape(s, me, peer, append, reply);
    case RecvInstall(_, install) => InstallKeepsShape(s, install);
    case Snapshot(_, data, index) => SnapshotKeepsShape(s, data, index);
    case _ =>
  }

  lemma NextKeepsGood<C, D>(c: Cluster<C, D>, a: Action<C, D>)
    requires Good(c) && Enabled(c, a)
    ensures Good(Next(c, a))
  {
    StepKeepsPeer(c, a);
    if a.SendAppend? {
      SentIsContiguous(c.peers[a.i], a.me, a.peer);
    }
  }

  // ----- Every run

  /** A cluster that has just been started for the first time. */
  ghost predicate Init<C, D>(c: Cluster<C, D>) {
    && c.appends == [] && c.installs == []
    && forall i :: 0 <= i < |c.peers| ==> c.peers[i] == Restart<C, D>(None, None).0
  }

  lemma InitIsGood<C, D>(c: Cluster<C, D>)
    requires Init(c)
    ensures Good(c)
  {
  }

  /** The handlers are defined in good states; from any other state, should there be one, anything may follow. */
  ghost predicate Follows<C, D>(c: Cluster<C, D>, a: Action<C, D>, c': Cluster<C, D>) {
    Good(c) ==> Enabled(c, a) && c' == Next(c, a)
  }

  ghost predicate Run<C, D>(states: seq<Cluster<C, D>>, actions: seq<Action<C, D>>) {
    && |states| == |actions| + 1 && Init(states[0])
    && forall n :: 0 <= n < |actions| ==> Follows(states[n], actions[n], states[n + 1])
  }

  /**
   In every state that a run reaches, every log has its shape, every message in
   flight is contiguous, and a peer that crashed at this moment would come back
   with the same term, vote, log and snapshot fields.
   */
  lemma {:induction false} ReachableIsGood<C, D>(states: seq<Cluster<C, D>>, actions: seq<Action<C, D>>, n: nat)
    requires Run(states, actions) && n < |states|
    ensures Good(states[n])
    ensures forall i :: 0 <= i < |states[n].peers| ==>
              var s := states[n].peers[i];
              && |s.p.logs| > 0 && (forall k :: 0 <= k < |s.p.logs| ==> s.p.logs[k].index == s.p.snapIndex + k)
              && Restart(s.stored, s.snapshot).0.p == s.p
    ensures forall k :: 0 <= k < |states[n].appends| ==> Contiguous(states[n].appends[k])
  {
    if n == 0 {
      InitIsGood(states[0]);
    } else {
      ReachableIsGood(states, actions, n - 1);
      assert Follows(states[n - 1], actions[n - 1], states[n]);
      hide Enabled, Next;
      NextKeepsGood(states[n - 1], actions[n - 1]);
    }
  }
}
