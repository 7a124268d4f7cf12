/**
 Command indexes in every run of the service (raft/raft.go:984-1019, kvraft/server.go:237, 280-285): they count the
 commands of the committed log, so no two entries that are applied share one, and no context is closed twice.
 */
module KvCmdIndex {
  import opened Options
  import opened RaftNode
  import opened RaftCommit
  import opened RaftCluster
  import opened RaftCmdIndex
  import opened KvMachine
  import opened KvSystem

  /** The command index at an index of the committed log. */
  ghost function CmdAt(g: Log, k: int): int {
    if 1 <= k <= |g| then g[k - 1].cmdIndex else 0
  }

  ghost predicate CountedIn(g: Log, k: int)
    requires 0 <= k < |g|
  {
    CmdAt(g, k + 1) == CmdAt(g, k) + Bump(g[k])
  }

  /** The first n entries of the committed log count. */
  ghost predicate LogCounts(g: Log, n: int) {
    0 <= n <= |g| && forall k :: 0 <= k < n ==> CountedIn(g, k)
  }

  lemma {:induction false} CmdRises(g: Log, i: nat, j: nat, n: nat)
    requires LogCounts(g, n) && i < j < n
    ensures g[i].cmdIndex + Bump(g[j]) <= g[j].cmdIndex
    decreases j
  {
    assert CountedIn(g, j);
    if i < j - 1 {
      CmdRises(g, i, j - 1, n);
    }
  }

  lemma CountsRises(g: Log, n: nat)
    requires LogCounts(g, n)
    ensures Rising(g, n)
  {
    forall i, j | 0 <= i < j < n && j < |g| && !g[i].internal && !g[j].internal
      ensures g[i].cmdIndex < g[j].cmdIndex
    {
      CmdRises(g, i, j, n);
    }
  }

  // ----- What Log Matching promises of a step

  /**
   Messages and snapshots go on from entries with the sender's command index; the entry below those newly committed,
   and the one that a snapshot stands for, have the command index of the committed log.
   */
  ghost predicate Matched(g: Log, sys: System, a: SysAction)
    requires Good(sys.cluster) && Sized(sys) && CanStep(g, sys, a)
  {
    match a
    case RaftStep(action) =>
      && StepMatched(sys.cluster, action)
      && (action.RecvAppend? || action.RecvAppendReply? ==> CursorMatched(g, sys.cluster.peers[action.i], Step(sys.cluster, action)))
    case HandOver(i) =>
      var p, index := sys.cluster.peers[i].p, sys.captured[i].value.index;
      index > p.snapIndex ==> At(p, index).cmdIndex == CmdAt(g, index)
    case _ => true
  }

  ghost predicate CursorMatched(g: Log, s: KvPeer, s': KvPeer) {
    s.commitIndex < s'.commitIndex && s.commitIndex > s'.p.snapIndex && Held(s'.p, s.commitIndex) ==>
      At(s'.p, s.commitIndex).cmdIndex == CmdAt(g, s.commitIndex)
  }

  // ----- The invariant

  ghost predicate ChanCounts(g: Log, chan: seq<KvMsg>) {
    forall k :: 0 <= k < |chan| ==> LogCounts(g, IndexOf(chan[k]))
  }

  ghost predicate PeerCounts(g: Log, s: KvPeer) {
    && CountsRight(s.p) && s.p.snapCmdIndex == CmdAt(g, s.p.snapIndex)
    && LogCounts(g, s.commitIndex) && LogCounts(g, s.p.snapIndex)
  }

  ghost predicate ServerCounts(g: Log, sys: System, i: nat)
    requires Sized(sys) && i < |sys.kvs|
  {
    && PeerCounts(g, sys.cluster.peers[i]) && ChanCounts(g, sys.chans[i]) && LogCounts(g, sys.kvs[i].lastApplied)
    && (sys.captured[i].Some? ==> LogCounts(g, sys.captured[i].value.index))
  }

  ghost predicate MessagesCount(g: Log, c: Cluster<Op, Machine>) {
    && (forall k :: 0 <= k < |c.appends| ==> Counted(c.appends[k].entries))
    && (forall k :: 0 <= k < |c.installs| ==>
          LogCounts(g, c.installs[k].snapIndex) && c.installs[k].snapCmdIndex == CmdAt(g, c.installs[k].snapIndex))
  }

  ghost predicate SysCounts(g: Log, sys: System) {
    && Sized(sys) && MessagesCount(g, sys.cluster)
    && forall i :: 0 <= i < |sys.kvs| ==> ServerCounts(g, sys, i)
  }

  // ----- Committing

  /** Entries that agree with a log that counts make the committed log count further. */
  lemma {:induction false} CommitCounts(g: Log, s: KvPeer, s': KvPeer, top: int)
    requires Shape(s'.p) && CountsRight(s'.p) && s'.p.snapIndex == s.p.snapIndex
    requires LogCounts(g, s.commitIndex) && LogCounts(g, s.p.snapIndex) && s'.p.snapCmdIndex == CmdAt(g, s'.p.snapIndex)
    requires s.commitIndex <= top <= s'.commitIndex && s.p.snapIndex <= s.commitIndex + 1
    requires s.commitIndex < s'.commitIndex ==> Held(s'.p, s.commitIndex + 1) && Held(s'.p, s'.commitIndex)
    requires CursorMatched(g, s, s')
    requires forall k :: s.commitIndex < k <= s'.commitIndex && k > s'.p.snapIndex ==> AgreesAt(g, s'.p, k)
    ensures LogCounts(g, top)
    decreases top
  {
    if top > s.commitIndex {
      LastIndex(s'.p);
      if top > s'.p.snapIndex {
        CommitCounts(g, s, s', top - 1);
        assert AgreesAt(g, s'.p, top);
        var pos := Pos(s'.p, top);
        assert CountedAt(s'.p.logs, pos);
        assert s'.p.logs[pos - 1] == At(s'.p, top - 1);
        if top - 1 > s.commitIndex && top - 1 > s'.p.snapIndex {
          assert AgreesAt(g, s'.p, top - 1);
        }
        assert CmdAt(g, top - 1) == At(s'.p, top - 1).cmdIndex;
        assert CountedIn(g, top - 1);
      }
    }
  }

  lemma EmittedCounts(g: Log, s: KvPeer, s': KvPeer, out: seq<KvMsg>, chan: seq<KvMsg>)
    requires Commits(s, s', out) && LogCounts(g, s'.commitIndex) && 0 <= s.commitIndex && ChanCounts(g, chan)
    ensures ChanCounts(g, chan + out)
  {
    EmitsExactly<Op, Machine>(s'.p, s.commitIndex + 1, s'.commitIndex);
    forall k | 0 <= k < |out|
      ensures LogCounts(g, IndexOf(out[k]))
    {
      CountsBelow(g, IndexOf(out[k]), s'.commitIndex);
    }
  }

  lemma CountsBelow(g: Log, n: int, m: int)
    requires LogCounts(g, m) && 0 <= n <= m
    ensures LogCounts(g, n)
  {
  }

  // ----- Each step keeps it

  ghost predicate StepResult(g: Log, s': KvPeer, chan: seq<KvMsg>) {
    PeerCounts(g, s') && ChanCounts(g, chan)
  }

  lemma CommitStepCounts(g: Log, sys: System, a: KvAction)
    requires GoodSystem(g, sys) && CanStep(g, sys, RaftStep(a)) && SysCounts(g, sys) && Matched(g, sys, RaftStep(a))
    requires a.RecvAppend? || a.RecvAppendReply?
    ensures StepResult(g, Step(sys.cluster, a), sys.chans[a.i] + Out(sys.cluster, a))
  {
    var c, s, s', out := sys.cluster, sys.cluster.peers[a.i], Step(sys.cluster, a), Out(sys.cluster, a);
    assert ServerCounts(g, sys, a.i);
    PeerIsGood(c, a.i);
    ClusterCounts(g, sys);
    StepCounts(c, a);
    if a.RecvAppend? {
      AppendForm(s, a.append);
      AppendSnap(s, a.append);
    } else {
      ReplyForm(s, a.me, a.peer, a.append, a.reply);
      ReplySnap(s, a.me, a.peer, a.append, a.reply);
    }
    CommitReach(s, s', out);
    hide GoodSystem, Good, Step, Out, Counted, GoodPeer, CanStep, StepMatched;
    if s'.commitIndex > s.commitIndex {
      CommitCounts(g, s, s', s'.commitIndex);
    }
    EmittedCounts(g, s, s', out, sys.chans[a.i]);
  }

  lemma AppendSnap(s: KvPeer, args: AppendArgs<Op>)
    requires Shape(s.p) && Contiguous(args) && AppendSafe(s, args)
    ensures OnAppend(s, args).0.p.snapCmdIndex == s.p.snapCmdIndex
  {
  }

  lemma ReplySnap(s: KvPeer, me: nat, peer: nat, args: AppendArgs<Op>, reply: AppendReply)
    requires Shape(s.p) && ReplyExpected(s, me, peer, args, reply)
    ensures OnAppendReply(s, me, peer, args, reply).0.p.snapCmdIndex == s.p.snapCmdIndex
  {
  }

  lemma CommitReach(s: KvPeer, s': KvPeer, out: seq<KvMsg>)
    requires Commits(s, s', out)
    ensures s.commitIndex < s'.commitIndex ==> s.p.snapIndex <= s.commitIndex + 1
    ensures s.commitIndex <= s'.commitIndex && s'.p.snapIndex == s.p.snapIndex && Shape(s'.p)
  {
  }

  lemma ClusterCounts(g: Log, sys: System)
    requires SysCounts(g, sys)
    ensures AllCount(sys.cluster)
  {
    forall i | 0 <= i < |sys.cluster.peers|
      ensures CountsRight(sys.cluster.peers[i].p)
    {
      assert ServerCounts(g, sys, i);
    }
  }

  lemma InstallStepCounts(g: Log, sys: System, a: KvAction)
    requires GoodSystem(g, sys) && CanStep(g, sys, RaftStep(a)) && SysCounts(g, sys) && Matched(g, sys, RaftStep(a)) && a.RecvInstall?
    ensures StepResult(g, Step(sys.cluster, a), sys.chans[a.i] + Out(sys.cluster, a))
  {
    var c, s := sys.cluster, sys.cluster.peers[a.i];
    assert ServerCounts(g, sys, a.i);
    PeerIsGood(c, a.i);
    ClusterCounts(g, sys);
    StepCounts(c, a);
    hide Counted, Matched, GoodSystem, LogCounts, CmdAt;
  }

  lemma OtherStepCounts(g: Log, sys: System, a: KvAction)
    requires GoodSystem(g, sys) && CanStep(g, sys, RaftStep(a)) && SysCounts(g, sys) && Matched(g, sys, RaftStep(a))
    requires !a.RecvAppend? && !a.RecvAppendReply? && !a.RecvInstall? && !a.Crash?
    ensures StepResult(g, Step(sys.cluster, a), sys.chans[a.i] + Out(sys.cluster, a))
  {
    var c, s := sys.cluster, sys.cluster.peers[a.i];
    assert ServerCounts(g, sys, a.i);
    ClusterCounts(g, sys);
    StepCounts(c, a);
    OtherFeeds(c, a);
    OtherSnap(c, a);
    hide GoodSystem, Good, Step, Out, Counted, CanStep, LogCounts;
    assert sys.chans[a.i] + [] == sys.chans[a.i];
  }

  lemma OtherSnap(c: Cluster<Op, Machine>, a: KvAction)
    requires Good(c) && Enabled(c, a) && !a.RecvAppend? && !a.RecvAppendReply? && !a.RecvInstall? && !a.Crash? && !a.Snapshot?
    ensures Step(c, a).p.snapCmdIndex == c.peers[a.i].p.snapCmdIndex
  {
  }

  lemma CrashStepCounts(g: Log, sys: System, a: KvAction)
    requires GoodSystem(g, sys) && CanStep(g, sys, RaftStep(a)) && SysCounts(g, sys) && a.Crash?
    ensures StepResult(g, Step(sys.cluster, a), Out(sys.cluster, a))
  {
    var c, s := sys.cluster, sys.cluster.peers[a.i];
    assert ServerCounts(g, sys, a.i);
    PeerIsGood(c, a.i);
    ClusterCounts(g, sys);
    StepCounts(c, a);
    hide Counted, GoodSystem, LogCounts, CmdAt;
  }

  lemma MessagesStillCount(g: Log, sys: System, a: KvAction)
    requires Good(sys.cluster) && Enabled(sys.cluster, a) && SysCounts(g, sys)
    ensures MessagesCount(g, Next(sys.cluster, a))
  {
    hide Step, Counted, LogCounts, CmdAt;
    assert ServerCounts(g, sys, a.i);
    var s := sys.cluster.peers[a.i];
    PeerIsGood(sys.cluster, a.i);
    if a.SendAppend? {
      SentCounts(s, a.me, a.peer);
    }
  }

  lemma RaftStepCounts(g: Log, sys: System, a: KvAction)
    requires GoodSystem(g, sys) && CanStep(g, sys, RaftStep(a)) && SysCounts(g, sys) && Matched(g, sys, RaftStep(a))
    ensures SysCounts(g, SysNext(g, sys, RaftStep(a)))
  {
    if a.RecvAppend? || a.RecvAppendReply? {
      CommitStepCounts(g, sys, a);
    } else if a.RecvInstall? {
      InstallStepCounts(g, sys, a);
    } else if a.Crash? {
      CrashStepCounts(g, sys, a);
    } else {
      OtherStepCounts(g, sys, a);
    }
    MessagesStillCount(g, sys, a);
    NextShape(sys.cluster, a);
    var sys' := SysNext(g, sys, RaftStep(a));
    hide GoodSystem, Good, CanStep, Step, Out, Next, Matched, MessagesCount, PeerCounts, ChanCounts;
    forall i | 0 <= i < |sys'.kvs|
      ensures ServerCounts(g, sys', i)
    {
      assert ServerCounts(g, sys, i);
    }
  }

  lemma DeliverCounts(g: Log, sys: System, i: nat, filled: bool)
    requires GoodSystem(g, sys) && CanStep(g, sys, Deliver(i, filled)) && SysCounts(g, sys)
    ensures SysCounts(g, SysNext(g, sys, Deliver(i, filled)))
  {
    assert ServerCounts(g, sys, i) && ServerIsGood(g, sys, i);
    DeliverApplies(g, sys.kvs[i], sys.chans[i], sys.cluster.peers[i].commitIndex, filled);
    hide Good, Feeds, MessagesCount, PeerCounts, Reach, Woken, LogCounts;
    var sys' := SysNext(g, sys, Deliver(i, filled));
    forall j | 0 <= j < |sys'.kvs|
      ensures ServerCounts(g, sys', j)
    {
      assert ServerCounts(g, sys, j);
    }
  }

  lemma HandOverCounts(g: Log, sys: System, i: nat)
    requires GoodSystem(g, sys) && CanStep(g, sys, HandOver(i)) && SysCounts(g, sys) && Matched(g, sys, HandOver(i))
    ensures SysCounts(g, SysNext(g, sys, HandOver(i)))
  {
    var snap := sys.captured[i].value;
    var a: KvAction := Snapshot(i, snap.machine, snap.index);
    assert ServerCounts(g, sys, i);
    SnapshotCounts(sys.cluster.peers[i], snap.machine, snap.index);
    SnapshotStep(sys.cluster, a);
    SnapshotSnap(sys.cluster, a);
    MessagesStillCount(g, sys, a);
    NextShape(sys.cluster, a);
    var sys' := SysNext(g, sys, HandOver(i));
    hide Good, GoodSystem, Step, Next, Matched, MessagesCount, ChanCounts, LogCounts;
    forall j | 0 <= j < |sys'.kvs|
      ensures ServerCounts(g, sys', j)
    {
      assert ServerCounts(g, sys, j);
    }
  }

  lemma SnapshotSnap(c: Cluster<Op, Machine>, a: KvAction)
    requires Good(c) && Enabled(c, a) && a.Snapshot?
    ensures Step(c, a) == TakeSnapshot(c.peers[a.i], a.data, a.index)
    ensures a.index <= c.peers[a.i].p.snapIndex ==> Step(c, a) == c.peers[a.i]
  {
  }

  lemma LocalCounts(g: Log, sys: System, a: SysAction)
    requires GoodSystem(g, sys) && CanStep(g, sys, a) && SysCounts(g, sys) && (a.Capture? || a.Register? || a.Unregister?)
    ensures SysCounts(g, SysNext(g, sys, a))
  {
    hide Good, MessagesCount, PeerCounts, ChanCounts;
    var sys' := SysNext(g, sys, a);
    forall j | 0 <= j < |sys'.kvs|
      ensures ServerCounts(g, sys', j)
    {
      assert ServerCounts(g, sys, j);
    }
  }

  lemma SysStepCounts(g: Log, sys: System, a: SysAction)
    requires GoodSystem(g, sys) && CanStep(g, sys, a) && SysCounts(g, sys) && Matched(g, sys, a)
    ensures SysCounts(g, SysNext(g, sys, a))
  {
    hide GoodSystem, SysNext, SysCounts;
    match a
    case RaftStep(action) => RaftStepCounts(g, sys, action);
    case Deliver(i, filled) => DeliverCounts(g, sys, i, filled);
    case HandOver(i) => HandOverCounts(g, sys, i);
    case _ => LocalCounts(g, sys, a);
  }

  // ----- Every run

  /** Every step of the run is matched. */
  ghost predicate MatchedRun(g: Log, states: seq<System>, actions: seq<SysAction>) {
    && |states| == |actions| + 1
    && forall n :: 0 <= n < |actions| ==>
         GoodSystem(g, states[n]) && CanStep(g, states[n], actions[n]) ==> Matched(g, states[n], actions[n])
  }

  lemma {:induction false} ReachableCounts(g: Log, states: seq<System>, actions: seq<SysAction>, n: nat)
    requires Commands(g) && SysRun(g, states, actions) && MatchedRun(g, states, actions) && n < |states|
    ensures SysCounts(g, states[n])
  {
    if n == 0 {
      InitCountsToo(g, states[0]);
    } else {
      ReachableCounts(g, states, actions, n - 1);
      ReachableIsGoodSystem(g, states, actions, n - 1);
      assert SysFollows(g, states[n - 1], actions[n - 1], states[n]);
      hide GoodSystem, CanStep, SysNext, SysCounts, Matched;
      SysStepCounts(g, states[n - 1], actions[n - 1]);
    }
  }

  lemma InitCountsToo(g: Log, sys: System)
    requires SysInit(sys)
    ensures SysCounts(g, sys)
  {
    forall i | 0 <= i < |sys.kvs|
      ensures ServerCounts(g, sys, i)
    {
      assert |sys.chans[i]| == 1;
    }
  }

  /** In every run, the entries that any server has applied have command indexes that count them; no two share one. */
  lemma AppliedRises(g: Log, states: seq<System>, actions: seq<SysAction>, n: nat, i: nat)
    requires Commands(g) && SysRun(g, states, actions) && MatchedRun(g, states, actions) && n < |states| && i < |states[n].kvs|
    ensures LogCounts(g, states[n].kvs[i].lastApplied) && Rising(g, states[n].kvs[i].lastApplied)
  {
    ReachableCounts(g, states, actions, n);
    assert ServerCounts(g, states[n], i);
    CountsRises(g, states[n].kvs[i].lastApplied);
  }

  /** So no context is ever closed twice, and the source does not panic there. */
  lemma NeverClosedTwice(g: Log, states: seq<System>, actions: seq<SysAction>, n: nat, i: nat)
    requires Commands(g) && SysRun(g, states, actions) && MatchedRun(g, states, actions) && n < |states|
    requires i < |states[n].kvs| == |states[n].chans| == |states[n].waiting| && states[n].chans[i] != []
    ensures var kv, msg, waiting := states[n].kvs[i], states[n].chans[i][0], states[n].waiting[i];
            IsNews(kv, msg) && msg.cmdIndex in waiting ==> !waiting[msg.cmdIndex].closed
  {
    ReachableCounts(g, states, actions, n);
    assert ServerCounts(g, states[n], i);
    CountsRises(g, IndexOf(states[n].chans[i][0]));
    NoDoubleClose(g, states, actions, n, i);
  }
}
