/**
 Command indexes (raft/raft.go:163-170, 984-1019, 1178-1186, 1228-1268): along every log they count the entries that
 are not internal, so Start returns an index that is above all others.
 */
module RaftCmdIndex {
  import opened Options
  import opened RaftNode
  import opened RaftCluster

  function Bump<C>(e: LogEntry<C>): int {
    if e.internal then 0 else 1
  }

  /** The index goes up by one at entry k if that is not internal, and stays otherwise. */
  ghost predicate CountedAt<C>(logs: seq<LogEntry<C>>, k: int)
    requires 0 < k < |logs|
  {
    logs[k].cmdIndex == logs[k - 1].cmdIndex + Bump(logs[k])
  }

  ghost predicate Counted<C>(logs: seq<LogEntry<C>>) {
    forall k :: 0 < k < |logs| ==> CountedAt(logs, k)
  }

  /** And the sentinel carries the index of the entry it stands for. */
  ghost predicate CountsRight<C>(p: Persistent<C>) {
    |p.logs| > 0 && Counted(p.logs) && p.logs[0].cmdIndex == p.snapCmdIndex
  }

  /** So it never falls, and at an entry that is not internal it is above everything before. */
  lemma {:induction false} CountedRises<C>(logs: seq<LogEntry<C>>, i: nat, j: nat)
    requires Counted(logs) && i < j < |logs|
    ensures logs[i].cmdIndex + Bump(logs[j]) <= logs[j].cmdIndex
    decreases j
  {
    assert CountedAt(logs, j);
    if i < j - 1 {
      CountedRises(logs, i, j - 1);
    }
  }

  // ----- The handlers

  lemma CountedSlice<C>(logs: seq<LogEntry<C>>, i: nat, j: nat)
    requires Counted(logs) && i <= j <= |logs|
    ensures Counted(logs[i..j])
  {
    forall k | 0 < k < j - i
      ensures CountedAt(logs[i..j], k)
    {
      assert CountedAt(logs, i + k);
    }
  }

  /** Two pieces put together count exactly when the second goes on where the first ends. */
  lemma CountedJoin<C>(a: seq<LogEntry<C>>, b: seq<LogEntry<C>>)
    requires Counted(a) && Counted(b) && a != [] && b != []
    ensures Counted(a + b) <==> b[0].cmdIndex == a[|a| - 1].cmdIndex + Bump(b[0])
  {
    var c := a + b;
    if Counted(c) {
      assert CountedAt(c, |a|);
    }
    if b[0].cmdIndex == a[|a| - 1].cmdIndex + Bump(b[0]) {
      forall k | 0 < k < |c|
        ensures CountedAt(c, k)
      {
        if k < |a| {
          assert CountedAt(a, k);
        } else if k > |a| {
          assert CountedAt(b, k - |a|);
        }
      }
    }
  }

  /** The command index that the sender has at PrevLogIndex, as the entries tell it. */
  ghost function Base<C>(args: AppendArgs<C>): int
    requires args.entries != []
  {
    args.entries[0].cmdIndex - Bump(args.entries[0])
  }

  /** The entry that the message goes on from has the sender's command index, as Log Matching promises. */
  ghost predicate AppendMatched<C, D>(s: Peer<C, D>, args: AppendArgs<C>) {
    Accepts(s, args) && args.entries != [] ==> At(s.p, args.prevLogIndex).cmdIndex == Base(args)
  }

  /** AppendEntries keeps a log counted exactly then. */
  lemma {:induction false} AppendCounts<C, D>(s: Peer<C, D>, args: AppendArgs<C>)
    requires Shape(s.p) && Contiguous(args) && AppendSafe(s, args) && !SentinelConflict(s, args)
    requires CountsRight(s.p) && Counted(args.entries)
    ensures CountsRight(OnAppend(s, args).0.p) <==> AppendMatched(s, args)
  {
    hide Counted;
    LastIndex(s.p);
    if Held(s.p, args.prevLogIndex) {
      var pos := Pos(s.p, args.prevLogIndex);
      CountedSlice(s.p.logs, 0, pos);
      CountedSlice(s.p.logs, 0, pos + 1);
      if args.entries != [] {
        CountedJoin(s.p.logs[..pos + 1], args.entries);
      }
    }
  }

  /** The snapshot's index is held with the snapshot's term, so what follows is kept. */
  ghost predicate KeepsTail<C, D>(s: Peer<C, D>, args: InstallArgs<D>)
    requires |s.p.logs| > 0
  {
    && args.term >= s.p.currentTerm && s.p.snapIndex < args.snapIndex < Last(s.p).index
    && Held(s.p, args.snapIndex) && At(s.p, args.snapIndex).term == args.snapTerm
  }

  ghost predicate InstallMatched<C, D>(s: Peer<C, D>, args: InstallArgs<D>)
    requires |s.p.logs| > 0
  {
    KeepsTail(s, args) ==> At(s.p, args.snapIndex).cmdIndex == args.snapCmdIndex
  }

  /** InstallSnapshot keeps it exactly when the entry that becomes the sentinel has the snapshot's command index. */
  lemma {:induction false} InstallCounts<C, D>(s: Peer<C, D>, args: InstallArgs<D>)
    requires Shape(s.p) && CountsRight(s.p)
    ensures CountsRight(OnInstall(s, args).0.p) <==> InstallMatched(s, args)
  {
    hide Counted;
    LastIndex(s.p);
    SentinelCounts(Sentinel<C>(args.snapTerm, args.snapIndex, args.snapCmdIndex));
    if KeepsTail(s, args) {
      var pos, e := Pos(s.p, args.snapIndex), At(s.p, args.snapIndex);
      TailCounts(s.p.logs, pos, e.(command := None, internal := true));
    }
  }

  lemma SentinelCounts<C>(e: LogEntry<C>)
    ensures Counted([e])
  {
  }

  /** What follows an entry goes on from any sentinel with its command index. */
  lemma TailCounts<C>(logs: seq<LogEntry<C>>, pos: nat, e: LogEntry<C>)
    requires Counted(logs) && pos < |logs| && e.cmdIndex == logs[pos].cmdIndex
    ensures Counted([e] + logs[pos + 1..])
  {
    CountedSlice(logs, pos + 1, |logs|);
    SentinelCounts(e);
    if pos + 1 < |logs| {
      assert CountedAt(logs, pos + 1);
      CountedJoin([e], logs[pos + 1..|logs|]);
    } else {
      assert [e] + logs[pos + 1..] == [e];
    }
    assert logs[pos + 1..] == logs[pos + 1..|logs|];
  }

  /** TakeSnapshot always does, and its sentinel has the command index of the entry it replaces. */
  lemma {:induction false} SnapshotCounts<C, D>(s: Peer<C, D>, data: D, index: int)
    requires CountsRight(s.p) && (index > s.p.snapIndex ==> Held(s.p, index))
    ensures CountsRight(TakeSnapshot(s, data, index).p)
    ensures index > s.p.snapIndex ==> TakeSnapshot(s, data, index).p.snapCmdIndex == At(s.p, index).cmdIndex
  {
    hide Counted;
    if index > s.p.snapIndex {
      TailCounts(s.p.logs, Pos(s.p, index), At(s.p, index).(command := None));
    }
  }

  /** Start returns an index above that of every entry in the log, which the new entry has; a no-op has the last one. */
  lemma {:induction false} StartsAbove<C, D>(s: Peer<C, D>, command: C, peers: nat)
    requires CountsRight(s.p)
    ensures var (s', cmdIndex, term, leads) := StartCommand(s, command);
            && CountsRight(s'.p) && (leads <==> s.role == Leading) && (!leads ==> s' == s && cmdIndex == term == -1)
            && (leads ==>
                  && Last(s'.p).cmdIndex == cmdIndex && Last(s'.p).command == Some(command) && term == Last(s'.p).term
                  && forall k :: 0 <= k < |s.p.logs| ==> s.p.logs[k].cmdIndex < cmdIndex)
    ensures CountsRight(BecomeLeader(s, peers).p) && Last(BecomeLeader(s, peers).p).cmdIndex == Last(s.p).cmdIndex
  {
    var last := Last(s.p);
    var entry := LogEntry(s.p.currentTerm, last.index + 1, Some(command), last.cmdIndex + 1, false);
    var noop := LogEntry<C>.LogEntry(s.p.currentTerm, last.index + 1, None, last.cmdIndex, true);
    CountedJoin(s.p.logs, [entry]);
    CountedJoin(s.p.logs, [noop]);
    forall k | 0 <= k < |s.p.logs|
      ensures s.p.logs[k].cmdIndex <= last.cmdIndex
    {
      if k < |s.p.logs| - 1 {
        CountedRises(s.p.logs, k, |s.p.logs| - 1);
      }
    }
  }

  /**
   A peer that has just been started counts, and so does one that comes back from a saved log, which it gets back
   unchanged. From saved fields without a log it gets a sentinel for the last entry of its snapshot.
   */
  lemma RestartCounts<C, D>(p: Persistent<C>, snapshot: Option<D>)
    ensures var s := Restart<C, D>(None, None).0;
            CountsRight(s.p) && Shape(s.p) && s.p.currentTerm == s.p.snapIndex == s.p.snapCmdIndex == Last(s.p).index == 0 && s.p.votedFor == -1
    ensures var s := Restart(Some(p), snapshot).0;
            && s.p == p.(logs := s.p.logs) && (p.logs != [] ==> s.p.logs == p.logs)
            && (p.logs == [] ==>
                  && CountsRight(s.p) && Shape(s.p) && |s.p.logs| == 1
                  && s.p.logs[0].term == p.snapTerm && s.p.logs[0].internal && s.p.logs[0].command == None)
  {
  }

  /** The entries sent count, and tell the sender's command index before them. */
  lemma {:induction false} SentCounts<C, D>(s: Peer<C, D>, me: int, peer: nat)
    requires Shape(s.p) && CountsRight(s.p) && s.leader.Some? && peer < |s.leader.value.nextIndex|
    ensures var message := NextAppend(s, me, peer);
            message.Some? ==>
              && Counted(message.value.entries)
              && (message.value.entries != [] ==>
                    Held(s.p, message.value.prevLogIndex) && Base(message.value) == At(s.p, message.value.prevLogIndex).cmdIndex)
  {
    LastIndex(s.p);
    var next := s.leader.value.nextIndex[peer];
    if s.p.snapIndex < next <= Last(s.p).index {
      var pos := Pos(s.p, next);
      CountedSlice(s.p.logs, pos, |s.p.logs|);
      assert s.p.logs[pos..] == s.p.logs[pos..|s.p.logs|];
      assert CountedAt(s.p.logs, pos);
    }
  }

  // ----- Every run

  ghost predicate StepMatched<C, D>(c: Cluster<C, D>, a: Action<C, D>)
    requires Good(c) && Enabled(c, a)
  {
    match a
    case RecvAppend(_, append) => AppendMatched(c.peers[a.i], append)
    case RecvInstall(_, install) => InstallMatched(c.peers[a.i], install)
    case _ => true
  }

  ghost predicate AllCount<C, D>(c: Cluster<C, D>) {
    && (forall i :: 0 <= i < |c.peers| ==> CountsRight(c.peers[i].p))
    && (forall k :: 0 <= k < |c.appends| ==> Counted(c.appends[k].entries))
  }

  lemma {:induction false} StepCounts<C, D>(c: Cluster<C, D>, a: Action<C, D>)
    requires Good(c) && Enabled(c, a) && AllCount(c)
    ensures CountsRight(Step(c, a).p) <==> StepMatched(c, a)
  {
    hide Counted, OnAppend, OnInstall, TakeSnapshot, StartCommand, BecomeLeader, OnAppendReply, CountsRight;
    var s := c.peers[a.i];
    assert GoodPeer(s) && CountsRight(s.p);
    match a
    case RecvAppend(_, append) => AppendCounts(s, append);
    case RecvInstall(_, install) => InstallCounts(s, install);
    case Snapshot(_, data, index) => SnapshotCounts(s, data, index);
    case Command(_, command) => StartsAbove(s, command, |c.peers|);
    case Win(_) => WinCounts(s, |c.peers|);
    case RecvAppendReply(_, me, peer, append, reply) => ReplyCounts(s, me, peer, append, reply);
    case _ => SameLogCounts(s.p, Step(c, a).p);
  }

  lemma SameLogCounts<C>(p: Persistent<C>, p': Persistent<C>)
    requires CountsRight(p) && p'.logs == p.logs && p'.snapCmdIndex == p.snapCmdIndex
    ensures CountsRight(p')
  {
  }

  lemma WinCounts<C, D>(s: Peer<C, D>, peers: nat)
    requires CountsRight(s.p)
    ensures CountsRight(BecomeLeader(s, peers).p)
  {
    var last := Last(s.p);
    CountedJoin(s.p.logs, [LogEntry(s.p.currentTerm, last.index + 1, None, last.cmdIndex, true)]);
  }

  lemma ReplyCounts<C, D>(s: Peer<C, D>, me: nat, peer: nat, args: AppendArgs<C>, reply: AppendReply)
    requires Shape(s.p) && ReplyExpected(s, me, peer, args, reply) && CountsRight(s.p)
    ensures CountsRight(OnAppendReply(s, me, peer, args, reply).0.p)
  {
    hide Counted;
  }

  lemma NextCounts<C, D>(c: Cluster<C, D>, a: Action<C, D>)
    requires Good(c) && Enabled(c, a) && AllCount(c)
    ensures AllCount(Next(c, a)) <==> StepMatched(c, a)
  {
    StepCounts(c, a);
    if a.SendAppend? {
      assert GoodPeer(c.peers[a.i]);
      SentCounts(c.peers[a.i], a.me, a.peer);
    }
    hide Step, StepMatched, CountsRight, Counted;
    var c' := Next(c, a);
    assert c'.peers == c.peers[a.i := Step(c, a)];
    if AllCount(c') {
      assert CountsRight(c'.peers[a.i].p);
    }
  }

  /**
   In every run, all logs and messages count in every state exactly when every message and snapshot went on from an
   entry with the sender's command index.
   */
  lemma {:induction false} AlwaysCountsIff<C, D>(states: seq<Cluster<C, D>>, actions: seq<Action<C, D>>, n: nat)
    requires Run(states, actions) && n < |states|
    ensures (forall m :: 0 <= m <= n ==> AllCount(states[m])) <==> (forall m :: 0 <= m < n ==> MatchedAt(states, actions, m))
  {
    hide AllCount, Good, Enabled, Next, Init;
    InitCounts(states[0]);
    if n > 0 {
      AlwaysCountsIff(states, actions, n - 1);
      ReachableIsGood(states, actions, n - 1);
      assert Follows(states[n - 1], actions[n - 1], states[n]);
      if AllCount(states[n - 1]) {
        NextCounts(states[n - 1], actions[n - 1]);
      }
      assert MatchedAt(states, actions, n - 1) <==> StepMatched(states[n - 1], actions[n - 1]);
      if forall m :: 0 <= m <= n ==> AllCount(states[m]) {
        assert forall m :: 0 <= m <= n - 1 ==> AllCount(states[m]);
        assert AllCount(states[n]);
      }
      if forall m :: 0 <= m < n ==> MatchedAt(states, actions, m) {
        assert AllCount(states[n - 1]) && MatchedAt(states, actions, n - 1);
      }
    }
  }

  ghost predicate MatchedAt<C, D>(states: seq<Cluster<C, D>>, actions: seq<Action<C, D>>, m: nat) {
    && m < |actions| && m < |states| && Good(states[m]) && Enabled(states[m], actions[m])
    && StepMatched(states[m], actions[m])
  }

  lemma InitCounts<C, D>(c: Cluster<C, D>)
    requires Init(c)
    ensures AllCount(c)
  {
  }

  /** A follower whose entry 1 is a command, and a message from a leader whose entry 1 was a no-op of the same term: two entries get one index. */
  lemma UnmatchedRepeats<C, D>(s: Peer<C, D>, x: C, y: C)
    requires s.p.logs == [Sentinel(0, 0, 0), LogEntry(1, 1, Some(x), 1, false)]
    requires s.p.snapIndex == 0 && s.p.snapCmdIndex == 0 && s.p.currentTerm == 1 && s.commitIndex == 0
    ensures var args := AppendArgs(1, 0, 1, 1, [LogEntry(1, 2, Some(y), 1, false)], 0);
            && Shape(s.p) && CountsRight(s.p) && Contiguous(args) && Counted(args.entries) && AppendSafe(s, args)
            && !AppendMatched(s, args)
            && var logs := OnAppend(s, args).0.p.logs;
               |logs| == 3 && !logs[1].internal && !logs[2].internal && logs[1].cmdIndex == logs[2].cmdIndex
  {
    assert CountedAt(s.p.logs, 1);
  }
}
