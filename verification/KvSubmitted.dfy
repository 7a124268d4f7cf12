/**
 Nothing is applied that was not submitted, and nobody waits for anything else
 (kvraft/server.go:79-110, 147-180, 216-287): in every run, a request that some server has applied was
 taken by Start in an earlier step, and so was the request of every RPC that waits.
 */
module KvSubmitted {
  import opened Options
  import opened RaftNode
  import opened RaftCommit
  import opened RaftCluster
  import opened KvMachine
  import opened KvSystem

  // ----- What has been submitted

  /** The request, with its index and term, that Start takes in the step. */
  ghost function Submitted(sys: System, a: SysAction): set<Op> {
    if a.RaftStep? && a.action.i < |sys.cluster.peers| then Taken(sys.cluster, a.action) else {}
  }

  ghost function Submissions(states: seq<System>, actions: seq<SysAction>, n: nat): set<Op>
    requires n <= |actions| && n <= |states|
  {
    if n == 0 then {} else Submissions(states, actions, n - 1) + Submitted(states[n - 1], actions[n - 1])
  }

  lemma {:induction false} SubmissionStep(states: seq<System>, actions: seq<SysAction>, n: nat, op: Op) returns (m: nat)
    requires n <= |actions| && n <= |states| && op in Submissions(states, actions, n)
    ensures m < n && op in Submitted(states[m], actions[m])
  {
    if op in Submitted(states[n - 1], actions[n - 1]) {
      m := n - 1;
    } else {
      m := SubmissionStep(states, actions, n - 1, op);
    }
  }

  // ----- The invariant

  /** The request holds the term and the command index of its entry. */
  ghost predicate Stamped(e: LogEntry<Op>) {
    e.command.Some? && e.command.value.term == e.term && e.command.value.cmdIndex == e.cmdIndex
  }

  ghost predicate CommandsIn(logs: seq<LogEntry<Op>>, sub: set<Op>) {
    forall k :: 0 <= k < |logs| && logs[k].command.Some? ==> Stamped(logs[k]) && logs[k].command.value in sub
  }

  /** Handlers and waiting RPCs have what Start took, filled in with a term above 0. */
  ghost predicate RpcsKnown(started: set<Op>, waiting: Contexts, sub: set<Op>) {
    && (forall op :: op in started ==> op in sub && op.term > 0)
    && (forall c :: c in waiting ==> waiting[c].op in sub && waiting[c].op.cmdIndex == c && waiting[c].op.term > 0)
  }

  ghost predicate LeadsInTerm(s: KvPeer) {
    s.role == Leading ==> s.p.currentTerm > 0
  }

  /** The first h entries of the committed log have been submitted. */
  ghost predicate LogKnown(g: Log, h: nat, sub: set<Op>) {
    h <= |g| && Commands(g) && forall j :: 0 <= j < h && !g[j].internal ==> Stamped(g[j]) && g[j].command.value in sub
  }

  ghost predicate Below(s: KvPeer, kv: Kv, chan: seq<KvMsg>, captured: Option<Captured>, h: int) {
    && s.commitIndex <= h && s.p.snapIndex <= h && kv.lastApplied <= h
    && (forall k :: 0 <= k < |chan| ==> IndexOf(chan[k]) <= h)
    && (captured.Some? ==> captured.value.index <= h)
  }

  ghost predicate ServerKnown(sys: System, i: nat, sub: set<Op>, h: int)
    requires Sized(sys) && i < |sys.kvs|
  {
    && CommandsIn(sys.cluster.peers[i].p.logs, sub) && Below(sys.cluster.peers[i], sys.kvs[i], sys.chans[i], sys.captured[i], h)
    && LeadsInTerm(sys.cluster.peers[i]) && RpcsKnown(sys.started[i], sys.waiting[i], sub)
  }

  ghost predicate MessagesKnown(c: Cluster<Op, Machine>, sub: set<Op>, h: int) {
    && (forall k :: 0 <= k < |c.appends| ==> CommandsIn(c.appends[k].entries, sub))
    && (forall k :: 0 <= k < |c.installs| ==> c.installs[k].snapIndex <= h)
  }

  /**
   Every command in a log, a message or a waiting RPC was submitted, and so was every committed one up to h, which
   nobody is ahead of.
   */
  ghost predicate Known(g: Log, sys: System, sub: set<Op>, h: nat) {
    && LogKnown(g, h, sub) && Sized(sys) && MessagesKnown(sys.cluster, sub, h)
    && forall i :: 0 <= i < |sys.kvs| ==> ServerKnown(sys, i, sub, h)
  }

  // ----- Each step keeps it

  lemma SliceIn(logs: seq<LogEntry<Op>>, i: int, j: int, sub: set<Op>)
    requires CommandsIn(logs, sub) && 0 <= i <= j <= |logs|
    ensures CommandsIn(logs[i..j], sub)
  {
    forall k | 0 <= k < j - i
      ensures logs[i..j][k] == logs[i + k]
    {
    }
  }

  lemma ConcatIn(a: seq<LogEntry<Op>>, b: seq<LogEntry<Op>>, sub: set<Op>)
    requires CommandsIn(a, sub) && CommandsIn(b, sub)
    ensures CommandsIn(a + b, sub)
  {
  }

  lemma AppendCommands(s: KvPeer, args: AppendArgs<Op>, sub: set<Op>)
    requires Shape(s.p) && Contiguous(args) && AppendSafe(s, args)
    requires CommandsIn(s.p.logs, sub) && CommandsIn(args.entries, sub)
    ensures CommandsIn(OnAppend(s, args).0.p.logs, sub)
  {
    hide CommandsIn;
    LastIndex(s.p);
    if Held(s.p, args.prevLogIndex) {
      var pos := Pos(s.p, args.prevLogIndex);
      SliceIn(s.p.logs, 0, pos, sub);
      SliceIn(s.p.logs, 0, pos + 1, sub);
      ConcatIn(s.p.logs[..pos + 1], args.entries, sub);
    }
  }

  lemma InstallCommands(s: KvPeer, args: InstallArgs<Machine>, sub: set<Op>)
    requires Shape(s.p) && CommandsIn(s.p.logs, sub)
    ensures CommandsIn(OnInstall(s, args).0.p.logs, sub)
  {
    if Held(s.p, args.snapIndex) {
      var pos := Pos(s.p, args.snapIndex);
      SliceIn(s.p.logs, pos + 1, |s.p.logs|, sub);
    }
  }

  lemma SnapshotCommands(s: KvPeer, data: Machine, index: int, sub: set<Op>)
    requires CommandsIn(s.p.logs, sub) && (index > s.p.snapIndex ==> Held(s.p, index))
    ensures CommandsIn(TakeSnapshot(s, data, index).p.logs, sub)
  {
    if index > s.p.snapIndex {
      SliceIn(s.p.logs, Pos(s.p, index) + 1, |s.p.logs|, sub);
    }
  }

  lemma StepCommands(c: Cluster<Op, Machine>, a: KvAction, sub: set<Op>)
    requires Good(c) && Enabled(c, a) && (a.Command? ==> FilledIn(c, a))
    requires CommandsIn(c.peers[a.i].p.logs, sub) && forall k :: 0 <= k < |c.appends| ==> CommandsIn(c.appends[k].entries, sub)
    ensures CommandsIn(Step(c, a).p.logs, sub + Taken(c, a))
  {
    hide OnAppend, OnInstall, TakeSnapshot, OnAppendReply, GoodPeer;
    var s := c.peers[a.i];
    PeerIsGood(c, a.i);
    GoodIsShape(s);
    match a
    case RecvAppend(_, append) => AppendCommands(s, append, sub);
    case RecvInstall(_, install) => InstallCommands(s, install, sub);
    case Snapshot(_, data, index) => SnapshotCommands(s, data, index, sub);
    case RecvAppendReply(_, me, peer, append, reply) => ReplyKeepsLogs(s, me, peer, append, reply);
    case _ =>
  }

  lemma GoodIsShape(s: KvPeer)
    requires GoodPeer(s)
    ensures Shape(s.p) && Restore(s.stored) == s.p
  {
  }

  lemma ReplyKeepsLogs(s: KvPeer, me: nat, peer: nat, args: AppendArgs<Op>, reply: AppendReply)
    requires Shape(s.p) && ReplyExpected(s, me, peer, args, reply)
    ensures OnAppendReply(s, me, peer, args, reply).0.p.logs == s.p.logs
  {
  }

  /** More submissions, and a later h. */
  lemma KnownGrows(g: Log, sys: System, sub: set<Op>, sub': set<Op>, h: nat, h': nat)
    requires Known(g, sys, sub, h) && sub <= sub' && h <= h' && LogKnown(g, h', sub')
    ensures Known(g, sys, sub', h')
  {
    forall i | 0 <= i < |sys.kvs|
      ensures ServerKnown(sys, i, sub', h')
    {
      assert ServerKnown(sys, i, sub, h);
    }
  }

  /** Committing entries that are in the log makes more of the committed log known. */
  lemma CommitKnown(g: Log, s: KvPeer, s': KvPeer, sub: set<Op>, h: nat)
    requires LogKnown(g, h, sub) && CommandsIn(s'.p.logs, sub) && s.commitIndex <= h && s'.p.snapIndex <= h
    requires forall k :: s.commitIndex < k <= s'.commitIndex && k > s'.p.snapIndex ==> AgreesAt(g, s'.p, k)
    ensures LogKnown(g, Max(h, s'.commitIndex), sub)
  {
    if h < s'.commitIndex {
      assert AgreesAt(g, s'.p, s'.commitIndex);
      forall j | h <= j < s'.commitIndex && !g[j].internal
        ensures Stamped(g[j]) && g[j].command.value in sub
      {
        assert AgreesAt(g, s'.p, j + 1);
        var e := At(s'.p, j + 1);
        assert e == s'.p.logs[Pos(s'.p, j + 1)];
      }
    }
  }

  lemma SentBelow(s: KvPeer, s': KvPeer, out: seq<KvMsg>, chan: seq<KvMsg>, h: int)
    requires Commits(s, s', out) && s'.commitIndex <= h && forall k :: 0 <= k < |chan| ==> IndexOf(chan[k]) <= h
    ensures forall k :: 0 <= k < |chan + out| ==> IndexOf((chan + out)[k]) <= h
  {
    EmitsExactly<Op, Machine>(s'.p, s.commitIndex + 1, s'.commitIndex);
  }

  /** A step of Raft that commits: how far the committed log is known after it. */
  lemma CommitHorizon(g: Log, sys: System, a: KvAction, sub: set<Op>, h: nat) returns (h': nat)
    requires GoodSystem(g, sys) && CanStep(g, sys, RaftStep(a)) && Known(g, sys, sub, h)
    ensures h <= h' && LogKnown(g, h', sub + Taken(sys.cluster, a))
    ensures Step(sys.cluster, a).commitIndex <= h' && Step(sys.cluster, a).p.snapIndex <= h'
    ensures forall k :: 0 <= k < |Out(sys.cluster, a)| ==> IndexOf(Out(sys.cluster, a)[k]) <= h'
  {
    var c, s, s' := sys.cluster, sys.cluster.peers[a.i], Step(sys.cluster, a);
    assert ServerKnown(sys, a.i, sub, h) && ServerIsGood(g, sys, a.i);
    PeerIsGood(c, a.i);
    hide GoodSystem, Good;
    h' := h;
    if a.RecvAppend? || a.RecvAppendReply? {
      h' := CommitRaises(g, sys, a, sub, h);
    } else if a.RecvInstall? {
      assert MessagesKnown(c, sub, h);
    } else if !a.Crash? {
      OtherFeeds(c, a);
    }
  }

  lemma CommitRaises(g: Log, sys: System, a: KvAction, sub: set<Op>, h: nat) returns (h': nat)
    requires GoodSystem(g, sys) && CanStep(g, sys, RaftStep(a)) && Known(g, sys, sub, h) && (a.RecvAppend? || a.RecvAppendReply?)
    ensures h <= h' && LogKnown(g, h', sub + Taken(sys.cluster, a))
    ensures Step(sys.cluster, a).commitIndex <= h' && Step(sys.cluster, a).p.snapIndex <= h'
    ensures forall k :: 0 <= k < |Out(sys.cluster, a)| ==> IndexOf(Out(sys.cluster, a)[k]) <= h'
  {
    var c, s, s', out := sys.cluster, sys.cluster.peers[a.i], Step(sys.cluster, a), Out(sys.cluster, a);
    assert ServerKnown(sys, a.i, sub, h);
    PeerIsGood(c, a.i);
    if a.RecvAppend? {
      AppendForm(s, a.append);
    } else {
      ReplyForm(s, a.me, a.peer, a.append, a.reply);
    }
    StepCommands(c, a, sub);
    hide GoodSystem, Good, Step, Out;
    assert sub + Taken(sys.cluster, a) == sub;
    h' := Max(h, s'.commitIndex);
    CommitKnown(g, s, s', sub, h);
    SentBelow(s, s', out, [], h');
    assert [] + out == out;
  }

  /** Only a won election makes a leader, and a leader's term does not change. */
  lemma StillLeads(c: Cluster<Op, Machine>, a: KvAction)
    requires Good(c) && Enabled(c, a) && LeadsInTerm(c.peers[a.i]) && (a.Win? ==> c.peers[a.i].p.currentTerm > 0)
    ensures LeadsInTerm(Step(c, a))
  {
    hide CommitUpTo, CommitPoint, FirstOfTerm, GoodPeer;
    var s := c.peers[a.i];
    PeerIsGood(c, a.i);
    GoodIsShape(s);
    match a
    case RecvAppend(_, append) => AppendRole(s, append);
    case _ =>
  }

  lemma AppendRole(s: KvPeer, args: AppendArgs<Op>)
    requires Shape(s.p) && Contiguous(args) && AppendSafe(s, args)
    ensures var s' := OnAppend(s, args).0;
            if args.leaderTerm < s.p.currentTerm then s' == s else s'.role == Follower
  {
  }

  lemma RpcsGrow(c: Cluster<Op, Machine>, a: KvAction, started: set<Op>, waiting: Contexts, sub: set<Op>)
    requires Good(c) && a.i < |c.peers| && LeadsInTerm(c.peers[a.i]) && (a.Command? ==> FilledIn(c, a))
    requires RpcsKnown(started, waiting, sub)
    ensures RpcsKnown(started + Taken(c, a), waiting, sub + Taken(c, a))
  {
  }

  lemma NoRpcs(sub: set<Op>)
    ensures RpcsKnown({}, map[], sub)
  {
  }

  lemma RaftStepKnown(g: Log, sys: System, a: KvAction, sub: set<Op>, h: nat) returns (h': nat)
    requires GoodSystem(g, sys) && CanStep(g, sys, RaftStep(a)) && Known(g, sys, sub, h)
    ensures Known(g, SysNext(g, sys, RaftStep(a)), sub + Taken(sys.cluster, a), h')
  {
    var sub', sys' := sub + Taken(sys.cluster, a), SysNext(g, sys, RaftStep(a));
    h' := CommitHorizon(g, sys, a, sub, h);
    KnownGrows(g, sys, sub, sub', h, h');
    assert ServerKnown(sys, a.i, sub, h);
    StepCommands(sys.cluster, a, sub);
    StillLeads(sys.cluster, a);
    RpcsGrow(sys.cluster, a, sys.started[a.i], sys.waiting[a.i], sub);
    NoRpcs(sub');
    NextShape(sys.cluster, a);
    MessagesStay(sys.cluster, a, sub', h');
    hide GoodSystem, Good, CanStep, Step, Out, Next, CommandsIn, LogKnown, MessagesKnown, RpcsKnown, LeadsInTerm, Taken;
    forall i | 0 <= i < |sys'.kvs|
      ensures ServerKnown(sys', i, sub', h')
    {
      assert ServerKnown(sys, i, sub', h');
    }
  }

  /** Messages carry what their senders have. */
  lemma MessagesStay(c: Cluster<Op, Machine>, a: KvAction, sub: set<Op>, h: int)
    requires Good(c) && Enabled(c, a) && MessagesKnown(c, sub, h)
    requires CommandsIn(c.peers[a.i].p.logs, sub) && c.peers[a.i].p.snapIndex <= h
    ensures MessagesKnown(Next(c, a), sub, h)
  {
    hide CommandsIn, Step;
    if a.SendAppend? {
      var s := c.peers[a.i];
      var message := NextAppend(s, a.me, a.peer);
      LastIndex(s.p);
      if message.Some? && message.value.entries != [] {
        var pos := Pos(s.p, s.leader.value.nextIndex[a.peer]);
        SliceIn(s.p.logs, pos, |s.p.logs|, sub);
        assert message.value.entries == s.p.logs[pos..|s.p.logs|];
      }
      NothingIn(sub);
    }
  }

  lemma NothingIn(sub: set<Op>)
    ensures CommandsIn([], sub)
  {
  }

  lemma DeliverKnown(g: Log, sys: System, i: nat, filled: bool, sub: set<Op>, h: nat)
    requires GoodSystem(g, sys) && CanStep(g, sys, Deliver(i, filled)) && Known(g, sys, sub, h)
    ensures Known(g, SysNext(g, sys, Deliver(i, filled)), sub, h)
  {
    assert ServerKnown(sys, i, sub, h) && ServerIsGood(g, sys, i);
    DeliverApplies(g, sys.kvs[i], sys.chans[i], sys.cluster.peers[i].commitIndex, filled);
    WakingKeepsRequests(sys.kvs[i], Read(sys.chans[i][0], filled), sys.waiting[i], sys.started[i], sub);
    hide Good, Feeds, CommandsIn, LogKnown, MessagesKnown, Reach, RpcsKnown, LeadsInTerm, Woken;
    var sys' := SysNext(g, sys, Deliver(i, filled));
    assert IndexOf(sys.chans[i][0]) <= h;
    forall j | 0 <= j < |sys'.kvs|
      ensures ServerKnown(sys', j, sub, h)
    {
      assert ServerKnown(sys, j, sub, h);
    }
  }

  lemma WakingKeepsRequests(kv: Kv, msg: KvMsg, waiting: Contexts, started: set<Op>, sub: set<Op>)
    requires (IsNews(kv, msg) ==> msg.command.Some?) && RpcsKnown(started, waiting, sub)
    ensures RpcsKnown(started, Woken(kv, msg, waiting), sub)
  {
  }

  lemma HandOverKnown(g: Log, sys: System, i: nat, sub: set<Op>, h: nat)
    requires GoodSystem(g, sys) && CanStep(g, sys, HandOver(i)) && Known(g, sys, sub, h)
    ensures Known(g, SysNext(g, sys, HandOver(i)), sub, h)
  {
    var snap := sys.captured[i].value;
    var a: KvAction := Snapshot(i, snap.machine, snap.index);
    assert ServerKnown(sys, i, sub, h);
    StepCommands(sys.cluster, a, sub);
    StillLeads(sys.cluster, a);
    assert sub + Taken(sys.cluster, a) == sub;
    NextShape(sys.cluster, a);
    SnapshotStep(sys.cluster, a);
    MessagesStay(sys.cluster, a, sub, h);
    var sys' := SysNext(g, sys, HandOver(i));
    hide Good, GoodSystem, Step, Next, CommandsIn, LogKnown, MessagesKnown, RpcsKnown, LeadsInTerm;
    forall j | 0 <= j < |sys'.kvs|
      ensures ServerKnown(sys', j, sub, h)
    {
      assert ServerKnown(sys, j, sub, h);
    }
  }

  lemma LocalKnown(g: Log, sys: System, a: SysAction, sub: set<Op>, h: nat)
    requires GoodSystem(g, sys) && CanStep(g, sys, a) && Known(g, sys, sub, h) && (a.Capture? || a.Register? || a.Unregister?)
    ensures Known(g, SysNext(g, sys, a), sub, h)
  {
    hide Good, CommandsIn, LogKnown, MessagesKnown, LeadsInTerm;
    var sys' := SysNext(g, sys, a);
    forall j | 0 <= j < |sys'.kvs|
      ensures ServerKnown(sys', j, sub, h)
    {
      assert ServerKnown(sys, j, sub, h);
    }
  }

  lemma StepKnown(g: Log, sys: System, a: SysAction, sub: set<Op>, h: nat) returns (h': nat)
    requires GoodSystem(g, sys) && CanStep(g, sys, a) && Known(g, sys, sub, h)
    ensures Known(g, SysNext(g, sys, a), sub + Submitted(sys, a), h')
  {
    hide GoodSystem, SysNext, Known;
    h' := h;
    match a
    case RaftStep(action) => h' := RaftStepKnown(g, sys, action, sub, h);
    case Deliver(i, filled) => DeliverKnown(g, sys, i, filled, sub, h); assert sub + Submitted(sys, a) == sub;
    case HandOver(i) => HandOverKnown(g, sys, i, sub, h); assert sub + Submitted(sys, a) == sub;
    case _ => LocalKnown(g, sys, a, sub, h); assert sub + Submitted(sys, a) == sub;
  }

  // ----- Every run

  lemma {:induction false} ReachableIsKnown(g: Log, states: seq<System>, actions: seq<SysAction>, n: nat) returns (h: nat)
    requires Commands(g) && SysRun(g, states, actions) && n < |states|
    ensures Known(g, states[n], Submissions(states, actions, n), h)
  {
    if n == 0 {
      h := 0;
      InitKnown(g, states[0]);
    } else {
      var h0 := ReachableIsKnown(g, states, actions, n - 1);
      ReachableIsGoodSystem(g, states, actions, n - 1);
      assert SysFollows(g, states[n - 1], actions[n - 1], states[n]);
      hide GoodSystem, CanStep, SysNext, Known;
      h := StepKnown(g, states[n - 1], actions[n - 1], Submissions(states, actions, n - 1), h0);
    }
  }

  lemma InitKnown(g: Log, sys: System)
    requires Commands(g) && SysInit(sys)
    ensures Known(g, sys, {}, 0)
  {
    forall i | 0 <= i < |sys.kvs|
      ensures ServerKnown(sys, i, {}, 0)
    {
      assert |sys.chans[i]| == 1;
    }
  }

  /** Whatever a server has applied was submitted by an earlier step, with the term and the index of its entry. */
  lemma AppliedWasSubmitted(g: Log, states: seq<System>, actions: seq<SysAction>, n: nat, i: nat, j: nat) returns (m: nat)
    requires Commands(g) && SysRun(g, states, actions) && n < |states| && i < |states[n].kvs|
    requires j < states[n].kvs[i].lastApplied
    ensures j < |g|
    ensures !g[j].internal ==> m < n && g[j].command.value in Submitted(states[m], actions[m]) && Stamped(g[j])
  {
    var h := ReachableIsKnown(g, states, actions, n);
    assert ServerKnown(states[n], i, Submissions(states, actions, n), h);
    m := 0;
    if !g[j].internal {
      m := SubmissionStep(states, actions, n, g[j].command.value);
    }
  }

  /** Whoever waits under a command index waits for a request that an earlier step submitted with that index, in a term above 0. */
  lemma WaitingWasSubmitted(g: Log, states: seq<System>, actions: seq<SysAction>, n: nat, i: nat, c: int) returns (m: nat)
    requires Commands(g) && SysRun(g, states, actions) && n < |states| && i < |states[n].waiting| && c in states[n].waiting[i]
    ensures var op := states[n].waiting[i][c].op;
            m < n && op in Submitted(states[m], actions[m]) && op.cmdIndex == c && op.term > 0
  {
    var h := ReachableIsKnown(g, states, actions, n);
    assert ServerKnown(states[n], i, Submissions(states, actions, n), h);
    m := SubmissionStep(states, actions, n, states[n].waiting[i][c].op);
  }
}
