/**
 Every run of the replicated service: Raft peers, the channels over which they
 deliver, the key/value servers that apply what arrives, the RPCs that wait for their
 entry, snapshots taken, installed and lost, and crashes at any moment
 (kvraft/server.go:79-345, raft/raft.go:533-552, 1062-1216, 1256-1271; section 8 of the
 extended Raft paper).

 That peers deliver entries of one committed log, `g`, is a hypothesis on each
 step that commits (State Machine Safety, section 5.4.3 of the paper).
 */
module KvSystem {
  import opened Options
  import opened RaftNode
  import opened RaftCluster
  import KvModel
  import opened KvMachine

  type KvPeer = Peer<Op, Machine>
  type KvMsg = ApplyMsg<Op, Machine>
  type KvAction = Action<Op, Machine>

  /** A server's state machine and lastAppliedIndex. */
  datatype Kv = Kv(machine: Machine, lastApplied: int)

  /** A state that snapshotLoop has encoded and not yet handed to Raft. */
  datatype Captured = Captured(machine: Machine, index: int)

  /** An RPC that waits: its request, whether its channel is closed, and what it finds then. */
  datatype Context = Context(op: Op, closed: bool, wrongLeader: bool, keyExist: bool, value: string)

  function NewContext(op: Op): Context {
    Context(op, false, false, false, "")
  }

  /** The RPCs that wait, by command index. */
  type Contexts = map<int, Context>

  /**
   kvs[i], chans[i], captured[i], started[i] and waiting[i] belong to the server of peer i. The handlers of the
   requests in started[i] have got index and term from Start and not yet saved their context.
   */
  datatype System = System(cluster: Cluster<Op, Machine>, kvs: seq<Kv>, chans: seq<seq<KvMsg>>,
                           captured: seq<Option<Captured>>, started: seq<set<Op>>, waiting: seq<Contexts>)

  // ----- What a server does with a message

  /** The message is a command that has not been applied yet. */
  predicate IsNews(kv: Kv, msg: KvMsg) {
    msg.CommandMsg? && msg.logIndex > kv.lastApplied
  }

  function Apply(kv: Kv, msg: KvMsg): Kv
    requires IsNews(kv, msg) ==> msg.command.Some?
  {
    match msg
    case CommandMsg(command, _, logIndex) =>
      if logIndex <= kv.lastApplied then kv else Kv(Exec(kv.machine, command.value), logIndex)
    case SnapshotMsg(data, snapIndex, _, _) =>
      if snapIndex <= kv.lastApplied then kv
      else Kv(if data.None? then EMPTY else Merge(kv.machine, data.value), snapIndex)
  }

  /** What the RPC finds when a server in state m applies op at its command index. */
  function Wake(m: Machine, op: Op, ctx: Context): Context {
    ctx.(closed := true, wrongLeader := ctx.wrongLeader || op.term != ctx.op.term,
         keyExist := if IsWrite(op) then ctx.keyExist else op.key in m.store,
         value := if IsWrite(op) then ctx.value else KvModel.Lookup(m.store, op.key))
  }

  /** Applying a command wakes the RPC that waits for its index. */
  function Woken(kv: Kv, msg: KvMsg, waiting: Contexts): Contexts
    requires IsNews(kv, msg) ==> msg.command.Some?
  {
    if IsNews(kv, msg) && msg.cmdIndex in waiting
    then waiting[msg.cmdIndex := Wake(kv.machine, msg.command.value, waiting[msg.cmdIndex])]
    else waiting
  }

  /** The message as its receiver reads it. */
  function Read(msg: KvMsg, filled: bool): KvMsg {
    if msg.CommandMsg? && msg.command.Some? then msg.(command := Some(Copy(msg.command.value, filled))) else msg
  }

  datatype Err = OK | ErrNoKey | ErrWrongLeader

  /** What the Get handler replies once its channel is closed. */
  function GetReply(ctx: Context): (Err, string) {
    if ctx.wrongLeader then (ErrWrongLeader, "")
    else if !ctx.keyExist then (ErrNoKey, "")
    else (OK, ctx.value)
  }

  /** What the PutAppend handler replies once its channel is closed. */
  function PutReply(ctx: Context): Err {
    if ctx.wrongLeader then ErrWrongLeader else OK
  }

  // ----- The steps

  datatype SysAction =
    | RaftStep(action: KvAction)
    | Deliver(server: nat, filled: bool)
    | Capture(server: nat)
    | HandOver(server: nat)
    | Register(server: nat, op: Op)
    | Unregister(server: nat, cmdIndex: int)

  /** What the peer sends to its server in a step. */
  ghost function Out(c: Cluster<Op, Machine>, a: KvAction): seq<KvMsg>
    requires Good(c) && Enabled(c, a)
  {
    var s := c.peers[a.i];
    match a
    case RecvAppend(_, append) => OnAppend(s, append).2
    case RecvAppendReply(_, me, peer, append, reply) => OnAppendReply(s, me, peer, append, reply).1
    case RecvInstall(_, install) => OnInstall(s, install).2
    case Crash(_) => Restart(s.stored, s.snapshot).1
    case _ => []
  }

  /** The peer's entry at index k is the committed one. */
  ghost predicate AgreesAt(g: Log, p: Persistent<Op>, k: int) {
    1 <= k <= |g| && Held(p, k) && At(p, k) == g[k - 1]
  }

  /** The request that Start takes in the step. */
  ghost function Taken(c: Cluster<Op, Machine>, a: KvAction): set<Op>
    requires a.i < |c.peers|
  {
    if a.Command? && c.peers[a.i].role == Leading then {a.command} else {}
  }

  /** The request is the one that the handler fills in with what Start returns. */
  ghost predicate FilledIn(c: Cluster<Op, Machine>, a: KvAction)
    requires Good(c) && a.i < |c.peers| && a.Command?
  {
    var (_, cmdIndex, term, leads) := StartCommand(c.peers[a.i], a.command);
    leads ==> a.command.cmdIndex == cmdIndex && a.command.term == term
  }

  /** The entries that the step commits are those of the committed log. */
  ghost predicate Agreed(g: Log, c: Cluster<Op, Machine>, a: KvAction)
    requires Good(c) && Enabled(c, a)
  {
    (a.RecvAppend? || a.RecvAppendReply?) ==>
      var s, s' := c.peers[a.i], Step(c, a);
      forall k :: s.commitIndex < k <= s'.commitIndex && k > s'.p.snapIndex ==> AgreesAt(g, s'.p, k)
  }

  ghost predicate Sized(sys: System) {
    |sys.kvs| == |sys.chans| == |sys.captured| == |sys.started| == |sys.waiting| == |sys.cluster.peers|
  }

  ghost predicate CanStep(g: Log, sys: System, a: SysAction)
    requires Good(sys.cluster) && Sized(sys)
  {
    match a
    case RaftStep(action) =>
      && !action.Snapshot? && Enabled(sys.cluster, action) && Agreed(g, sys.cluster, action)
      && (action.Command? ==> FilledIn(sys.cluster, action))
      && (action.Win? ==> sys.cluster.peers[action.i].p.currentTerm > 0)  // the election has raised it
    case Deliver(i, _) => i < |sys.kvs| && sys.chans[i] != []
    case Capture(i) => i < |sys.kvs|
    case HandOver(i) =>
      && i < |sys.kvs| && sys.captured[i].Some?
      && Enabled(sys.cluster, Snapshot(i, sys.captured[i].value.machine, sys.captured[i].value.index))
    case Register(i, op) => i < |sys.kvs| && op in sys.started[i]
    case Unregister(i, _) => i < |sys.kvs|
  }

  ghost function SysNext(g: Log, sys: System, a: SysAction): System
    requires GoodSystem(g, sys) && CanStep(g, sys, a)
  {
    match a
    case RaftStep(action) =>
      var out := Out(sys.cluster, action);
      var next := sys.(cluster := Next(sys.cluster, action));
      if action.Crash?
      then next.(kvs := sys.kvs[action.i := Kv(EMPTY, 0)], chans := sys.chans[action.i := out],
                 captured := sys.captured[action.i := None], started := sys.started[action.i := {}],
                 waiting := sys.waiting[action.i := map[]])
      else next.(chans := sys.chans[action.i := sys.chans[action.i] + out],
                 started := sys.started[action.i := sys.started[action.i] + Taken(sys.cluster, action)])
    case Deliver(i, filled) =>
      DeliverDefined(g, sys, i);
      var msg := Read(sys.chans[i][0], filled);
      sys.(kvs := sys.kvs[i := Apply(sys.kvs[i], msg)], chans := sys.chans[i := sys.chans[i][1..]],
           waiting := sys.waiting[i := Woken(sys.kvs[i], msg, sys.waiting[i])])
    case Capture(i) =>
      sys.(captured := sys.captured[i := Some(Captured(sys.kvs[i].machine, sys.kvs[i].lastApplied))])
    case HandOver(i) =>
      var snap := sys.captured[i].value;
      sys.(cluster := Next(sys.cluster, Snapshot(i, snap.machine, snap.index)), captured := sys.captured[i := None])
    case Register(i, op) =>
      sys.(started := sys.started[i := sys.started[i] - {op}],
           waiting := sys.waiting[i := sys.waiting[i][op.cmdIndex := NewContext(op)]])
    case Unregister(i, cmdIndex) =>
      sys.(waiting := sys.waiting[i := sys.waiting[i] - {cmdIndex}])
  }

  // ----- The invariant

  /** data is the state after index entries of g. */
  ghost predicate IsSnapshot(g: Log, data: Option<Machine>, index: int) {
    Commands(g) && 0 <= index <= |g| && (index > 0 ==> data == Some(Fold(g, index)))
  }

  function Max(a: int, b: int): int {
    if a < b then b else a
  }

  function IndexOf(msg: KvMsg): int {
    if msg.CommandMsg? then msg.logIndex else msg.snapIndex
  }

  /** How far a server that has applied everything up to a gets with chan. */
  function Reach(a: int, chan: seq<KvMsg>): int
    decreases |chan|
  {
    if chan == [] then a else Reach(Max(a, IndexOf(chan[0])), chan[1..])
  }

  /** The command is old, or it is the next one of g that needs to be applied. */
  ghost predicate Fits(g: Log, a: int, msg: KvMsg)
    requires msg.CommandMsg?
  {
    var k := msg.logIndex;
    k <= a || (1 <= k <= |g| && !g[k - 1].internal && msg.command == g[k - 1].command
               && msg.cmdIndex == g[k - 1].cmdIndex && Quiet(g, a, k - 1))
  }

  /**
   Delivering chan to a server that has applied everything up to a leaves it with
   everything up to c, and no entry that needs to be applied is passed over on the way.
   */
  ghost predicate Feeds(g: Log, a: int, chan: seq<KvMsg>, c: int)
    decreases |chan|
  {
    if chan == [] then Quiet(g, a, c)
    else
      && (if chan[0].CommandMsg? then Fits(g, a, chan[0]) else IsSnapshot(g, chan[0].data, chan[0].snapIndex))
      && 0 <= a && Feeds(g, Max(a, IndexOf(chan[0])), chan[1..], c)
  }

  /** A closed context is that of an entry applied. */
  ghost predicate ClosedApplied(g: Log, applied: int, waiting: Contexts) {
    forall c :: c in waiting && waiting[c].closed ==> HasCmdIndex(g, applied, c)
  }

  ghost predicate HasCmdIndex(g: Log, n: int, c: int) {
    exists j :: 0 <= j < n && j < |g| && !g[j].internal && g[j].cmdIndex == c
  }

  ghost predicate GoodServer(g: Log, s: KvPeer, kv: Kv, chan: seq<KvMsg>, captured: Option<Captured>, waiting: Contexts) {
    && Commands(g)
    && 0 <= kv.lastApplied <= |g| && kv.machine == Fold(g, kv.lastApplied)
    && IsSnapshot(g, s.snapshot, s.p.snapIndex)
    && Feeds(g, kv.lastApplied, chan, s.commitIndex)
    && s.p.snapIndex <= Reach(kv.lastApplied, chan)
    && (captured.Some? ==> IsSnapshot(g, Some(captured.value.machine), captured.value.index) && captured.value.index <= kv.lastApplied)
    && ClosedApplied(g, kv.lastApplied, waiting)
  }

  ghost predicate ServerIsGood(g: Log, sys: System, i: nat)
    requires Sized(sys) && i < |sys.kvs|
  {
    GoodServer(g, sys.cluster.peers[i], sys.kvs[i], sys.chans[i], sys.captured[i], sys.waiting[i])
  }

  ghost predicate GoodSystem(g: Log, sys: System) {
    && Commands(g)
    && Good(sys.cluster) && Sized(sys)
    && (forall i :: 0 <= i < |sys.kvs| ==> ServerIsGood(g, sys, i))
    && (forall k :: 0 <= k < |sys.cluster.installs| ==> IsSnapshot(g, sys.cluster.installs[k].data, sys.cluster.installs[k].snapIndex))
  }

  /** The command that is to be applied is there: the type assertion of applyMsgLoop succeeds. */
  lemma DeliverDefined(g: Log, sys: System, i: nat)
    requires GoodSystem(g, sys) && i < |sys.kvs| && sys.chans[i] != []
    ensures IsNews(sys.kvs[i], sys.chans[i][0]) ==> sys.chans[i][0].command.Some?
  {
    hide Good;
    assert ServerIsGood(g, sys, i);
  }

  // ----- The channel

  lemma {:induction false} ReachSnoc(a: int, chan: seq<KvMsg>, msg: KvMsg)
    ensures Reach(a, chan + [msg]) == Max(Reach(a, chan), IndexOf(msg))
    decreases |chan|
  {
    if chan != [] {
      ReachSnoc(Max(a, IndexOf(chan[0])), chan[1..], msg);
      assert (chan + [msg])[1..] == chan[1..] + [msg];
    } else {
      assert (chan + [msg])[1..] == [];
    }
  }

  /** The next entry, whatever its copy in the message. */
  lemma {:induction false} FeedsEntry(g: Log, a: int, chan: seq<KvMsg>, k: int, msg: KvMsg)
    requires Feeds(g, a, chan, k - 1) && 1 <= k <= |g|
    requires msg.CommandMsg? && msg.logIndex == k && msg.command == g[k - 1].command && msg.cmdIndex == g[k - 1].cmdIndex
    ensures g[k - 1].internal ==> Feeds(g, a, chan, k)
    ensures !g[k - 1].internal ==> Feeds(g, a, chan + [msg], k)
    decreases |chan|
  {
    if chan != [] {
      FeedsEntry(g, Max(a, IndexOf(chan[0])), chan[1..], k, msg);
      assert (chan + [msg])[1..] == chan[1..] + [msg];
    } else {
      assert (chan + [msg])[1..] == [];
    }
  }

  /** An entry that the server will have by then: whatever is sent for it, nothing is passed over. */
  lemma {:induction false} FeedsOld(g: Log, a: int, chan: seq<KvMsg>, c: int, k: int, msg: KvMsg)
    requires Feeds(g, a, chan, c) && k <= Reach(a, chan) && k <= |g| && 0 <= a
    requires msg.CommandMsg? && msg.logIndex == k
    ensures Feeds(g, a, chan, k) && Feeds(g, a, chan + [msg], k)
    decreases |chan|
  {
    if chan != [] {
      FeedsOld(g, Max(a, IndexOf(chan[0])), chan[1..], c, k, msg);
      assert (chan + [msg])[1..] == chan[1..] + [msg];
    } else {
      assert (chan + [msg])[1..] == [];
    }
  }

  /** Sending newly committed entries moves the cursor up. */
  lemma {:induction false} FeedsEmit(g: Log, a: int, chan: seq<KvMsg>, p: Persistent<Op>, c: int, top: int)
    requires Feeds(g, a, chan, c) && Shape(p) && c <= top && 0 <= a
    requires c < top ==> Held(p, c + 1) && Held(p, top)
    requires p.snapIndex <= Reach(a, chan) && p.snapIndex <= |g|
    requires forall k :: c < k <= top && k > p.snapIndex ==> AgreesAt(g, p, k)
    ensures Feeds(g, a, chan + Emit(p, c + 1, top), top)
    ensures p.snapIndex <= Reach(a, chan + Emit(p, c + 1, top))
    decreases top - c
  {
    hide Reach, Feeds;
    if c == top {
      assert chan + [] == chan;
    } else {
      FeedsEmit(g, a, chan, p, c, top - 1);
      LastIndex(p);
      var sent, e := chan + Emit(p, c + 1, top - 1), At(p, top);
      var msg: KvMsg := CommandMsg(e.command, e.cmdIndex, e.index);
      ReachSnoc(a, sent, msg);
      assert chan + Emit(p, c + 1, top) == if e.internal then sent else sent + [msg];
      if top == p.snapIndex {
        FeedsOld(g, a, sent, top - 1, top, msg);
      } else {
        assert AgreesAt(g, p, top);
        FeedsEntry(g, a, sent, top, msg);
      }
    }
  }

  /** A snapshot puts the cursor at its index, even if that is a step back. */
  lemma {:induction false} FeedsSnapshot(g: Log, a: int, chan: seq<KvMsg>, c: int, msg: KvMsg)
    requires Feeds(g, a, chan, c) && 0 <= a && msg.SnapshotMsg? && IsSnapshot(g, msg.data, msg.snapIndex)
    ensures Feeds(g, a, chan + [msg], msg.snapIndex)
    decreases |chan|
  {
    if chan != [] {
      FeedsSnapshot(g, Max(a, IndexOf(chan[0])), chan[1..], c, msg);
      assert (chan + [msg])[1..] == chan[1..] + [msg];
    } else {
      assert (chan + [msg])[1..] == [];
    }
  }

  /** A server that takes the next message is where the committed log puts it. */
  lemma DeliverApplies(g: Log, kv: Kv, chan: seq<KvMsg>, c: int, filled: bool)
    requires Commands(g) && 0 <= kv.lastApplied <= |g| && kv.machine == Fold(g, kv.lastApplied)
    requires chan != [] && Feeds(g, kv.lastApplied, chan, c)
    ensures IsNews(kv, chan[0]) ==> chan[0].command.Some?
    ensures var kv' := Apply(kv, Read(chan[0], filled));
            && kv.lastApplied <= kv'.lastApplied == Max(kv.lastApplied, IndexOf(chan[0])) <= |g|
            && kv'.machine == Fold(g, kv'.lastApplied)
            && Feeds(g, kv'.lastApplied, chan[1..], c)
  {
    var a := kv.lastApplied;
    match chan[0]
    case CommandMsg(command, _, k) =>
      if k > a {
        FoldSkipsQuiet(g, a, k - 1);
        ExecReadsCore(kv.machine, Copy(command.value, filled), g[k - 1].command.value);
      }
    case SnapshotMsg(_, k, _, _) =>
      if k > a {
        MergeInstalls(g, a, k);
      }
  }

  /** Closing a context is for an entry that is now applied. */
  lemma WakesApplied(g: Log, kv: Kv, chan: seq<KvMsg>, c: int, filled: bool, waiting: Contexts)
    requires Commands(g) && 0 <= kv.lastApplied <= |g| && chan != [] && Feeds(g, kv.lastApplied, chan, c)
    requires ClosedApplied(g, kv.lastApplied, waiting)
    ensures IsNews(kv, chan[0]) ==> chan[0].command.Some?
    ensures ClosedApplied(g, Max(kv.lastApplied, IndexOf(chan[0])), Woken(kv, Read(chan[0], filled), waiting))
  {
    var after, woken := Max(kv.lastApplied, IndexOf(chan[0])), Woken(kv, Read(chan[0], filled), waiting);
    forall c | c in woken && woken[c].closed
      ensures HasCmdIndex(g, after, c)
    {
      if IsNews(kv, chan[0]) && c == chan[0].cmdIndex {
        assert g[chan[0].logIndex - 1].cmdIndex == c;
      } else {
        assert HasCmdIndex(g, kv.lastApplied, c);
      }
    }
  }

  // ----- Each step keeps the invariant

  /** What a step that is not a crash does to the peer's snapshot, its cursor and the channel. */
  lemma AppendFeeds(g: Log, c: Cluster<Op, Machine>, a: KvAction, kv: Kv, chan: seq<KvMsg>, captured: Option<Captured>, waiting: Contexts)
    requires Good(c) && Enabled(c, a) && a.RecvAppend? && Agreed(g, c, a)
    requires GoodServer(g, c.peers[a.i], kv, chan, captured, waiting)
    ensures GoodServer(g, Step(c, a), kv, chan + Out(c, a), captured, waiting)
  {
    var s, s', out := c.peers[a.i], Step(c, a), Out(c, a);
    AppendForm(s, a.append);
    FeedsEmit(g, kv.lastApplied, chan, s'.p, s.commitIndex, s'.commitIndex);
  }

  /** The state s' has committed up to its cursor, from that of s, and sent what that is. */
  ghost predicate Commits(s: KvPeer, s': KvPeer, out: seq<KvMsg>) {
    && s'.snapshot == s.snapshot && s'.p.snapIndex == s.p.snapIndex && Shape(s'.p)
    && s.commitIndex <= s'.commitIndex
    && (s.commitIndex < s'.commitIndex ==> Held(s'.p, s.commitIndex + 1) && Held(s'.p, s'.commitIndex))
    && out == Emit(s'.p, s.commitIndex + 1, s'.commitIndex)
  }

  lemma CommitForm(s: KvPeer, leaderCommit: int)
    requires Shape(s.p) && CommitSafe(s, leaderCommit)
    ensures Commits(s, CommitUpTo(s, leaderCommit).0, CommitUpTo(s, leaderCommit).1)
  {
    LastIndex(s.p);
  }

  /** Whatever its branch, AppendEntries emits what it commits and leaves the snapshot alone. */
  lemma AppendForm(s: KvPeer, args: AppendArgs<Op>)
    requires GoodPeer(s) && Contiguous(args) && !SentinelConflict(s, args) && AppendSafe(s, args)
    ensures Commits(s, OnAppend(s, args).0, OnAppend(s, args).2)
  {
    hide CommitUpTo, Emit, FirstOfTerm;
    AppendKeepsShape(s, args);
    LastIndex(s.p);
    if args.leaderTerm >= s.p.currentTerm {
      var f := BecomeFollower(s, args.leaderTerm);
      if args.entries == [] {
        CommitForm(f, args.leaderCommit);
      } else if Accepts(s, args) {
        var logs := f.p.logs[..Pos(f.p, args.prevLogIndex) + 1] + args.entries;
        CommitForm(Persist(f.(p := f.p.(logs := logs))), args.leaderCommit);
      } else {
        NothingSent(s, OnAppend(s, args).0);
      }
    } else {
      NothingSent(s, s);
    }
  }

  lemma NothingSent(s: KvPeer, s': KvPeer)
    requires s'.snapshot == s.snapshot && s'.p.snapIndex == s.p.snapIndex && Shape(s'.p) && s.commitIndex == s'.commitIndex
    ensures Commits(s, s', [])
  {
  }

  lemma ReplyFeeds(g: Log, c: Cluster<Op, Machine>, a: KvAction, kv: Kv, chan: seq<KvMsg>, captured: Option<Captured>, waiting: Contexts)
    requires Good(c) && Enabled(c, a) && a.RecvAppendReply? && Agreed(g, c, a)
    requires GoodServer(g, c.peers[a.i], kv, chan, captured, waiting)
    ensures GoodServer(g, Step(c, a), kv, chan + Out(c, a), captured, waiting)
  {
    var s, s', out := c.peers[a.i], Step(c, a), Out(c, a);
    ReplyForm(s, a.me, a.peer, a.append, a.reply);
    FeedsEmit(g, kv.lastApplied, chan, s'.p, s.commitIndex, s'.commitIndex);
  }

  lemma ReplyForm(s: KvPeer, me: nat, peer: nat, args: AppendArgs<Op>, reply: AppendReply)
    requires GoodPeer(s) && ReplyExpected(s, me, peer, args, reply)
    ensures var (s', out) := OnAppendReply(s, me, peer, args, reply);
            Commits(s, s', out)
  {
    LastIndex(s.p);
    if reply.success && args.entries != [] && s.p.currentTerm == args.leaderTerm {
      var acked := args.entries[|args.entries| - 1].index;
      CommitPointBounds(s.p, s.commitIndex, s.leader.value.matchIndex[peer := acked], me, acked);
    }
  }

  lemma InstallFeeds(g: Log, s: KvPeer, args: InstallArgs<Machine>, kv: Kv, chan: seq<KvMsg>, captured: Option<Captured>, waiting: Contexts)
    requires GoodPeer(s) && IsSnapshot(g, args.data, args.snapIndex)
    requires GoodServer(g, s, kv, chan, captured, waiting)
    ensures var (s', _, out) := OnInstall(s, args);
            GoodServer(g, s', kv, chan + out, captured, waiting)
  {
    var (s', _, out) := OnInstall(s, args);
    if out == [] {
      assert chan + out == chan;
    } else {
      FeedsSnapshot(g, kv.lastApplied, chan, s.commitIndex, out[0]);
      ReachSnoc(kv.lastApplied, chan, out[0]);
      assert out == [out[0]];
    }
  }

  lemma {:induction false} CrashFeeds(g: Log, s: KvPeer)
    requires Commands(g) && GoodPeer(s) && IsSnapshot(g, s.snapshot, s.p.snapIndex)
    ensures var (s', out) := Restart(s.stored, s.snapshot);
            GoodServer(g, s', Kv(EMPTY, 0), out, None, map[])
  {
    var (s', out) := Restart(s.stored, s.snapshot);
    assert out[1..] == [];
    assert Reach(0, out) == Max(0, s.p.snapIndex);
  }

  /** The other steps of Raft touch neither the snapshot nor the cursor. */
  lemma OtherFeeds(c: Cluster<Op, Machine>, a: KvAction)
    requires Good(c) && Enabled(c, a)
    requires !a.RecvAppend? && !a.RecvAppendReply? && !a.RecvInstall? && !a.Crash? && !a.Snapshot?
    ensures var s, s' := c.peers[a.i], Step(c, a);
            s'.snapshot == s.snapshot && s'.p.snapIndex == s.p.snapIndex && s'.commitIndex == s.commitIndex && Out(c, a) == []
  {
  }

  lemma RaftStepKeepsServer(g: Log, sys: System, a: KvAction)
    requires GoodSystem(g, sys) && CanStep(g, sys, RaftStep(a)) && !a.Crash?
    ensures GoodServer(g, Step(sys.cluster, a), sys.kvs[a.i], sys.chans[a.i] + Out(sys.cluster, a), sys.captured[a.i], sys.waiting[a.i])
  {
    var c, i := sys.cluster, a.i;
    assert ServerIsGood(g, sys, i);
    if a.RecvAppend? {
      AppendFeeds(g, c, a, sys.kvs[i], sys.chans[i], sys.captured[i], sys.waiting[i]);
    } else if a.RecvAppendReply? {
      ReplyFeeds(g, c, a, sys.kvs[i], sys.chans[i], sys.captured[i], sys.waiting[i]);
    } else if a.RecvInstall? {
      InstallFeeds(g, c.peers[i], a.install, sys.kvs[i], sys.chans[i], sys.captured[i], sys.waiting[i]);
    } else {
      OtherFeeds(c, a);
      assert sys.chans[i] + [] == sys.chans[i];
    }
  }

  lemma RaftStepKeeps(g: Log, sys: System, a: KvAction)
    requires GoodSystem(g, sys) && CanStep(g, sys, RaftStep(a))
    ensures GoodSystem(g, SysNext(g, sys, RaftStep(a)))
  {
    hide GoodServer, GoodPeer, Step, Out, Agreed, Enabled, Contiguous, IsSnapshot;
    NextKeepsGood(sys.cluster, a);
    NextShape(sys.cluster, a);
    if a.Crash? {
      ServerSnapshot(g, sys, a.i);
      PeerIsGood(sys.cluster, a.i);
      CrashFeeds(g, sys.cluster.peers[a.i]);
      CrashStep(sys.cluster, a);
    } else {
      RaftStepKeepsServer(g, sys, a);
    }
    if a.SendInstall? {
      ServerSnapshot(g, sys, a.i);
    }
    var sys' := SysNext(g, sys, RaftStep(a));
    forall i | 0 <= i < |sys'.kvs|
      ensures ServerIsGood(g, sys', i)
    {
      assert ServerIsGood(g, sys, i);
    }
  }

  lemma PeerIsGood(c: Cluster<Op, Machine>, i: nat)
    requires Good(c) && i < |c.peers|
    ensures GoodPeer(c.peers[i])
  {
  }

  lemma CrashStep(c: Cluster<Op, Machine>, a: KvAction)
    requires Good(c) && Enabled(c, a) && a.Crash?
    ensures (Step(c, a), Out(c, a)) == Restart(c.peers[a.i].stored, c.peers[a.i].snapshot)
  {
  }

  lemma ServerSnapshot(g: Log, sys: System, i: nat)
    requires GoodSystem(g, sys) && i < |sys.kvs|
    ensures IsSnapshot(g, sys.cluster.peers[i].snapshot, sys.cluster.peers[i].p.snapIndex)
    ensures Commands(g)
  {
    assert ServerIsGood(g, sys, i);
  }

  /** A Raft step changes one peer, and adds at most one message that carries that peer's own snapshot. */
  lemma NextShape(c: Cluster<Op, Machine>, a: KvAction)
    requires Good(c) && Enabled(c, a)
    ensures a.i < |c.peers|
    ensures Next(c, a).peers == c.peers[a.i := Step(c, a)]
    ensures Next(c, a).installs == c.installs + if a.SendInstall? then [NextInstall(c.peers[a.i], a.me)] else []
  {
  }

  lemma {:induction false} HandOverKeeps(g: Log, sys: System, i: nat)
    requires GoodSystem(g, sys) && CanStep(g, sys, HandOver(i))
    ensures GoodSystem(g, SysNext(g, sys, HandOver(i)))
  {
    hide GoodPeer, Agreed, Enabled, Contiguous, Feeds, Reach, ClosedApplied;
    var snap := sys.captured[i].value;
    var a: KvAction := Snapshot(i, snap.machine, snap.index);
    NextKeepsGood(sys.cluster, a);
    NextShape(sys.cluster, a);
    SnapshotStep(sys.cluster, a);
    var sys' := SysNext(g, sys, HandOver(i));
    forall j | 0 <= j < |sys'.kvs|
      ensures ServerIsGood(g, sys', j)
    {
      assert ServerIsGood(g, sys, j);
      ReachGrows(sys.kvs[j].lastApplied, sys.chans[j]);
    }
  }

  lemma {:induction false} ReachGrows(a: int, chan: seq<KvMsg>)
    ensures a <= Reach(a, chan)
    decreases |chan|
  {
    if chan != [] {
      ReachGrows(Max(a, IndexOf(chan[0])), chan[1..]);
    }
  }

  lemma SnapshotStep(c: Cluster<Op, Machine>, a: KvAction)
    requires Good(c) && Enabled(c, a) && a.Snapshot?
    ensures var s, s' := c.peers[a.i], Step(c, a);
            && s'.commitIndex == s.commitIndex
            && if a.index <= s.p.snapIndex then s'.snapshot == s.snapshot && s'.p.snapIndex == s.p.snapIndex
               else s'.snapshot == Some(a.data) && s'.p.snapIndex == a.index
  {
  }

  lemma DeliverKeeps(g: Log, sys: System, i: nat, filled: bool)
    requires GoodSystem(g, sys) && CanStep(g, sys, Deliver(i, filled))
    ensures GoodSystem(g, SysNext(g, sys, Deliver(i, filled)))
  {
    hide Good, Feeds, ClosedApplied;
    var kv, chan, c := sys.kvs[i], sys.chans[i], sys.cluster.peers[i].commitIndex;
    assert ServerIsGood(g, sys, i);
    DeliverApplies(g, kv, chan, c, filled);
    WakesApplied(g, kv, chan, c, filled, sys.waiting[i]);
    var sys' := SysNext(g, sys, Deliver(i, filled));
    forall j | 0 <= j < |sys'.kvs|
      ensures ServerIsGood(g, sys', j)
    {
      assert ServerIsGood(g, sys, j);
    }
  }

  lemma CaptureKeeps(g: Log, sys: System, i: nat)
    requires GoodSystem(g, sys) && CanStep(g, sys, Capture(i))
    ensures GoodSystem(g, SysNext(g, sys, Capture(i)))
  {
    hide Good, Feeds;
    var sys' := SysNext(g, sys, Capture(i));
    forall j | 0 <= j < |sys'.kvs|
      ensures ServerIsGood(g, sys', j)
    {
      assert ServerIsGood(g, sys, j);
    }
  }

  lemma ContextsKeep(g: Log, sys: System, a: SysAction)
    requires GoodSystem(g, sys) && CanStep(g, sys, a) && (a.Register? || a.Unregister?)
    ensures GoodSystem(g, SysNext(g, sys, a))
  {
    hide Good, Feeds;
    var sys' := SysNext(g, sys, a);
    forall j | 0 <= j < |sys'.kvs|
      ensures ServerIsGood(g, sys', j)
    {
      assert ServerIsGood(g, sys, j);
    }
  }

  lemma StepKeeps(g: Log, sys: System, a: SysAction)
    requires GoodSystem(g, sys) && CanStep(g, sys, a)
    ensures GoodSystem(g, SysNext(g, sys, a))
  {
    hide GoodSystem, CanStep, SysNext;
    match a
    case RaftStep(action) => RaftStepKeeps(g, sys, action);
    case Deliver(i, filled) => DeliverKeeps(g, sys, i, filled);
    case Capture(i) => CaptureKeeps(g, sys, i);
    case HandOver(i) => HandOverKeeps(g, sys, i);
    case Register(_, _) => ContextsKeep(g, sys, a);
    case Unregister(_, _) => ContextsKeep(g, sys, a);
  }

  // ----- Every run

  /** All servers have just been started for the first time. */
  ghost predicate SysInit(sys: System) {
    && Init(sys.cluster) && Sized(sys)
    && forall i :: 0 <= i < |sys.kvs| ==>
         && sys.kvs[i] == Kv(EMPTY, 0) && sys.chans[i] == Restart<Op, Machine>(None, None).1
         && sys.captured[i] == None && sys.started[i] == {} && sys.waiting[i] == map[]
  }

  lemma InitIsGoodSystem(g: Log, sys: System)
    requires Commands(g) && SysInit(sys)
    ensures GoodSystem(g, sys)
  {
    InitIsGood(sys.cluster);
    forall i | 0 <= i < |sys.kvs|
      ensures ServerIsGood(g, sys, i)
    {
      assert sys.chans[i][1..] == [];
    }
  }

  /** The steps are defined in good states; from any other state, should there be one, anything may follow. */
  ghost predicate SysFollows(g: Log, sys: System, a: SysAction, sys': System) {
    GoodSystem(g, sys) ==> CanStep(g, sys, a) && sys' == SysNext(g, sys, a)
  }

  ghost predicate SysRun(g: Log, states: seq<System>, actions: seq<SysAction>) {
    && |states| == |actions| + 1 && SysInit(states[0])
    && forall n :: 0 <= n < |actions| ==> SysFollows(g, states[n], actions[n], states[n + 1])
  }

  lemma {:induction false} ReachableIsGoodSystem(g: Log, states: seq<System>, actions: seq<SysAction>, n: nat)
    requires Commands(g) && SysRun(g, states, actions) && n < |states|
    ensures GoodSystem(g, states[n])
  {
    if n == 0 {
      InitIsGoodSystem(g, states[0]);
    } else {
      ReachableIsGoodSystem(g, states, actions, n - 1);
      assert SysFollows(g, states[n - 1], actions[n - 1], states[n]);
      hide GoodSystem, CanStep, SysNext;
      StepKeeps(g, states[n - 1], actions[n - 1]);
    }
  }

  /**
   After every run, every server's store and table are what the committed log up to its
   lastAppliedIndex gives, what is still to be delivered skips nothing up to its
   peer's cursor, and the stored snapshot is the state at exactly the stored index.
   */
  lemma {:induction false} ReplicasFollowLog(g: Log, states: seq<System>, actions: seq<SysAction>, n: nat, i: nat)
    requires Commands(g) && SysRun(g, states, actions) && n < |states| && i < |states[n].kvs|
    ensures |states[n].chans| == |states[n].cluster.peers| == |states[n].kvs|
    ensures var s, kv := states[n].cluster.peers[i], states[n].kvs[i];
            && 0 <= kv.lastApplied <= |g| && kv.machine == Fold(g, kv.lastApplied)
            && Feeds(g, kv.lastApplied, states[n].chans[i], s.commitIndex)
            && Restore(s.stored).snapIndex == s.p.snapIndex && IsSnapshot(g, s.snapshot, s.p.snapIndex)
  {
    ReachableIsGoodSystem(g, states, actions, n);
    var sys := states[n];
    assert ServerIsGood(g, sys, i);
    assert GoodPeer(sys.cluster.peers[i]);
  }

  /** Two servers that have applied the log up to the same index, each at its own time, hold the same state. */
  lemma ReplicasAgree(g: Log, states: seq<System>, actions: seq<SysAction>, n: nat, i: nat, m: nat, j: nat)
    requires Commands(g) && SysRun(g, states, actions)
    requires n < |states| && i < |states[n].kvs| && m < |states| && j < |states[m].kvs|
    requires states[n].kvs[i].lastApplied == states[m].kvs[j].lastApplied
    ensures states[n].kvs[i] == states[m].kvs[j]
  {
    ReplicasFollowLog(g, states, actions, n, i);
    ReplicasFollowLog(g, states, actions, m, j);
  }

  /**
   Where every write is told from repeats, every replica in every run, whatever it has
   replayed, installed or lost, holds the log without repeated writes, applied plainly.
   */
  lemma {:induction false} ReplicasApplyOnce(g: Log, states: seq<System>, actions: seq<SysAction>, n: nat, i: nat)
    requires Commands(g) && SysRun(g, states, actions) && n < |states| && i < |states[n].kvs|
    ensures var kv := states[n].kvs[i];
            && 0 <= kv.lastApplied <= |g|
            && (WritesTold(g, kv.lastApplied) ==> kv.machine.store == Plain(Unrepeated(g, kv.lastApplied)))
  {
    ReplicasFollowLog(g, states, actions, n, i);
    var applied := states[n].kvs[i].lastApplied;
    if WritesTold(g, applied) {
      ExactlyOnce(g, applied);
    }
  }

  /** Command indexes rise along the first n entries of the log. */
  ghost predicate Rising(g: Log, n: int) {
    forall i, j :: 0 <= i < j < n && j < |g| && !g[i].internal && !g[j].internal ==> g[i].cmdIndex < g[j].cmdIndex
  }

  /** Then no context is closed twice by an entry up to there, which would make the source panic. */
  lemma NoDoubleClose(g: Log, states: seq<System>, actions: seq<SysAction>, n: nat, i: nat)
    requires Commands(g) && SysRun(g, states, actions) && n < |states|
    requires i < |states[n].kvs| == |states[n].chans| == |states[n].waiting| && states[n].chans[i] != []
    requires Rising(g, IndexOf(states[n].chans[i][0]))
    ensures var kv, msg, waiting := states[n].kvs[i], states[n].chans[i][0], states[n].waiting[i];
            IsNews(kv, msg) && msg.cmdIndex in waiting ==> !waiting[msg.cmdIndex].closed
  {
    ReachableIsGoodSystem(g, states, actions, n);
    var sys := states[n];
    assert ServerIsGood(g, sys, i);
    var kv, msg, waiting := sys.kvs[i], sys.chans[i][0], sys.waiting[i];
    if IsNews(kv, msg) {
      assert !HasCmdIndex(g, kv.lastApplied, msg.cmdIndex);
    }
  }
}
