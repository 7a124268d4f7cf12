/**
 What each handler of a Raft peer does to its state (raft/raft.go), as functions
 on values. Every function is one critical section of the source: what happens
 between taking rf.mu and releasing it. Class RaftServer.Raft is proved to do the
 same in place.
 */
module RaftNode {
  import opened Options

  datatype LogEntry<C> = LogEntry(term: int, index: int, command: Option<C>, cmdIndex: int, internal: bool)

  /** The fields that persist() saves. snapIndex, snapTerm and snapCmdIndex are the source's lastIncluded fields. */
  datatype Persistent<C> = Persistent(
    currentTerm: int, votedFor: int, logs: seq<LogEntry<C>>, snapIndex: int, snapTerm: int, snapCmdIndex: int)

  datatype Role = Follower | Candidate | Leading

  datatype Leader = Leader(nextIndex: seq<int>, matchIndex: seq<int>)

  /** A peer, with what its persister holds: the saved fields and the snapshot (nothing before the first save). */
  datatype Peer<C, D> = Peer(
    p: Persistent<C>, commitIndex: int, lastApplied: int, role: Role, leader: Option<Leader>,
    stored: Option<Persistent<C>>, snapshot: Option<D>)

  datatype ApplyMsg<C, D> =
    | CommandMsg(command: Option<C>, cmdIndex: int, logIndex: int)
    | SnapshotMsg(data: Option<D>, snapIndex: int, snapTerm: int, snapCmdIndex: int)

  datatype AppendArgs<C> = AppendArgs(
    leaderTerm: int, leaderId: int, prevLogIndex: int, prevLogTerm: int, entries: seq<LogEntry<C>>, leaderCommit: int)

  datatype AppendReply = AppendReply(followerTerm: int, success: bool, xterm: int, xindex: int, xlen: int)

  datatype InstallArgs<D> = InstallArgs(
    term: int, leaderId: int, snapIndex: int, snapTerm: int, snapCmdIndex: int, data: Option<D>)

  // ----- The log

  /** Position 0 is the sentinel for the last entry of the snapshot; position k holds index snapIndex + k. */
  ghost predicate Shape<C>(p: Persistent<C>) {
    && |p.logs| > 0
    && forall k {:trigger p.logs[k]} :: 0 <= k < |p.logs| ==> p.logs[k].index == p.snapIndex + k
  }

  function Last<C>(p: Persistent<C>): LogEntry<C>
    requires |p.logs| > 0
  {
    p.logs[|p.logs| - 1]
  }

  /** logIndex2LogPos */
  function Pos<C>(p: Persistent<C>, index: int): int {
    index - p.snapIndex
  }

  predicate Held<C>(p: Persistent<C>, index: int) {
    0 <= Pos(p, index) < |p.logs|
  }

  function At<C>(p: Persistent<C>, index: int): LogEntry<C>
    requires Held(p, index)
  {
    p.logs[Pos(p, index)]
  }

  lemma LastIndex<C>(p: Persistent<C>)
    requires Shape(p)
    ensures |p.logs| > 0
    ensures Last(p).index == p.snapIndex + |p.logs| - 1
    ensures forall i :: Held(p, i) <==> p.snapIndex <= i <= Last(p).index
    ensures forall i :: Held(p, i) ==> At(p, i).index == i
  {
  }

  function Sentinel<C>(term: int, index: int, cmdIndex: int): LogEntry<C> {
    LogEntry(term, index, None, cmdIndex, true)
  }

  /** The messages for the entries from index lo to index hi that are not internal, in order. */
  function Emit<C, D>(p: Persistent<C>, lo: int, hi: int): seq<ApplyMsg<C, D>>
    requires forall i :: lo <= i <= hi ==> Held(p, i)
    decreases hi - lo
  {
    if hi < lo then [] else
    var e := At(p, hi);
    Emit(p, lo, hi - 1) + if e.internal then [] else [CommandMsg(e.command, e.cmdIndex, e.index)]
  }

  // ----- Terms and roles

  function Persist<C, D>(s: Peer<C, D>): Peer<C, D> {
    s.(stored := Some(s.p))
  }

  function BecomeFollower<C, D>(s: Peer<C, D>, term: int): Peer<C, D> {
    Persist(s.(p := s.p.(currentTerm := term, votedFor := -1), leader := None, role := Follower))
  }

  function StartElection<C, D>(s: Peer<C, D>, me: int): Peer<C, D> {
    if s.role == Leading then s
    else Persist(s.(p := s.p.(currentTerm := s.p.currentTerm + 1, votedFor := me), role := Candidate))
  }

  /** The first critical section of RequestVote. */
  function SeeCandidate<C, D>(s: Peer<C, D>, candidateTerm: int): Peer<C, D> {
    if candidateTerm > s.p.currentTerm then BecomeFollower(s, candidateTerm) else s
  }

  /** A candidate whose log ends before this one's gets no vote. */
  predicate Behind<C>(p: Persistent<C>, lastLogTerm: int, lastLogIndex: int)
    requires |p.logs| > 0
  {
    lastLogTerm < Last(p).term || (lastLogTerm == Last(p).term && lastLogIndex < Last(p).index)
  }

  /** The second critical section of RequestVote, when the checks in between have passed. */
  function GrantVote<C, D>(s: Peer<C, D>, candidate: int): Peer<C, D> {
    if s.p.votedFor == -1 || s.p.votedFor == candidate
    then Persist(s.(p := s.p.(votedFor := candidate)))
    else s
  }

  function BecomeLeader<C, D>(s: Peer<C, D>, peers: nat): Peer<C, D>
    requires |s.p.logs| > 0
  {
    var last := Last(s.p);
    var noop := LogEntry(s.p.currentTerm, last.index + 1, None, last.cmdIndex, true);
    Persist(s.(p := s.p.(logs := s.p.logs + [noop]), role := Leading,
               leader := Some(Leader(Fill(peers, last.index + 1), Fill(peers, 0)))))
  }

  function Fill(n: nat, x: int): (s: seq<int>)
    ensures |s| == n && forall i :: 0 <= i < n ==> s[i] == x
  {
    seq(n, i => x)
  }

  /** Start: the new state, and the index, the term and whether this peer leads. */
  function StartCommand<C, D>(s: Peer<C, D>, command: C): (Peer<C, D>, int, int, bool)
    requires |s.p.logs| > 0
  {
    if s.role != Leading then (s, -1, -1, false) else
    var last := Last(s.p);
    var entry := LogEntry(s.p.currentTerm, last.index + 1, Some(command), last.cmdIndex + 1, false);
    (Persist(s.(p := s.p.(logs := s.p.logs + [entry]))), last.cmdIndex + 1, s.p.currentTerm, true)
  }

  // ----- AppendEntries at the follower

  /** The index of the first entry of the term at position `pos`, not counting the sentinel; 0 when there is none. */
  function FirstOfTerm<C>(logs: seq<LogEntry<C>>, pos: nat, i: nat): int
    requires pos < |logs| && 1 <= i <= pos + 1
    decreases pos + 1 - i
  {
    if i == pos + 1 then 0
    else if logs[i].term == logs[pos].term then logs[i].index
    else FirstOfTerm(logs, pos, i + 1)
  }

  /** The commit loop does not start inside the snapshot. Otherwise its first read is before the log, and the source panics. */
  predicate CommitSafe<C, D>(s: Peer<C, D>, leaderCommit: int) {
    leaderCommit > s.commitIndex ==> s.p.snapIndex <= s.commitIndex + 1
  }

  /** commitIndex moves up to what the leader has committed and this log holds; the entries passed are emitted. */
  function CommitUpTo<C, D>(s: Peer<C, D>, leaderCommit: int): (Peer<C, D>, seq<ApplyMsg<C, D>>)
    requires Shape(s.p) && CommitSafe(s, leaderCommit)
  {
    LastIndex(s.p);
    var top := if leaderCommit < Last(s.p).index then leaderCommit else Last(s.p).index;
    if leaderCommit > s.commitIndex && top > s.commitIndex
    then (s.(commitIndex := top, lastApplied := top), Emit(s.p, s.commitIndex + 1, top))
    else (s, [])
  }

  /** The leader's term is current, its entries follow one this log holds, and the terms of that entry differ. */
  predicate Conflict<C, D>(s: Peer<C, D>, args: AppendArgs<C>) {
    && args.leaderTerm >= s.p.currentTerm
    && args.entries != []
    && Held(s.p, args.prevLogIndex)
    && At(s.p, args.prevLogIndex).term != args.prevLogTerm
  }

  /** The conflict is at the sentinel, so the source cuts its log down to nothing. */
  predicate SentinelConflict<C, D>(s: Peer<C, D>, args: AppendArgs<C>) {
    Conflict(s, args) && args.prevLogIndex == s.p.snapIndex
  }

  /** The message gets as far as the commit loop. */
  predicate Accepts<C, D>(s: Peer<C, D>, args: AppendArgs<C>) {
    && args.leaderTerm >= s.p.currentTerm
    && (args.entries == [] || (Held(s.p, args.prevLogIndex) && At(s.p, args.prevLogIndex).term == args.prevLogTerm))
  }

  predicate AppendSafe<C, D>(s: Peer<C, D>, args: AppendArgs<C>) {
    Accepts(s, args) ==> CommitSafe(s, args.leaderCommit)
  }

  function OnAppend<C, D>(s: Peer<C, D>, args: AppendArgs<C>): (Peer<C, D>, AppendReply, seq<ApplyMsg<C, D>>)
    requires Shape(s.p) && Contiguous(args) && AppendSafe(s, args)
  {
    if args.leaderTerm < s.p.currentTerm then (s, AppendReply(s.p.currentTerm, false, 0, 0, 0), []) else
    var f := BecomeFollower(s, args.leaderTerm);
    if args.entries == [] then
      var (s', out) := CommitUpTo(f, args.leaderCommit);
      (s', AppendReply(args.leaderTerm, true, 0, 0, 0), out)
    else if args.prevLogIndex < f.p.snapIndex then
      (f, AppendReply(args.leaderTerm, false, -1, 0, 0), [])
    else if Last(f.p).index < args.prevLogIndex then
      (f, AppendReply(args.leaderTerm, false, -1, 0, Last(f.p).index), [])
    else
      LastIndex(f.p);
      var pos := Pos(f.p, args.prevLogIndex);
      if f.p.logs[pos].term != args.prevLogTerm then
        (Persist(f.(p := f.p.(logs := f.p.logs[..pos]))),
         AppendReply(args.leaderTerm, false, f.p.logs[pos].term, FirstOfTerm(f.p.logs, pos, 1), 0), [])
      else
        var g := Persist(f.(p := f.p.(logs := f.p.logs[..pos + 1] + args.entries)));
        var (s', out) := CommitUpTo(g, args.leaderCommit);
        (s', AppendReply(args.leaderTerm, true, 0, 0, 0), out)
  }

  /** The entries of a message follow one another, and the entry before them. */
  ghost predicate Contiguous<C>(args: AppendArgs<C>) {
    forall k {:trigger args.entries[k]} :: 0 <= k < |args.entries| ==> args.entries[k].index == args.prevLogIndex + 1 + k
  }

  // ----- Snapshots

  /** installSnapshotToApplication */
  function ToApplication<C, D>(s: Peer<C, D>): (Peer<C, D>, seq<ApplyMsg<C, D>>) {
    (s.(lastApplied := s.p.snapIndex, commitIndex := s.p.snapIndex),
     [SnapshotMsg(s.snapshot, s.p.snapIndex, s.p.snapTerm, s.p.snapCmdIndex)])
  }

  /** TakeSnapshot: the application has saved its state as of `index`, and the log up to there goes. */
  function TakeSnapshot<C, D>(s: Peer<C, D>, data: D, index: int): Peer<C, D>
    requires index > s.p.snapIndex ==> Held(s.p, index)
  {
    if index <= s.p.snapIndex then s else
    var e := At(s.p, index);
    var kept := [e.(command := None)] + s.p.logs[Pos(s.p, index) + 1..];
    Persist(s.(p := s.p.(logs := kept, snapIndex := index, snapTerm := e.term, snapCmdIndex := e.cmdIndex),
               snapshot := Some(data)))
  }

  /** The log that InstallSnapshot leaves: what follows the snapshot, if it is known to follow it. */
  function LogAfterInstall<C, D>(p: Persistent<C>, args: InstallArgs<D>): seq<LogEntry<C>>
    requires |p.logs| > 0
  {
    if args.snapIndex < Last(p).index && Held(p, args.snapIndex) && At(p, args.snapIndex).term == args.snapTerm
    then [At(p, args.snapIndex).(command := None, internal := true)] + p.logs[Pos(p, args.snapIndex) + 1..]
    else [Sentinel(args.snapTerm, args.snapIndex, args.snapCmdIndex)]
  }

  function OnInstall<C, D>(s: Peer<C, D>, args: InstallArgs<D>): (Peer<C, D>, int, seq<ApplyMsg<C, D>>)
    requires |s.p.logs| > 0
  {
    if args.term < s.p.currentTerm then (s, s.p.currentTerm, []) else
    var f := if args.term > s.p.currentTerm then BecomeFollower(s, args.term) else s;
    if args.snapIndex <= f.p.snapIndex then (f, s.p.currentTerm, []) else
    var p := f.p.(logs := LogAfterInstall(f.p, args),
                  snapIndex := args.snapIndex, snapTerm := args.snapTerm, snapCmdIndex := args.snapCmdIndex);
    var (s', out) := ToApplication(Persist(f.(p := p, snapshot := args.data)));
    (s', s.p.currentTerm, out)
  }

  /** Make, after a crash or for the first time: the peer that comes up from what its persister holds. */
  function Restart<C, D>(stored: Option<Persistent<C>>, snapshot: Option<D>): (Peer<C, D>, seq<ApplyMsg<C, D>>) {
    ToApplication(Peer(Restore(stored), 0, 0, Follower, None, stored, snapshot))
  }

  function Restore<C>(stored: Option<Persistent<C>>): Persistent<C> {
    var p := if stored.Some? then stored.value else Persistent(0, -1, [], 0, 0, 0);
    if p.logs == [] then p.(logs := [Sentinel(p.snapTerm, p.snapIndex, p.snapCmdIndex)]) else p
  }

  // ----- The leader's side of AppendEntries

  /** The next message to a peer; None when the entries it needs are no longer in the log. */
  function NextAppend<C, D>(s: Peer<C, D>, me: int, peer: nat): Option<AppendArgs<C>>
    requires Shape(s.p) && s.leader.Some? && peer < |s.leader.value.nextIndex|
  {
    var next := s.leader.value.nextIndex[peer];
    if Last(s.p).index < next then Some(AppendArgs(s.p.currentTerm, me, -1, -1, [], s.commitIndex))
    else if next <= s.p.snapIndex then None
    else
      var pos := Pos(s.p, next);
      Some(AppendArgs(s.p.currentTerm, me, s.p.logs[pos - 1].index, s.p.logs[pos - 1].term, s.p.logs[pos..], s.commitIndex))
  }

  function NextInstall<C, D>(s: Peer<C, D>, me: int): InstallArgs<D> {
    InstallArgs(s.p.currentTerm, me, s.p.snapIndex, s.p.snapTerm, s.p.snapCmdIndex, s.snapshot)
  }

  /** Where to go on after a conflict: scanning down from the end of the leader's log. */
  function BackUp<C>(logs: seq<LogEntry<C>>, reply: AppendReply, i: int, stay: int): int
    requires -1 <= i < |logs|
    decreases i
  {
    if i < 0 then stay
    else if logs[i].term == reply.xterm then logs[i].index + 1
    else if logs[i].term < reply.xterm then reply.xindex
    else BackUp(logs, reply, i - 1, stay)
  }

  function NextAfterReject<C>(p: Persistent<C>, reply: AppendReply, next: int): int {
    if reply.xterm != -1 then BackUp(p.logs, reply, |p.logs| - 1, next) else reply.xlen + 1
  }

  /** Servers that hold the entry at index i, as far as the leader knows. */
  function Holders(matchIndex: seq<int>, me: nat, i: int): set<nat> {
    set j: nat | j < |matchIndex| && (j == me || matchIndex[j] >= i)
  }

  predicate Quorum(holders: set<nat>, peers: nat) {
    |holders| >= (peers + 1) / 2
  }

  /** The commit loop reads only entries of the log. If not, the source panics. */
  predicate ScanSafe<C>(p: Persistent<C>, commitIndex: int, matchIndex: seq<int>, me: nat, i: int)
    decreases i - commitIndex
  {
    i > commitIndex ==>
      && Held(p, i)
      && (At(p, i).term == p.currentTerm ==>
            if Quorum(Holders(matchIndex, me, i), |matchIndex|) then p.snapIndex <= commitIndex + 1
            else ScanSafe(p, commitIndex, matchIndex, me, i - 1))
  }

  /** The commit loop: down from i, while the entries are of the current term, to one that enough servers hold. */
  function CommitPoint<C>(p: Persistent<C>, commitIndex: int, matchIndex: seq<int>, me: nat, i: int): int
    requires ScanSafe(p, commitIndex, matchIndex, me, i)
    decreases i - commitIndex
  {
    if i <= commitIndex || At(p, i).term != p.currentTerm then commitIndex
    else if Quorum(Holders(matchIndex, me, i), |matchIndex|) then i
    else CommitPoint(p, commitIndex, matchIndex, me, i - 1)
  }

  /** The reply makes the peer use its leader state: it is of this term, and does not make it step down. */
  predicate Concerns<C, D>(s: Peer<C, D>, args: AppendArgs<C>, reply: AppendReply) {
    s.p.currentTerm == args.leaderTerm && (reply.success || args.leaderTerm >= reply.followerTerm)
  }

  /** The source handles the reply to `args` without following a nil pointer or reading outside its log. */
  ghost predicate ReplyExpected<C, D>(s: Peer<C, D>, me: nat, peer: nat, args: AppendArgs<C>, reply: AppendReply) {
    Concerns(s, args, reply) ==>
      && s.leader.Some?
      && |s.leader.value.nextIndex| == |s.leader.value.matchIndex|
      && me < |s.leader.value.nextIndex| && peer < |s.leader.value.nextIndex| && peer != me
      && (reply.success && args.entries != [] ==>
            var acked := args.entries[|args.entries| - 1].index;
            ScanSafe(s.p, s.commitIndex, s.leader.value.matchIndex[peer := acked], me, acked))
  }

  function OnAppendReply<C, D>(s: Peer<C, D>, me: nat, peer: nat, args: AppendArgs<C>, reply: AppendReply)
    : (Peer<C, D>, seq<ApplyMsg<C, D>>)
    requires Shape(s.p) && ReplyExpected(s, me, peer, args, reply)
  {
    if reply.success then
      if args.entries == [] || s.p.currentTerm != args.leaderTerm then (s, []) else
      var acked := args.entries[|args.entries| - 1].index;
      var leader := Leader(s.leader.value.nextIndex[peer := acked + 1], s.leader.value.matchIndex[peer := acked]);
      CommitPointBounds(s.p, s.commitIndex, leader.matchIndex, me, acked);
      LastIndex(s.p);
      var n := CommitPoint(s.p, s.commitIndex, leader.matchIndex, me, acked);
      (s.(leader := Some(leader), commitIndex := n, lastApplied := if n > s.commitIndex then n else s.lastApplied),
       Emit(s.p, s.commitIndex + 1, n))
    else if args.leaderTerm < reply.followerTerm then (BecomeFollower(s, reply.followerTerm), [])
    else if s.p.currentTerm != args.leaderTerm then (s, [])
    else
      var leader := s.leader.value;
      (s.(leader := Some(leader.(nextIndex := leader.nextIndex[peer := NextAfterReject(s.p, reply, leader.nextIndex[peer])]))), [])
  }

  /** The source handles the reply to InstallSnapshot without following a nil pointer. */
  predicate InstallReplyExpected<C, D>(s: Peer<C, D>, peer: nat, args: InstallArgs<D>, replyTerm: int) {
    s.p.currentTerm == args.term && replyTerm <= s.p.currentTerm ==>
      s.leader.Some? && peer < |s.leader.value.nextIndex| && peer < |s.leader.value.matchIndex|
  }

  function OnInstallReply<C, D>(s: Peer<C, D>, peer: nat, args: InstallArgs<D>, replyTerm: int): Peer<C, D>
    requires InstallReplyExpected(s, peer, args, replyTerm)
  {
    if s.p.currentTerm != args.term then s
    else if replyTerm > s.p.currentTerm then BecomeFollower(s, replyTerm)
    else s.(leader := Some(Leader(s.leader.value.nextIndex[peer := args.snapIndex + 1],
                                  s.leader.value.matchIndex[peer := args.snapIndex])))
  }

  lemma {:induction false} CommitPointBounds<C>(p: Persistent<C>, commitIndex: int, matchIndex: seq<int>, me: nat, i: int)
    requires ScanSafe(p, commitIndex, matchIndex, me, i)
    ensures var n := CommitPoint(p, commitIndex, matchIndex, me, i);
            && commitIndex <= n <= (if i > commitIndex then i else commitIndex)
            && (n > commitIndex ==> Held(p, n) && p.snapIndex <= commitIndex + 1)
    decreases i - commitIndex
  {
    if i > commitIndex && At(p, i).term == p.currentTerm && !Quorum(Holders(matchIndex, me, i), |matchIndex|) {
      CommitPointBounds(p, commitIndex, matchIndex, me, i - 1);
    }
  }
}
