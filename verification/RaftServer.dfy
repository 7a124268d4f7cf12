/**
 A Raft peer as the source writes it (raft/raft.go, raft/persister.go): an object
 whose methods change its fields. Each method is proved to take the object's value,
 `View()`, where the function of module RaftNode for that handler takes it.
 */
module RaftServer {
  import opened Options
  import opened RaftNode

  class Persister<C, D> {
    var raftstate: Option<Persistent<C>>
    var snapshot: Option<D>

    constructor ()
      ensures raftstate == None && snapshot == None
    {
      raftstate, snapshot := None, None;
    }

    method SaveRaftState(state: Persistent<C>)
      modifies this
      ensures raftstate == Some(state) && snapshot == old(snapshot)
    {
      raftstate := Some(state);
    }

    /** Both change together. */
    method SaveStateAndSnapshot(state: Persistent<C>, data: Option<D>)
      modifies this
      ensures raftstate == Some(state) && snapshot == data
    {
      raftstate := Some(state);
      snapshot := data;
    }

    method ReadRaftState() returns (state: Option<Persistent<C>>)
      ensures state == raftstate
    {
      state := raftstate;
    }

    method ReadSnapshot() returns (data: Option<D>)
      ensures data == snapshot
    {
      data := snapshot;
    }
  }

  class Raft<C, D> {
    const peers: nat
    const me: nat
    const persister: Persister<C, D>

    var currentTerm: int
    var votedFor: int
    var logs: seq<LogEntry<C>>
    var lastIncludedIndex: int
    var lastIncludedTerm: int
    var lastIncludedCmdIndex: int

    var commitIndex: int
    var lastApplied: int
    var role: Role
    var leader: Option<Leader>

    /** Everything sent to the application so far. */
    var applyChan: seq<ApplyMsg<C, D>>

    function Fields(): Persistent<C>
      reads this
    {
      Persistent(currentTerm, votedFor, logs, lastIncludedIndex, lastIncludedTerm, lastIncludedCmdIndex)
    }

    function View(): Peer<C, D>
      reads this, persister
    {
      Peer(Fields(), commitIndex, lastApplied, role, leader, persister.raftstate, persister.snapshot)
    }

    constructor Make(peers: nat, me: nat, persister: Persister<C, D>)
      ensures this.peers == peers && this.me == me && this.persister == persister
      ensures View() == Restart(old(persister.raftstate), old(persister.snapshot)).0
      ensures applyChan == Restart(old(persister.raftstate), old(persister.snapshot)).1
    {
      this.peers, this.me, this.persister := peers, me, persister;
      currentTerm, votedFor, logs := 0, -1, [];
      commitIndex, lastApplied, role, leader := 0, 0, Follower, None;
      lastIncludedIndex, lastIncludedTerm, lastIncludedCmdIndex := 0, 0, 0;
      applyChan := [];
      new;
      var data := persister.ReadRaftState();
      if data.Some? {
        ReadPersist(data.value);
      }
      if |logs| == 0 {
        logs := logs + [Sentinel(lastIncludedTerm, lastIncludedIndex, lastIncludedCmdIndex)];
      }
      assert Fields() == Restore(data);
      InstallSnapshotToApplication();
      assert applyChan == [] + Restart(data, persister.snapshot).1;
    }

    method ReadPersist(data: Persistent<C>)
      modifies this
      ensures Fields() == data
      ensures View() == old(View()).(p := data) && applyChan == old(applyChan)
    {
      currentTerm, votedFor, logs := data.currentTerm, data.votedFor, data.logs;
      lastIncludedIndex, lastIncludedTerm, lastIncludedCmdIndex := data.snapIndex, data.snapTerm, data.snapCmdIndex;
    }

    method PersistState()
      modifies persister
      ensures View() == Persist(old(View()))
    {
      persister.SaveRaftState(Fields());
    }

    method BecomeFollower(newTerm: int)
      modifies this, persister
      ensures View() == RaftNode.BecomeFollower(old(View()), newTerm) && applyChan == old(applyChan)
    {
      currentTerm, votedFor, leader := newTerm, -1, None;
      if role != Follower {
        role := Follower;
      }
      PersistState();
    }

    method BecomeLeader()
      requires |logs| > 0
      modifies this, persister
      ensures View() == RaftNode.BecomeLeader(old(View()), peers) && applyChan == old(applyChan)
    {
      role := Leading;
      var nextIndexs, matchIndexs := [], [];
      for i := 0 to peers
        invariant nextIndexs == Fill(i, logs[|logs| - 1].index + 1) && matchIndexs == Fill(i, 0)
      {
        nextIndexs, matchIndexs := nextIndexs + [logs[|logs| - 1].index + 1], matchIndexs + [0];
      }
      leader := Some(Leader(nextIndexs, matchIndexs));
      var last := logs[|logs| - 1];
      logs := logs + [LogEntry(currentTerm, last.index + 1, None, last.cmdIndex, true)];
      PersistState();
    }

    /** When the peer has been killed, the source answers before it looks at the role. */
    method Start(command: C, killed: bool) returns (index: int, term: int, isLeader: bool)
      requires |logs| > 0
      modifies this, persister
      ensures killed ==> View() == old(View()) && (index, term, isLeader) == (-1, -1, true)
      ensures !killed ==> (View(), index, term, isLeader) == StartCommand(old(View()), command)
      ensures applyChan == old(applyChan)
    {
      index, term, isLeader := -1, -1, true;
      if killed {
        return;
      }
      isLeader := role == Leading;
      if !isLeader {
        return;
      }
      var last := logs[|logs| - 1];
      index, term := last.cmdIndex + 1, currentTerm;
      logs := logs + [LogEntry(term, last.index + 1, Some(command), index, false)];
      PersistState();
    }

    // ----- AppendEntries

    method FindFirstOfTerm(pos: nat) returns (xindex: int)
      requires pos < |logs|
      ensures xindex == FirstOfTerm(logs, pos, 1)
    {
      var i := 1;
      while i <= pos
        invariant 1 <= i <= pos + 1
        invariant FirstOfTerm(logs, pos, 1) == FirstOfTerm(logs, pos, i)
      {
        if logs[i].term == logs[pos].term {
          return logs[i].index;
        }
        i := i + 1;
      }
      return 0;
    }

    /** Raises commitIndex one entry at a time, sending those that are not internal to the application. */
    method AdvanceCommit(leaderCommit: int)
      requires Shape(Fields()) && CommitSafe(View(), leaderCommit)
      modifies this`commitIndex, this`lastApplied, this`applyChan
      ensures var (s, out) := CommitUpTo(old(View()), leaderCommit);
              View() == s && applyChan == old(applyChan) + out
    {
      hide Shape, Emit;
      LastIndex(Fields());
      if leaderCommit > commitIndex {
        EmitNothing<C, D>(Fields(), commitIndex + 1);
        var i := commitIndex + 1;
        while i <= leaderCommit && i <= logs[|logs| - 1].index
          invariant old(commitIndex) < i && i - 1 <= (if leaderCommit < Last(Fields()).index || i == old(commitIndex) + 1 then leaderCommit else Last(Fields()).index)
          invariant i > old(commitIndex) + 1 ==> i - 1 <= Last(Fields()).index && commitIndex == lastApplied == i - 1
          invariant i == old(commitIndex) + 1 ==> commitIndex == old(commitIndex) && lastApplied == old(lastApplied)
          invariant forall k :: old(commitIndex) + 1 <= k <= i - 1 ==> Held(Fields(), k)
          invariant applyChan == old(applyChan) + Emit(Fields(), old(commitIndex) + 1, i - 1)
        {
          var e := logs[i - lastIncludedIndex];
          EmitSnoc<C, D>(Fields(), old(commitIndex) + 1, i);
          if !e.internal {
            applyChan := applyChan + [CommandMsg(e.command, e.cmdIndex, e.index)];
          }
          commitIndex, lastApplied := i, i;
          i := i + 1;
        }
      }
    }

    method AppendEntries(args: AppendArgs<C>) returns (reply: AppendReply)
      requires Shape(Fields()) && Contiguous(args) && AppendSafe(View(), args)
      modifies this, persister
      ensures var (s, r, out) := OnAppend(old(View()), args);
              View() == s && reply == r && applyChan == old(applyChan) + out
    {
      hide Shape, Emit, FirstOfTerm, CommitUpTo, Contiguous;
      if args.leaderTerm < currentTerm {
        return AppendReply(currentTerm, false, 0, 0, 0);
      }
      SameLog(Fields(), Fields().(currentTerm := args.leaderTerm, votedFor := -1));
      BecomeFollower(args.leaderTerm);
      reply := AppendReply(currentTerm, true, 0, 0, 0);
      LastIndex(Fields());
      if args.entries != [] {
        if args.prevLogIndex < lastIncludedIndex {
          return reply.(success := false, xterm := -1, xlen := 0);
        }
        if logs[|logs| - 1].index >= args.prevLogIndex {
          var logPos := args.prevLogIndex - lastIncludedIndex;
          if logs[logPos].term == args.prevLogTerm {
            AppendedShape(Fields(), args);
            logs := logs[..logPos + 1];
            logs := logs + args.entries;
            PersistState();
          } else {
            var xindex := FindFirstOfTerm(logPos);
            reply := reply.(success := false, xterm := logs[logPos].term, xindex := xindex);
            logs := logs[..logPos];
            PersistState();
            return;
          }
        } else {
          return reply.(success := false, xterm := -1, xlen := logs[|logs| - 1].index);
        }
      }
      AdvanceCommit(args.leaderCommit);
    }

    // ----- Snapshots

    method InstallSnapshotToApplication()
      modifies this`lastApplied, this`commitIndex, this`applyChan
      ensures var (s, out) := ToApplication(old(View()));
              View() == s && applyChan == old(applyChan) + out
    {
      var data := persister.ReadSnapshot();
      lastApplied := lastIncludedIndex;
      commitIndex := lastIncludedIndex;
      applyChan := applyChan + [SnapshotMsg(data, lastIncludedIndex, lastIncludedTerm, lastIncludedCmdIndex)];
    }

    method TakeSnapshot(data: D, index: int)
      requires index > lastIncludedIndex ==> Held(Fields(), index)
      modifies this, persister
      ensures View() == RaftNode.TakeSnapshot(old(View()), data, index) && applyChan == old(applyChan)
    {
      if index <= lastIncludedIndex {
        return;
      }
      ghost var kept := [At(Fields(), index).(command := None)] + logs[Pos(Fields(), index) + 1..];
      lastIncludedTerm := logs[index - lastIncludedIndex].term;
      lastIncludedCmdIndex := logs[index - lastIncludedIndex].cmdIndex;
      var afterLog := logs[index - lastIncludedIndex..];
      afterLog := afterLog[0 := afterLog[0].(command := None)];
      assert afterLog == kept;
      logs := afterLog;
      lastIncludedIndex := index;
      persister.SaveStateAndSnapshot(Fields(), Some(data));
    }

    /** The log that goes on after the snapshot. */
    method CutLog(args: InstallArgs<D>) returns (after: seq<LogEntry<C>>)
      requires Shape(Fields()) && args.snapIndex > lastIncludedIndex
      ensures after == LogAfterInstall(Fields(), args)
    {
      LastIndex(Fields());
      if args.snapIndex < logs[|logs| - 1].index {
        if logs[args.snapIndex - lastIncludedIndex].term != args.snapTerm {
          after := [Sentinel(args.snapTerm, args.snapIndex, args.snapCmdIndex)];
        } else {
          var afterLog := logs[args.snapIndex - lastIncludedIndex..];
          FirstReplaced(logs, args.snapIndex - lastIncludedIndex, afterLog[0].(internal := true, command := None));
          after := afterLog[0 := afterLog[0].(internal := true, command := None)];
        }
      } else {
        after := [Sentinel(args.snapTerm, args.snapIndex, args.snapCmdIndex)];
      }
    }

    method InstallSnapshot(args: InstallArgs<D>) returns (replyTerm: int)
      requires Shape(Fields())
      modifies this, persister
      ensures var (s, r, out) := OnInstall(old(View()), args);
              View() == s && replyTerm == r && applyChan == old(applyChan) + out
    {
      hide Shape, LogAfterInstall;
      replyTerm := currentTerm;
      if args.term < currentTerm {
        return;
      }
      if args.term > currentTerm {
        SameLog(Fields(), Fields().(currentTerm := args.term, votedFor := -1));
        BecomeFollower(args.term);
      }
      LastIndex(Fields());
      if args.snapIndex <= lastIncludedIndex {
        return;
      }
      logs := CutLog(args);
      lastIncludedIndex, lastIncludedTerm, lastIncludedCmdIndex := args.snapIndex, args.snapTerm, args.snapCmdIndex;
      persister.SaveStateAndSnapshot(Fields(), args.data);
      InstallSnapshotToApplication();
    }

    // ----- The leader's side

    /** The first critical section of doAppendEntriesRPC. */
    method PrepareAppend(peer: nat) returns (args: Option<AppendArgs<C>>)
      requires Shape(Fields()) && leader.Some? && peer < |leader.value.nextIndex|
      ensures args == NextAppend(View(), me, peer)
    {
      var heartbeat := AppendArgs(currentTerm, me, -1, -1, [], commitIndex);
      LastIndex(Fields());
      if logs[|logs| - 1].index >= leader.value.nextIndex[peer] {
        if leader.value.nextIndex[peer] <= lastIncludedIndex {
          return None;
        }
        var logPos := leader.value.nextIndex[peer] - lastIncludedIndex;
        return Some(heartbeat.(prevLogIndex := logs[logPos - 1].index, prevLogTerm := logs[logPos - 1].term,
                               entries := logs[logPos..]));
      }
      return Some(heartbeat);
    }

    /** The count starts at 2, for the leader and the follower that replied. */
    method CountHolders(peer: nat, i: int) returns (cnt: nat)
      requires leader.Some? && |leader.value.matchIndex| == peers && me < peers && peer < peers && peer != me
      requires leader.value.matchIndex[peer] >= i
      ensures cnt == |Holders(leader.value.matchIndex, me, i)|
    {
      hide OthersBelow, Holders;
      var m := leader.value.matchIndex;
      cnt := 2;
      OthersNone(m, me, peer, i);
      for j := 0 to peers
        invariant cnt == 2 + |OthersBelow(m, me, peer, i, j)|
      {
        OthersStep(m, me, peer, i, j);
        if j == peer || j == me {
          continue;
        }
        if m[j] >= i {
          cnt := cnt + 1;
        }
      }
      HoldersCount(m, me, peer, i);
    }

    /** Sends the entries up to i that are not internal to the application. */
    method EmitUpTo(i: int)
      requires commitIndex <= i && (commitIndex < i ==> Held(Fields(), commitIndex + 1) && Held(Fields(), i))
      modifies this`applyChan
      ensures applyChan == old(applyChan) + Emit(Fields(), commitIndex + 1, i)
    {
      hide Emit, Shape;
      EmitNothing<C, D>(Fields(), commitIndex + 1);
      var k := commitIndex + 1;
      while k <= i
        invariant commitIndex + 1 <= k <= i + 1
        invariant applyChan == old(applyChan) + Emit(Fields(), commitIndex + 1, k - 1)
      {
        assert Held(Fields(), k);
        EmitSnoc<C, D>(Fields(), commitIndex + 1, k);
        var e := logs[k - lastIncludedIndex];
        if !e.internal {
          applyChan := applyChan + [CommandMsg(e.command, e.cmdIndex, e.index)];
        }
        k := k + 1;
      }
    }

    /** Looks for an entry to commit, from the acknowledged one down. */
    method TryCommit(peer: nat, acked: int)
      requires leader.Some? && |leader.value.matchIndex| == peers && me < peers && peer < peers && peer != me
      requires leader.value.matchIndex[peer] == acked
      requires Shape(Fields()) && ScanSafe(Fields(), commitIndex, leader.value.matchIndex, me, acked)
      modifies this`commitIndex, this`lastApplied, this`applyChan
      ensures commitIndex == CommitPoint(Fields(), old(commitIndex), leader.value.matchIndex, me, acked)
      ensures old(commitIndex) <= commitIndex
      ensures lastApplied == if commitIndex > old(commitIndex) then commitIndex else old(lastApplied)
      ensures forall k :: old(commitIndex) < k <= commitIndex ==> Held(Fields(), k)
      ensures applyChan == old(applyChan) + Emit(Fields(), old(commitIndex) + 1, commitIndex)
    {
      CommitPointBounds(Fields(), commitIndex, leader.value.matchIndex, me, acked);
      var i := acked;
      while i > commitIndex && logs[i - lastIncludedIndex].term == currentTerm
        invariant i <= acked && View() == old(View()) && applyChan == old(applyChan)
        invariant ScanSafe(Fields(), commitIndex, leader.value.matchIndex, me, i)
        invariant CommitPoint(Fields(), commitIndex, leader.value.matchIndex, me, acked) ==
                  CommitPoint(Fields(), commitIndex, leader.value.matchIndex, me, i)
        decreases i - commitIndex
      {
        var cnt := CountHolders(peer, i);
        if cnt >= (peers + 1) / 2 {
          EmitUpTo(i);
          commitIndex, lastApplied := i, i;
          return;
        }
        i := i - 1;
      }
    }

    /** Scans the log from its end for the follower's conflicting term. */
    method BackUpNextIndex(peer: nat, reply: AppendReply)
      requires Shape(Fields()) && leader.Some? && peer < |leader.value.nextIndex|
      modifies this`leader
      ensures leader == Some(old(leader).value.(nextIndex := old(leader).value.nextIndex[peer :=
                NextAfterReject(Fields(), reply, old(leader).value.nextIndex[peer])]))
    {
      LastIndex(Fields());
      var next := leader.value.nextIndex[peer];
      if reply.xterm != -1 {
        var i := logs[|logs| - 1].index;
        while i >= logs[0].index
          invariant logs[0].index - 1 <= i <= Last(Fields()).index && next == leader.value.nextIndex[peer]
          invariant BackUp(logs, reply, |logs| - 1, next) == BackUp(logs, reply, i - lastIncludedIndex, next)
        {
          var iPos := i - lastIncludedIndex;
          if logs[iPos].term == reply.xterm {
            next := i + 1;
            break;
          } else if logs[iPos].term < reply.xterm {
            next := reply.xindex;
            break;
          }
          i := i - 1;
        }
      } else {
        next := reply.xlen + 1;
      }
      leader := Some(leader.value.(nextIndex := leader.value.nextIndex[peer := next]));
    }

    /** What doAppendEntriesRPC does with a reply. */
    method HandleAppendReply(peer: nat, args: AppendArgs<C>, reply: AppendReply)
      requires Shape(Fields()) && ReplyExpected(View(), me, peer, args, reply)
      requires leader.Some? ==> |leader.value.matchIndex| == peers
      modifies this, persister
      ensures var (s, out) := OnAppendReply(old(View()), me, peer, args, reply);
              View() == s && applyChan == old(applyChan) + out
    {
      if reply.success {
        if args.entries != [] {
          if currentTerm != args.leaderTerm {
            return;
          }
          LastIndex(Fields());
          var acked := args.entries[|args.entries| - 1].index;
          leader := Some(Leader(leader.value.nextIndex[peer := acked + 1], leader.value.matchIndex[peer := acked]));
          if acked > commitIndex {
            TryCommit(peer, acked);
          }
        }
      } else if args.leaderTerm < reply.followerTerm {
        BecomeFollower(reply.followerTerm);
      } else {
        if currentTerm != args.leaderTerm {
          return;
        }
        BackUpNextIndex(peer, reply);
      }
    }

    method HandleInstallReply(peer: nat, args: InstallArgs<D>, replyTerm: int)
      requires InstallReplyExpected(View(), peer, args, replyTerm)
      modifies this, persister
      ensures View() == OnInstallReply(old(View()), peer, args, replyTerm) && applyChan == old(applyChan)
    {
      if currentTerm != args.term {
        return;
      }
      if replyTerm > currentTerm {
        BecomeFollower(replyTerm);
      } else {
        leader := Some(Leader(leader.value.nextIndex[peer := args.snapIndex + 1], leader.value.matchIndex[peer := args.snapIndex]));
      }
    }
  }

  /** Among the first n servers, those besides the leader and the follower that hold index i. */
  ghost function OthersBelow(m: seq<int>, me: nat, peer: nat, i: int, n: nat): set<nat>
    requires n <= |m|
  {
    set j: nat | j < n && j != me && j != peer && m[j] >= i
  }

  lemma OthersNone(m: seq<int>, me: nat, peer: nat, i: int)
    ensures OthersBelow(m, me, peer, i, 0) == {}
  {
  }

  lemma OthersStep(m: seq<int>, me: nat, peer: nat, i: int, j: nat)
    requires j < |m|
    ensures |OthersBelow(m, me, peer, i, j + 1)| ==
            |OthersBelow(m, me, peer, i, j)| + if j != peer && j != me && m[j] >= i then 1 else 0
  {
    assert OthersBelow(m, me, peer, i, j + 1) == OthersBelow(m, me, peer, i, j) +
      if j != peer && j != me && m[j] >= i then {j} else {};
  }

  lemma HoldersCount(m: seq<int>, me: nat, peer: nat, i: int)
    requires me < |m| && peer < |m| && peer != me && m[peer] >= i
    ensures |Holders(m, me, i)| == 2 + |OthersBelow(m, me, peer, i, |m|)|
  {
    assert Holders(m, me, i) == OthersBelow(m, me, peer, i, |m|) + {me, peer};
  }

  // ----- Steps of the loops and assignments above

  lemma EmitNothing<C, D>(p: Persistent<C>, lo: int)
    ensures Emit<C, D>(p, lo, lo - 1) == []
  {
  }

  lemma EmitSnoc<C, D>(p: Persistent<C>, lo: int, hi: int)
    requires lo <= hi && forall i :: lo <= i <= hi ==> Held(p, i)
    ensures var e := At(p, hi);
            Emit<C, D>(p, lo, hi) == Emit(p, lo, hi - 1) + if e.internal then [] else [CommandMsg(e.command, e.cmdIndex, e.index)]
  {
  }

  lemma SameLog<C>(p: Persistent<C>, q: Persistent<C>)
    requires Shape(p) && q.logs == p.logs && q.snapIndex == p.snapIndex
    ensures Shape(q)
  {
  }

  lemma AppendedShape<C>(p: Persistent<C>, args: AppendArgs<C>)
    requires Shape(p) && Held(p, args.prevLogIndex) && Contiguous(args)
    ensures Shape(p.(logs := p.logs[..Pos(p, args.prevLogIndex) + 1] + args.entries))
  {
  }

  lemma FirstReplaced<T>(s: seq<T>, i: nat, x: T)
    requires i < |s|
    ensures s[i..][0 := x] == [x] + s[i + 1..]
  {
  }
}
