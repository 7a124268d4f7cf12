/**
 Taking a snapshot is invisible to the other peers (raft/raft.go:1165-1193;
 section 7 of the extended Raft paper): a peer that has discarded the log up to
 `index` answers and sends what it would have answered and sent.
 */
module RaftCompaction {
  import opened Options
  import opened RaftNode
  import opened RaftCluster
  import opened RaftCommit

  /** index is within the log, and the snapshot is newer than the last one. */
  ghost predicate Compactable<C, D>(s: Peer<C, D>, index: int) {
    GoodPeer(s) && s.p.snapIndex < index && Held(s.p, index)
  }

  lemma {:induction false} CompactedLog<C, D>(s: Peer<C, D>, data: D, index: int)
    requires Compactable(s, index)
    ensures var t := TakeSnapshot(s, data, index);
            && GoodPeer(t) && t.p.snapIndex == index
            && Last(t.p).index == Last(s.p).index
            && (forall i :: Held(t.p, i) <==> index <= i && Held(s.p, i))
            && (forall i :: Held(t.p, i) && i > index ==> At(t.p, i) == At(s.p, i))
            && At(t.p, index) == At(s.p, index).(command := None)
  {
    LastIndex(s.p);
    SnapshotKeepsShape(s, data, index);
    LastIndex(TakeSnapshot(s, data, index).p);
  }

  /** Votes: a candidate's log is judged the same. */
  lemma {:induction false} SameVotes<C, D>(s: Peer<C, D>, data: D, index: int, term: int, lastIndex: int)
    requires Compactable(s, index)
    ensures Behind(TakeSnapshot(s, data, index).p, term, lastIndex) <==> Behind(s.p, term, lastIndex)
  {
    CompactedLog(s, data, index);
    LastIndex(s.p);
  }

  /** Messages: a peer whose next entry is still in the log is sent the same. */
  lemma SameMessages<C, D>(s: Peer<C, D>, data: D, index: int, me: int, peer: nat)
    requires Compactable(s, index) && s.leader.Some? && peer < |s.leader.value.nextIndex|
    requires s.leader.value.nextIndex[peer] > index
    ensures CompactedSends(s, data, index, me, peer)
  {
    CompactedLog(s, data, index);
    var t := TakeSnapshot(s, data, index);
    LastIndex(s.p);
    LastIndex(t.p);
    var next := s.leader.value.nextIndex[peer];
    if next <= Last(s.p).index {
      assert t.p.logs[Pos(t.p, next)..] == s.p.logs[Pos(s.p, next)..];
      assert At(t.p, next - 1).term == At(s.p, next - 1).term;
    }
  }

  ghost predicate CompactedSends<C, D>(s: Peer<C, D>, data: D, index: int, me: int, peer: nat)
    requires Compactable(s, index) && s.leader.Some? && peer < |s.leader.value.nextIndex|
  {
    CompactedLog(s, data, index);
    NextAppend(TakeSnapshot(s, data, index), me, peer) == NextAppend(s, me, peer)
  }

  /** A message that asks at or above the snapshot, or carries no entries. */
  ghost predicate Judgeable<C, D>(s: Peer<C, D>, index: int, args: AppendArgs<C>) {
    Contiguous(args) && (args.entries == [] || args.prevLogIndex >= index)
  }

  /** The message contradicts the snapshot itself. */
  ghost predicate AtSnapshot<C, D>(s: Peer<C, D>, index: int, args: AppendArgs<C>) {
    Conflict(s, args) && args.prevLogIndex == index
  }

  lemma {:induction false} SameEmit<C, D>(p: Persistent<C>, q: Persistent<C>, lo: int, hi: int)
    requires forall i :: lo <= i <= hi ==> Held(p, i) && Held(q, i) && At(p, i) == At(q, i)
    ensures Emit<C, D>(p, lo, hi) == Emit<C, D>(q, lo, hi)
    decreases hi - lo
  {
    if lo <= hi {
      SameEmit<C, D>(p, q, lo, hi - 1);
      assert At(p, hi) == At(q, hi);
    }
  }

  /** Emission from an entry that has lost its command: it is sent without it, if it is sent. */
  lemma {:induction false} EmitWithout<C, D>(p: Persistent<C>, q: Persistent<C>, lo: int, hi: int)
    requires lo <= hi && forall i :: lo <= i <= hi ==> Held(p, i) && Held(q, i)
    requires At(q, lo) == At(p, lo).(command := None) && forall i :: lo < i <= hi ==> At(p, i) == At(q, i)
    ensures var e, sent := At(p, lo), Emit<C, D>(p, lo, hi);
            if e.internal then Emit<C, D>(q, lo, hi) == sent
            else sent != [] && sent[0] == CommandMsg(e.command, e.cmdIndex, e.index)
                 && Emit<C, D>(q, lo, hi) == [CommandMsg(None, e.cmdIndex, e.index)] + sent[1..]
    decreases hi - lo
  {
    if lo < hi {
      EmitWithout<C, D>(p, q, lo, hi - 1);
      assert At(p, hi) == At(q, hi);
    } else {
      assert Emit<C, D>(p, lo, hi - 1) == [] && Emit<C, D>(q, lo, hi - 1) == [];
    }
  }

  /** The compacted peer sends the snapshot's own entry, and would have sent its command. */
  ghost predicate LosesCommand<C, D>(s: Peer<C, D>, index: int, leaderCommit: int)
    requires Held(s.p, index)
  {
    leaderCommit > s.commitIndex && index == s.commitIndex + 1 && !At(s.p, index).internal && At(s.p, index).command.Some?
  }

  /** Its commit loop reads before its log. */
  ghost predicate ReadsBefore<C, D>(s: Peer<C, D>, index: int, leaderCommit: int) {
    leaderCommit > s.commitIndex && index > s.commitIndex + 1
  }

  /**
   Committing and compacting commute, at any index of the log, unless the compacted peer reads before its log. The
   messages to the application are the same exactly when the one for the snapshot's own entry does not lose its command.
   */
  lemma CommitCommutes<C, D>(s: Peer<C, D>, data: D, index: int, leaderCommit: int)
    requires Compactable(s, index) && CommitSafe(s, leaderCommit)
    ensures var t := TakeSnapshot(s, data, index);
            var (s', out) := CommitUpTo(s, leaderCommit);
            && Held(s'.p, index) && GoodPeer(t)
            && (CommitSafe(t, leaderCommit) <==> !ReadsBefore(s, index, leaderCommit))
            && (CommitSafe(t, leaderCommit) ==>
                  && CommitUpTo(t, leaderCommit).0 == TakeSnapshot(s', data, index)
                  && (CommitUpTo(t, leaderCommit).1 == out <==> !LosesCommand(s, index, leaderCommit)))
  {
    CompactedLog(s, data, index);
    var t := TakeSnapshot(s, data, index);
    LastIndex(s.p);
    LastIndex(t.p);
    var top := if leaderCommit < Last(s.p).index then leaderCommit else Last(s.p).index;
    if leaderCommit > s.commitIndex && top > s.commitIndex && index <= s.commitIndex + 1 {
      SentAlike(s, t, index, s.commitIndex + 1, top);
    }
  }

  lemma SentAlike<C, D>(s: Peer<C, D>, t: Peer<C, D>, index: int, lo: int, hi: int)
    requires index <= lo <= hi && forall i :: lo <= i <= hi ==> Held(s.p, i) && Held(t.p, i)
    requires Held(s.p, index) && Held(t.p, index) && At(t.p, index) == At(s.p, index).(command := None)
    requires forall i :: lo <= i <= hi && i != index ==> At(s.p, i) == At(t.p, i)
    ensures Emit<C, D>(t.p, lo, hi) == Emit<C, D>(s.p, lo, hi) <==> !(lo == index && !At(s.p, index).internal && At(s.p, index).command.Some?)
  {
    hide Emit;
    if lo == index {
      EmitWithout<C, D>(s.p, t.p, lo, hi);
    } else {
      SameEmit<C, D>(s.p, t.p, lo, hi);
    }
  }

  /** Becoming a follower and compacting commute. */
  lemma FollowerCommutes<C, D>(s: Peer<C, D>, data: D, index: int, term: int)
    requires Compactable(s, index)
    ensures Compactable(BecomeFollower(s, term), index)
    ensures BecomeFollower(TakeSnapshot(s, data, index), term) == TakeSnapshot(BecomeFollower(s, term), data, index)
  {
  }

  /** The same messages are accepted. */
  lemma SameAccepted<C, D>(s: Peer<C, D>, data: D, index: int, args: AppendArgs<C>)
    requires Compactable(s, index) && Judgeable(s, index, args)
    ensures Accepts(TakeSnapshot(s, data, index), args) <==> Accepts(s, args)
  {
    CompactedLog(s, data, index);
    LastIndex(s.p);
    LastIndex(TakeSnapshot(s, data, index).p);
  }

  /**
   A message that the peer can take makes the compacted one panic exactly when it commits something and the snapshot
   is more than one entry above what is committed.
   */
  lemma SafeIff<C, D>(s: Peer<C, D>, data: D, index: int, args: AppendArgs<C>)
    requires Compactable(s, index) && Judgeable(s, index, args) && AppendSafe(s, args)
    ensures GoodPeer(TakeSnapshot(s, data, index))
    ensures AppendSafe(TakeSnapshot(s, data, index), args) <==> !(Accepts(s, args) && ReadsBefore(s, index, args.leaderCommit))
  {
    SameAccepted(s, data, index, args);
    CompactedLog(s, data, index);
  }

  /** At a committed index it never does. */
  lemma CommittedIsSafe<C, D>(s: Peer<C, D>, data: D, index: int, args: AppendArgs<C>)
    requires Compactable(s, index) && Judgeable(s, index, args) && index <= s.commitIndex
    ensures BothSafe(s, data, index, args) && !ReadsBefore(s, index, args.leaderCommit) && !LosesCommand(s, index, args.leaderCommit)
  {
  }

  /** Both can take the message. */
  ghost predicate BothSafe<C, D>(s: Peer<C, D>, data: D, index: int, args: AppendArgs<C>)
    requires Compactable(s, index)
  {
    AppendSafe(s, args) && AppendSafe(TakeSnapshot(s, data, index), args)
  }

  /** Taking the message and compacting commute, but for the hint in the answer. */
  ghost predicate SameState<C, D>(s: Peer<C, D>, data: D, index: int, args: AppendArgs<C>)
    requires Compactable(s, index) && Judgeable(s, index, args) && BothSafe(s, data, index, args)
  {
    CompactedLog(s, data, index);
    var (s', r, _) := OnAppend(s, args);
    var (t', r', _) := OnAppend(TakeSnapshot(s, data, index), args);
    && Held(s'.p, index)
    && t' == TakeSnapshot(s', data, index)
    && r' == r.(xindex := r'.xindex)
  }

  /** The messages to the application are the same. */
  ghost predicate SameSent<C, D>(s: Peer<C, D>, data: D, index: int, args: AppendArgs<C>)
    requires Compactable(s, index) && Judgeable(s, index, args) && BothSafe(s, data, index, args)
  {
    CompactedLog(s, data, index);
    OnAppend(TakeSnapshot(s, data, index), args).2 == OnAppend(s, args).2
  }

  /** The answers but for the hint, the cursors and the entries after the snapshot are the same. */
  ghost predicate AlikeAfter<C, D>(s: Peer<C, D>, data: D, index: int, args: AppendArgs<C>)
    requires Compactable(s, index) && Judgeable(s, index, args) && BothSafe(s, data, index, args)
  {
    CompactedLog(s, data, index);
    var (s', r, _) := OnAppend(s, args);
    var (t', r', _) := OnAppend(TakeSnapshot(s, data, index), args);
    && r' == r.(xindex := r'.xindex)
    && t'.p.currentTerm == s'.p.currentTerm && t'.commitIndex == s'.commitIndex && t'.role == s'.role && t'.leader == s'.leader
    && forall i :: i > index ==> (Held(t'.p, i) <==> Held(s'.p, i)) && (Held(s'.p, i) ==> At(t'.p, i) == At(s'.p, i))
  }

  lemma RejectSame<C, D>(s: Peer<C, D>, data: D, index: int, args: AppendArgs<C>)
    requires Compactable(s, index) && Judgeable(s, index, args) && Conflict(s, args) && !AtSnapshot(s, index, args)
    ensures BothSafe(s, data, index, args) && SameState(s, data, index, args) && SameSent(s, data, index, args)
  {
    CompactedLog(s, data, index);
    LastIndex(s.p);
    var t := TakeSnapshot(s, data, index);
    LastIndex(t.p);
    var pos, pos' := Pos(s.p, args.prevLogIndex), Pos(t.p, args.prevLogIndex);
    assert At(t.p, args.prevLogIndex).term == At(s.p, args.prevLogIndex).term;
    assert t.p.logs[..pos'] == [At(s.p, index).(command := None)] + s.p.logs[..pos][Pos(s.p, index) + 1..];
  }

  /** The peer once the entries of a message have replaced what followed the entry before them. */
  ghost function Copied<C, D>(f: Peer<C, D>, args: AppendArgs<C>): Peer<C, D>
    requires Held(f.p, args.prevLogIndex)
  {
    Persist(f.(p := f.p.(logs := f.p.logs[..Pos(f.p, args.prevLogIndex) + 1] + args.entries)))
  }

  lemma AcceptForm<C, D>(s: Peer<C, D>, args: AppendArgs<C>)
    requires GoodPeer(s) && Contiguous(args) && AppendSafe(s, args) && args.leaderTerm >= s.p.currentTerm && args.entries != []
    requires Held(s.p, args.prevLogIndex) && At(s.p, args.prevLogIndex).term == args.prevLogTerm
    ensures var g := Copied(BecomeFollower(s, args.leaderTerm), args);
            && GoodPeer(g)
            && var (s', out) := CommitUpTo(g, args.leaderCommit);
               OnAppend(s, args) == (s', AppendReply(args.leaderTerm, true, 0, 0, 0), out)
  {
    LastIndex(s.p);
  }

  lemma CopyCommutes<C, D>(f: Peer<C, D>, data: D, index: int, args: AppendArgs<C>)
    requires Compactable(f, index) && Contiguous(args) && args.prevLogIndex >= index && Held(f.p, args.prevLogIndex)
    ensures var t := TakeSnapshot(f, data, index);
            && Held(t.p, args.prevLogIndex)
            && Compactable(Copied(f, args), index) && At(Copied(f, args).p, index) == At(f.p, index)
            && Copied(t, args) == TakeSnapshot(Copied(f, args), data, index)
  {
    LastIndex(f.p);
    var t, g := TakeSnapshot(f, data, index), Copied(f, args);
    assert t.p.logs[..Pos(t.p, args.prevLogIndex) + 1] + args.entries ==
           [At(g.p, index).(command := None)] + g.p.logs[Pos(g.p, index) + 1..];
  }

  lemma AcceptSame<C, D>(s: Peer<C, D>, data: D, index: int, args: AppendArgs<C>)
    requires Compactable(s, index) && Judgeable(s, index, args) && BothSafe(s, data, index, args)
    requires args.leaderTerm >= s.p.currentTerm && args.entries != []
    requires Held(s.p, args.prevLogIndex) && At(s.p, args.prevLogIndex).term == args.prevLogTerm
    ensures SameState(s, data, index, args)
    ensures SameSent(s, data, index, args) <==> !LosesCommand(s, index, args.leaderCommit)
  {
    hide OnAppend, CommitUpTo, TakeSnapshot, Copied, Contiguous, GoodPeer, BecomeFollower;
    var t, f := TakeSnapshot(s, data, index), BecomeFollower(s, args.leaderTerm);
    CompactedLog(s, data, index);
    FollowerCommutes(s, data, index, args.leaderTerm);
    FollowerKeepsLog(s, args.leaderTerm);
    CopyCommutes(f, data, index, args);
    CopyKeepsCursor(f, args);
    AcceptForm(s, args);
    SafeIff(s, data, index, args);
    CommitCommutes(Copied(f, args), data, index, args.leaderCommit);
    SameTerm(s, data, index);
    AcceptForm(t, args);
  }

  lemma CopyKeepsCursor<C, D>(f: Peer<C, D>, args: AppendArgs<C>)
    requires Held(f.p, args.prevLogIndex)
    ensures Copied(f, args).commitIndex == f.commitIndex && Copied(f, args).p.snapIndex == f.p.snapIndex
  {
  }

  lemma FollowerKeepsLog<C, D>(s: Peer<C, D>, term: int)
    ensures var f := BecomeFollower(s, term);
            f.p.logs == s.p.logs && f.p.snapIndex == s.p.snapIndex && f.commitIndex == s.commitIndex
  {
  }

  lemma SameTerm<C, D>(s: Peer<C, D>, data: D, index: int)
    requires Compactable(s, index)
    ensures TakeSnapshot(s, data, index).p.currentTerm == s.p.currentTerm
  {
  }

  lemma HeartbeatSame<C, D>(s: Peer<C, D>, data: D, index: int, args: AppendArgs<C>)
    requires Compactable(s, index) && Judgeable(s, index, args) && BothSafe(s, data, index, args)
    requires args.leaderTerm >= s.p.currentTerm && args.entries == []
    ensures SameState(s, data, index, args)
    ensures SameSent(s, data, index, args) <==> !LosesCommand(s, index, args.leaderCommit)
  {
    hide CommitUpTo, TakeSnapshot, GoodPeer, BecomeFollower;
    var f := BecomeFollower(s, args.leaderTerm);
    CompactedLog(s, data, index);
    SafeIff(s, data, index, args);
    FollowerCommutes(s, data, index, args.leaderTerm);
    FollowerKeepsLog(s, args.leaderTerm);
    SameTerm(s, data, index);
    CommitCommutes(f, data, index, args.leaderCommit);
  }

  /**
   Whenever both can take the message, AppendEntries commutes with compaction at any index of the log, but for the
   hint, exactly when the message does not contradict the entry of the snapshot itself. What is sent to the
   application is the same exactly when the snapshot's own entry is not sent without its command.
   */
  lemma SameAppends<C, D>(s: Peer<C, D>, data: D, index: int, args: AppendArgs<C>)
    requires Compactable(s, index) && Judgeable(s, index, args) && BothSafe(s, data, index, args)
    ensures SameState(s, data, index, args) <==> !AtSnapshot(s, index, args)
    ensures SameSent(s, data, index, args) <==> !(Accepts(s, args) && LosesCommand(s, index, args.leaderCommit))
  {
    CompactedLog(s, data, index);
    LastIndex(s.p);
    LastIndex(TakeSnapshot(s, data, index).p);
    if args.leaderTerm >= s.p.currentTerm {
      FollowerCommutes(s, data, index, args.leaderTerm);
      if args.entries == [] {
        HeartbeatSame(s, data, index, args);
      } else if Held(s.p, args.prevLogIndex) {
        if At(s.p, args.prevLogIndex).term == args.prevLogTerm {
          AcceptSame(s, data, index, args);
        } else if args.prevLogIndex > index {
          RejectSame(s, data, index, args);
        }
      }
    }
  }

  /** In every case the answer but for the hint, the cursor and the entries after the snapshot are the same. */
  lemma AppendsAlike<C, D>(s: Peer<C, D>, data: D, index: int, args: AppendArgs<C>)
    requires Compactable(s, index) && Judgeable(s, index, args) && BothSafe(s, data, index, args)
    ensures AlikeAfter(s, data, index, args)
  {
    SameAppends(s, data, index, args);
    if AtSnapshot(s, index, args) {
      ContradictedAlike(s, data, index, args);
    } else {
      KeptAlike(s, data, index, args);
    }
  }

  lemma KeptAlike<C, D>(s: Peer<C, D>, data: D, index: int, args: AppendArgs<C>)
    requires Compactable(s, index) && Judgeable(s, index, args) && BothSafe(s, data, index, args) && SameState(s, data, index, args)
    ensures AlikeAfter(s, data, index, args)
  {
    hide OnAppend;
    CompactedLog(s, data, index);
    var s' := OnAppend(s, args).0;
    SnapshotSuffix(s', data, index);
    SnapIndexKept(s, args);
  }

  lemma SnapIndexKept<C, D>(s: Peer<C, D>, args: AppendArgs<C>)
    requires Shape(s.p) && Contiguous(args) && AppendSafe(s, args)
    ensures OnAppend(s, args).0.p.snapIndex == s.p.snapIndex
  {
  }

  lemma SnapshotSuffix<C, D>(s: Peer<C, D>, data: D, index: int)
    requires Held(s.p, index)
    ensures var t := TakeSnapshot(s, data, index);
            forall i :: i > index ==> (Held(t.p, i) <==> Held(s.p, i)) && (Held(s.p, i) ==> At(t.p, i) == At(s.p, i))
  {
  }

  lemma ContradictedAlike<C, D>(s: Peer<C, D>, data: D, index: int, args: AppendArgs<C>)
    requires Compactable(s, index) && Judgeable(s, index, args) && AtSnapshot(s, index, args)
    ensures BothSafe(s, data, index, args) && AlikeAfter(s, data, index, args)
  {
    CompactedLog(s, data, index);
    LastIndex(s.p);
    LastIndex(TakeSnapshot(s, data, index).p);
  }

  /** How the hint differs: the compacted peer's is never before the first entry it still has. */
  lemma HintMoves<C, D>(s: Peer<C, D>, data: D, index: int, args: AppendArgs<C>)
    requires Compactable(s, index) && Judgeable(s, index, args) && Conflict(s, args) && !AtSnapshot(s, index, args) && Ascending(s.p.logs)
    ensures GoodPeer(TakeSnapshot(s, data, index))
    ensures var hint := OnAppend(s, args).1.xindex;
            OnAppend(TakeSnapshot(s, data, index), args).1.xindex == if hint > index then hint else index + 1
  {
    hide OnAppend, FirstOfTerm;
    CompactedLog(s, data, index);
    LastIndex(s.p);
    var t := TakeSnapshot(s, data, index);
    HintForm(s, args);
    HintForm(t, args);
    HintFrom(s, t, index, Pos(s.p, args.prevLogIndex), 1);
  }

  lemma HintForm<C, D>(s: Peer<C, D>, args: AppendArgs<C>)
    requires GoodPeer(s) && Contiguous(args) && AppendSafe(s, args) && Conflict(s, args)
    ensures OnAppend(s, args).1.xindex == FirstOfTerm(s.p.logs, Pos(s.p, args.prevLogIndex), 1)
  {
    LastIndex(s.p);
  }

  lemma {:induction false} HintFrom<C, D>(s: Peer<C, D>, t: Peer<C, D>, index: int, pos: nat, i: nat)
    requires Compactable(s, index) && Ascending(s.p.logs) && t.p.snapIndex == index
    requires t.p.logs != [] && t.p.logs[1..] == s.p.logs[Pos(s.p, index) + 1..]
    requires Shape(t.p) && Pos(s.p, index) < pos < |s.p.logs| && 1 <= i <= pos
    requires forall k :: 1 <= k < i ==> s.p.logs[k].term != s.p.logs[pos].term
    ensures var d := Pos(s.p, index);
            var hint := FirstOfTerm(s.p.logs, pos, i);
            FirstOfTerm(t.p.logs, pos - d, if i > d then i - d else 1) == if hint > index then hint else index + 1
    decreases pos - i
  {
    var d := Pos(s.p, index);
    assert forall k :: 1 <= k < |t.p.logs| ==> t.p.logs[k] == t.p.logs[1..][k - 1] == s.p.logs[k + d];
    if s.p.logs[i].term == s.p.logs[pos].term {
      if i <= d {
        assert s.p.logs[i].term <= s.p.logs[d + 1].term;
        assert d + 1 < pos ==> s.p.logs[d + 1].term <= s.p.logs[pos].term;
      }
    } else {
      HintFrom(s, t, index, pos, i + 1);
    }
  }
}
