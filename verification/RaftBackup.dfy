/**
 Fast backup (raft/raft.go:480-530, 775-788, 881-908; section 5.3 of the extended
 Raft paper): how a leader and a follower whose logs differ find the place from
 which to copy.
 */
module RaftBackup {
  import opened Options
  import opened RaftNode
  import opened RaftCommit

  // ----- One exchange

  /** The message for a follower whose next index is `next`, as doAppendEntriesRPC builds it. */
  function Message<C>(lp: Persistent<C>, me: int, next: int, commit: int): AppendArgs<C>
    requires Held(lp, next) && Held(lp, next - 1)
  {
    AppendArgs(lp.currentTerm, me, At(lp, next - 1).index, At(lp, next - 1).term, lp.logs[Pos(lp, next)..], commit)
  }

  lemma {:induction false} MessageIsNextAppend<C, D>(s: Peer<C, D>, me: int, peer: nat)
    requires Shape(s.p) && s.leader.Some? && peer < |s.leader.value.nextIndex|
    requires s.p.snapIndex < s.leader.value.nextIndex[peer] <= Last(s.p).index
    ensures var next := s.leader.value.nextIndex[peer];
            && Held(s.p, next) && Held(s.p, next - 1)
            && NextAppend(s, me, peer) == Some(Message(s.p, me, next, s.commitIndex))
  {
    LastIndex(s.p);
  }

  /** The exchange is possible: the leader still holds what it must send, and its term is no older. */
  ghost predicate CanSend<C, D>(lp: Persistent<C>, f: Peer<C, D>, next: int) {
    && Shape(lp) && Shape(f.p) && f.p.snapIndex <= f.commitIndex + 1
    && f.p.currentTerm <= lp.currentTerm
    && lp.snapIndex < next <= Last(lp).index
  }

  lemma MessageFacts<C>(lp: Persistent<C>, me: int, next: int, commit: int)
    requires Shape(lp) && lp.snapIndex < next <= Last(lp).index
    ensures Held(lp, next) && Held(lp, next - 1)
    ensures var args := Message(lp, me, next, commit);
            && Contiguous(args)
            && args.prevLogIndex == next - 1
            && |args.entries| == Last(lp).index - next + 1 > 0
  {
    LastIndex(lp);
  }

  ghost function Reply<C, D>(lp: Persistent<C>, f: Peer<C, D>, me: int, next: int, commit: int)
    : (r: (Peer<C, D>, AppendReply, seq<ApplyMsg<C, D>>))
    requires CanSend(lp, f, next)
  {
    MessageFacts(lp, me, next, commit);
    OnAppend(f, Message(lp, me, next, commit))
  }

  /** The leader's entry before `next` conflicts with the follower's sentinel. */
  ghost predicate AtSentinel<C, D>(lp: Persistent<C>, f: Peer<C, D>, next: int)
    requires CanSend(lp, f, next)
  {
    MessageFacts(lp, 0, next, 0);
    next - 1 == f.p.snapIndex && f.p.logs[0].term != At(lp, next - 1).term
  }

  ghost predicate Smaller(last': int, next': int, last: int, next: int) {
    last' < last || (last' == last && next' < next)
  }

  /**
   A rejection always brings the pair (the follower's last index, nextIndex) down,
   except in one case: the follower has already discarded the entry before `next`
   and nextIndex cannot go below 1.
   */
  lemma {:induction false} RejectionDecreases<C, D>(lp: Persistent<C>, f: Peer<C, D>, me: int, next: int, commit: int)
    requires CanSend(lp, f, next) && !AtSentinel(lp, f, next)
    requires !Reply(lp, f, me, next, commit).1.success
    ensures var (f', reply, _) := Reply(lp, f, me, next, commit);
            && |f'.p.logs| > 0
            && (Smaller(Last(f'.p).index, NextAfterReject(lp, reply, next), Last(f.p).index, next) <==>
                !(next - 1 < f.p.snapIndex && next <= 1))
  {
    MessageFacts(lp, me, next, commit);
    LastIndex(lp);
    LastIndex(f.p);
  }

  // ----- The whole exchange

  /** Where both hold the follower's sentinel they agree on its term. */
  ghost predicate SentinelAgrees<C>(lp: Persistent<C>, fp: Persistent<C>)
    requires |fp.logs| > 0
  {
    Held(lp, fp.snapIndex) ==> At(lp, fp.snapIndex).term == fp.logs[0].term
  }

  ghost predicate Ready<C, D>(lp: Persistent<C>, f: Peer<C, D>, next: int) {
    && CanSend(lp, f, next)
    && f.p.snapIndex <= next - 1
    && SentinelAgrees(lp, f.p)
    && Ascending(lp.logs) && Ascending(f.p.logs)
    && 0 <= f.p.logs[0].term  // terms start at 0, so that -1 can say "no conflicting term"
  }

  lemma {:induction false} BackUpStops<C>(lp: Persistent<C>, reply: AppendReply, i: int, stay: int, k: int)
    requires Shape(lp) && 0 <= k <= i < |lp.logs| && lp.logs[k].term <= reply.xterm
    ensures var next := BackUp(lp.logs, reply, i, stay);
            next == reply.xindex ||
            (lp.snapIndex + k + 1 <= next <= lp.snapIndex + i + 1 && lp.logs[next - 1 - lp.snapIndex].term == reply.xterm)
    decreases i
  {
    if lp.logs[i].term > reply.xterm {
      BackUpStops(lp, reply, i - 1, stay, k);
    }
  }

  lemma {:induction false} BackUpRange<C>(lp: Persistent<C>, reply: AppendReply, i: int, stay: int)
    requires Shape(lp) && -1 <= i < |lp.logs|
    ensures var next := BackUp(lp.logs, reply, i, stay);
            next == stay || next == reply.xindex ||
            (lp.snapIndex + 1 <= next <= lp.snapIndex + i + 1 && lp.logs[next - 1 - lp.snapIndex].term == reply.xterm)
    decreases i
  {
    if i >= 0 {
      BackUpRange(lp, reply, i - 1, stay);
    }
  }

  lemma {:induction false} FirstOfTermBounds<C>(logs: seq<LogEntry<C>>, snapIndex: int, pos: nat, i: nat)
    requires 1 <= i <= pos < |logs|
    requires forall k {:trigger logs[k]} :: 0 <= k < |logs| ==> logs[k].index == snapIndex + k
    ensures snapIndex + i <= FirstOfTerm(logs, pos, i) <= snapIndex + pos
    decreases pos - i
  {
    if i < pos && logs[i].term != logs[pos].term {
      FirstOfTermBounds(logs, snapIndex, pos, i + 1);
    }
  }

  /** After a rejection the two are ready for the next exchange, unless nextIndex left the range the leader can send. */
  lemma StaysReady<C, D>(lp: Persistent<C>, f: Peer<C, D>, me: int, next: int, commit: int)
    requires Ready(lp, f, next) && !Reply(lp, f, me, next, commit).1.success
    ensures var (f', reply, _) := Reply(lp, f, me, next, commit);
            var next' := NextAfterReject(lp, reply, next);
            && f'.p.snapIndex == f.p.snapIndex && f'.p.logs <= f.p.logs && f'.p.logs != []
            && f'.p.currentTerm == lp.currentTerm && f'.commitIndex == f.commitIndex
            && (lp.snapIndex < next' <= Last(lp).index ==> Ready(lp, f', next'))
            && (Held(lp, f.p.snapIndex) ==> next' > f.p.snapIndex)
            && (|f'.p.logs| < |f.p.logs| || (f'.p.logs == f.p.logs && next' < next))
  {
    MessageFacts(lp, me, next, commit);
    LastIndex(lp);
    LastIndex(f.p);
    var (f', reply, _) := Reply(lp, f, me, next, commit);
    var next' := NextAfterReject(lp, reply, next);
    if Last(f.p).index >= next - 1 {
      var pos := Pos(f.p, next - 1);
      assert pos > 0;
      FirstOfTermBounds(f.p.logs, f.p.snapIndex, pos, 1);
      BackUpRange(lp, reply, |lp.logs| - 1, next);
      if Held(lp, f.p.snapIndex) {
        var k := Pos(lp, f.p.snapIndex);
        assert lp.logs[k].term <= reply.xterm;
        BackUpStops(lp, reply, |lp.logs| - 1, next, k);
      }
    }
  }

  /** How an exchange ends: the follower copied, it needs a snapshot, or the leader thinks it has nothing to send. */
  datatype Outcome<C, D> = Synced(f: Peer<C, D>) | NeedsSnapshot(f: Peer<C, D>) | Idle(f: Peer<C, D>)

  /** The exchange, repeated until it ends; that it is defined for every start is that it ends. */
  ghost function Replicate<C, D>(lp: Persistent<C>, f: Peer<C, D>, me: int, next: int, commit: int): Outcome<C, D>
    requires Ready(lp, f, next)
    decreases |f.p.logs|, next - lp.snapIndex
  {
    var (f', reply, _) := Reply(lp, f, me, next, commit);
    if reply.success then Synced(f') else
    var next' := NextAfterReject(lp, reply, next);
    StaysReady(lp, f, me, next, commit);
    if next' <= lp.snapIndex then NeedsSnapshot(f')
    else if next' > Last(lp).index then Idle(f')
    else Replicate(lp, f', me, next', commit)
  }

  // ----- What a successful exchange leaves

  /** Both hold index i, and in neither is it the sentinel. */
  ghost predicate Shared<C>(lp: Persistent<C>, fp: Persistent<C>, i: int) {
    Held(lp, i) && Held(fp, i) && i > lp.snapIndex && i > fp.snapIndex
  }

  /** Log Matching: the same term at the same index means the same log up to there, as far as both hold it. */
  ghost predicate Matching<C>(lp: Persistent<C>, fp: Persistent<C>) {
    forall i, j :: Held(lp, i) && Held(fp, i) && At(lp, i).term == At(fp, i).term && j <= i && Shared(lp, fp, j) ==>
      At(lp, j) == At(fp, j)
  }

  ghost predicate SameLog<C>(lp: Persistent<C>, fp: Persistent<C>)
    requires |lp.logs| > 0 && |fp.logs| > 0
  {
    Last(lp).index == Last(fp).index && forall i :: Shared(lp, fp, i) ==> At(lp, i) == At(fp, i)
  }

  lemma SuccessForm<C, D>(lp: Persistent<C>, f: Peer<C, D>, me: int, next: int, commit: int)
    requires Ready(lp, f, next) && Reply(lp, f, me, next, commit).1.success
    ensures Held(lp, next) && Held(lp, next - 1) && Held(f.p, next - 1) && At(lp, next - 1).term == At(f.p, next - 1).term
    ensures var f' := Reply(lp, f, me, next, commit).0;
            f'.p.snapIndex == f.p.snapIndex && f'.p.logs == f.p.logs[..Pos(f.p, next - 1) + 1] + lp.logs[Pos(lp, next)..]
  {
    MessageFacts(lp, me, next, commit);
    LastIndex(lp);
    LastIndex(f.p);
  }

  /** An accepted append leaves the same log. */
  lemma {:induction false} SuccessSyncs<C, D>(lp: Persistent<C>, f: Peer<C, D>, me: int, next: int, commit: int)
    requires Ready(lp, f, next) && Matching(lp, f.p) && Reply(lp, f, me, next, commit).1.success
    ensures var f' := Reply(lp, f, me, next, commit).0;
            |f'.p.logs| > 0 && f'.p.snapIndex == f.p.snapIndex && SameLog(lp, f'.p)
  {
    hide Reply, Matching, Ascending;
    SuccessForm(lp, f, me, next, commit);
    LastIndex(lp);
    LastIndex(f.p);
    var f' := Reply(lp, f, me, next, commit).0;
    forall i | Shared(lp, f'.p, i)
      ensures At(lp, i) == At(f'.p, i)
    {
      if i < next {
        assert At(f'.p, i) == At(f.p, i);
        MatchingBelow(lp, f.p, next - 1, i);
      }
    }
  }

  lemma MatchingBelow<C>(lp: Persistent<C>, fp: Persistent<C>, i: int, j: int)
    requires Matching(lp, fp) && Held(lp, i) && Held(fp, i) && At(lp, i).term == At(fp, i).term && j <= i && Shared(lp, fp, j)
    ensures At(lp, j) == At(fp, j)
  {
  }

  lemma TruncationKeeps<C>(lp: Persistent<C>, fp: Persistent<C>, fp': Persistent<C>)
    requires fp'.snapIndex == fp.snapIndex && fp'.logs <= fp.logs && Matching(lp, fp)
    ensures Matching(lp, fp')
  {
    forall i, j | Held(lp, i) && Held(fp', i) && At(lp, i).term == At(fp', i).term && j <= i && Shared(lp, fp', j)
      ensures At(lp, j) == At(fp', j)
    {
      assert At(fp, i) == At(fp', i) && At(fp, j) == At(fp', j) && Shared(lp, fp, j);
    }
  }

  // ----- When the leader stops sending although the logs differ

  /**
   The follower's entry i is of the term of the leader's last entry, but at another place than the
   leader's entries of that term, and what the follower has above it, as far as asked, is of later terms.
   */
  ghost predicate Misplaced<C>(lp: Persistent<C>, fp: Persistent<C>, next: int, i: int)
    requires |lp.logs| > 0
  {
    && Held(fp, i) && Held(lp, i) && i <= next - 1
    && At(fp, i).term == Last(lp).term && At(lp, i).term != Last(lp).term
    && forall k :: i < k <= next - 1 && Held(fp, k) ==> At(fp, k).term > Last(lp).term
  }

  ghost predicate GoesIdle<C>(lp: Persistent<C>, fp: Persistent<C>, next: int)
    requires |lp.logs| > 0
  {
    exists i :: Misplaced(lp, fp, next, i)
  }

  /** One rejection sends nextIndex past the leader's log exactly when the conflicting entry has the term of the leader's last. */
  lemma {:induction false} RejectionOvershoots<C, D>(lp: Persistent<C>, f: Peer<C, D>, me: int, next: int, commit: int)
    requires Ready(lp, f, next) && !Reply(lp, f, me, next, commit).1.success
    ensures NextAfterReject(lp, Reply(lp, f, me, next, commit).1, next) > Last(lp).index <==>
            Held(f.p, next - 1) && At(f.p, next - 1).term == Last(lp).term
  {
    MessageFacts(lp, me, next, commit);
    LastIndex(lp);
    LastIndex(f.p);
    var reply := Reply(lp, f, me, next, commit).1;
    if Held(f.p, next - 1) {
      var pos := Pos(f.p, next - 1);
      FirstOfTermBounds(f.p.logs, f.p.snapIndex, pos, 1);
      if Last(lp).term > reply.xterm {
        BackUpRange(lp, reply, |lp.logs| - 2, next);
      }
    }
  }

  /** What a rejection does: the follower is asked about its own end, or it cuts off the conflicting entry. */
  lemma RejectionForm<C, D>(lp: Persistent<C>, f: Peer<C, D>, me: int, next: int, commit: int)
    requires Ready(lp, f, next) && !Reply(lp, f, me, next, commit).1.success
    ensures Held(lp, next - 1)
    ensures var (f', reply, _) := Reply(lp, f, me, next, commit);
            var next' := NextAfterReject(lp, reply, next);
            && f'.p.snapIndex == f.p.snapIndex
            && if !Held(f.p, next - 1) then f'.p.logs == f.p.logs && next' == Last(f.p).index + 1 <= next - 1
               else
                 && At(f.p, next - 1).term != At(lp, next - 1).term && next - 1 > f.p.snapIndex
                 && f'.p.logs == f.p.logs[..Pos(f.p, next - 1)]
                 && reply.xterm == At(f.p, next - 1).term && reply.xindex == FirstOfTerm(f.p.logs, Pos(f.p, next - 1), 1)
                 && next' == BackUp(lp.logs, reply, |lp.logs| - 1, next)
  {
    MessageFacts(lp, me, next, commit);
    LastIndex(lp);
    LastIndex(f.p);
  }

  /** The first entry of a term: all from there on have it. */
  lemma {:induction false} FirstOfTermIs<C>(logs: seq<LogEntry<C>>, snapIndex: int, pos: nat, i: nat)
    requires 1 <= i <= pos < |logs| && Ascending(logs)
    requires forall k {:trigger logs[k]} :: 0 <= k < |logs| ==> logs[k].index == snapIndex + k
    ensures var x := FirstOfTerm(logs, pos, i) - snapIndex;
            && i <= x <= pos && (forall k :: x <= k <= pos ==> logs[k].term == logs[pos].term)
            && forall k :: i <= k < x ==> logs[k].term != logs[pos].term
    decreases pos - i
  {
    if logs[i].term == logs[pos].term {
      forall k | i <= k <= pos
        ensures logs[k].term == logs[pos].term
      {
        assert (i == k || logs[i].term <= logs[k].term) && (k == pos || logs[k].term <= logs[pos].term);
      }
    } else {
      FirstOfTermIs(logs, snapIndex, pos, i + 1);
    }
  }

  /** A rejection that stays within the leader's log decides nothing yet. */
  lemma {:induction false} IdleStep<C, D>(lp: Persistent<C>, f: Peer<C, D>, me: int, next: int, commit: int)
    requires Ready(lp, f, next) && !Reply(lp, f, me, next, commit).1.success
    requires NextAfterReject(lp, Reply(lp, f, me, next, commit).1, next) <= Last(lp).index
    ensures var (f', reply, _) := Reply(lp, f, me, next, commit);
            GoesIdle(lp, f.p, next) <==> GoesIdle(lp, f'.p, NextAfterReject(lp, reply, next))
  {
    RejectionOvershoots(lp, f, me, next, commit);
    RejectionForm(lp, f, me, next, commit);
    LastIndex(lp);
    LastIndex(f.p);
    var (f', reply, _) := Reply(lp, f, me, next, commit);
    var next', last := NextAfterReject(lp, reply, next), Last(lp).term;
    hide Reply, NextAfterReject, FirstOfTerm;
    if Held(f.p, next - 1) {
      var pos, t := Pos(f.p, next - 1), At(f.p, next - 1).term;
      FirstOfTermIs(f.p.logs, f.p.snapIndex, pos, 1);
      if t < last {
        LowTermsNotIdle(lp, f.p, next);
        forall i | Held(f'.p, i)
          ensures At(f'.p, i).term < last
        {
          assert Held(f.p, i) && At(f'.p, i) == At(f.p, i);
          assert Pos(f.p, i) < pos && f.p.logs[Pos(f.p, i)].term <= f.p.logs[pos].term;
        }
        LowTermsNotIdle(lp, f'.p, next');
      } else {
        assert next' == reply.xindex;
        CutKeepsMisplaced(lp, f.p, f'.p, next, next');
      }
    } else {
      ShortKeepsMisplaced(lp, f.p, f'.p, next, next');
    }
  }

  lemma ShortKeepsMisplaced<C>(lp: Persistent<C>, fp: Persistent<C>, fp': Persistent<C>, next: int, next': int)
    requires |lp.logs| > 0 && fp'.snapIndex == fp.snapIndex && fp'.logs == fp.logs
    requires next' <= next && forall k :: Held(fp, k) ==> k <= next' - 1
    ensures GoesIdle(lp, fp, next) <==> GoesIdle(lp, fp', next')
  {
    forall i
      ensures Misplaced(lp, fp, next, i) <==> Misplaced(lp, fp', next', i)
    {
      assert forall k :: Held(fp', k) <==> Held(fp, k);
      assert forall k :: Held(fp', k) ==> At(fp', k) == At(fp, k);
    }
  }

  lemma LowTermsNotIdle<C>(lp: Persistent<C>, fp: Persistent<C>, next: int)
    requires |lp.logs| > 0 && forall i :: Held(fp, i) && i <= next - 1 ==> At(fp, i).term < Last(lp).term
    ensures !GoesIdle(lp, fp, next)
  {
  }

  lemma CutKeepsMisplaced<C>(lp: Persistent<C>, fp: Persistent<C>, fp': Persistent<C>, next: int, next': int)
    requires |lp.logs| > 0 && Held(fp, next - 1) && fp.snapIndex < next' <= next - 1
    requires fp'.snapIndex == fp.snapIndex && fp'.logs == fp.logs[..Pos(fp, next - 1)]
    requires forall k :: next' <= k <= next - 1 ==> At(fp, k).term > Last(lp).term
    ensures GoesIdle(lp, fp, next) <==> GoesIdle(lp, fp', next')
  {
    forall i
      ensures Misplaced(lp, fp, next, i) <==> Misplaced(lp, fp', next', i)
    {
      assert forall k :: Held(fp', k) <==> Held(fp, k) && k < next - 1;
      assert forall k :: Held(fp', k) ==> At(fp', k) == At(fp, k);
    }
  }

  /**
   The exchange ends with the leader silent and the logs different exactly when some entry of the
   follower is misplaced; otherwise it ends with equal logs or on the snapshot path.
   */
  lemma {:induction false} ReplicateSyncs<C, D>(lp: Persistent<C>, f: Peer<C, D>, me: int, next: int, commit: int)
    requires Ready(lp, f, next)
    ensures var o := Replicate(lp, f, me, next, commit);
            && (o.Idle? <==> GoesIdle(lp, f.p, next))
            && (o.Synced? && Matching(lp, f.p) ==> |o.f.p.logs| > 0 && SameLog(lp, o.f.p))
    decreases |f.p.logs|, next - lp.snapIndex
  {
    var (f', reply, _) := Reply(lp, f, me, next, commit);
    LastIndex(lp);
    LastIndex(f.p);
    if reply.success {
      SuccessForm(lp, f, me, next, commit);
      SuccessNotIdle(lp, f, next);
      if Matching(lp, f.p) {
        SuccessSyncs(lp, f, me, next, commit);
      }
    } else {
      var next' := NextAfterReject(lp, reply, next);
      StaysReady(lp, f, me, next, commit);
      RejectionOvershoots(lp, f, me, next, commit);
      RejectionForm(lp, f, me, next, commit);
      hide Reply, NextAfterReject, Misplaced;
      if Matching(lp, f.p) {
        TruncationKeeps(lp, f.p, f'.p);
      }
      if next' > Last(lp).index {
        assert Misplaced(lp, f.p, next, next - 1) by {
          ConflictMisplaced(lp, f.p, next);
        }
      } else {
        IdleStep(lp, f, me, next, commit);
        if lp.snapIndex < next' {
          ReplicateSyncs(lp, f', me, next', commit);
        } else {
          BelowNotIdle(lp, f'.p, next');
        }
      }
    }
  }

  lemma ConflictMisplaced<C>(lp: Persistent<C>, fp: Persistent<C>, next: int)
    requires |lp.logs| > 0 && Held(fp, next - 1) && Held(lp, next - 1)
    requires At(fp, next - 1).term == Last(lp).term && At(lp, next - 1).term != Last(lp).term
    ensures Misplaced(lp, fp, next, next - 1)
  {
  }

  lemma BelowNotIdle<C>(lp: Persistent<C>, fp: Persistent<C>, next: int)
    requires |lp.logs| > 0 && next <= lp.snapIndex
    ensures !GoesIdle(lp, fp, next)
  {
  }

  lemma SuccessNotIdle<C, D>(lp: Persistent<C>, f: Peer<C, D>, next: int)
    requires Ready(lp, f, next) && Held(lp, next - 1) && Held(f.p, next - 1) && At(lp, next - 1).term == At(f.p, next - 1).term
    ensures !GoesIdle(lp, f.p, next)
  {
    LastIndex(lp);
    forall i
      ensures !Misplaced(lp, f.p, next, i)
    {
      if Held(lp, i) && Held(f.p, i) && i <= next - 1 {
        assert At(lp, next - 1).term <= Last(lp).term;
        assert At(lp, i).term <= At(lp, next - 1).term;
      }
    }
  }

  /** An entry of a term that also occurs later in the leader's log is the leader's own entry of that term. */
  ghost predicate Coherent<C>(lp: Persistent<C>, fp: Persistent<C>) {
    forall i, j :: Held(fp, i) && Held(lp, j) && Held(lp, i) && i <= j && At(fp, i).term == At(lp, j).term ==>
      At(lp, i).term == At(fp, i).term
  }

  /** Logs of a cluster with one leader for each term are coherent, and then the leader never goes idle. */
  lemma CoherentNeverIdle<C>(lp: Persistent<C>, fp: Persistent<C>, next: int)
    requires Shape(lp) && Coherent(lp, fp) && next <= Last(lp).index
    ensures !GoesIdle(lp, fp, next)
  {
    LastIndex(lp);
    assert Held(lp, Last(lp).index) && At(lp, Last(lp).index) == Last(lp);
  }

  /** A log without a snapshot whose entries, from the sentinel on, have these terms. */
  ghost predicate HasTerms<C>(p: Persistent<C>, terms: seq<int>) {
    && p.snapIndex == 0 && |p.logs| == |terms|
    && forall k {:trigger p.logs[k]} :: 0 <= k < |terms| ==> p.logs[k].term == terms[k] && p.logs[k].index == k
  }

  /** Log Matching alone does not exclude it: the follower has term 3 at index 1, the leader at index 2. */
  lemma IncoherentGoesIdle<C, D>(lp: Persistent<C>, f: Peer<C, D>, me: int, commit: int)
    requires HasTerms(lp, [0, 1, 3]) && HasTerms(f.p, [0, 3]) && f.p.currentTerm <= lp.currentTerm && 0 <= f.commitIndex
    ensures Ready(lp, f, 2) && Matching(lp, f.p) && Replicate(lp, f, me, 2, commit).Idle?
  {
    hide Replicate;
    assert Misplaced(lp, f.p, 2, 1);
    ReplicateSyncs(lp, f, me, 2, commit);
  }
}
