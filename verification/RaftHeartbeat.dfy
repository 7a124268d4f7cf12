/**
 What a follower commits in the rounds of HeartBeatToServer (raft/raft.go:480, 533-553, 770-775). A message without
 entries commits the follower's own entries and compares nothing, so that they are the leader's depends on when
 such messages are sent.
 */
module RaftHeartbeat {
  import opened Options
  import opened RaftNode
  import opened RaftCommit
  import opened RaftBackup
  import opened RaftRounds

  /** The follower's entry i, above both snapshots, is not the leader's. */
  ghost predicate Foreign<C>(lp: Persistent<C>, fp: Persistent<C>, i: int) {
    i > lp.snapIndex && i > fp.snapIndex && Held(fp, i) && !(Held(lp, i) && At(lp, i) == At(fp, i))
  }

  /** Between f and f' such an entry was committed. */
  ghost predicate CommitsForeign<C, D>(lp: Persistent<C>, f: Peer<C, D>, f': Peer<C, D>) {
    exists i :: f.commitIndex < i <= f'.commitIndex && Foreign(lp, f'.p, i)
  }

  /** One heartbeat does exactly when the follower holds one up to the leader's commitIndex. */
  lemma HeartbeatCommitsForeign<C, D>(lp: Persistent<C>, data: Option<D>, f: Peer<C, D>, me: int, next: int, commit: int)
    requires Fit(lp, f) && next > Last(lp).index && next > lp.snapIndex
    ensures CommitsForeign(lp, f, Round(lp, data, f, me, next, commit).0) <==>
            exists i :: f.commitIndex < i <= commit && Foreign(lp, f.p, i)
  {
    var f' := Round(lp, data, f, me, next, commit).0;
    HeartbeatFit(lp, f, me, commit);
    LastIndex(f.p);
    forall i
      ensures Foreign(lp, f'.p, i) <==> Foreign(lp, f.p, i)
      ensures Foreign(lp, f.p, i) ==> (f.commitIndex < i <= f'.commitIndex <==> f.commitIndex < i <= commit)
    {
    }
  }

  /** While the leader still asks, it will not fall silent too early; once it does not, the entries shared are the same. */
  ghost predicate OnTrack<C, D>(lp: Persistent<C>, f: Peer<C, D>, next: int)
    requires |lp.logs| > 0
  {
    && Matching(lp, f.p)
    && if next <= Last(lp).index then !GoesIdle(lp, f.p, next) else Agreeing(lp, f.p)
  }

  ghost predicate Agreeing<C>(lp: Persistent<C>, fp: Persistent<C>) {
    forall i :: Shared(lp, fp, i) ==> At(lp, i) == At(fp, i)
  }

  lemma AgreeingNotForeign<C, D>(lp: Persistent<C>, f: Peer<C, D>, f': Peer<C, D>)
    requires Shape(lp) && Agreeing(lp, f'.p) && f'.commitIndex <= Last(lp).index
    ensures !CommitsForeign(lp, f, f')
  {
    LastIndex(lp);
  }

  lemma NothingCommitted<C, D>(lp: Persistent<C>, f: Peer<C, D>, f': Peer<C, D>)
    requires f'.commitIndex <= f.commitIndex || f'.commitIndex <= lp.snapIndex
    ensures !CommitsForeign(lp, f, f')
  {
  }

  // ----- The rounds one by one

  ghost predicate RoundIsOwn<C, D>(lp: Persistent<C>, data: Option<D>, f: Peer<C, D>, me: int, next: int, commit: int)
    requires Fit(lp, f)
  {
    var (f', next') := Round(lp, data, f, me, next, commit);
    OnTrack(lp, f', next') && !CommitsForeign(lp, f, f')
  }

  lemma InstallIsOwn<C, D>(lp: Persistent<C>, data: Option<D>, f: Peer<C, D>, me: int, next: int, commit: int)
    requires Fit(lp, f) && OnTrack(lp, f, next) && next <= lp.snapIndex
    ensures RoundIsOwn(lp, data, f, me, next, commit)
  {
    hide OnInstall, Ascending;
    LastIndex(lp);
    InstallFit(lp, data, f, me);
    InstallForm(lp, data, f, me);
    var f' := Round(lp, data, f, me, next, commit).0;
    NothingCommitted(lp, f, f');
    var first := lp.snapIndex + 1;
    forall i
      ensures !Misplaced(lp, f'.p, first, i)
    {
    }
  }

  lemma HeartbeatIsOwn<C, D>(lp: Persistent<C>, data: Option<D>, f: Peer<C, D>, me: int, next: int, commit: int)
    requires Fit(lp, f) && OnTrack(lp, f, next) && next > Last(lp).index && next > lp.snapIndex && commit <= Last(lp).index
    ensures RoundIsOwn(lp, data, f, me, next, commit)
  {
    hide Matching, Ascending;
    HeartbeatFit(lp, f, me, commit);
    LastIndex(lp);
    var f' := Round(lp, data, f, me, next, commit).0;
    SameLogsMatch(lp, f.p, f'.p);
    if f'.commitIndex > f.commitIndex {
      AgreeingNotForeign(lp, f, f');
    } else {
      NothingCommitted(lp, f, f');
    }
  }

  lemma SameLogsMatch<C>(lp: Persistent<C>, fp: Persistent<C>, fp': Persistent<C>)
    requires fp'.logs == fp.logs && fp'.snapIndex == fp.snapIndex
    ensures Matching(lp, fp) ==> Matching(lp, fp')
    ensures Agreeing(lp, fp) ==> Agreeing(lp, fp')
  {
    forall i
      ensures Held(fp', i) <==> Held(fp, i)
      ensures Held(fp, i) ==> At(fp', i) == At(fp, i)
    {
    }
  }

  lemma BelowIsOwn<C, D>(lp: Persistent<C>, data: Option<D>, f: Peer<C, D>, me: int, next: int, commit: int)
    requires Fit(lp, f) && OnTrack(lp, f, next) && lp.snapIndex < next <= Last(lp).index && next - 1 < f.p.snapIndex
    ensures RoundIsOwn(lp, data, f, me, next, commit)
  {
    hide Matching, Ascending;
    BelowSnapshot(lp, f, me, next, commit);
    MessageFacts(lp, me, next, commit);
    var f' := Round(lp, data, f, me, next, commit).0;
    SameLogsMatch(lp, f.p, f'.p);
    NothingCommitted(lp, f, f');
    forall i
      ensures !Misplaced(lp, f'.p, 1, i)
    {
    }
  }

  lemma AcceptedIsOwn<C, D>(lp: Persistent<C>, data: Option<D>, f: Peer<C, D>, me: int, next: int, commit: int)
    requires Fit(lp, f) && OnTrack(lp, f, next) && Ready(lp, f, next) && Reply(lp, f, me, next, commit).1.success
    requires commit <= Last(lp).index
    ensures RoundIsOwn(lp, data, f, me, next, commit)
  {
    hide Matching, Ascending;
    SuccessSyncs(lp, f, me, next, commit);
    AcceptedCursor(lp, f, me, next, commit);
    var f' := Round(lp, data, f, me, next, commit).0;
    SameLogMatching(lp, f'.p);
    if f'.commitIndex > f.commitIndex {
      AgreeingNotForeign(lp, f, f');
    } else {
      NothingCommitted(lp, f, f');
    }
  }

  lemma AcceptedCursor<C, D>(lp: Persistent<C>, f: Peer<C, D>, me: int, next: int, commit: int)
    requires Ready(lp, f, next) && Reply(lp, f, me, next, commit).1.success
    ensures var f' := Reply(lp, f, me, next, commit).0;
            f'.commitIndex <= f.commitIndex || f'.commitIndex <= commit
  {
    MessageFacts(lp, me, next, commit);
  }

  lemma SameLogMatching<C>(lp: Persistent<C>, fp: Persistent<C>)
    requires |lp.logs| > 0 && |fp.logs| > 0 && SameLog(lp, fp)
    ensures Matching(lp, fp) && Agreeing(lp, fp)
  {
  }

  lemma RejectedIsOwn<C, D>(lp: Persistent<C>, data: Option<D>, f: Peer<C, D>, me: int, next: int, commit: int)
    requires Fit(lp, f) && OnTrack(lp, f, next) && Ready(lp, f, next) && !Reply(lp, f, me, next, commit).1.success
    ensures RoundIsOwn(lp, data, f, me, next, commit)
  {
    hide Matching, Ascending, Reply, NextAfterReject, Misplaced;
    LastIndex(lp);
    StaysReady(lp, f, me, next, commit);
    RejectionForm(lp, f, me, next, commit);
    RejectionOvershoots(lp, f, me, next, commit);
    var (f', next') := Round(lp, data, f, me, next, commit);
    NothingCommitted(lp, f, f');
    TruncationKeeps(lp, f.p, f'.p);
    if next' > Last(lp).index {
      ConflictMisplaced(lp, f.p, next);
      assert false;
    } else {
      IdleStep(lp, f, me, next, commit);
    }
  }

  lemma EachRoundIsOwn<C, D>(lp: Persistent<C>, data: Option<D>, f: Peer<C, D>, me: int, next: int, commit: int)
    requires Fit(lp, f) && OnTrack(lp, f, next) && commit <= Last(lp).index
    ensures RoundIsOwn(lp, data, f, me, next, commit)
  {
    hide RoundIsOwn, OnTrack, Reply;
    LastIndex(lp);
    if next <= lp.snapIndex {
      InstallIsOwn(lp, data, f, me, next, commit);
    } else if next > Last(lp).index {
      HeartbeatIsOwn(lp, data, f, me, next, commit);
    } else if next - 1 < f.p.snapIndex {
      BelowIsOwn(lp, data, f, me, next, commit);
    } else {
      FitIsReady(lp, f, next);
      if Reply(lp, f, me, next, commit).1.success {
        AcceptedIsOwn(lp, data, f, me, next, commit);
      } else {
        RejectedIsOwn(lp, data, f, me, next, commit);
      }
    }
  }

  // ----- All rounds

  /**
   Given Log Matching and coherent logs, no round, of append, snapshot or heartbeat, ever commits an entry of the
   follower that is not the leader's.
   */
  lemma {:induction false} RoundsCommitOwn<C, D>(lp: Persistent<C>, data: Option<D>, f: Peer<C, D>, me: int, next: int,
                                                 commits: nat -> int, n: nat)
    requires Fit(lp, f) && next <= Last(lp).index && Matching(lp, f.p) && Coherent(lp, f.p)
    requires forall k :: commits(k) <= Last(lp).index
    ensures !CommitsForeign(lp, After(lp, data, f, me, next, commits, 0, n).0, After(lp, data, f, me, next, commits, 0, n + 1).0)
  {
    CoherentNeverIdle(lp, f.p, next);
    TrackedCommitOwn(lp, data, f, me, next, commits, 0, n);
  }

  lemma {:induction false} TrackedCommitOwn<C, D>(lp: Persistent<C>, data: Option<D>, f: Peer<C, D>, me: int, next: int,
                                                  commits: nat -> int, from: nat, n: nat)
    requires Fit(lp, f) && OnTrack(lp, f, next) && forall k :: commits(k) <= Last(lp).index
    ensures !CommitsForeign(lp, After(lp, data, f, me, next, commits, from, n).0, After(lp, data, f, me, next, commits, from, n + 1).0)
    decreases n
  {
    hide OnTrack, Fit, After, Round, CommitsForeign;
    FitLast(lp, f);
    var commit := commits(from);
    RoundFit(lp, data, f, me, next, commit);
    EachRoundIsOwn(lp, data, f, me, next, commit);
    var (f', next') := Round(lp, data, f, me, next, commit);
    AfterSome(lp, data, f, me, next, commits, from);
    if n == 0 {
      AfterNone(lp, data, f, me, next, commits, from);
      AfterNone(lp, data, f', me, next', commits, from + 1);
    } else {
      TrackedCommitOwn(lp, data, f', me, next', commits, from + 1, n - 1);
    }
  }

  /**
   Without coherence it may: the follower's entry 1 has term 2 and the leader's has term 1. The leader falls silent
   after one rejection, and the heartbeat that follows commits the follower's entry.
   */
  lemma IncoherentCommitsForeign<C, D>(lp: Persistent<C>, data: Option<D>, f: Peer<C, D>, me: int, commits: nat -> int)
    requires HasTerms(lp, [0, 1, 1, 3]) && HasTerms(f.p, [0, 2, 3]) && f.p.currentTerm <= lp.currentTerm
    requires lp.snapTerm == 0 && f.commitIndex == 0 && commits(1) == 1
    ensures Fit(lp, f) && Matching(lp, f.p)
    ensures CommitsForeign(lp, After(lp, data, f, me, 3, commits, 0, 1).0, After(lp, data, f, me, 3, commits, 0, 2).0)
  {
    LastIndex(lp);
    LastIndex(f.p);
    IncoherentFirst(lp, data, f, me, commits(0));
    var (f1, next1) := Round(lp, data, f, me, 3, commits(0));
    HeartbeatCommitsForeign(lp, data, f1, me, next1, 1);
    assert Foreign(lp, f1.p, 1);
    AfterSome(lp, data, f, me, 3, commits, 0);
    AfterSome(lp, data, f1, me, next1, commits, 1);
    AfterNone(lp, data, f1, me, next1, commits, 1);
    var (f2, next2) := Round(lp, data, f1, me, next1, 1);
    AfterNone(lp, data, f2, me, next2, commits, 2);
  }

  lemma IncoherentFirst<C, D>(lp: Persistent<C>, data: Option<D>, f: Peer<C, D>, me: int, commit: int)
    requires HasTerms(lp, [0, 1, 1, 3]) && HasTerms(f.p, [0, 2, 3]) && f.p.currentTerm <= lp.currentTerm
    requires lp.snapTerm == 0 && f.commitIndex == 0
    ensures Fit(lp, f) && Matching(lp, f.p)
    ensures var (f1, next1) := Round(lp, data, f, me, 3, commit);
            Fit(lp, f1) && next1 == 4 && f1.p.snapIndex == 0 && f1.p.logs == f.p.logs[..2] && f1.commitIndex == 0
  {
    LastIndex(lp);
    LastIndex(f.p);
    RoundFit(lp, data, f, me, 3, commit);
    MessageFacts(lp, me, 3, commit);
  }
}
