/**
 The rounds of HeartBeatToServer (raft/raft.go:741-760, 764-966): a leader whose log stays as it
 is, and a follower that hears from it only, round after round of AppendEntries or
 InstallSnapshot. When does the leader get to the end of its log?
 */
module RaftRounds {
  import opened Options
  import opened RaftNode
  import opened RaftCommit
  import opened RaftBackup

  /** Terms rise from 0, and sentinels agree. */
  ghost predicate Fit<C, D>(lp: Persistent<C>, f: Peer<C, D>) {
    && Shape(lp) && Shape(f.p) && f.p.snapIndex <= f.commitIndex + 1 && f.p.currentTerm <= lp.currentTerm
    && 0 <= lp.snapIndex && 0 <= lp.logs[0].term == lp.snapTerm && 0 <= f.p.logs[0].term
    && SentinelAgrees(lp, f.p) && Ascending(lp.logs) && Ascending(f.p.logs)
  }

  function InstallMessage<C, D>(lp: Persistent<C>, data: Option<D>, me: int): InstallArgs<D> {
    InstallArgs(lp.currentTerm, me, lp.snapIndex, lp.snapTerm, lp.snapCmdIndex, data)
  }

  function Heartbeat<C>(lp: Persistent<C>, me: int, commit: int): AppendArgs<C> {
    AppendArgs(lp.currentTerm, me, -1, -1, [], commit)
  }

  /** One round: the follower and nextIndex after it. */
  ghost function Round<C, D>(lp: Persistent<C>, data: Option<D>, f: Peer<C, D>, me: int, next: int, commit: int): (Peer<C, D>, int)
    requires Fit(lp, f)
  {
    if next <= lp.snapIndex then (OnInstall(f, InstallMessage(lp, data, me)).0, lp.snapIndex + 1)
    else if next > Last(lp).index then (OnAppend(f, Heartbeat(lp, me, commit)).0, next)
    else
      var (f', reply, _) := Reply(lp, f, me, next, commit);
      (f', if reply.success then Last(lp).index + 1 else NextAfterReject(lp, reply, next))
  }

  // ----- A round is what the handlers do

  /** nextIndex for the peer, in a leader's state. */
  ghost predicate Leads<C, D>(l: Peer<C, D>, peer: nat, next: int) {
    && l.leader.Some? && |l.leader.value.nextIndex| == |l.leader.value.matchIndex|
    && peer < |l.leader.value.nextIndex| && l.leader.value.nextIndex[peer] == next
  }

  lemma InstallRound<C, D>(l: Peer<C, D>, f: Peer<C, D>, me: nat, peer: nat, next: int)
    requires Fit(l.p, f) && Leads(l, peer, next) && next <= l.p.snapIndex
    ensures var args := NextInstall(l, me);
            var (f', term, _) := OnInstall(f, args);
            && args == InstallMessage(l.p, l.snapshot, me)
            && f' == Round(l.p, l.snapshot, f, me, next, l.commitIndex).0
            && InstallReplyExpected(l, peer, args, term)
            && var l' := OnInstallReply(l, peer, args, term);
               l'.p == l.p && Leads(l', peer, Round(l.p, l.snapshot, f, me, next, l.commitIndex).1)
  {
  }

  lemma AppendRound<C, D>(l: Peer<C, D>, f: Peer<C, D>, me: nat, peer: nat, next: int)
    requires Fit(l.p, f) && Leads(l, peer, next) && l.p.snapIndex < next && l.p.snapIndex <= l.commitIndex + 1
    requires me < |l.leader.value.nextIndex| && me != peer
    ensures var message := NextAppend(l, me, peer);
            && message.Some? && Contiguous(message.value) && AppendSafe(f, message.value)
            && (next > Last(l.p).index ==> message.value == Heartbeat(l.p, me, l.commitIndex))
            && var (f', reply, _) := OnAppend(f, message.value);
               && f' == Round(l.p, l.snapshot, f, me, next, l.commitIndex).0
               && ReplyExpected(l, me, peer, message.value, reply)
               && var l' := OnAppendReply(l, me, peer, message.value, reply).0;
                  l'.p == l.p && Leads(l', peer, Round(l.p, l.snapshot, f, me, next, l.commitIndex).1)
  {
    LastIndex(l.p);
    var args := NextAppend(l, me, peer).value;
    if next <= Last(l.p).index {
      MessageIsNextAppend(l, me, peer);
      MessageFacts(l.p, me, next, l.commitIndex);
      var acked := Last(l.p).index;
      assert args.entries[|args.entries| - 1] == Last(l.p);
      LeaderReadsInside(l.p, l.commitIndex, l.leader.value.matchIndex[peer := acked], me, acked);
    }
  }

  // ----- Round after round

  /** What a snapshot from the leader leaves: nothing new, the rest of the log, or a sentinel only. */
  ghost predicate Installed<C>(lp: Persistent<C>, fp: Persistent<C>, fp': Persistent<C>)
    requires |fp.logs| > 0
  {
    if lp.snapIndex <= fp.snapIndex then fp'.snapIndex == fp.snapIndex && fp'.logs == fp.logs
    else
      && fp'.snapIndex == lp.snapIndex && |fp'.logs| > 0
      && fp'.logs[0].term == lp.snapTerm && fp'.logs[0].index == lp.snapIndex
      && (|fp'.logs| > 1 ==>
            Held(fp, lp.snapIndex) && At(fp, lp.snapIndex).term == lp.snapTerm && fp'.logs[1..] == fp.logs[Pos(fp, lp.snapIndex) + 1..])
  }

  lemma InstallForm<C, D>(lp: Persistent<C>, data: Option<D>, f: Peer<C, D>, me: int)
    requires Shape(f.p) && f.p.currentTerm <= lp.currentTerm
    ensures var f' := OnInstall(f, InstallMessage(lp, data, me)).0;
            && Installed(lp, f.p, f'.p)
            && f'.p.currentTerm == lp.currentTerm
            && f'.commitIndex == (if lp.snapIndex <= f.p.snapIndex then f.commitIndex else lp.snapIndex)
  {
    LastIndex(f.p);
  }

  lemma InstalledEntry<C>(lp: Persistent<C>, fp: Persistent<C>, fp': Persistent<C>, i: int)
    requires |fp.logs| > 0 && Installed(lp, fp, fp') && Held(fp', i) && i > fp'.snapIndex
    ensures Held(fp, i) && At(fp', i) == At(fp, i)
  {
    if lp.snapIndex > fp.snapIndex {
      assert At(fp', i) == fp'.logs[1..][Pos(fp', i) - 1];
    }
  }

  lemma InstalledShape<C>(lp: Persistent<C>, fp: Persistent<C>, fp': Persistent<C>)
    requires Shape(fp) && Ascending(fp.logs) && Installed(lp, fp, fp')
    ensures Shape(fp') && Ascending(fp'.logs)
  {
    if lp.snapIndex > fp.snapIndex {
      var d := Pos(fp, lp.snapIndex);
      forall k | 0 < k < |fp'.logs|
        ensures d + k < |fp.logs| && fp'.logs[k] == fp.logs[d + k]
      {
        assert fp'.logs[k] == fp'.logs[1..][k - 1];
      }
      forall i, j | 0 <= i < j < |fp'.logs|
        ensures fp'.logs[i].term <= fp'.logs[j].term
      {
        assert fp.logs[d + i].term <= fp.logs[d + j].term;
      }
    }
  }

  lemma InstalledMatches<C>(lp: Persistent<C>, fp: Persistent<C>, fp': Persistent<C>)
    requires |fp.logs| > 0 && Installed(lp, fp, fp') && Matching(lp, fp)
    ensures Matching(lp, fp')
  {
    hide Installed, Matching;
    assert forall i, j :: Held(lp, i) && Held(fp', i) && At(lp, i).term == At(fp', i).term && j <= i && Shared(lp, fp', j) ==>
        At(lp, j) == At(fp', j) by {
      forall i, j | Held(lp, i) && Held(fp', i) && At(lp, i).term == At(fp', i).term && j <= i && Shared(lp, fp', j)
        ensures At(lp, j) == At(fp', j)
      {
        InstalledEntry(lp, fp, fp', i);
        InstalledEntry(lp, fp, fp', j);
        InstalledAbove(lp, fp, fp');
        MatchingBelow(lp, fp, i, j);
      }
    }
    MatchingFrom(lp, fp');
  }

  lemma InstalledAbove<C>(lp: Persistent<C>, fp: Persistent<C>, fp': Persistent<C>)
    requires |fp.logs| > 0 && Installed(lp, fp, fp')
    ensures fp'.snapIndex >= fp.snapIndex
  {
  }

  lemma MatchingFrom<C>(lp: Persistent<C>, fp: Persistent<C>)
    requires forall i, j :: Held(lp, i) && Held(fp, i) && At(lp, i).term == At(fp, i).term && j <= i && Shared(lp, fp, j) ==>
               At(lp, j) == At(fp, j)
    ensures Matching(lp, fp)
  {
  }

  /** A round keeps the two fit. */
  lemma InstallFit<C, D>(lp: Persistent<C>, data: Option<D>, f: Peer<C, D>, me: int)
    requires Fit(lp, f)
    ensures var f' := OnInstall(f, InstallMessage(lp, data, me)).0;
            && Fit(lp, f')
            && (lp.snapIndex > f.p.snapIndex ==> f'.p.snapIndex == lp.snapIndex)
            && (lp.snapIndex <= f.p.snapIndex ==> f'.p.snapIndex == f.p.snapIndex && f'.p.logs == f.p.logs)
            && (Matching(lp, f.p) ==> Matching(lp, f'.p))
  {
    hide OnInstall, Shape, Ascending, Matching;
    LastIndex(f.p);
    InstallForm(lp, data, f, me);
    var f' := OnInstall(f, InstallMessage(lp, data, me)).0;
    InstalledShape(lp, f.p, f'.p);
    if Matching(lp, f.p) {
      InstalledMatches(lp, f.p, f'.p);
    }
  }

  lemma HeartbeatFit<C, D>(lp: Persistent<C>, f: Peer<C, D>, me: int, commit: int)
    requires Fit(lp, f)
    ensures var f' := OnAppend(f, Heartbeat(lp, me, commit)).0;
            Fit(lp, f') && f'.p.logs == f.p.logs && f'.p.snapIndex == f.p.snapIndex
  {
  }

  lemma SuccessFit<C, D>(lp: Persistent<C>, f: Peer<C, D>, me: int, next: int, commit: int)
    requires Fit(lp, f) && Ready(lp, f, next) && Reply(lp, f, me, next, commit).1.success
    ensures Fit(lp, Reply(lp, f, me, next, commit).0)
  {
    SuccessForm(lp, f, me, next, commit);
    MessageFacts(lp, me, next, commit);
    LastIndex(lp);
    LastIndex(f.p);
    var f' := Reply(lp, f, me, next, commit).0;
    var pos, n := Pos(f.p, next - 1), Pos(lp, next);
    assert f'.commitIndex >= f.commitIndex && f'.p.currentTerm == lp.currentTerm;
    JoinAscends(f.p.logs, pos, lp.logs, n);
  }

  lemma JoinAscends<C>(a: seq<LogEntry<C>>, pos: nat, b: seq<LogEntry<C>>, n: nat)
    requires Ascending(a) && Ascending(b) && pos < |a| && 0 < n <= |b| && a[pos].term == b[n - 1].term
    ensures Ascending(a[..pos + 1] + b[n..])
  {
    var c := a[..pos + 1] + b[n..];
    forall i, j | 0 <= i < j < |c|
      ensures c[i].term <= c[j].term
    {
      if i <= pos < j {
        assert a[i].term <= a[pos].term || i == pos;
        assert c[j] == b[n + (j - pos - 1)];
        assert b[n - 1].term <= b[n + (j - pos - 1)].term;
      } else if i > pos {
        assert c[i] == b[n + (i - pos - 1)] && c[j] == b[n + (j - pos - 1)];
      }
    }
  }

  /** Below the follower's snapshot the follower rejects and nothing of its log changes. */
  lemma BelowSnapshot<C, D>(lp: Persistent<C>, f: Peer<C, D>, me: int, next: int, commit: int)
    requires Fit(lp, f) && lp.snapIndex < next <= Last(lp).index && next - 1 < f.p.snapIndex
    ensures var (f', reply, _) := Reply(lp, f, me, next, commit);
            && !reply.success && NextAfterReject(lp, reply, next) == 1
            && f'.p.logs == f.p.logs && f'.p.snapIndex == f.p.snapIndex && Fit(lp, f')
  {
    MessageFacts(lp, me, next, commit);
  }

  lemma FitIsReady<C, D>(lp: Persistent<C>, f: Peer<C, D>, next: int)
    requires Fit(lp, f) && lp.snapIndex < next <= Last(lp).index && f.p.snapIndex <= next - 1
    ensures Ready(lp, f, next)
  {
  }

  lemma PrefixFit<C, D>(lp: Persistent<C>, f: Peer<C, D>, f': Peer<C, D>)
    requires Fit(lp, f) && f'.p.snapIndex == f.p.snapIndex && f'.p.logs <= f.p.logs && f'.p.logs != []
    requires f'.p.currentTerm == lp.currentTerm && f'.commitIndex == f.commitIndex
    ensures Fit(lp, f')
  {
  }

  lemma RoundFit<C, D>(lp: Persistent<C>, data: Option<D>, f: Peer<C, D>, me: int, next: int, commit: int)
    requires Fit(lp, f)
    ensures Fit(lp, Round(lp, data, f, me, next, commit).0)
  {
    hide Ascending, SentinelAgrees;
    if next <= lp.snapIndex {
      InstallFit(lp, data, f, me);
    } else if next > Last(lp).index {
      HeartbeatFit(lp, f, me, commit);
    } else if next - 1 < f.p.snapIndex {
      BelowSnapshot(lp, f, me, next, commit);
    } else {
      FitIsReady(lp, f, next);
      if Reply(lp, f, me, next, commit).1.success {
        SuccessFit(lp, f, me, next, commit);
      } else {
        StaysReady(lp, f, me, next, commit);
        PrefixFit(lp, f, Reply(lp, f, me, next, commit).0);
      }
    }
  }

  /** The follower and nextIndex after n rounds; commits(k) is the leader's commitIndex in round k. */
  ghost function After<C, D>(lp: Persistent<C>, data: Option<D>, f: Peer<C, D>, me: int, next: int, commits: nat -> int,
                             from: nat, n: nat): (r: (Peer<C, D>, int))
    requires Fit(lp, f)
    ensures Fit(lp, r.0)
    decreases n
  {
    if n == 0 then (f, next) else
    RoundFit(lp, data, f, me, next, commits(from));
    var (f', next') := Round(lp, data, f, me, next, commits(from));
    After(lp, data, f', me, next', commits, from + 1, n - 1)
  }

  /**
   A leader that holds an entry besides its sentinel, whose snapshot is older than the follower's, and that asks about
   an entry inside the follower's snapshot, never gets any further: it is rejected, nextIndex goes to 1, its snapshot is
   ignored, nextIndex comes back to the first entry it has, and so on for ever.
   */
  lemma {:induction false} Livelock<C, D>(lp: Persistent<C>, data: Option<D>, f: Peer<C, D>, me: int, next: int,
                                          commits: nat -> int, from: nat, n: nat)
    requires Fit(lp, f) && next <= Last(lp).index
    requires next - 1 < f.p.snapIndex && lp.snapIndex < f.p.snapIndex && lp.snapIndex < Last(lp).index
    ensures var (f', next') := After(lp, data, f, me, next, commits, from, n);
            && f'.p.logs == f.p.logs && f'.p.snapIndex == f.p.snapIndex
            && next' <= Last(lp).index && next' - 1 < f.p.snapIndex
    decreases n
  {
    hide Ascending, Shape, SentinelAgrees;
    if n > 0 {
      var commit := commits(from);
      LastIndex(lp);
      LastIndex(f.p);
      RoundFit(lp, data, f, me, next, commit);
      var (f', next') := Round(lp, data, f, me, next, commit);
      if next <= lp.snapIndex {
        InstallFit(lp, data, f, me);
      } else {
        BelowSnapshot(lp, f, me, next, commit);
      }
      Livelock(lp, data, f', me, next', commits, from + 1, n - 1);
    }
  }

  /** Once the follower has the leader's snapshot, the next append is accepted. */
  lemma AtLeadersSnapshot<C, D>(lp: Persistent<C>, f: Peer<C, D>, me: int, commit: int)
    requires Fit(lp, f) && f.p.snapIndex == lp.snapIndex && lp.snapIndex < Last(lp).index
    ensures Ready(lp, f, lp.snapIndex + 1) && Reply(lp, f, me, lp.snapIndex + 1, commit).1.success
  {
    MessageFacts(lp, me, lp.snapIndex + 1, commit);
    LastIndex(lp);
    LastIndex(f.p);
  }

  /** The leader asks at or above the follower's snapshot, or its own is at least as new, or it holds nothing else. */
  ghost predicate CanEnd<C, D>(lp: Persistent<C>, f: Peer<C, D>, next: int)
    requires |lp.logs| > 0
  {
    next - 1 >= f.p.snapIndex || lp.snapIndex >= f.p.snapIndex || lp.snapIndex == Last(lp).index
  }

  /** From the snapshot path two rounds are enough. */
  lemma SnapshotPathEnds<C, D>(lp: Persistent<C>, data: Option<D>, f: Peer<C, D>, me: int, next: int, commits: nat -> int, from: nat)
    requires Fit(lp, f) && next <= lp.snapIndex < Last(lp).index && CanEnd(lp, f, next)
    ensures After(lp, data, f, me, next, commits, from, 1).1 <= Last(lp).index
    ensures After(lp, data, f, me, next, commits, from, 2).1 > Last(lp).index
    ensures Matching(lp, f.p) ==> SameLog(lp, After(lp, data, f, me, next, commits, from, 2).0.p)
  {
    hide Matching, SameLog;
    InstallFit(lp, data, f, me);
    var (f1, next1) := Round(lp, data, f, me, next, commits(from));
    AtLeadersSnapshot(lp, f1, me, commits(from + 1));
    RoundFit(lp, data, f1, me, next1, commits(from + 1));
    var r := Round(lp, data, f1, me, next1, commits(from + 1));
    if Matching(lp, f.p) {
      SuccessSyncs(lp, f1, me, next1, commits(from + 1));
    }
    assert After(lp, data, f1, me, next1, commits, from + 1, 0) == (f1, next1);
    assert After(lp, data, r.0, me, r.1, commits, from + 2, 0) == r;
    assert After(lp, data, f1, me, next1, commits, from + 1, 1) == r;
  }

  /** With nothing but a sentinel one round is enough. */
  lemma SentinelEnds<C, D>(lp: Persistent<C>, data: Option<D>, f: Peer<C, D>, me: int, next: int, commits: nat -> int, from: nat)
    requires Fit(lp, f) && next <= lp.snapIndex == Last(lp).index
    ensures After(lp, data, f, me, next, commits, from, 1).1 > Last(lp).index
  {
    RoundFit(lp, data, f, me, next, commits(from));
    var (f', next') := Round(lp, data, f, me, next, commits(from));
    assert After(lp, data, f', me, next', commits, from + 1, 0) == (f', next');
  }

  /**
   The rounds end, at round n for the first time: nothing is left to send, and, where the leader holds entries, the
   logs are the same unless it went idle.
   */
  lemma {:induction false} RoundsEnd<C, D>(lp: Persistent<C>, data: Option<D>, f: Peer<C, D>, me: int, next: int,
                                           commits: nat -> int, from: nat) returns (n: nat)
    requires Fit(lp, f) && next <= Last(lp).index && CanEnd(lp, f, next)
    ensures After(lp, data, f, me, next, commits, from, n).1 > Last(lp).index
    ensures forall m: nat :: m < n ==> After(lp, data, f, me, next, commits, from, m).1 <= Last(lp).index
    ensures Matching(lp, f.p) && lp.snapIndex < Last(lp).index ==>
              (SameLog(lp, After(lp, data, f, me, next, commits, from, n).0.p) <==> !GoesIdle(lp, f.p, next))
    decreases |f.p.logs|, next
  {
    hide Matching, SameLog, GoesIdle, After, Round, Fit;
    var commit := commits(from);
    FitLast(lp, f);
    AfterNone(lp, data, f, me, next, commits, from);
    RoundFit(lp, data, f, me, next, commit);
    var (f', next') := Round(lp, data, f, me, next, commit);
    AfterSome(lp, data, f, me, next, commits, from);
    if next <= lp.snapIndex == Last(lp).index {
      n := 1;
      SentinelEnds(lp, data, f, me, next, commits, from);
    } else if next <= lp.snapIndex {
      n := 2;
      SnapshotPathEnds(lp, data, f, me, next, commits, from);
      BelowNotIdle(lp, f.p, next);
    } else if next' > Last(lp).index {
      n := 1;
      FirstRoundEnds(lp, data, f, me, next, commit);
      AfterNone(lp, data, f', me, next', commits, from + 1);
    } else {
      RoundGoesOn(lp, data, f, me, next, commit);
      var k := RoundsEnd(lp, data, f', me, next', commits, from + 1);
      n := k + 1;
    }
  }

  lemma FitLast<C, D>(lp: Persistent<C>, f: Peer<C, D>)
    requires Fit(lp, f)
    ensures |lp.logs| > 0 && |f.p.logs| > 0 && 0 <= lp.snapIndex <= Last(lp).index
  {
    LastIndex(lp);
  }

  lemma AfterNone<C, D>(lp: Persistent<C>, data: Option<D>, f: Peer<C, D>, me: int, next: int, commits: nat -> int, from: nat)
    requires Fit(lp, f)
    ensures After(lp, data, f, me, next, commits, from, 0) == (f, next)
  {
  }

  lemma AfterSome<C, D>(lp: Persistent<C>, data: Option<D>, f: Peer<C, D>, me: int, next: int, commits: nat -> int, from: nat)
    requires Fit(lp, f)
    ensures var (f', next') := Round(lp, data, f, me, next, commits(from));
            && Fit(lp, f')
            && forall n: nat :: n > 0 ==>
                 After(lp, data, f, me, next, commits, from, n) == After(lp, data, f', me, next', commits, from + 1, n - 1)
  {
    hide Round, Fit;
    RoundFit(lp, data, f, me, next, commits(from));
  }

  /** The first round is the last: an append that is accepted, or a rejection that overshoots. */
  lemma FirstRoundEnds<C, D>(lp: Persistent<C>, data: Option<D>, f: Peer<C, D>, me: int, next: int, commit: int)
    requires Fit(lp, f) && lp.snapIndex < next <= Last(lp).index && CanEnd(lp, f, next)
    requires Round(lp, data, f, me, next, commit).1 > Last(lp).index
    ensures |Round(lp, data, f, me, next, commit).0.p.logs| > 0
    ensures Matching(lp, f.p) ==> (SameLog(lp, Round(lp, data, f, me, next, commit).0.p) <==> !GoesIdle(lp, f.p, next))
  {
    hide Matching, SameLog, GoesIdle, Reply;
    FitIsReady(lp, f, next);
    OneRoundEnds(lp, f, me, next, commit);
  }

  /** After a rejection that stays within the log, the rest of the rounds is as before. */
  lemma RoundGoesOn<C, D>(lp: Persistent<C>, data: Option<D>, f: Peer<C, D>, me: int, next: int, commit: int)
    requires Fit(lp, f) && lp.snapIndex < next <= Last(lp).index && CanEnd(lp, f, next)
    requires Round(lp, data, f, me, next, commit).1 <= Last(lp).index
    ensures var (f', next') := Round(lp, data, f, me, next, commit);
            && CanEnd(lp, f', next') && (|f'.p.logs| < |f.p.logs| || (|f'.p.logs| == |f.p.logs| && next' < next))
            && (GoesIdle(lp, f.p, next) <==> GoesIdle(lp, f'.p, next'))
            && (Matching(lp, f.p) ==> Matching(lp, f'.p))
  {
    hide Matching, GoesIdle, Reply, NextAfterReject;
    FitIsReady(lp, f, next);
    LastIndex(lp);
    StaysReady(lp, f, me, next, commit);
    IdleStep(lp, f, me, next, commit);
    var f' := Round(lp, data, f, me, next, commit).0;
    if Matching(lp, f.p) {
      TruncationKeeps(lp, f.p, f'.p);
    }
  }

  lemma OneRoundEnds<C, D>(lp: Persistent<C>, f: Peer<C, D>, me: int, next: int, commit: int)
    requires Ready(lp, f, next)
    requires var (f', reply, _) := Reply(lp, f, me, next, commit);
             reply.success || NextAfterReject(lp, reply, next) > Last(lp).index
    ensures |Reply(lp, f, me, next, commit).0.p.logs| > 0
    ensures Matching(lp, f.p) ==> (SameLog(lp, Reply(lp, f, me, next, commit).0.p) <==> !GoesIdle(lp, f.p, next))
  {
    LastIndex(lp);
    LastIndex(f.p);
    var (f', reply, _) := Reply(lp, f, me, next, commit);
    if reply.success {
      SuccessForm(lp, f, me, next, commit);
      SuccessNotIdle(lp, f, next);
      if Matching(lp, f.p) {
        SuccessSyncs(lp, f, me, next, commit);
      }
    } else {
      RejectionOvershoots(lp, f, me, next, commit);
      RejectionForm(lp, f, me, next, commit);
      hide Reply, NextAfterReject;
      ConflictMisplaced(lp, f.p, next);
      assert Last(f'.p) == f.p.logs[Pos(f.p, next - 2)];
    }
  }

  /**
   The leader gets to the end of its log exactly when it asks at or above the follower's snapshot,
   or its own snapshot is at least as new, or it holds nothing besides its sentinel.
   */
  lemma RoundsEndIff<C, D>(lp: Persistent<C>, data: Option<D>, f: Peer<C, D>, me: int, next: int, commits: nat -> int)
    requires Fit(lp, f) && next <= Last(lp).index
    ensures (exists n: nat :: After(lp, data, f, me, next, commits, 0, n).1 > Last(lp).index) <==> CanEnd(lp, f, next)
  {
    if CanEnd(lp, f, next) {
      var n := RoundsEnd(lp, data, f, me, next, commits, 0);
    } else {
      LastIndex(lp);
      forall n: nat
        ensures After(lp, data, f, me, next, commits, 0, n).1 <= Last(lp).index
      {
        Livelock(lp, data, f, me, next, commits, 0, n);
      }
    }
  }
}
