/**
 What the leader's commit loop commits (raft/raft.go:812-856; section 5.4.2 of the
 extended Raft paper), and why two commits by quorum must share a server.
 */
module RaftCommit {
  import opened RaftNode

  /** Terms never go down along the log. */
  ghost predicate Ascending<C>(logs: seq<LogEntry<C>>) {
    forall i, j :: 0 <= i < j < |logs| ==> logs[i].term <= logs[j].term
  }

  /** Index i may be committed: it is new, acknowledged, of the current term, and held by enough servers. */
  ghost predicate Eligible<C>(p: Persistent<C>, commitIndex: int, matchIndex: seq<int>, me: nat, acked: int, i: int) {
    && commitIndex < i <= acked
    && Held(p, i)
    && At(p, i).term == p.currentTerm
    && Quorum(Holders(matchIndex, me, i), |matchIndex|)
  }

  /** Everything from i up to what was acknowledged is of the current term, so the loop gets down to i. */
  ghost predicate Reached<C>(p: Persistent<C>, acked: int, i: int) {
    forall k :: i <= k <= acked ==> Held(p, k) && At(p, k).term == p.currentTerm
  }

  /** Whatever the log, the loop finds the greatest eligible index that it reaches, or leaves commitIndex where it is. */
  lemma {:induction false} CommitsReached<C>(p: Persistent<C>, commitIndex: int, matchIndex: seq<int>, me: nat, acked: int)
    requires ScanSafe(p, commitIndex, matchIndex, me, acked)
    ensures var n := CommitPoint(p, commitIndex, matchIndex, me, acked);
            && (n != commitIndex ==> Eligible(p, commitIndex, matchIndex, me, acked, n) && Reached(p, acked, n))
            && (forall i :: Eligible(p, commitIndex, matchIndex, me, acked, i) && Reached(p, acked, i) ==> i <= n)
    decreases acked - commitIndex
  {
    if acked > commitIndex && At(p, acked).term == p.currentTerm && !Quorum(Holders(matchIndex, me, acked), |matchIndex|) {
      CommitsReached(p, commitIndex, matchIndex, me, acked - 1);
      var n := CommitPoint(p, commitIndex, matchIndex, me, acked - 1);
      forall i | Eligible(p, commitIndex, matchIndex, me, acked, i) && Reached(p, acked, i)
        ensures i <= n
      {
        assert Eligible(p, commitIndex, matchIndex, me, acked - 1, i) && Reached(p, acked - 1, i);
      }
    } else if acked > commitIndex {
      forall i | Eligible(p, commitIndex, matchIndex, me, acked, i) && Reached(p, acked, i)
        ensures i <= CommitPoint(p, commitIndex, matchIndex, me, acked)
      {
        assert At(p, acked).term == p.currentTerm;
      }
    }
  }

  /** Hence the greatest eligible index is committed exactly when no entry of another term lies above it. */
  lemma CommitsGreatestIff<C>(p: Persistent<C>, commitIndex: int, matchIndex: seq<int>, me: nat, acked: int, i: int)
    requires ScanSafe(p, commitIndex, matchIndex, me, acked)
    requires Eligible(p, commitIndex, matchIndex, me, acked, i)
    requires forall k :: Eligible(p, commitIndex, matchIndex, me, acked, k) ==> k <= i
    ensures CommitPoint(p, commitIndex, matchIndex, me, acked) == i <==> Reached(p, acked, i)
  {
    CommitsReached(p, commitIndex, matchIndex, me, acked);
  }

  /** Where terms never go down, the loop finds the greatest eligible index, or leaves commitIndex where it is. */
  lemma {:induction false} CommitsGreatest<C>(p: Persistent<C>, commitIndex: int, matchIndex: seq<int>, me: nat, acked: int)
    requires Ascending(p.logs) && ScanSafe(p, commitIndex, matchIndex, me, acked)
    requires acked > commitIndex ==> At(p, acked).term <= p.currentTerm
    ensures var n := CommitPoint(p, commitIndex, matchIndex, me, acked);
            && (n != commitIndex ==> Eligible(p, commitIndex, matchIndex, me, acked, n))
            && (forall i :: Eligible(p, commitIndex, matchIndex, me, acked, i) ==> i <= n)
  {
    CommitsReached(p, commitIndex, matchIndex, me, acked);
    forall i | Eligible(p, commitIndex, matchIndex, me, acked, i)
      ensures Reached(p, acked, i)
    {
      forall k | i <= k <= acked
        ensures Held(p, k) && At(p, k).term == p.currentTerm
      {
        assert p.logs[Pos(p, i)].term <= p.logs[Pos(p, k)].term || i == k;
        assert p.logs[Pos(p, k)].term <= p.logs[Pos(p, acked)].term || k == acked;
      }
    }
  }

  // ----- When the commit loops read outside the log

  /** The indexes that the follower's loop reads. */
  ghost predicate Reads<C, D>(s: Peer<C, D>, leaderCommit: int, k: int)
    requires |s.p.logs| > 0
  {
    s.commitIndex < k <= leaderCommit && k <= Last(s.p).index
  }

  /** The follower's loop reads outside its log exactly when it has something to do and starts below the sentinel. */
  lemma FollowerReadsInside<C, D>(s: Peer<C, D>, leaderCommit: int)
    requires Shape(s.p)
    ensures (forall k :: Reads(s, leaderCommit, k) ==> Held(s.p, k)) <==>
            !(leaderCommit > s.commitIndex && s.commitIndex + 1 < s.p.snapIndex)
  {
    LastIndex(s.p);
    if leaderCommit > s.commitIndex && s.commitIndex + 1 < s.p.snapIndex {
      assert Reads(s, leaderCommit, s.commitIndex + 1) && !Held(s.p, s.commitIndex + 1);
    }
  }

  /**
   The leader's loop, from an acknowledged entry that it holds, reads outside its log exactly when
   its cursor is below the sentinel and it does not meet an entry of another term before a quorum.
   */
  lemma {:induction false} LeaderReadsInside<C>(p: Persistent<C>, commitIndex: int, matchIndex: seq<int>, me: nat, acked: int)
    requires acked > commitIndex ==> Held(p, acked)
    ensures ScanSafe(p, commitIndex, matchIndex, me, acked) <==>
            p.snapIndex <= commitIndex + 1 || acked <= commitIndex || exists i :: StopsAt(p, matchIndex, me, acked, i)
    decreases acked - commitIndex
  {
    if acked > commitIndex {
      if At(p, acked).term != p.currentTerm {
        assert StopsAt(p, matchIndex, me, acked, acked);
      } else if !Quorum(Holders(matchIndex, me, acked), |matchIndex|) {
        if acked - 1 > commitIndex && !Held(p, acked - 1) {
          assert acked == p.snapIndex;
          forall i
            ensures !StopsAt(p, matchIndex, me, acked, i)
          {
          }
        } else {
          var below := acked - 1;
          LeaderReadsInside(p, commitIndex, matchIndex, me, below);
          forall i
            ensures StopsAt(p, matchIndex, me, acked, i) <==> StopsAt(p, matchIndex, me, below, i)
          {
          }
        }
      } else {
        forall i
          ensures !StopsAt(p, matchIndex, me, acked, i)
        {
        }
      }
    }
  }

  /** The scan from `acked` down meets an entry of another term at i, and no quorum before. */
  ghost predicate StopsAt<C>(p: Persistent<C>, matchIndex: seq<int>, me: nat, acked: int, i: int) {
    && i <= acked && Held(p, i) && At(p, i).term != p.currentTerm
    && forall k :: i < k <= acked ==> !Quorum(Holders(matchIndex, me, k), |matchIndex|)
  }

  // ----- What is sent to the application

  ghost predicate Strictly<C, D>(out: seq<ApplyMsg<C, D>>) {
    && (forall k :: 0 <= k < |out| ==> out[k].CommandMsg?)
    && (forall j, k :: 0 <= j < k < |out| ==> out[j].logIndex < out[k].logIndex)
  }

  /** Exactly the entries in between that are not internal, once each and in order. */
  lemma {:induction false} EmitsExactly<C, D>(p: Persistent<C>, lo: int, hi: int)
    requires Shape(p) && forall i :: lo <= i <= hi ==> Held(p, i)
    ensures var out: seq<ApplyMsg<C, D>> := Emit(p, lo, hi);
            && Strictly(out)
            && (forall k :: 0 <= k < |out| ==>
                  && lo <= out[k].logIndex <= hi
                  && var e := At(p, out[k].logIndex);
                     !e.internal && out[k] == CommandMsg(e.command, e.cmdIndex, e.index))
            && (forall i :: lo <= i <= hi && !At(p, i).internal ==>
                  CommandMsg(At(p, i).command, At(p, i).cmdIndex, i) in out)
    decreases hi - lo
  {
    if lo <= hi {
      EmitsExactly<C, D>(p, lo, hi - 1);
      LastIndex(p);
      assert Held(p, hi);
    }
  }

  // ----- Quorums

  lemma {:induction false} BelowCard(s: set<nat>, n: nat)
    requires forall x :: x in s ==> x < n
    ensures |s| <= n
  {
    if n == 0 {
      assert s == {};
    } else {
      BelowCard(s - {n - 1}, n - 1);
    }
  }

  ghost predicate Servers(s: set<nat>, n: nat) {
    forall x :: x in s ==> x < n
  }

  ghost predicate QuorumsMeet(n: nat) {
    forall a, b :: Servers(a, n) && Servers(b, n) && Quorum(a, n) && Quorum(b, n) ==> a * b != {}
  }

  ghost function Range(lo: nat, hi: nat): (s: set<nat>)
    requires lo <= hi
    ensures |s| == hi - lo && forall x :: x in s <==> lo <= x < hi
    decreases hi - lo
  {
    if lo == hi then {} else {hi - 1} + Range(lo, hi - 1)
  }

  /** (n + 1) / 2 servers are a majority exactly when the cluster is odd. */
  lemma QuorumsMeetIffOdd(n: nat)
    ensures QuorumsMeet(n) <==> n % 2 == 1
  {
    if n % 2 == 1 {
      forall a, b | Servers(a, n) && Servers(b, n) && Quorum(a, n) && Quorum(b, n)
        ensures a * b != {}
      {
        BelowCard(a + b, n);
        assert |a + b| + |a * b| == |a| + |b|;
      }
    } else {
      var a, b := Range(0, n / 2), Range(n / 2, n);
      assert Servers(a, n) && Servers(b, n) && Quorum(a, n) && Quorum(b, n);
      assert a * b == {};
    }
  }
}
