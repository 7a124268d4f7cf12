/**
 What clients see of a run (kvraft/server.go:79-213, kvraft/client.go:72-186): each call is a request, sent any
 number of times, and the reply of an RPC that was woken for it. These histories are linearizable.
 */
module KvRuns {
  import opened Options
  import opened History
  import opened KvModel
  import opened KvMachine
  import opened KvSystem
  import opened KvSubmitted
  import opened KvLinear
  import opened KvReplies
  import opened KvPartition
  import opened Entries
  import Checker

  // ----- Clients

  /** What a client got, when it had it, and the step that woke the RPC. */
  datatype Reply = Reply(step: nat, output: KvOutput, ret: int)

  /** A call of a clerk; times are counted in steps of the run. The request is without index and term. */
  datatype Call = Call(request: Op, call: int, reply: Option<Reply>)

  /** The step wakes an RPC for this request, whose reply the client takes for its answer; it has it after the step. */
  ghost predicate Replies(states: seq<System>, actions: seq<SysAction>, request: Op, r: Reply) {
    && r.step < |actions| && |states| == |actions| + 1 && r.step < r.ret
    && exists ctx :: Awake(states[r.step], actions[r.step], states[r.step + 1], ctx)
                     && Core(ctx.op) == request && Answer(ctx) == Some(r.output)
  }

  /** The request that Start takes in step m is one that a client had called for by then. */
  ghost predicate CalledFor(calls: seq<Call>, op: Op, m: int) {
    exists a :: 0 <= a < |calls| && calls[a].request == Core(op) && calls[a].call <= m
  }

  ghost predicate SameNumber(op: Op, op': Op) {
    op.clientId == op'.clientId && op.seqId == op'.seqId
  }

  /** The clients of a run: all its requests are theirs, no two calls share a number, and replies are the RPCs'. */
  ghost predicate Clients(states: seq<System>, actions: seq<SysAction>, calls: seq<Call>) {
    && |states| == |actions| + 1
    && (forall m, op :: 0 <= m < |actions| && op in Submitted(states[m], actions[m]) ==> CalledFor(calls, op, m))
    && (forall a, b :: 0 <= a < b < |calls| ==> !SameNumber(calls[a].request, calls[b].request))
    && (forall a :: 0 <= a < |calls| && calls[a].reply.Some? ==> Replies(states, actions, calls[a].request, calls[a].reply.value))
  }

  /** The calls as operations; one without a reply may still be going on at time end. */
  ghost function Observed(calls: seq<Call>, end: int): (ops: seq<KvOp>)
    ensures |ops| == |calls|
  {
    seq(|calls|, a requires 0 <= a < |calls| => Observe(calls[a], end))
  }

  ghost function Observe(c: Call, end: int): KvOp {
    Operation(InputOf(c.request), c.call, if c.reply.Some? then c.reply.value.output else KvOutput(""), Until(c, end))
  }

  ghost function Until(c: Call, end: int): int {
    if c.reply.Some? then c.reply.value.ret else end
  }

  ghost predicate ClientRun(g: Log, states: seq<System>, actions: seq<SysAction>, calls: seq<Call>) {
    Commands(g) && SysRun(g, states, actions) && OneRequestEach(states, actions) && Clients(states, actions, calls)
  }

  // ----- Where calls are in the log

  /** Some server has applied the first k entries after n steps. */
  ghost predicate AppliedBy(states: seq<System>, n: nat, k: int) {
    n < |states| && exists i :: 0 <= i < |states[n].kvs| && states[n].kvs[i].lastApplied >= k
  }

  /** The entry at which the call got its answer, or -1. */
  ghost function AnswerPlace(states: seq<System>, actions: seq<SysAction>, c: Call): int {
    if c.reply.Some? && c.reply.value.step < |actions| && c.reply.value.step < |states|
    then Place(states[c.reply.value.step], actions[c.reply.value.step])
    else -1
  }

  lemma {:induction false} AnsweredThere(g: Log, states: seq<System>, actions: seq<SysAction>, calls: seq<Call>, a: nat)
    requires ClientRun(g, states, actions, calls) && a < |calls| && calls[a].reply.Some?
    ensures var r, j := calls[a].reply.value, AnswerPlace(states, actions, calls[a]);
            && 0 <= j < |g| && !g[j].internal && Core(g[j].command.value) == calls[a].request
            && r.output == OutputAt(g, j) && AppliedBy(states, r.step + 1, j + 1) && r.step < r.ret
  {
    hide SysRun, OneRequestEach, Commands, Awake, Fold, Lookup, Core, Answer, GetReply, Asleep;
    var r := calls[a].reply.value;
    assert Replies(states, actions, calls[a].request, r);
    var ctx :| Awake(states[r.step], actions[r.step], states[r.step + 1], ctx)
               && Core(ctx.op) == calls[a].request && Answer(ctx) == Some(r.output);
    AnswersAreOwn(g, states, actions, r.step, ctx);
    WakesAt(g, states, actions, r.step);
  }

  /** Call a is for the request of entry i. */
  ghost predicate IsCaller(g: Log, calls: seq<Call>, a: nat, i: nat) {
    a < |calls| && i < |g| && g[i].command.Some? && calls[a].request == Core(g[i].command.value)
  }

  ghost function CallerOf(g: Log, calls: seq<Call>, i: nat): nat {
    if a: nat :| IsCaller(g, calls, a, i) then a else 0
  }

  lemma {:induction false} OneCaller(g: Log, states: seq<System>, actions: seq<SysAction>, calls: seq<Call>, a: nat, i: nat)
    requires Clients(states, actions, calls) && IsCaller(g, calls, a, i)
    ensures CallerOf(g, calls, i) == a
  {
    var b := CallerOf(g, calls, i);
    assert IsCaller(g, calls, b, i);
    assert SameNumber(calls[a].request, calls[b].request) && SameNumber(calls[b].request, calls[a].request);
  }

  /** An entry applied by step n was called for before. */
  lemma {:induction false} CalledBefore(g: Log, states: seq<System>, actions: seq<SysAction>, calls: seq<Call>, n: nat, k: int, i: nat)
    requires ClientRun(g, states, actions, calls) && AppliedBy(states, n, k) && i < k && i < |g| && !g[i].internal
    ensures var a := CallerOf(g, calls, i);
            IsCaller(g, calls, a, i) && calls[a].call < n <= |actions|
  {
    var server :| 0 <= server < |states[n].kvs| && states[n].kvs[server].lastApplied >= k;
    var m := AppliedWasSubmitted(g, states, actions, n, server, i);
    var op := g[i].command.value;
    assert CalledFor(calls, op, m);
    var a: int :| 0 <= a < |calls| && calls[a].request == Core(op) && calls[a].call <= m;
    OneCaller(g, states, actions, calls, a, i);
  }

  // ----- The calls that took effect, in the order of the log

  ghost predicate AnsweredAt(states: seq<System>, actions: seq<SysAction>, calls: seq<Call>, i: nat) {
    exists a :: 0 <= a < |calls| && AnswerPlace(states, actions, calls[a]) == i
  }

  ghost function Answered(states: seq<System>, actions: seq<SysAction>, calls: seq<Call>): nat -> bool {
    (i: nat) => AnsweredAt(states, actions, calls, i)
  }

  ghost function CallTimes(g: Log, calls: seq<Call>, end: int): Times {
    Times((i: nat) => CallTime(g, calls, i), (i: nat) => RetTime(g, calls, i, end))
  }

  ghost function CallTime(g: Log, calls: seq<Call>, i: nat): int {
    if CallerOf(g, calls, i) < |calls| then calls[CallerOf(g, calls, i)].call else 0
  }

  ghost function RetTime(g: Log, calls: seq<Call>, i: nat, end: int): int {
    if CallerOf(g, calls, i) < |calls| then Until(calls[CallerOf(g, calls, i)], end) else 0
  }

  /** For each of the first n entries that takes part, its call. */
  ghost function Took(g: Log, answered: nat -> bool, calls: seq<Call>, n: nat): seq<nat>
    requires n <= |g| && Commands(g)
  {
    if n == 0 then [] else
    Took(g, answered, calls, n - 1) + if TakesPart(g, answered, n - 1) then [CallerOf(g, calls, n - 1)] else []
  }

  /** The first n entries have been applied by some server after `last` steps, and hold every answer. */
  ghost predicate Within(g: Log, states: seq<System>, actions: seq<SysAction>, calls: seq<Call>, n: nat, last: nat) {
    && n <= |g| && (n == 0 || AppliedBy(states, last, n))
    && forall a :: 0 <= a < |calls| ==> AnswerPlace(states, actions, calls[a]) < n
  }

  lemma {:induction false} WrittenOnce(g: Log, states: seq<System>, actions: seq<SysAction>, calls: seq<Call>, a: nat, i: nat)
    requires ClientRun(g, states, actions, calls) && IsCaller(g, calls, a, i) && calls[a].reply.Some?
    requires !g[i].internal && IsWrite(g[i].command.value) && !Repeated(g, i)
    ensures calls[a].reply.value.output == KvOutput("") && AnswerPlace(states, actions, calls[a]) >= i
  {
    hide SysRun, Clients, OneRequestEach, AppliedBy, AnswerPlace;
    AnsweredThere(g, states, actions, calls, a);
    var j := AnswerPlace(states, actions, calls[a]);
    CoreFields(g[i].command.value);
    CoreFields(g[j].command.value);
    NotBefore(g, i, j);
  }

  lemma {:induction false} ReadAnswered(g: Log, states: seq<System>, actions: seq<SysAction>, calls: seq<Call>, i: nat)
    requires ClientRun(g, states, actions, calls) && AnsweredAt(states, actions, calls, i)
    ensures var a := CallerOf(g, calls, i);
            && IsCaller(g, calls, a, i) && calls[a].reply.Some? && !g[i].internal
            && calls[a].reply.value.output == OutputAt(g, i) && AnswerPlace(states, actions, calls[a]) == i
  {
    hide SysRun, OneRequestEach, AppliedBy;
    var b: int :| 0 <= b < |calls| && AnswerPlace(states, actions, calls[b]) == i;
    AnsweredThere(g, states, actions, calls, b);
    OneCaller(g, states, actions, calls, b, i);
  }

  /** The operation of an entry that takes part is what its client saw. */
  lemma {:induction false} TookOp(g: Log, states: seq<System>, actions: seq<SysAction>, calls: seq<Call>, n: nat, last: nat, i: nat)
    requires ClientRun(g, states, actions, calls) && Within(g, states, actions, calls, n, last) && i < n
    requires TakesPart(g, Answered(states, actions, calls), i)
    ensures !g[i].internal && IsCaller(g, calls, CallerOf(g, calls, i), i)
    ensures var c, t := calls[CallerOf(g, calls, i)], CallTimes(g, calls, |actions|);
            && Observe(c, |actions|) == Operation(InputOf(g[i].command.value), t.call(i), OutputAt(g, i), t.ret(i))
            && (c.reply.Some? ==> AnswerPlace(states, actions, c) >= i)
            && (!IsWrite(g[i].command.value) ==> c.reply.Some?)
  {
    CalledBefore(g, states, actions, calls, last, n, i);
    var a := CallerOf(g, calls, i);
    CoreFields(g[i].command.value);
    hide SysRun, Clients, OneRequestEach, AppliedBy, AnswerPlace, InputOf, AnsweredAt, Repeated, Fold, Lookup;
    if IsWrite(g[i].command.value) {
      if calls[a].reply.Some? {
        WrittenOnce(g, states, actions, calls, a, i);
      }
    } else {
      ReadAnswered(g, states, actions, calls, i);
    }
  }

  lemma CoreFields(op: Op)
    ensures InputOf(Core(op)) == InputOf(op) && IsWrite(Core(op)) == IsWrite(op) && SameNumber(Core(op), op)
  {
  }

  /** The same request is not before an entry that is not a repeat. */
  lemma {:induction false} NotBefore(g: Log, i: nat, j: nat)
    requires i < |g| && j < |g| && Commands(g) && !g[i].internal && !g[j].internal && !Repeated(g, i)
    requires SameNumber(g[i].command.value, g[j].command.value)
    ensures i <= j
  {
    assert From(g[i], g[i].command.value.clientId) && From(g[j], g[i].command.value.clientId);
    if j < i {
      assert SameRequest(g[j], g[i]);
    }
  }

  /** What the run itself makes sure of: no request is ahead of one answered before it was made. */
  lemma {:induction false} RunIsConsistent(g: Log, states: seq<System>, actions: seq<SysAction>, calls: seq<Call>, n: nat, last: nat)
    requires ClientRun(g, states, actions, calls) && Within(g, states, actions, calls, n, last)
    ensures Consistent(g, Answered(states, actions, calls), CallTimes(g, calls, |actions|), n)
  {
    hide TakesPart, SysRun, Clients, OneRequestEach, AppliedBy;
    var answered, t := Answered(states, actions, calls), CallTimes(g, calls, |actions|);
    forall i: nat, j: nat | i < j < n && TakesPart(g, answered, i) && TakesPart(g, answered, j)
      ensures !(t.ret(j) < t.call(i))
    {
      TookOp(g, states, actions, calls, n, last, i);
      TookOp(g, states, actions, calls, n, last, j);
      CalledBefore(g, states, actions, calls, last, n, i);
      var b := CallerOf(g, calls, j);
      if calls[b].reply.Some? {
        AnsweredThere(g, states, actions, calls, b);
        var r := calls[b].reply.value;
        CalledBefore(g, states, actions, calls, r.step + 1, AnswerPlace(states, actions, calls[b]) + 1, i);
      }
    }
  }

  lemma {:induction false} TookPicks(g: Log, states: seq<System>, actions: seq<SysAction>, calls: seq<Call>, n: nat, last: nat, k: nat)
    requires ClientRun(g, states, actions, calls) && Within(g, states, actions, calls, n, last) && k <= n
    ensures var answered, t := Answered(states, actions, calls), CallTimes(g, calls, |actions|);
            var ops, took, served := Observed(calls, |actions|), Took(g, answered, calls, k), Served(g, answered, t, k);
            && |took| == |served|
            && (forall x :: 0 <= x < |took| ==> took[x] < |calls| && served[x] == ops[took[x]])
            && (forall x :: 0 <= x < |took| ==> TookBelow(g, answered, calls, took[x], k))
  {
    hide TakesPart, ClientRun, Within, Observe, InputOf;
    if k > 0 {
      TookPicks(g, states, actions, calls, n, last, k - 1);
      WithinLog(g, states, actions, calls, n, last);
      var answered, t := Answered(states, actions, calls), CallTimes(g, calls, |actions|);
      var before := Took(g, answered, calls, k - 1);
      forall x | 0 <= x < |before|
        ensures TookBelow(g, answered, calls, before[x], k)
      {
        assert TookBelow(g, answered, calls, before[x], k - 1);
      }
      if TakesPart(g, answered, k - 1) {
        TookOp(g, states, actions, calls, n, last, k - 1);
        assert TookBelow(g, answered, calls, CallerOf(g, calls, k - 1), k);
      }
    } else {
      WithinLog(g, states, actions, calls, n, last);
    }
  }

  lemma WithinLog(g: Log, states: seq<System>, actions: seq<SysAction>, calls: seq<Call>, n: nat, last: nat)
    requires ClientRun(g, states, actions, calls) && Within(g, states, actions, calls, n, last)
    ensures n <= |g| && Commands(g)
  {
  }

  ghost predicate TookBelow(g: Log, answered: nat -> bool, calls: seq<Call>, a: nat, n: nat)
    requires n <= |g| && Commands(g)
  {
    exists i: nat :: i < n && TakesPart(g, answered, i) && CallerOf(g, calls, i) == a
  }

  /** Two entries that take part are of different calls. */
  lemma {:induction false} TookTwice(g: Log, states: seq<System>, actions: seq<SysAction>, calls: seq<Call>, n: nat, last: nat, i: nat, j: nat)
    requires ClientRun(g, states, actions, calls) && Within(g, states, actions, calls, n, last) && i < j < n
    requires TakesPart(g, Answered(states, actions, calls), i) && TakesPart(g, Answered(states, actions, calls), j)
    ensures CallerOf(g, calls, i) != CallerOf(g, calls, j)
  {
    TookOp(g, states, actions, calls, n, last, i);
    TookOp(g, states, actions, calls, n, last, j);
    CoreFields(g[i].command.value);
    CoreFields(g[j].command.value);
    hide ClientRun, Within, InputOf, Fold, Lookup;
    if CallerOf(g, calls, i) == CallerOf(g, calls, j) {
      if IsWrite(g[j].command.value) {
        NotBefore(g, j, i);
      } else {
        ReadAnswered(g, states, actions, calls, i);
        ReadAnswered(g, states, actions, calls, j);
      }
    }
  }

  lemma {:induction false} TookOnce(g: Log, states: seq<System>, actions: seq<SysAction>, calls: seq<Call>, n: nat, last: nat, k: nat)
    requires ClientRun(g, states, actions, calls) && Within(g, states, actions, calls, n, last) && k <= n
    ensures n <= |g| && Commands(g) && Ids(Took(g, Answered(states, actions, calls), calls, k), |calls|)
  {
    hide TakesPart, ClientRun, Within, Observe, Observed, InputOf, Served;
    WithinLog(g, states, actions, calls, n, last);
    TookPicks(g, states, actions, calls, n, last, k);
    if k > 0 {
      TookOnce(g, states, actions, calls, n, last, k - 1);
      TookPicks(g, states, actions, calls, n, last, k - 1);
      var answered := Answered(states, actions, calls);
      var before := Took(g, answered, calls, k - 1);
      if TakesPart(g, answered, k - 1) {
        forall x | 0 <= x < |before|
          ensures before[x] != CallerOf(g, calls, k - 1)
        {
          assert TookBelow(g, answered, calls, before[x], k - 1);
          var i: nat :| i < k - 1 && TakesPart(g, answered, i) && CallerOf(g, calls, i) == before[x];
          TookTwice(g, states, actions, calls, n, last, i, k - 1);
        }
      }
    }
  }

  /** The call got an answer, or it is a write that is among the first n entries. */
  ghost predicate Effective(g: Log, calls: seq<Call>, n: nat, a: nat)
    requires a < |calls|
  {
    calls[a].reply.Some? || (IsWrite(calls[a].request) && exists i: nat :: i < n && i < |g| && !g[i].internal && IsCaller(g, calls, a, i))
  }

  /** The first entry with the number of entry i. */
  lemma {:induction false} FirstOccurrence(g: Log, i: nat) returns (f: nat)
    requires i < |g| && Commands(g) && !g[i].internal
    ensures f <= i && !g[f].internal && !Repeated(g, f) && SameNumber(g[f].command.value, g[i].command.value)
  {
    if Repeated(g, i) {
      var j :| 0 <= j < i && SameRequest(g[j], g[i]);
      f := FirstOccurrence(g, j);
    } else {
      f := i;
    }
  }

  lemma {:induction false} TookMember(g: Log, answered: nat -> bool, calls: seq<Call>, n: nat, i: nat)
    requires n <= |g| && Commands(g) && i < n && TakesPart(g, answered, i)
    ensures CallerOf(g, calls, i) in Took(g, answered, calls, n)
  {
    hide TakesPart;
    if i < n - 1 {
      TookMember(g, answered, calls, n - 1, i);
    }
  }

  /** An entry of a write stands for its call, or an earlier one does. */
  lemma {:induction false} WriteTook(g: Log, states: seq<System>, actions: seq<SysAction>, calls: seq<Call>, n: nat, last: nat, a: nat, i: nat)
    requires ClientRun(g, states, actions, calls) && Within(g, states, actions, calls, n, last)
    requires IsCaller(g, calls, a, i) && i < n && !g[i].internal && IsWrite(calls[a].request)
    ensures n <= |g| && Commands(g) && a in Took(g, Answered(states, actions, calls), calls, n)
  {
    var f := FirstOccurrence(g, i);
    CalledBefore(g, states, actions, calls, last, n, f);
    var b := CallerOf(g, calls, f);
    CoreFields(g[f].command.value);
    CoreFields(g[i].command.value);
    assert SameNumber(calls[a].request, calls[b].request) && SameNumber(calls[b].request, calls[a].request);
    assert a == b;
    hide ClientRun, Repeated;
    TookMember(g, Answered(states, actions, calls), calls, n, f);
  }

  /** The calls taken are exactly those with an effect. */
  lemma {:induction false} TookEffective(g: Log, states: seq<System>, actions: seq<SysAction>, calls: seq<Call>, n: nat, last: nat, a: nat)
    requires ClientRun(g, states, actions, calls) && Within(g, states, actions, calls, n, last) && a < |calls|
    ensures n <= |g| && Commands(g)
    ensures a in Took(g, Answered(states, actions, calls), calls, n) <==> Effective(g, calls, n, a)
  {
    var answered := Answered(states, actions, calls);
    if a in Took(g, answered, calls, n) {
      TookPicks(g, states, actions, calls, n, last, n);
      assert TookBelow(g, answered, calls, a, n);
      hide ClientRun, Within, TakesPart;
      var i: nat :| i < n && TakesPart(g, answered, i) && CallerOf(g, calls, i) == a;
      TookOp(g, states, actions, calls, n, last, i);
      CoreFields(g[i].command.value);
    } else if Effective(g, calls, n, a) {
      EffectiveTook(g, states, actions, calls, n, last, a);
      assert false;
    }
  }

  lemma {:induction false} EffectiveTook(g: Log, states: seq<System>, actions: seq<SysAction>, calls: seq<Call>, n: nat, last: nat, a: nat)
    requires ClientRun(g, states, actions, calls) && Within(g, states, actions, calls, n, last) && a < |calls|
    requires Effective(g, calls, n, a)
    ensures n <= |g| && Commands(g) && a in Took(g, Answered(states, actions, calls), calls, n)
  {
    WithinLog(g, states, actions, calls, n, last);
    if calls[a].reply.Some? {
      AnsweredThere(g, states, actions, calls, a);
      var j := AnswerPlace(states, actions, calls[a]);
      CoreFields(g[j].command.value);
      if IsWrite(calls[a].request) {
        WriteTook(g, states, actions, calls, n, last, a, j);
      } else {
        OneCaller(g, states, actions, calls, a, j);
        assert AnsweredAt(states, actions, calls, j);
        hide ClientRun, Within, AnsweredAt, AnswerPlace;
        TookMember(g, Answered(states, actions, calls), calls, n, j);
      }
    } else {
      var i: nat :| i < n && i < |g| && !g[i].internal && IsCaller(g, calls, a, i);
      WriteTook(g, states, actions, calls, n, last, a, i);
    }
  }

  // ----- The service is linearizable

  /** An order of some of the operations that respects time and that the store allows. */
  ghost predicate LegalOrder(ops: seq<KvOp>, p: seq<nat>) {
    Ids(p, |ops|) && RespectsTime(ops, p) && Replay(STORE, ops, p).Some?
  }

  lemma {:induction false} TookIsLegal(g: Log, states: seq<System>, actions: seq<SysAction>, calls: seq<Call>, n: nat, last: nat)
    requires ClientRun(g, states, actions, calls) && Within(g, states, actions, calls, n, last)
    requires n <= |g| && Commands(g) && WritesTold(g, n)
    ensures LegalOrder(Observed(calls, |actions|), Took(g, Answered(states, actions, calls), calls, n))
  {
    hide ClientRun, Within, Observe, Consistent, WritesTold, Replay;
    var answered, t := Answered(states, actions, calls), CallTimes(g, calls, |actions|);
    var ops, took, served := Observed(calls, |actions|), Took(g, answered, calls, n), Served(g, answered, t, n);
    RunIsConsistent(g, states, actions, calls, n, last);
    LogOrderLinearizes(g, answered, t, n);
    TookPicks(g, states, actions, calls, n, last, n);
    TookOnce(g, states, actions, calls, n, last, n);
    assert Picks(ops, took, served);
    ReplayThrough(STORE, ops, took, served, Numbers(|served|));
    OrderThrough(ops, took, served, Numbers(|served|));
    assert Through(took, Numbers(|served|)) == took;
  }

  /** How far answers reach. */
  lemma {:induction false} AnswersReach(g: Log, states: seq<System>, actions: seq<SysAction>, calls: seq<Call>, k: nat) returns (n: nat, last: nat)
    requires ClientRun(g, states, actions, calls) && k <= |calls|
    ensures n <= |g| && (n == 0 || AppliedBy(states, last, n))
    ensures forall a :: 0 <= a < k ==> AnswerPlace(states, actions, calls[a]) < n
  {
    hide ClientRun, AppliedBy, Place, OutputAt;
    n, last := 0, 0;
    if k > 0 {
      n, last := AnswersReach(g, states, actions, calls, k - 1);
      var place := AnswerPlace(states, actions, calls[k - 1]);
      if place >= n {
        AnsweredThere(g, states, actions, calls, k - 1);
        n, last := place + 1, calls[k - 1].reply.value.step + 1;
      }
    }
  }

  /**
   The service is linearizable. In every run there is an order of all calls that were answered, and of some writes
   that were not, that respects time and in which the store gives every client the answer that it got.
   */
  lemma {:induction false} ServiceIsLinearizable(g: Log, states: seq<System>, actions: seq<SysAction>, calls: seq<Call>) returns (took: seq<nat>)
    requires ClientRun(g, states, actions, calls) && WritesTold(g, |g|)
    ensures LegalOrder(Observed(calls, |actions|), took)
    ensures forall a :: 0 <= a < |calls| && calls[a].reply.Some? ==> a in took
    ensures forall a :: a in took ==> calls[a].reply.Some? || IsWrite(calls[a].request)
  {
    var n, last := AnswersReach(g, states, actions, calls, |calls|);
    assert Within(g, states, actions, calls, n, last);
    assert WritesTold(g, n);
    TookIsLegal(g, states, actions, calls, n, last);
    took := Took(g, Answered(states, actions, calls), calls, n);
    hide ClientRun, Within, WritesTold, Took, LegalOrder;
    forall a: nat | a < |calls|
      ensures a in took <==> Effective(g, calls, n, a)
    {
      TookEffective(g, states, actions, calls, n, last, a);
    }
    assert Ids(took, |calls|) by {
      TookOnce(g, states, actions, calls, n, last, n);
    }
  }

  /** The history lists the calls with an effect, in any order. */
  ghost predicate Lists(g: Log, calls: seq<Call>, end: int, n: nat, ids: seq<nat>, history: seq<KvOp>) {
    && Picks(Observed(calls, end), ids, history)
    && forall a: nat :: a < |calls| ==> (a in ids <==> Effective(g, calls, n, a))
  }

  /** A legal order of exactly the operations listed is a linearization of the list. */
  lemma {:induction false} LegalListed(ops: seq<KvOp>, took: seq<nat>, ids: seq<nat>, history: seq<KvOp>)
    requires LegalOrder(ops, took) && Picks(ops, ids, history)
    requires forall a: nat :: a < |ops| ==> (a in took <==> a in ids)
    ensures Linearizable(STORE, history)
  {
    hide Replay;
    assert forall t :: 0 <= t < |took| ==> took[t] in took && took[t] in ids;
    var p := seq(|took|, t requires 0 <= t < |took| => KvPartition.IndexOf(ids, took[t]));
    assert Through(ids, p) == took;
    ReplayThrough(STORE, ops, ids, history, p);
    OrderThrough(ops, ids, history, p);
    ElementsCardinality(took, |ops|);
    ElementsCardinality(ids, |ops|);
    forall a: nat
      ensures a in Elements(took) <==> a in Elements(ids)
    {
      assert a in Elements(took) <==> a in took;
      assert a in Elements(ids) <==> a in ids;
    }
    assert Elements(took) == Elements(ids);
    assert Linearization(STORE, history, p);
  }

  /** So the history of the calls with an effect, however far one looks, is linearizable, and its calls end after they begin. */
  lemma {:induction false} HistoryIsLinearizable(g: Log, states: seq<System>, actions: seq<SysAction>, calls: seq<Call>, n: nat, last: nat, ids: seq<nat>, history: seq<KvOp>)
    requires ClientRun(g, states, actions, calls) && Within(g, states, actions, calls, n, last)
    requires n <= |g| && Commands(g) && WritesTold(g, n) && Lists(g, calls, |actions|, n, ids, history)
    ensures Linearizable(STORE, history) && Proper(history)
  {
    hide ClientRun, Within, WritesTold, LegalOrder, Linearizable, Effective, InputOf;
    TookIsLegal(g, states, actions, calls, n, last);
    var took := Took(g, Answered(states, actions, calls), calls, n);
    forall a: nat | a < |calls|
      ensures a in took <==> a in ids
    {
      TookEffective(g, states, actions, calls, n, last, a);
    }
    LegalListed(Observed(calls, |actions|), took, ids, history);
    forall x | 0 <= x < |history|
      ensures history[x].call < history[x].ret
    {
      assert ids[x] in ids;
      EffectiveIsProper(g, states, actions, calls, n, last, ids[x]);
    }
  }

  lemma {:induction false} EffectiveIsProper(g: Log, states: seq<System>, actions: seq<SysAction>, calls: seq<Call>, n: nat, last: nat, a: nat)
    requires ClientRun(g, states, actions, calls) && Within(g, states, actions, calls, n, last)
    requires a < |calls| && Effective(g, calls, n, a)
    ensures calls[a].call < Until(calls[a], |actions|)
  {
    if calls[a].reply.Some? {
      AnsweredThere(g, states, actions, calls, a);
      var j := AnswerPlace(states, actions, calls[a]);
      OneCaller(g, states, actions, calls, a, j);
      CalledBefore(g, states, actions, calls, calls[a].reply.value.step + 1, j + 1, j);
    } else {
      var i: nat :| i < n && i < |g| && !g[i].internal && IsCaller(g, calls, a, i);
      OneCaller(g, states, actions, calls, a, i);
      CalledBefore(g, states, actions, calls, last, n, i);
    }
  }

  /** So the checker never calls the clients' history of a run illegal, and without a timeout it says Ok. */
  method CheckServed(history: seq<KvOp>, schedule: Checker.Schedule, kill: nat -> nat -> bool,
                     ghost g: Log, ghost states: seq<System>, ghost actions: seq<SysAction>,
                     ghost calls: seq<Call>, ghost n: nat, ghost last: nat, ghost ids: seq<nat>)
    returns (result: Checker.CheckResult)
    requires ClientRun(g, states, actions, calls) && Within(g, states, actions, calls, n, last)
    requires n <= |g| && Commands(g) && WritesTold(g, n) && Lists(g, calls, |actions|, n, ids, history)
    requires forall k: Key :: NoTies(SubHistory(history, k))
    requires forall keys :: KeysOf(history, keys) ==> Checker.Legal(schedule, |keys|)
    ensures result != Checker.Illegal
    ensures !schedule.timeout ==> result == Checker.Ok
  {
    HistoryIsLinearizable(g, states, actions, calls, n, last, ids, history);
    var r, _, _ := Checker.CheckKv(history, false, schedule, kill);
    result := r;
  }
}
