/**
 What an RPC replies (kvraft/server.go:79-213, 237-285): the context saved under a command index belongs to the
 request that is applied there, or the RPC says ErrWrongLeader.
 */
module KvReplies {
  import opened Options
  import opened RaftCluster
  import opened KvModel
  import opened KvMachine
  import opened KvSystem
  import opened KvSubmitted
  import opened KvLinear

  /**
   Start never returned the same index and term for two requests. This is what Election Safety (section 5.2 of the
   extended Raft paper) is for here: one leader in a term gives each command index once.
   */
  ghost predicate OneRequestEach(states: seq<System>, actions: seq<SysAction>) {
    && |states| == |actions| + 1
    && forall m, m', op, op' ::
         (&& 0 <= m < |actions| && op in Submitted(states[m], actions[m])
          && 0 <= m' < |actions| && op' in Submitted(states[m'], actions[m'])
          && op.cmdIndex == op'.cmdIndex && op.term == op'.term)
         ==> op == op'
  }

  /** The step applies a command at whose index an RPC waits. */
  ghost predicate Wakes(sys: System, a: SysAction) {
    && a.Deliver? && a.server < |sys.kvs| && a.server < |sys.chans| && a.server < |sys.waiting|
    && sys.chans[a.server] != []
    && var msg, waiting := sys.chans[a.server][0], sys.waiting[a.server];
       IsNews(sys.kvs[a.server], msg) && msg.cmdIndex in waiting && !waiting[msg.cmdIndex].closed
  }

  /** The place in the log (from 0) of the entry applied. */
  ghost function Place(sys: System, a: SysAction): int {
    if Wakes(sys, a) then sys.chans[a.server][0].logIndex - 1 else -1
  }

  /** The context, as it waits. */
  ghost function Asleep(sys: System, a: SysAction): Context
    requires Wakes(sys, a)
  {
    sys.waiting[a.server][sys.chans[a.server][0].cmdIndex]
  }

  /** The same context in the next state. */
  ghost predicate Awake(sys: System, a: SysAction, sys': System, ctx: Context) {
    && Wakes(sys, a) && a.server < |sys'.waiting|
    && var c := sys.chans[a.server][0].cmdIndex;
       c in sys'.waiting[a.server] && sys'.waiting[a.server][c] == ctx
  }

  /** What the client makes of the reply: the value of a read, with no key read as the empty string; None means try again. */
  function Answer(ctx: Context): Option<KvOutput> {
    if IsWrite(ctx.op) then
      if PutReply(ctx) == OK then Some(KvOutput("")) else None
    else
      var (err, value) := GetReply(ctx);
      if err == ErrWrongLeader then None else Some(KvOutput(value))
  }

  /** A step of a run that wakes an RPC, in terms of the committed log. */
  lemma {:induction false} WakesAt(g: Log, states: seq<System>, actions: seq<SysAction>, n: nat)
    requires Commands(g) && SysRun(g, states, actions) && n < |actions| && Wakes(states[n], actions[n])
    ensures var sys, a := states[n], actions[n];
            var j := Place(sys, a);
            && 0 <= j < |g| && !g[j].internal && g[j].cmdIndex == sys.chans[a.server][0].cmdIndex
            && sys.kvs[a.server].machine == Fold(g, j)
            && a.server < |states[n + 1].kvs| && states[n + 1].kvs[a.server].lastApplied == j + 1
            && Awake(sys, a, states[n + 1], Wake(Fold(g, j), Copy(g[j].command.value, a.filled), Asleep(sys, a)))
  {
    ReachableIsGoodSystem(g, states, actions, n);
    var sys, a := states[n], actions[n];
    var i := a.server;
    assert SysFollows(g, sys, a, states[n + 1]);
    hide Good;
    assert ServerIsGood(g, sys, i);
    var kv, msg := sys.kvs[i], sys.chans[i][0];
    FoldSkipsQuiet(g, kv.lastApplied, msg.logIndex - 1);
    DeliverApplies(g, kv, sys.chans[i], sys.cluster.peers[i].commitIndex, a.filled);
  }

  /** The copy that a server reads holds the term of the entry, or 0. */
  lemma {:induction false} CopyTerm(g: Log, states: seq<System>, actions: seq<SysAction>, n: nat)
    requires Commands(g) && SysRun(g, states, actions) && n < |actions| && Wakes(states[n], actions[n])
    ensures var j := Place(states[n], actions[n]);
            && 0 <= j < |g| && !g[j].internal
            && Copy(g[j].command.value, actions[n].filled).term == if actions[n].filled then g[j].term else 0
  {
    WakesAt(g, states, actions, n);
    var j := Place(states[n], actions[n]);
    var _ := AppliedWasSubmitted(g, states, actions, n + 1, actions[n].server, j);
  }

  /**
   The RPC that is woken gets an answer exactly when the entry applied is its own request and the copy of it is
   filled in. Then the answer is the one of that entry, and a key that is not there is reported as such.
   */
  lemma {:induction false} AnswersAreOwn(g: Log, states: seq<System>, actions: seq<SysAction>, n: nat, ctx: Context)
    requires Commands(g) && SysRun(g, states, actions) && OneRequestEach(states, actions)
    requires n < |actions| && Awake(states[n], actions[n], states[n + 1], ctx)
    ensures var j := Place(states[n], actions[n]);
            && 0 <= j < |g| && !g[j].internal
            && ctx.op == Asleep(states[n], actions[n]).op
            && (Answer(ctx).Some? <==>
                !Asleep(states[n], actions[n]).wrongLeader && actions[n].filled && ctx.op == g[j].command.value)
            && (Answer(ctx).Some? ==> Answer(ctx).value == OutputAt(g, j))
            && ctx.closed
            && (Answer(ctx).Some? && !IsWrite(ctx.op) ==>
                  GetReply(ctx).0 == if ctx.op.key in Fold(g, j).store then OK else ErrNoKey)
  {
    var sys, a := states[n], actions[n];
    WakesAt(g, states, actions, n);
    var j, c := Place(sys, a), sys.chans[a.server][0].cmdIndex;
    var op := g[j].command.value;
    var m := AppliedWasSubmitted(g, states, actions, n + 1, a.server, j);
    var m' := WaitingWasSubmitted(g, states, actions, n, a.server, c);
    CopyTerm(g, states, actions, n);
    hide SysRun, Submitted, Wakes;
    if op.term == ctx.op.term {
      assert op == ctx.op;
    }
  }
}
