/**
 The key/value server as the source writes it (kvraft/server.go): an object whose
 applyMsgLoop changes the store, the table of requests and the contexts of the
 RPCs that wait for their entry to be committed.
 */
module KvServer {
  import opened Options
  import opened RaftNode
  import opened KvModel
  import opened KvMachine
  import opened KvSystem

  /** An RPC that waits; closing its channel is setting `closed`. */
  class OpContext {
    const op: Op
    var closed: bool
    var wrongLeader: bool
    var ignored: bool
    var keyExist: bool
    var value: string

    constructor (op: Op)
      ensures View() == NewContext(op) && !ignored
    {
      this.op := op;
      closed, wrongLeader, ignored, keyExist, value := false, false, false, false, "";
    }

    function View(): Context
      reads this
    {
      Context(op, closed, wrongLeader, keyExist, value)
    }

    /** What the Get handler replies once its channel is closed. */
    method GetReply() returns (err: Err, reply: string)
      requires closed
      ensures (err, reply) == KvSystem.GetReply(View())
    {
      err, reply := OK, "";
      if wrongLeader {
        err := ErrWrongLeader;
      } else if !keyExist {
        err := ErrNoKey;
      } else {
        reply := value;
      }
    }

    /** What the PutAppend handler replies. */
    method PutReply() returns (err: Err)
      requires closed
      ensures err == KvSystem.PutReply(View())
    {
      err := OK;
      if wrongLeader {
        err := ErrWrongLeader;
      }
    }
  }

  class KVServer {
    var kvStore: Store
    var seqMap: map<int, int>
    var cmdMap: map<int, OpContext>
    var lastAppliedIndex: int

    constructor ()
      ensures View() == Kv(EMPTY, 0) && cmdMap == map[]
    {
      kvStore, seqMap, cmdMap, lastAppliedIndex := map[], map[], map[], 0;
    }

    function View(): Kv
      reads this
    {
      Kv(Machine(kvStore, seqMap), lastAppliedIndex)
    }

    /** The waiting RPC of a command index, if any. */
    ghost function Waiting(cmdIndex: int): set<OpContext>
      reads this
    {
      if cmdIndex in cmdMap then {cmdMap[cmdIndex]} else {}
    }

    /** The context is saved under the index that Raft promised. */
    method Register(op: Op, cmdIndex: int) returns (ctx: OpContext)
      modifies this`cmdMap
      ensures fresh(ctx) && ctx.View() == NewContext(op)
      ensures cmdMap == old(cmdMap)[cmdIndex := ctx]
    {
      ctx := new OpContext(op);
      cmdMap := cmdMap[cmdIndex := ctx];
    }

    /** The RPC is over: its context goes, unless a later RPC has taken its place. */
    method Unregister(ctx: OpContext, cmdIndex: int)
      modifies this`cmdMap
      ensures cmdMap == if cmdIndex in old(cmdMap) && old(cmdMap)[cmdIndex] == ctx then old(cmdMap) - {cmdIndex} else old(cmdMap)
    {
      if cmdIndex in cmdMap && cmdMap[cmdIndex] == ctx {
        cmdMap := cmdMap - {cmdIndex};
      }
    }

    method ApplyWrite(op: Op)
      requires IsWrite(op)
      modifies this`kvStore
      ensures kvStore == Write(old(kvStore), op)
    {
      if op.kind == PUT {
        kvStore := kvStore[op.key := op.value];
      } else if op.kind == APPEND {
        if op.key in kvStore {
          kvStore := kvStore[op.key := kvStore[op.key] + op.value];
        } else {
          kvStore := kvStore[op.key := op.value];
        }
      }
    }

    /** Panics when the context that it wakes has been closed before. */
    method ApplyCommand(op: Op, cmdIndex: int, logIndex: int) returns (panics: bool)
      modifies this`kvStore, this`seqMap, this`lastAppliedIndex, Waiting(cmdIndex)
      ensures View() == Apply(old(View()), CommandMsg(Some(op), cmdIndex, logIndex))
      ensures panics <==> logIndex > old(lastAppliedIndex) && exists ctx :: ctx in Waiting(cmdIndex) && old(ctx.closed)
      ensures forall ctx :: ctx in Waiting(cmdIndex) ==>
                if logIndex <= old(lastAppliedIndex) then ctx.View() == old(ctx.View()) && ctx.ignored == old(ctx.ignored)
                else
                  && ctx.View() == Wake(old(View()).machine, op, old(ctx.View()))
                  && ctx.ignored == (old(ctx.ignored) || (IsWrite(op) && !Fresh(old(View()).machine, op)))
    {
      panics := false;
      if logIndex <= lastAppliedIndex {
        return;
      }
      lastAppliedIndex := logIndex;
      var existOp := cmdIndex in cmdMap;
      var existSeq := op.clientId in seqMap;
      var prevSeq := if existSeq then seqMap[op.clientId] else 0;
      seqMap := seqMap[op.clientId := op.seqId];
      if existOp {
        if op.term != cmdMap[cmdIndex].op.term {
          cmdMap[cmdIndex].wrongLeader := true;
        }
      }
      if op.kind == PUT || op.kind == APPEND {
        if !existSeq || op.seqId > prevSeq {
          ApplyWrite(op);
        } else if existOp {
          cmdMap[cmdIndex].ignored := true;
        }
      } else if existOp {
        cmdMap[cmdIndex].value, cmdMap[cmdIndex].keyExist := Lookup(kvStore, op.key), op.key in kvStore;
      }
      if existOp {
        panics := cmdMap[cmdIndex].closed;
        cmdMap[cmdIndex].closed := true;
      }
    }

    method InstallSnapshot(data: Option<Machine>, snapIndex: int, snapTerm: int, snapCmdIndex: int)
      modifies this`kvStore, this`seqMap, this`lastAppliedIndex
      ensures View() == Apply(old(View()), SnapshotMsg(data, snapIndex, snapTerm, snapCmdIndex))
    {
      if snapIndex <= lastAppliedIndex {
        return;
      }
      lastAppliedIndex := snapIndex;
      if data.None? {
        kvStore := map[];
        seqMap := map[];
      } else {
        kvStore := kvStore + data.value.store;
        seqMap := seqMap + data.value.seqs;
      }
    }

    /** What snapshotLoop encodes while it holds the lock. */
    method EncodeState() returns (snap: Captured)
      ensures snap == Captured(View().machine, View().lastApplied)
    {
      snap := Captured(Machine(kvStore, seqMap), lastAppliedIndex);
    }
  }

  /**
   A server that follows the committed log applies the entry of a read, of which it reads a copy, and the RPC that
   waits at the command index replies: with the value of its own key if the entry is its own request and the copy is
   filled in, and otherwise that the client should try elsewhere. The server still follows the log. That two requests
   do not share index and term is what `OneRequestEach` says of a run.
   */
  method AnswerRead(kv: KVServer, ctx: OpContext, ghost g: Log, k: nat, cmdIndex: int, op: Op, ghost filled: bool)
    returns (err: Err, reply: string)
    requires Commands(g) && 1 <= k <= |g| && !g[k - 1].internal && op == Copy(g[k - 1].command.value, filled) && !IsWrite(op)
    requires 0 <= kv.lastAppliedIndex < k && kv.View().machine == Fold(g, kv.lastAppliedIndex)
    requires Quiet(g, kv.lastAppliedIndex, k - 1)
    requires cmdIndex in kv.cmdMap && kv.cmdMap[cmdIndex] == ctx && !ctx.closed && !ctx.wrongLeader && ctx.op.term > 0
    requires ctx.op.term == g[k - 1].command.value.term ==> ctx.op == g[k - 1].command.value
    modifies kv`kvStore, kv`seqMap, kv`lastAppliedIndex, ctx
    ensures kv.View() == Kv(Fold(g, k), k)
    ensures err == if !(filled && ctx.op == g[k - 1].command.value) then ErrWrongLeader
                   else if ctx.op.key in Fold(g, k - 1).store then OK else ErrNoKey
    ensures reply == if err == ErrWrongLeader then "" else Lookup(Fold(g, k - 1).store, ctx.op.key)
  {
    FoldSkipsQuiet(g, kv.lastAppliedIndex, k - 1);
    ExecReadsCore(kv.View().machine, op, g[k - 1].command.value);
    var panics := kv.ApplyCommand(op, cmdIndex, k);
    assert !panics;
    assert ctx in kv.Waiting(cmdIndex) && ctx.View().closed;
    err, reply := ctx.GetReply();
  }
}
