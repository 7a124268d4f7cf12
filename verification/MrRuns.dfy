/**
 Every run of a MapReduce job, and what it leaves (mr/master.go, mr/worker.go): finished work
 stays finished, the output is that of the sequential program, and the job can always be finished.
 */
module MrRuns {
  import opened Seqs
  import Sorting
  import opened MapReduce
  import opened Master
  import opened MrSystem

  // ----- Every run

  lemma StepKeeps(j: Job, s: Sys, step: Step, s': Sys)
    requires GoodJob(j) && Good(j, s) && Next(j, s, step, s')
    ensures Good(j, s')
  {
    hide Good, Next;
    match step
    case Request(reply) => RequestKeeps(j, s, reply, s');
    case WriteFile(x, y) => WriteKeeps(j, s, x, y, s');
    case ReportMap(x, buckets) => ReportMapKeeps(j, s, x, buckets, s');
    case RunReduce(k, contents, results) => RunReduceKeeps(j, s, k, contents, results, s');
    case ReportReduce(k) => ReportReduceKeeps(j, s, k, s');
    case TimerMap(x) => TimerMapKeeps(j, s, x, s');
    case TimerReduce(k) => TimerReduceKeeps(j, s, k, s');
  }

  ghost function Begin(j: Job): Sys {
    Sys(Start(j.files), {}, [], map[], map[], {})
  }

  /** The number of an input is its place among the inputs, unless it is named again later. */
  lemma {:induction false} NumberedIs(files: seq<string>, x: nat)
    requires x < |files| && files[x] !in files[x + 1..]
    ensures files[x] in Numbered(files) && Numbered(files)[files[x]] == x + 1
  {
    var n := |files| - 1;
    if x < n {
      assert files[n] == files[x + 1..][n - x - 1];
      assert files[n] != files[x];
      assert forall i :: x + 1 <= i < n ==> files[i] == files[x + 1..][i - x - 1];
      NumberedIs(files[..n], x);
    }
  }

  lemma {:induction false} NumberedKeys(files: seq<string>)
    ensures forall f :: f in Numbered(files) <==> f in files
  {
    if files != [] {
      NumberedKeys(files[..|files| - 1]);
      assert files == files[..|files| - 1] + [files[|files| - 1]];
    }
  }

  /** Each input gets its own map task exactly when no input is named twice. */
  lemma {:induction false} OneTaskPerInput(files: seq<string>)
    ensures NoRepeats(files) <==>
            forall x: nat :: x < |files| ==> files[x] in Numbered(files) && Numbered(files)[files[x]] == x + 1
  {
    if NoRepeats(files) {
      forall x: nat | x < |files|
        ensures files[x] in Numbered(files) && Numbered(files)[files[x]] == x + 1
      {
        NumberedIs(files, x);
      }
    }
  }

  lemma BeginIsGood(j: Job)
    requires GoodJob(j)
    ensures Good(j, Begin(j))
  {
    var s := Begin(j);
    NumberedKeys(j.files);
    forall x: nat | Kept(j, x)
      ensures j.files[x] in s.m.mapTask && s.m.mapTask[j.files[x]] == x + 1
    {
      NumberedIs(j.files, x);
    }
    assert j.files != [] ==> j.files[0] in s.m.mapTask;
    assert forall x: nat :: !Done(j, s.m, x);
    assert forall b :: !Produced(j, s.m, b);
    assert forall f, b :: !IsFile(j, s.m, f, b);
  }

  ghost predicate Run(j: Job, states: seq<Sys>, steps: seq<Step>)
    requires GoodJob(j)
  {
    && |states| == |steps| + 1 && states[0] == Begin(j)
    && forall i :: 0 <= i < |steps| ==> Next(j, states[i], steps[i], states[i + 1])
  }

  lemma {:induction false} ReachableIsGood(j: Job, states: seq<Sys>, steps: seq<Step>, i: nat)
    requires GoodJob(j) && Run(j, states, steps) && i < |states|
    ensures Good(j, states[i])
  {
    hide Good, Next;
    if i == 0 {
      BeginIsGood(j);
    } else {
      ReachableIsGood(j, states, steps, i - 1);
      StepKeeps(j, states[i - 1], steps[i - 1], states[i]);
    }
  }

  // ----- What it means

  /** The phases: a reduce task is given out only when every input is finished, with every file of its bucket. */
  lemma ReduceTasksAreComplete(j: Job, states: seq<Sys>, steps: seq<Step>, i: nat, k: nat, x: nat)
    requires GoodJob(j) && Run(j, states, steps) && i < |states|
    requires k < |states[i].reduces| && x < |j.files|
    ensures states[i].m.isMapDone && j.files[x] !in states[i].m.mapTask
    ensures var a := states[i].reduces[k];
            a.bucket >= 0 && (FileOf(x, a.bucket) in Names(a.tasks) <==> Writes(j, x, a.bucket))
  {
    hide FilesGood, OutputsGood, BucketsGood, Next;
    ReachableIsGood(j, states, steps, i);
    var s, a := states[i], states[i].reduces[k];
    TaskIsFile(j, s.m, a, 0);
    if Writes(j, x, a.bucket) {
      WritesKept(j, x, a.bucket);
      assert Done(j, s.m, x);
      assert IsFile(j, s.m, FileOf(x, a.bucket), a.bucket);
    }
    if FileOf(x, a.bucket) in Names(a.tasks) {
      var x': nat :| Done(j, s.m, x') && Writes(j, x', a.bucket) && FileOf(x, a.bucket) == FileOf(x', a.bucket);
      FileTells(x, a.bucket, x', a.bucket);
    }
  }

  /** A bucket that was reported is not waiting, and neither is any of its files. */
  lemma ReportedIsGone(j: Job, s: Sys, b: int, x: nat)
    requires GoodJob(j) && Good(j, s) && b in s.reported
    ensures b !in s.m.reduceBucket
    ensures b >= 0 ==> FileOf(x, b) !in s.m.reduceTask
  {
    hide FilesGood, OutputsGood, AssignmentGood, PhaseGood, MapsGood, IsFile;
    if b >= 0 && FileOf(x, b) in s.m.reduceTask {
      var b' :| IsFile(j, s.m, FileOf(x, b), b') && b' !in s.reported;
      FileOfOther(j, s.m, FileOf(x, b), b', x, b);
    }
  }

  /** When the master says that the job is done, every input is finished and every bucket it wrote to is reported. */
  lemma DoneMeansReported(j: Job, states: seq<Sys>, steps: seq<Step>, i: nat, x: nat, y: nat)
    requires GoodJob(j) && Run(j, states, steps) && i < |states|
    requires states[i].m.isReduceDone && Writes(j, x, y)
    ensures j.files[x] !in states[i].m.mapTask && y in states[i].reported && y in states[i].outputs
  {
    hide FilesGood, BucketsGood, AssignmentGood, Next;
    ReachableIsGood(j, states, steps, i);
    NothingWaits(j, states[i].m, states[i].reported);
    WritesKept(j, x, y);
    assert Done(j, states[i].m, x);
    assert Produced(j, states[i].m, y);
  }

  lemma StepForgetsNothing(j: Job, s: Sys, step: Step, s': Sys)
    requires GoodJob(j) && Good(j, s) && Next(j, s, step, s')
    ensures s'.m.mapTask.Keys <= s.m.mapTask.Keys && s.reported <= s'.reported
  {
    hide BucketsGood, FilesGood, MapsGood, AssignmentGood, OutputsGood, PhaseGood, MapFinished, FilesWaiting, WrittenFrom, Writes;
    if step.ReportMap? {
      ReportForgetsNothing(j, s, step.x, step.buckets);
    }
  }

  lemma ReportForgetsNothing(j: Job, s: Sys, x: nat, buckets: seq<int>)
    requires GoodJob(j) && Kept(j, x) && Lists(j, x, buckets)
    ensures MapFinished(s.m, FinishTask(j.files[x], x + 1, buckets)).mapTask.Keys <= s.m.mapTask.Keys
  {
    if s.m.isMapDone {
      MapReportIgnored(s.m, FinishTask(j.files[x], x + 1, buckets));
    } else {
      MapFinishedDoes(j, s.m, x, buckets);
    }
  }

  lemma {:induction false} RunForgetsNothing(j: Job, states: seq<Sys>, steps: seq<Step>, i: nat, k: nat)
    requires GoodJob(j) && Run(j, states, steps) && i <= k < |states|
    ensures states[k].m.mapTask.Keys <= states[i].m.mapTask.Keys && states[i].reported <= states[k].reported
    decreases k
  {
    hide Next, Good;
    if i < k {
      RunForgetsNothing(j, states, steps, i, k - 1);
      ReachableIsGood(j, states, steps, k - 1);
      StepForgetsNothing(j, states[k - 1], steps[k - 1], states[k]);
    }
  }

  /**
   Whatever duplicate reports, late timers and repeated requests follow, a finished input
   never comes back as a map task, and a finished bucket never comes back as a reduce task.
   */
  lemma FinishedStaysFinished(j: Job, states: seq<Sys>, steps: seq<Step>, i: nat, k: nat)
    requires GoodJob(j) && Run(j, states, steps) && i <= k < |states|
    ensures forall f :: f !in states[i].m.mapTask ==> f !in states[k].m.mapTask
    ensures forall b :: b in states[i].reported ==> b !in states[k].m.reduceBucket
    ensures forall b: int, x: nat :: b in states[i].reported && b >= 0 ==> FileOf(x, b) !in states[k].m.reduceTask
  {
    hide Good, Next;
    RunForgetsNothing(j, states, steps, i, k);
    ReachableIsGood(j, states, steps, k);
    forall b | b in states[i].reported
      ensures b !in states[k].m.reduceBucket
    {
      ReportedIsGone(j, states[k], b, 0);
    }
    forall b: int, x: nat | b in states[i].reported && b >= 0
      ensures FileOf(x, b) !in states[k].m.reduceTask
    {
      ReportedIsGone(j, states[k], b, x);
    }
  }

  // ----- The output

  /** The files mr-out-0, mr-out-1, ...; a bucket that got nothing has no file. */
  ghost function Outputs(j: Job, s: Sys): seq<seq<Result>>
    requires GoodJob(j)
  {
    seq(j.nReduce, b requires 0 <= b < j.nReduce => if b + 1 in s.outputs then s.outputs[b + 1] else [])
  }

  ghost function Buckets(j: Job): seq<seq<KeyValue>>
    requires GoodJob(j)
  {
    seq(j.nReduce, b requires 0 <= b < j.nReduce => InBucket(Flatten(Docs(j)), j.hash, j.nReduce, b + 1))
  }

  lemma {:induction false} NothingForBucket(docs: seq<seq<KeyValue>>, hash: string -> nat, nReduce: nat, y: nat)
    requires nReduce > 0 && forall x :: 0 <= x < |docs| ==> InBucket(docs[x], hash, nReduce, y) == []
    ensures InBucket(Flatten(docs), hash, nReduce, y) == []
  {
    if docs != [] {
      NothingForBucket(docs[..|docs| - 1], hash, nReduce, y);
      InBucketConcat(Flatten(docs[..|docs| - 1]), docs[|docs| - 1], hash, nReduce, y);
    }
  }

  lemma {:induction false} ReachableIsRight(j: Job, states: seq<Sys>, steps: seq<Step>, i: nat)
    requires GoodJob(j) && OrderFree(j.reducef) && Run(j, states, steps) && i < |states|
    ensures OutputsRight(j, states[i])
  {
    hide Good, Next, OrderFree;
    if i > 0 {
      ReachableIsRight(j, states, steps, i - 1);
      ReachableIsGood(j, states, steps, i - 1);
      OutputsStayRight(j, states[i - 1], steps[i - 1], states[i]);
    }
  }

  /** The master says that it is done only when every bucket has its output. */
  lemma OutputReduces(j: Job, s: Sys, b: nat)
    requires GoodJob(j) && Good(j, s) && OutputsRight(j, s) && s.m.isReduceDone && b < j.nReduce
    ensures Reduces(Outputs(j, s)[b], Buckets(j)[b], j.reducef)
  {
    hide FilesGood, AssignmentGood, BucketsGood, Reduces, InBucket, Flatten, IsFile;
    if b + 1 !in s.outputs {
      NothingWaits(j, s.m, s.reported);
      forall x: nat | x < |Docs(j)|
        ensures InBucket(Docs(j)[x], j.hash, j.nReduce, b + 1) == []
      {
        assert !Produced(j, s.m, b + 1);
        assert Kept(j, x) ==> Done(j, s.m, x);
        if Writes(j, x, b + 1) {
          WritesKept(j, x, b + 1);
        }
        assert !Writes(j, x, b + 1);
      }
      NothingForBucket(Docs(j), j.hash, j.nReduce, b + 1);
      NothingReduces(j.reducef);
    }
  }

  lemma NothingReduces(reducef: Reducer)
    ensures Reduces([], [], reducef)
  {
  }

  /**
   The main theorem. In every run, with any number of workers, crashes, duplicates and
   timeouts, when the master says that the job is done, the output files together hold the
   lines that the sequential program prints for the same inputs, each named once, in some order.
   */
  lemma DoneMeansSequential(j: Job, states: seq<Sys>, steps: seq<Step>, i: nat, sequential: seq<Result>)
    requires GoodJob(j) && OrderFree(j.reducef) && Run(j, states, steps) && i < |states|
    requires states[i].m.isReduceDone && Reduces(sequential, Flatten(Docs(j)), j.reducef)
    ensures multiset(Flatten(Outputs(j, states[i]))) == multiset(sequential)
    ensures multiset(Lines(Flatten(Outputs(j, states[i])))) == multiset(Lines(sequential))
  {
    hide Good, Next, OrderFree, Reduces, Flatten, InBucket, OutputsRight;
    ReachableIsGood(j, states, steps, i);
    ReachableIsRight(j, states, steps, i);
    forall b | 0 <= b < j.nReduce
      ensures Reduces(Outputs(j, states[i])[b], Buckets(j)[b], j.reducef)
    {
      OutputReduces(j, states[i], b);
    }
    DistributedIsSequential(Flatten(Docs(j)), j.hash, j.nReduce, j.reducef, Buckets(j), Outputs(j, states[i]), sequential);
    LinesCounted(Flatten(Outputs(j, states[i])), sequential);
  }

  /** If no input is named twice, all of them count. */
  lemma DistinctInputsCount(j: Job)
    requires GoodJob(j) && NoRepeats(j.files)
    ensures Docs(j) == j.docs
  {
    forall x | 0 <= x < |j.docs|
      ensures Kept(j, x)
    {
    }
  }

  /** A job whose Map yields nothing at all never ends. */
  lemma {:induction false} EmptyJobNeverEnds(j: Job, states: seq<Sys>, steps: seq<Step>, i: nat)
    requires GoodJob(j) && Run(j, states, steps) && i < |states|
    requires forall x: nat, y: nat :: !Writes(j, x, y)
    ensures !states[i].m.isReduceDone
  {
    hide Good, Writes;
    if i > 0 {
      EmptyJobNeverEnds(j, states, steps, i - 1);
      ReachableIsGood(j, states, steps, i - 1);
      StepNeedsWork(j, states[i - 1], steps[i - 1], states[i]);
    }
  }

  lemma StepNeedsWork(j: Job, s: Sys, step: Step, s': Sys)
    requires GoodJob(j) && Good(j, s) && Next(j, s, step, s') && !s.m.isReduceDone
    requires forall x: nat, y: nat :: !Writes(j, x, y)
    ensures !s'.m.isReduceDone
  {
    hide FilesGood, OutputsGood, BucketsGood, MapsGood, Writes;
    match step
    case ReportReduce(k) =>
      TaskIsFile(j, s.m, s.reduces[k], 0);
      assert false;
    case ReportMap(x, buckets) =>
      if !s.m.isMapDone {
        assert Kept(j, x);
        MapFinishedDoes(j, s.m, x, buckets);
      }
    case _ =>
  }

  // ----- The job can always be finished

  ghost predicate GivenOut(s: Sys, b: int) {
    exists k :: 0 <= k < |s.reduces| && s.reduces[k].bucket == b
  }

  /** What is marked as being with a worker was given to one, and the master notices when nothing is left. */
  ghost predicate TasksKnown(j: Job, s: Sys) {
    && MapsKnown(j, s.m, s.maps)
    && (forall b :: b in s.m.reduceBucket && !s.m.reduceBucket[b] ==> GivenOut(s, b))
    && (s.reported != {} && s.m.reduceTask == map[] ==> s.m.isReduceDone)
  }

  lemma GivenGrows(s: Sys, s': Sys, b: int)
    requires GivenOut(s, b) && s.reduces <= s'.reduces
    ensures GivenOut(s', b)
  {
    var k :| 0 <= k < |s.reduces| && s.reduces[k].bucket == b;
    assert s'.reduces[k].bucket == b;
  }

  lemma RequestKnows(j: Job, s: Sys, reply: Reply, s': Sys)
    requires GoodJob(j) && Good(j, s) && TasksKnown(j, s) && Next(j, s, Request(reply), s')
    ensures TasksKnown(j, s')
  {
    hide Good, TasksKnown, FilesWaiting, AssignReduce, AssignMap;
    match reply
    case NoTask =>
      if s'.m != s.m {
        var b: int :| b > 0 && BucketWaits(s.m, b) && FilesWaiting(s.m, b) == {} && s'.m == AssignReduce(s.m, b);
        NotEmptyHanded(j, s, b);
        assert false;
      }
      assert s' == s;
    case MapReply(task) => MapReplyKnows(j, s, task, s');
    case ReduceReply(b0, tasks) => ReduceReplyKnows(j, s, b0, tasks, s');
  }

  lemma NotEmptyHanded(j: Job, s: Sys, b: int)
    requires GoodJob(j) && Good(j, s) && b > 0 && b in s.m.reduceBucket && s.m.reduceBucket[b]
    ensures FilesWaiting(s.m, b) != {}
  {
    hide BucketsGood;
    WaitingIsAll(j, s.m, s.reported, b);
  }

  /** Every map task that is marked as given out has been. */
  ghost predicate MapsKnown(j: Job, m: State, maps: set<nat>) {
    forall x: nat :: Kept(j, x) && j.files[x] in m.mapTask && m.mapTask[j.files[x]] < 0 ==> x in maps
  }

  lemma MapsKnownSame(j: Job, m: State, m': State, maps: set<nat>)
    requires MapsKnown(j, m, maps) && m'.mapTask == m.mapTask
    ensures MapsKnown(j, m', maps)
  {
  }

  lemma AssignMapKnown(j: Job, m: State, maps: set<nat>, task: AssignTask)
    requires MapsGood(j, m) && MapsKnown(j, m, maps) && task.fileName in m.mapTask && task.taskId == m.mapTask[task.fileName] > 0
    ensures MapsKnown(j, AssignMap(m, task.fileName), maps + Given(j, MapReply(task)))
  {
    hide Kept, MapsGood;
    var x := WaitsFor(j, m, task.fileName);
    var m' := AssignMap(m, task.fileName);
    forall x': nat | Kept(j, x') && x' < |j.files| && j.files[x'] in m'.mapTask && m'.mapTask[j.files[x']] < 0
      ensures x' in maps + Given(j, MapReply(task))
    {
      if j.files[x'] == task.fileName {
        KeptOnce(j, x, x');
      }
    }
    KeptInside(j);
  }

  lemma KeptInside(j: Job)
    ensures forall x: nat :: Kept(j, x) ==> x < |j.files|
  {
  }

  lemma MapReplyKnows(j: Job, s: Sys, task: AssignTask, s': Sys)
    requires GoodJob(j) && Good(j, s) && TasksKnown(j, s) && Next(j, s, Request(MapReply(task)), s')
    ensures TasksKnown(j, s')
  {
    hide FilesGood, AssignmentGood, GivenOut, OutputsGood, BucketsGood, PhaseGood, MapsGood, MapsKnown, GivenGood, Given;
    AssignMapKnown(j, s.m, s.maps, task);
    forall b | b in s'.m.reduceBucket && !s'.m.reduceBucket[b]
      ensures GivenOut(s', b)
    {
      GivenGrows(s, s', b);
    }
  }

  lemma ReduceReplyKnows(j: Job, s: Sys, b0: int, tasks: seq<AssignTask>, s': Sys)
    requires GoodJob(j) && Good(j, s) && TasksKnown(j, s) && Next(j, s, Request(ReduceReply(b0, tasks)), s')
    ensures TasksKnown(j, s')
  {
    hide Good, GivenOut, Kept, FilesWaiting;
    forall b | b in s'.m.reduceBucket && !s'.m.reduceBucket[b]
      ensures GivenOut(s', b)
    {
      if b == b0 {
        LastGiven(s', b);
      } else {
        GivenGrows(s, s', b);
      }
    }
    assert s.m.reduceTask.Keys == s'.m.reduceTask.Keys;
  }

  lemma LastGiven(s: Sys, b: int)
    requires s.reduces != [] && s.reduces[|s.reduces| - 1].bucket == b
    ensures GivenOut(s, b)
  {
  }

  lemma FinishKnown(j: Job, m: State, m': State, maps: set<nat>, x: nat)
    requires MapsKnown(j, m, maps) && x < |j.files| && m'.mapTask == m.mapTask - {j.files[x]}
    ensures MapsKnown(j, m', maps)
  {
  }

  lemma ReportMapKnows(j: Job, s: Sys, x: nat, buckets: seq<int>, s': Sys)
    requires GoodJob(j) && Good(j, s) && TasksKnown(j, s) && Next(j, s, ReportMap(x, buckets), s')
    ensures TasksKnown(j, s')
  {
    hide MapFinished, AssignmentGood, OutputsGood, BucketsGood, FilesGood, MapsGood, PhaseGood, MapsKnown, GivenOut;
    if s.m.isMapDone {
      MapReportIgnored(s.m, FinishTask(j.files[x], x + 1, buckets));
    } else {
      ReportCountsKnows(j, s, x, buckets, s');
    }
  }

  lemma ReportCountsKnows(j: Job, s: Sys, x: nat, buckets: seq<int>, s': Sys)
    requires GoodJob(j) && PhaseGood(s) && TasksKnown(j, s) && !s.m.isMapDone && Kept(j, x) && Lists(j, x, buckets)
    requires s' == s.(m := MapFinished(s.m, FinishTask(j.files[x], x + 1, buckets)))
    ensures TasksKnown(j, s')
  {
    hide MapFinished, FinishesOnly, MapsKnown, GivenOut, Writes, WrittenBy, FileOf;
    MapFinishedDoes(j, s.m, x, buckets);
    FinishKnown(j, s.m, s'.m, s.maps, x);
  }

  lemma ReduceStepsKnow(j: Job, s: Sys, step: Step, s': Sys)
    requires GoodJob(j) && Good(j, s) && TasksKnown(j, s) && Next(j, s, step, s') && (step.ReportReduce? || step.TimerReduce?)
    ensures TasksKnown(j, s')
  {
    hide BucketsGood, FilesGood, OutputsGood, MapsGood, GivenGood, GivenOut, IsFile, Waiting, MapsKnown;
    var a := s.reduces[step.k];
    assert AssignmentGood(j, s.m, a);
    MapsKnownSame(j, s.m, s'.m, s.maps);
    if step.TimerReduce? {
      WaitingDoes(a.tasks, s.m.reduceTask, a.bucket);
      assert a.tasks[0].fileName in Names(a.tasks);
    }
    forall b | b in s'.m.reduceBucket && !s'.m.reduceBucket[b]
      ensures GivenOut(s', b)
    {
      GivenGrows(s, s', b);
    }
  }

  lemma StepKnows(j: Job, s: Sys, step: Step, s': Sys)
    requires GoodJob(j) && Good(j, s) && TasksKnown(j, s) && Next(j, s, step, s')
    ensures TasksKnown(j, s')
  {
    match step
    case Request(reply) => RequestKnows(j, s, reply, s');
    case ReportMap(x, buckets) => ReportMapKnows(j, s, x, buckets, s');
    case ReportReduce(_) => ReduceStepsKnow(j, s, step, s');
    case TimerReduce(_) => ReduceStepsKnow(j, s, step, s');
    case TimerMap(x) => TimerKnows(j, s, x, s');
    case _ => OthersKnow(j, s, step, s');
  }

  lemma TimerKnows(j: Job, s: Sys, x: nat, s': Sys)
    requires GoodJob(j) && Good(j, s) && TasksKnown(j, s) && Next(j, s, TimerMap(x), s')
    ensures TasksKnown(j, s')
  {
    hide BucketsGood, FilesGood, OutputsGood, AssignmentGood, PhaseGood, MapsGood, GivenGood, GivenOut, MapTimeout, Kept, MapsKnown;
    GivenKept(j, s, x);
    TimerMapsGood(j, s.m, x);
    TimerKnown(j, s.m, s.maps, x);
    forall b | b in s'.m.reduceBucket && !s'.m.reduceBucket[b]
      ensures GivenOut(s', b)
    {
      GivenGrows(s, s', b);
    }
  }

  lemma TimerKnown(j: Job, m: State, maps: set<nat>, x: nat)
    requires MapsGood(j, m) && MapsKnown(j, m, maps) && Kept(j, x)
    ensures MapsKnown(j, MapTimeout(m, AssignTask(j.files[x], x + 1)), maps)
  {
    TimerMapsGood(j, m, x);
    hide MapsGood;
  }

  lemma OthersKnow(j: Job, s: Sys, step: Step, s': Sys)
    requires GoodJob(j) && TasksKnown(j, s) && Next(j, s, step, s') && (step.WriteFile? || step.RunReduce?)
    ensures TasksKnown(j, s')
  {
    hide Kept, WrittenFrom, Writes;
    forall b | b in s'.m.reduceBucket && !s'.m.reduceBucket[b]
      ensures GivenOut(s', b)
    {
      GivenGrows(s, s', b);
    }
  }

  /** A state from which a job goes on. */
  ghost predicate Sound(j: Job, s: Sys)
    requires GoodJob(j)
  {
    Good(j, s) && TasksKnown(j, s)
  }

  lemma {:induction false} ReachableIsSound(j: Job, states: seq<Sys>, steps: seq<Step>, i: nat)
    requires GoodJob(j) && Run(j, states, steps) && i < |states|
    ensures Sound(j, states[i])
  {
    hide Good, Next;
    ReachableIsGood(j, states, steps, i);
    if i == 0 {
      BeginIsKnown(j);
    } else {
      ReachableIsSound(j, states, steps, i - 1);
      StepKnows(j, states[i - 1], steps[i - 1], states[i]);
    }
  }

  lemma BeginIsKnown(j: Job)
    requires GoodJob(j)
    ensures TasksKnown(j, Begin(j))
  {
    forall x: nat | Kept(j, x)
      ensures j.files[x] in Numbered(j.files) && Numbered(j.files)[j.files[x]] == x + 1
    {
      NumberedIs(j.files, x);
    }
  }

  // ----- Requests and timers

  /** Some task of the current phase waits to be given out. */
  ghost predicate TaskWaits(m: State) {
    if m.isMapDone then exists b :: BucketWaits(m, b) else MapWaits(m)
  }

  /** In every run, a request is answered with a task exactly when one waits, and with a map task until all inputs are finished. */
  lemma RequestsAreServed(j: Job, states: seq<Sys>, steps: seq<Step>, i: nat)
    requires GoodJob(j) && Run(j, states, steps) && i < |steps| && steps[i].Request?
    ensures steps[i].reply.NoTask? <==> !TaskWaits(states[i].m)
    ensures steps[i].reply.MapReply? ==> !states[i].m.isMapDone
    ensures steps[i].reply.ReduceReply? ==> states[i].m.isMapDone
  {
    hide Good;
    ReachableIsGood(j, states, steps, i);
    var s := states[i];
    assert Next(j, s, steps[i], states[i + 1]);
    if steps[i].reply.NoTask? && s.m.isMapDone {
      forall b | BucketWaits(s.m, b)
        ensures false
      {
        PositiveAndFull(j, s, b);
      }
    }
  }

  lemma PositiveAndFull(j: Job, s: Sys, b: int)
    requires GoodJob(j) && Good(j, s) && BucketWaits(s.m, b)
    ensures forall b' :: BucketWaits(s.m, b') ==> b' > 0 && FilesWaiting(s.m, b') != {}
  {
    forall b' | BucketWaits(s.m, b')
      ensures b' > 0 && FilesWaiting(s.m, b') != {}
    {
      hide BucketsGood;
      BucketPositive(j, s.m, s.reported, b');
      NotEmptyHanded(j, s, b');
    }
  }

  /** The task of input x does not wait. */
  ghost predicate MapOut(j: Job, m: State, x: nat)
    requires x < |j.files|
  {
    j.files[x] in m.mapTask ==> m.mapTask[j.files[x]] <= 0
  }

  lemma MapStaysOut(j: Job, s: Sys, step: Step, s': Sys, x: nat)
    requires GoodJob(j) && Good(j, s) && Next(j, s, step, s') && Kept(j, x) && MapOut(j, s.m, x) && step != TimerMap(x)
    ensures MapOut(j, s'.m, x)
  {
    hide Good, Next, MapOut;
    match step
    case Request(reply) => RequestLeavesOut(j, s, reply, s', x);
    case ReportMap(y, buckets) => ReportLeavesOut(j, s, y, buckets, s', x);
    case TimerMap(y) => TimerLeavesOut(j, s, y, s', x);
    case _ => OthersLeaveOut(j, s, step, s', x);
  }

  lemma RequestLeavesOut(j: Job, s: Sys, reply: Reply, s': Sys, x: nat)
    requires GoodJob(j) && Next(j, s, Request(reply), s') && Kept(j, x) && MapOut(j, s.m, x)
    ensures MapOut(j, s'.m, x)
  {
    hide FilesWaiting, Given, NoRepeats;
  }

  lemma ReportLeavesOut(j: Job, s: Sys, y: nat, buckets: seq<int>, s': Sys, x: nat)
    requires GoodJob(j) && Good(j, s) && Next(j, s, ReportMap(y, buckets), s') && Kept(j, x) && MapOut(j, s.m, x)
    ensures MapOut(j, s'.m, x)
  {
    hide BucketsGood, FilesGood, AssignmentGood, OutputsGood, PhaseGood, MapsGood, Writes, MapFinished, Kept;
    GivenKept(j, s, y);
    KeptInside(j);
    ReportForgetsTask(j, s.m, y, buckets);
  }

  lemma ReportForgetsTask(j: Job, m: State, y: nat, buckets: seq<int>)
    requires GoodJob(j) && Kept(j, y) && Lists(j, y, buckets)
    ensures forall f :: f in MapFinished(m, FinishTask(j.files[y], y + 1, buckets)).mapTask ==>
              f in m.mapTask && MapFinished(m, FinishTask(j.files[y], y + 1, buckets)).mapTask[f] == m.mapTask[f]
  {
    hide Writes, MapFinished;
    if m.isMapDone {
      MapReportIgnored(m, FinishTask(j.files[y], y + 1, buckets));
    } else {
      MapFinishedDoes(j, m, y, buckets);
    }
  }

  lemma TimerLeavesOut(j: Job, s: Sys, y: nat, s': Sys, x: nat)
    requires GoodJob(j) && Good(j, s) && Next(j, s, TimerMap(y), s') && Kept(j, x) && MapOut(j, s.m, x) && y != x
    ensures MapOut(j, s'.m, x)
  {
    hide BucketsGood, FilesGood, AssignmentGood, OutputsGood, PhaseGood, MapsGood, Kept;
    GivenKept(j, s, y);
    KeptInside(j);
    if j.files[y] == j.files[x] {
      KeptOnce(j, x, y);
      assert false;
    }
  }

  lemma OthersLeaveOut(j: Job, s: Sys, step: Step, s': Sys, x: nat)
    requires GoodJob(j) && Next(j, s, step, s') && Kept(j, x) && MapOut(j, s.m, x)
    requires step.WriteFile? || step.RunReduce? || step.ReportReduce? || step.TimerReduce?
    ensures MapOut(j, s'.m, x)
  {
    hide WrittenFrom, Writes, Waiting;
  }

  /** A request that is answered with input x finds it waiting, and leaves it out. */
  lemma MapGiven(j: Job, s: Sys, task: AssignTask, s': Sys, x: nat)
    requires GoodJob(j) && Good(j, s) && Next(j, s, Request(MapReply(task)), s') && task.taskId == x + 1
    ensures Kept(j, x) && x < |j.files| && !MapOut(j, s.m, x) && MapOut(j, s'.m, x)
  {
    GoodMaps(j, s);
    hide Good, Kept, MapsGood, FilesWaiting, Given;
    var y := WaitsFor(j, s.m, task.fileName);
    assert y == x;
  }

  lemma GoodMaps(j: Job, s: Sys)
    requires GoodJob(j) && Good(j, s)
    ensures MapsGood(j, s.m)
  {
  }

  /** In every run, the task of an input is given out again only after its timer has fired in between. */
  lemma {:induction false} MapGivenOnce(j: Job, states: seq<Sys>, steps: seq<Step>, i: nat, k: nat, x: nat) returns (m: nat)
    requires GoodJob(j) && Run(j, states, steps) && i < k < |steps|
    requires steps[i].Request? && steps[i].reply.MapReply? && steps[i].reply.task.taskId == x + 1
    requires steps[k].Request? && steps[k].reply.MapReply? && steps[k].reply.task.taskId == x + 1
    ensures i < m < k && steps[m] == TimerMap(x)
  {
    hide Good, Next, Kept, MapOut;
    ReachableIsGood(j, states, steps, i);
    ReachableIsGood(j, states, steps, k);
    assert Next(j, states[i], steps[i], states[i + 1]) && Next(j, states[k], steps[k], states[k + 1]);
    MapGiven(j, states[i], steps[i].reply.task, states[i + 1], x);
    MapGiven(j, states[k], steps[k].reply.task, states[k + 1], x);
    m := i + 1;
    while m < k && steps[m] != TimerMap(x)
      invariant i < m <= k && MapOut(j, states[m].m, x)
      decreases k - m
    {
      ReachableIsGood(j, states, steps, m);
      assert Next(j, states[m], steps[m], states[m + 1]);
      MapStaysOut(j, states[m], steps[m], states[m + 1], x);
      m := m + 1;
    }
  }

  lemma BucketStaysOut(j: Job, s: Sys, step: Step, s': Sys, b: int)
    requires GoodJob(j) && Good(j, s) && Next(j, s, step, s') && s.m.isMapDone && !BucketWaits(s.m, b)
    requires !(step.TimerReduce? && step.k < |s.reduces| && s.reduces[step.k].bucket == b)
    ensures s'.m.isMapDone && !BucketWaits(s'.m, b)
  {
    hide BucketsGood, FilesGood, OutputsGood, PhaseGood, FilesWaiting, WrittenFrom, Writes, MapFinished, Waiting, IsFile;
    match step
    case ReportMap(y, buckets) => MapReportIgnored(s.m, FinishTask(j.files[y], y + 1, buckets));
    case TimerReduce(k) => assert AssignmentGood(j, s.m, s.reduces[k]);
    case _ =>
  }

  lemma BucketGiven(j: Job, s: Sys, b: int, tasks: seq<AssignTask>, s': Sys)
    requires GoodJob(j) && Next(j, s, Request(ReduceReply(b, tasks)), s')
    ensures s.m.isMapDone && s'.m.isMapDone && BucketWaits(s.m, b) && !BucketWaits(s'.m, b)
  {
    hide FilesWaiting, NoRepeats, Names;
  }

  /** And a bucket is given out again only after a timer of one of its tasks. */
  lemma {:induction false} BucketGivenOnce(j: Job, states: seq<Sys>, steps: seq<Step>, i: nat, k: nat, b: int) returns (m: nat)
    requires GoodJob(j) && Run(j, states, steps) && i < k < |steps|
    requires steps[i].Request? && steps[i].reply.ReduceReply? && steps[i].reply.bucket == b
    requires steps[k].Request? && steps[k].reply.ReduceReply? && steps[k].reply.bucket == b
    ensures i < m < k && steps[m].TimerReduce? && steps[m].k < |states[m].reduces| && states[m].reduces[steps[m].k].bucket == b
  {
    hide Good, Next, BucketWaits;
    assert Next(j, states[i], steps[i], states[i + 1]) && Next(j, states[k], steps[k], states[k + 1]);
    BucketGiven(j, states[i], b, steps[i].reply.tasks, states[i + 1]);
    BucketGiven(j, states[k], b, steps[k].reply.tasks, states[k + 1]);
    m := i + 1;
    while m < k && !(steps[m].TimerReduce? && steps[m].k < |states[m].reduces| && states[m].reduces[steps[m].k].bucket == b)
      invariant i < m <= k && states[m].m.isMapDone && !BucketWaits(states[m].m, b)
      decreases k - m
    {
      ReachableIsGood(j, states, steps, m);
      assert Next(j, states[m], steps[m], states[m + 1]);
      BucketStaysOut(j, states[m], steps[m], states[m + 1], b);
      m := m + 1;
    }
  }

  /** Once the timer of an unfinished input has fired, a request may be answered with its task. */
  lemma TimerReturnsMap(j: Job, states: seq<Sys>, steps: seq<Step>, i: nat, x: nat) returns (s': Sys)
    requires GoodJob(j) && Run(j, states, steps) && i < |steps| && steps[i] == TimerMap(x)
    requires x < |j.files| && j.files[x] in states[i].m.mapTask
    ensures Next(j, states[i + 1], Request(MapReply(AssignTask(j.files[x], x + 1))), s')
  {
    hide Next, Good;
    ReachableIsGood(j, states, steps, i);
    assert Next(j, states[i], steps[i], states[i + 1]);
    s' := AfterTimer(j, states[i], x, states[i + 1]);
  }

  lemma AfterTimer(j: Job, s: Sys, x: nat, t: Sys) returns (s': Sys)
    requires GoodJob(j) && Good(j, s) && Next(j, s, TimerMap(x), t) && x < |j.files| && j.files[x] in s.m.mapTask
    ensures !t.m.isMapDone && t.m.mapTask == s.m.mapTask[j.files[x] := x + 1]
    ensures s' == t.(m := AssignMap(t.m, j.files[x]), maps := t.maps + {x})
    ensures Next(j, t, Request(MapReply(AssignTask(j.files[x], x + 1))), s')
  {
    hide BucketsGood, FilesGood, AssignmentGood, OutputsGood, GivenGood, PhaseGood;
    var task := AssignTask(j.files[x], x + 1);
    assert Given(j, MapReply(task)) == {x};
    s' := t.(m := AssignMap(t.m, j.files[x]), maps := t.maps + {x});
    GiveMapStep(j, t, task, s');
  }

  /** Once the timer of an unreported bucket has fired, a request may be answered with it, and then with all its files. */
  lemma TimerReturnsBucket(j: Job, states: seq<Sys>, steps: seq<Step>, i: nat, k: nat) returns (tasks: seq<AssignTask>, s': Sys)
    requires GoodJob(j) && Run(j, states, steps) && i < |steps| && steps[i] == TimerReduce(k)
    requires k < |states[i].reduces| && states[i].reduces[k].bucket !in states[i].reported
    ensures Next(j, states[i + 1], Request(ReduceReply(states[i].reduces[k].bucket, tasks)), s')
    ensures forall f :: f in Names(tasks) <==> IsFile(j, states[i].m, f, states[i].reduces[k].bucket)
  {
    hide Next, Good;
    ReachableIsSound(j, states, steps, i);
    assert Next(j, states[i], steps[i], states[i + 1]);
    tasks, s' := AfterBucketTimer(j, states[i], k, states[i + 1]);
  }

  lemma AfterBucketTimer(j: Job, s: Sys, k: nat, t: Sys) returns (tasks: seq<AssignTask>, s': Sys)
    requires GoodJob(j) && Good(j, s) && Next(j, s, TimerReduce(k), t) && s.reduces[k].bucket !in s.reported
    ensures t.m.isMapDone && t.m.reduceBucket.Keys == s.m.reduceBucket.Keys && t.reduces == s.reduces
    ensures s' == t.(m := AssignReduce(t.m, s.reduces[k].bucket), reduces := t.reduces + [Assignment(s.reduces[k].bucket, tasks)])
    ensures Next(j, t, Request(ReduceReply(s.reduces[k].bucket, tasks)), s')
    ensures forall f :: f in Names(tasks) <==> IsFile(j, s.m, f, s.reduces[k].bucket)
  {
    var b := s.reduces[k].bucket;
    TimerReduceKeeps(j, s, k, t);
    TimerOpens(j, s, k, t);
    hide Next, Good;
    tasks := TasksFor(j, t, b);
    s' := t.(m := AssignReduce(t.m, b), reduces := t.reduces + [Assignment(b, tasks)]);
    GiveStep(j, t, b, tasks, s');
    TimerFiles(j, s, k, t, tasks);
  }

  /** The bucket of a timer that fires for unreported work waits again. */
  lemma TimerOpens(j: Job, s: Sys, k: nat, t: Sys)
    requires GoodJob(j) && Good(j, s) && Next(j, s, TimerReduce(k), t) && s.reduces[k].bucket !in s.reported
    ensures BucketWaits(t.m, s.reduces[k].bucket) && t.m.isMapDone && t == s.(m := t.m)
    ensures t.m.reduceBucket.Keys == s.m.reduceBucket.Keys && t.m.mapTask == s.m.mapTask
  {
    hide FilesGood, OutputsGood, GivenGood, MapsGood, Waiting, Follows, Unreported, NoRepeats;
    var a := s.reduces[k];
    assert AssignmentGood(j, s.m, a);
    TaskIsFile(j, s.m, a, 0);
    assert Produced(j, s.m, a.bucket);
    assert a.bucket in s.m.reduceBucket;
  }

  lemma TimerFiles(j: Job, s: Sys, k: nat, t: Sys, tasks: seq<AssignTask>)
    requires GoodJob(j) && Good(j, t) && k < |s.reduces| && t.m.mapTask == s.m.mapTask && BucketWaits(t.m, s.reduces[k].bucket)
    requires Names(tasks) == FilesWaiting(t.m, s.reduces[k].bucket)
    ensures forall f :: f in Names(tasks) <==> IsFile(j, s.m, f, s.reduces[k].bucket)
  {
    hide BucketsGood, IsFile;
    var b := s.reduces[k].bucket;
    BucketPositive(j, t.m, t.reported, b);
    WaitingIsAll(j, t.m, t.reported, b);
    SameDone(j, s.m, t.m);
  }

  // ----- Going on from a state, without those who hold tasks in it

  /** The inputs that a step gives out. */
  ghost function GivenBy(j: Job, step: Step): set<nat> {
    if step.Request? then Given(j, step.reply) else {}
  }

  /** Of the workers, only those act that were given their task later: an input in `given`, a bucket after the first n. */
  ghost predicate ByNewWorker(n: nat, given: set<nat>, step: Step) {
    match step
    case WriteFile(x, _) => x in given
    case ReportMap(x, _) => x in given
    case RunReduce(k, _, _) => k >= n
    case ReportReduce(k) => k >= n
    case _ => true
  }

  ghost predicate Trace(j: Job, states: seq<Sys>, steps: seq<Step>, given: seq<set<nat>>)
    requires GoodJob(j)
  {
    && |states| == |given| == |steps| + 1 && given[0] == {}
    && forall i :: 0 <= i < |steps| ==>
         && Next(j, states[i], steps[i], states[i + 1]) && given[i + 1] == given[i] + GivenBy(j, steps[i])
         && ByNewWorker(|states[0].reduces|, given[i], steps[i])
  }

  /** Steps lead from s to s', in which only new workers act; they were given these inputs. */
  ghost predicate Leads(j: Job, s: Sys, s': Sys, given: set<nat>)
    requires GoodJob(j)
  {
    exists states: seq<Sys>, steps, gs :: Trace(j, states, steps, gs) && states[0] == s && states[|steps|] == s' && gs[|steps|] == given
  }

  lemma LeadsNowhere(j: Job, s: Sys)
    requires GoodJob(j)
    ensures Leads(j, s, s, {})
  {
    assert Trace(j, [s], [], [{}]);
  }

  lemma LeadsOn(j: Job, s: Sys, t: Sys, given: set<nat>, step: Step, t': Sys)
    requires GoodJob(j) && Leads(j, s, t, given) && Sound(j, t) && Next(j, t, step, t') && ByNewWorker(|s.reduces|, given, step)
    ensures Leads(j, s, t', given + GivenBy(j, step)) && Sound(j, t')
  {
    hide Next, Good, TasksKnown, ByNewWorker, GivenBy;
    var states: seq<Sys>, steps, gs :| Trace(j, states, steps, gs) && states[0] == s && states[|steps|] == t && gs[|steps|] == given;
    var states', steps', gs' := states + [t'], steps + [step], gs + [given + GivenBy(j, step)];
    forall i | 0 <= i < |steps'|
      ensures Next(j, states'[i], steps'[i], states'[i + 1]) && gs'[i + 1] == gs'[i] + GivenBy(j, steps'[i])
      ensures ByNewWorker(|s.reduces|, gs'[i], steps'[i])
    {
      if i < |steps| {
        assert Next(j, states[i], steps[i], states[i + 1]);
      }
    }
    assert Trace(j, states', steps', gs');
    StepKeeps(j, t, step, t');
    StepKnows(j, t, step, t');
  }

  /** A step that gives nothing out. */
  lemma LeadsAlong(j: Job, s: Sys, t: Sys, given: set<nat>, step: Step, t': Sys)
    requires GoodJob(j) && Leads(j, s, t, given) && Sound(j, t) && Next(j, t, step, t') && ByNewWorker(|s.reduces|, given, step)
    requires !step.Request?
    ensures Leads(j, s, t', given) && Sound(j, t')
  {
    hide Leads, Sound, Next, ByNewWorker;
    LeadsOn(j, s, t, given, step, t');
    assert given + GivenBy(j, step) == given;
  }

  /** A worker writes the files of input x for the buckets up to n. */
  lemma {:induction false} WriteUpTo(j: Job, s: Sys, t: Sys, given: set<nat>, x: nat, n: nat) returns (t': Sys)
    requires GoodJob(j) && Leads(j, s, t, given) && Sound(j, t) && x in t.maps && x in given
    ensures Leads(j, s, t', given) && Sound(j, t') && t' == t.(fs := t'.fs)
    ensures forall y: nat :: y <= n && Writes(j, x, y) ==> FileOf(x, y) in t'.fs
  {
    hide Good, TasksKnown, Leads, Writes, FileOf;
    var t0 := t;
    if n > 0 {
      t0 := WriteUpTo(j, s, t, given, x, n - 1);
    }
    t' := t0;
    if Writes(j, x, n) {
      t' := t0.(fs := t0.fs[FileOf(x, n) := PartOf(j, x, n)]);
      assert Next(j, t0, WriteFile(x, n), t');
      LeadsAlong(j, s, t0, given, WriteFile(x, n), t');
    }
  }

  ghost function PartOf(j: Job, x: nat, y: nat): seq<KeyValue>
    requires GoodJob(j) && Writes(j, x, y)
  {
    Part(j, x, y)
  }

  ghost function BucketList(j: Job, x: nat, n: nat): (s: seq<int>)
    requires GoodJob(j)
    ensures forall k :: 0 <= k < |s| ==> s[k] >= 0 && Writes(j, x, s[k])
    ensures forall y: nat :: y <= n && Writes(j, x, y) ==> y in s
  {
    var rest := if n == 0 then [] else BucketList(j, x, n - 1);
    if Writes(j, x, n) then rest + [n] else rest
  }

  lemma AllListed(j: Job, x: nat)
    requires GoodJob(j)
    ensures Lists(j, x, BucketList(j, x, j.nReduce))
  {
    forall y: nat | Writes(j, x, y)
      ensures y <= j.nReduce
    {
      WritesKept(j, x, y);
    }
    hide Writes;
  }

  /** The task of input x waits, once its timer has fired if need be. */
  lemma AwaitMap(j: Job, s: Sys, t: Sys, given: set<nat>, x: nat) returns (t': Sys)
    requires GoodJob(j) && Leads(j, s, t, given) && Sound(j, t) && !t.m.isMapDone && Kept(j, x) && j.files[x] in t.m.mapTask
    ensures Leads(j, s, t', given) && Sound(j, t') && !t'.m.isMapDone && t'.m.mapTask.Keys == t.m.mapTask.Keys
    ensures x < |j.files| && t'.m.mapTask[j.files[x]] == x + 1
  {
    hide Leads, Good, TasksKnown, Kept;
    t' := t;
    var negative := NumberOf(j, t, x);
    if negative {
      t' := t.(m := MapTimeout(t.m, AssignTask(j.files[x], x + 1)));
      assert Next(j, t, TimerMap(x), t');
      LeadsAlong(j, s, t, given, TimerMap(x), t');
      var _ := AfterTimer(j, t, x, t');
    }
  }

  /** The task of input x is given to a new worker. */
  lemma GiveMap(j: Job, s: Sys, t: Sys, given: set<nat>, x: nat) returns (t': Sys)
    requires GoodJob(j) && Leads(j, s, t, given) && Sound(j, t) && !t.m.isMapDone && Kept(j, x) && j.files[x] in t.m.mapTask
    ensures Leads(j, s, t', given + {x}) && Sound(j, t') && x in t'.maps && !t'.m.isMapDone && t'.m.mapTask.Keys == t.m.mapTask.Keys
  {
    hide Leads, Good, TasksKnown, Kept;
    var t1 := AwaitMap(j, s, t, given, x);
    var task := AssignTask(j.files[x], x + 1);
    assert Given(j, MapReply(task)) == {x};
    t' := t1.(m := AssignMap(t1.m, j.files[x]), maps := t1.maps + Given(j, MapReply(task)));
    GiveMapStep(j, t1, task, t');
    LeadsOn(j, s, t1, given, Request(MapReply(task)), t');
  }

  lemma NumberOf(j: Job, t: Sys, x: nat) returns (negative: bool)
    requires GoodJob(j) && Sound(j, t) && Kept(j, x) && j.files[x] in t.m.mapTask
    ensures x < |j.files|
    ensures if negative then x in t.maps else t.m.mapTask[j.files[x]] == x + 1
  {
    hide BucketsGood, FilesGood, AssignmentGood, PhaseGood, OutputsGood, GivenOut;
    negative := t.m.mapTask[j.files[x]] < 0;
  }

  lemma GiveMapStep(j: Job, t: Sys, task: AssignTask, t': Sys)
    requires GoodJob(j) && !t.m.isMapDone && task.fileName in t.m.mapTask && task.taskId == t.m.mapTask[task.fileName] > 0
    requires t' == t.(m := AssignMap(t.m, task.fileName), maps := t.maps + Given(j, MapReply(task)))
    ensures Next(j, t, Request(MapReply(task)), t')
  {
    hide AssignMap, Given;
    assert t.reduces + [] == t.reduces;
  }

  /** One input is finished. */
  lemma FinishMap(j: Job, s: Sys, t: Sys, given: set<nat>, x: nat) returns (t': Sys, given': set<nat>)
    requires GoodJob(j) && Leads(j, s, t, given) && Sound(j, t) && !t.m.isMapDone && Kept(j, x) && j.files[x] in t.m.mapTask
    ensures Leads(j, s, t', given') && Sound(j, t') && t'.m.mapTask.Keys == t.m.mapTask.Keys - {j.files[x]}
  {
    hide Good, TasksKnown, Leads, Writes, FileOf, MapFinished;
    given' := given + {x};
    var t1 := GiveMap(j, s, t, given, x);
    var t2 := WriteUpTo(j, s, t1, given', x, j.nReduce);
    forall y: nat | Writes(j, x, y)
      ensures FileOf(x, y) in t2.fs
    {
      WritesKept(j, x, y);
    }
    var buckets := BucketList(j, x, j.nReduce);
    AllListed(j, x);
    t' := t2.(m := MapFinished(t2.m, FinishTask(j.files[x], x + 1, buckets)));
    assert Next(j, t2, ReportMap(x, buckets), t');
    LeadsAlong(j, s, t2, given', ReportMap(x, buckets), t');
    MapFinishedDoes(j, t2.m, x, buckets);
  }

  lemma {:induction false} FinishMaps(j: Job, s: Sys, t: Sys, given: set<nat>) returns (t': Sys, given': set<nat>)
    requires GoodJob(j) && j.files != [] && Leads(j, s, t, given) && Sound(j, t)
    ensures Leads(j, s, t', given') && Sound(j, t') && t'.m.isMapDone
    decreases |t.m.mapTask.Keys|
  {
    hide TasksKnown, Leads, BucketsGood, FilesGood, AssignmentGood, PhaseGood;
    if t.m.isMapDone {
      t', given' := t, given;
    } else {
      assert t.m.mapTask.Keys != {};
      var f := Some1(t.m.mapTask.Keys);
      var x := WaitsFor(j, t.m, f);
      var t1, given1 := FinishMap(j, s, t, given, x);
      t', given' := FinishMaps(j, s, t1, given1);
    }
  }

  lemma Some1<T>(s: set<T>) returns (x: T)
    requires s != {}
    ensures x in s
  {
    x :| x in s;
  }

  // The buckets

  lemma {:induction false} TaskList(files: set<string>, b: int) returns (tasks: seq<AssignTask>)
    ensures NoRepeats(tasks) && Names(tasks) == files && forall k :: 0 <= k < |tasks| ==> tasks[k].taskId == b
    decreases files
  {
    tasks := [];
    if files != {} {
      var f := Some1(files);
      var rest := TaskList(files - {f}, b);
      tasks := rest + [AssignTask(f, b)];
      NamesSnoc(rest, AssignTask(f, b));
      forall k | 0 <= k < |rest|
        ensures rest[k].fileName != f
      {
        assert rest[k].fileName in Names(rest);
      }
    }
  }

  lemma {:induction false} ReducesGrow(j: Job, s: Sys, t: Sys, given: set<nat>)
    requires GoodJob(j) && Leads(j, s, t, given)
    ensures |s.reduces| <= |t.reduces|
  {
    hide Next;
    var states: seq<Sys>, steps, gs :| Trace(j, states, steps, gs) && states[0] == s && states[|steps|] == t && gs[|steps|] == given;
    for i := 0 to |steps|
      invariant |s.reduces| <= |states[i].reduces|
    {
      StepGrows(j, states[i], steps[i], states[i + 1]);
    }
  }

  lemma StepGrows(j: Job, s: Sys, step: Step, s': Sys)
    requires GoodJob(j) && Next(j, s, step, s')
    ensures |s.reduces| <= |s'.reduces|
  {
  }

  /** Bucket b is given to a new worker, once its timer has fired if need be. */
  lemma GiveReduce(j: Job, s: Sys, t: Sys, given: set<nat>, b: int) returns (t': Sys, k: nat)
    requires GoodJob(j) && Leads(j, s, t, given) && Sound(j, t) && t.m.isMapDone && b in t.m.reduceBucket
    ensures Leads(j, s, t', given) && Sound(j, t') && t'.m.isMapDone && |s.reduces| <= k < |t'.reduces| && t'.reduces[k].bucket == b
    ensures t'.m.reduceBucket.Keys == t.m.reduceBucket.Keys
  {
    hide Leads, Good;
    var t1 := AwaitBucket(j, s, t, given, b);
    var tasks := TasksFor(j, t1, b);
    t' := t1.(m := AssignReduce(t1.m, b), reduces := t1.reduces + [Assignment(b, tasks)]);
    GiveStep(j, t1, b, tasks, t');
    hide TasksKnown;
    LeadsOn(j, s, t1, given, Request(ReduceReply(b, tasks)), t');
    assert given + GivenBy(j, Request(ReduceReply(b, tasks))) == given;
    k := |t1.reduces|;
    ReducesGrow(j, s, t1, given);
  }

  lemma AwaitBucket(j: Job, s: Sys, t: Sys, given: set<nat>, b: int) returns (t': Sys)
    requires GoodJob(j) && Leads(j, s, t, given) && Sound(j, t) && t.m.isMapDone && b in t.m.reduceBucket
    ensures Leads(j, s, t', given) && Sound(j, t') && t'.m.isMapDone && BucketWaits(t'.m, b)
    ensures t'.m.reduceBucket.Keys == t.m.reduceBucket.Keys
  {
    hide Leads, Good;
    t' := t;
    if !t.m.reduceBucket[b] {
      var k :| 0 <= k < |t.reduces| && t.reduces[k].bucket == b;
      GivenIsGood(j, t, k);
      UnreportedBucket(j, t, b);
      t' := t.(m := ReduceTimeout(t.m, t.reduces[k].tasks));
      assert Next(j, t, TimerReduce(k), t');
      hide TasksKnown;
      LeadsAlong(j, s, t, given, TimerReduce(k), t');
      TimerOpens(j, t, k, t');
    }
  }

  lemma UnreportedBucket(j: Job, s: Sys, b: int)
    requires GoodJob(j) && Good(j, s) && b in s.m.reduceBucket
    ensures b !in s.reported
  {
  }

  lemma TasksFor(j: Job, t: Sys, b: int) returns (tasks: seq<AssignTask>)
    requires GoodJob(j) && Good(j, t) && b in t.m.reduceBucket && t.m.reduceBucket[b]
    ensures b > 0 && tasks != [] && NoRepeats(tasks) && Names(tasks) == FilesWaiting(t.m, b)
    ensures forall k :: 0 <= k < |tasks| ==> tasks[k].taskId == b
  {
    hide BucketsGood;
    BucketPositive(j, t.m, t.reported, b);
    NotEmptyHanded(j, t, b);
    tasks := TaskList(FilesWaiting(t.m, b), b);
    NamesNonempty(tasks);
  }

  lemma GiveStep(j: Job, t: Sys, b: int, tasks: seq<AssignTask>, t': Sys)
    requires GoodJob(j) && t.m.isMapDone && b > 0 && b in t.m.reduceBucket && t.m.reduceBucket[b]
    requires tasks != [] && NoRepeats(tasks) && Names(tasks) == FilesWaiting(t.m, b)
    requires forall k :: 0 <= k < |tasks| ==> tasks[k].taskId == b
    requires t' == t.(m := AssignReduce(t.m, b), reduces := t.reduces + [Assignment(b, tasks)])
    ensures Next(j, t, Request(ReduceReply(b, tasks)), t')
  {
    hide FilesWaiting, AssignReduce, NoRepeats;
    assert t.maps + Given(j, ReduceReply(b, tasks)) == t.maps;
  }

  lemma NamesNonempty(tasks: seq<AssignTask>)
    ensures Names(tasks) != {} ==> tasks != []
  {
  }

  lemma BucketPositive(j: Job, m: State, reported: set<int>, b: int)
    requires GoodJob(j) && BucketsGood(j, m, reported) && b in m.reduceBucket
    ensures b > 0
  {
    hide IsFile, Follows, Unreported;
    assert Produced(j, m, b);
    var x: nat :| Done(j, m, x) && Writes(j, x, b);
    WritesKept(j, x, b);
  }

  /** The files of a reduce task are there to be read. */
  lemma FilesThere(j: Job, s: Sys, k: nat) returns (contents: seq<seq<KeyValue>>)
    requires GoodJob(j) && Good(j, s) && k < |s.reduces|
    ensures |contents| == |s.reduces[k].tasks|
    ensures forall t :: 0 <= t < |contents| ==>
              s.reduces[k].tasks[t].fileName in s.fs && contents[t] == s.fs[s.reduces[k].tasks[t].fileName]
  {
    hide BucketsGood, MapsGood, OutputsGood, GivenGood, Writes, Done, FileOf, AssignmentGood;
    var a := s.reduces[k];
    contents := [];
    for t := 0 to |a.tasks|
      invariant |contents| == t
      invariant forall u :: 0 <= u < t ==> a.tasks[u].fileName in s.fs && contents[u] == s.fs[a.tasks[u].fileName]
    {
      TaskIsFile(j, s.m, a, t);
      contents := contents + [s.fs[a.tasks[t].fileName]];
    }
  }

  /** One bucket is finished. */
  lemma FinishReduce(j: Job, s: Sys, t: Sys, given: set<nat>, b: int) returns (t': Sys)
    requires GoodJob(j) && Leads(j, s, t, given) && Sound(j, t) && t.m.isMapDone && b in t.m.reduceBucket
    ensures Leads(j, s, t', given) && Sound(j, t') && t'.m.isMapDone && t'.m.reduceBucket.Keys == t.m.reduceBucket.Keys - {b}
  {
    hide TasksKnown, Leads, WrittenFrom, Flatten;
    var t1, k := GiveReduce(j, s, t, given, b);
    var contents := FilesThere(j, t1, k);
    var results := CanBeWritten(Flatten(contents), j.reducef);
    GivenIsGood(j, t1, k);
    hide Good;
    var t2 := t1.(outputs := t1.outputs[b := results]);
    assert Next(j, t1, RunReduce(k, contents, results), t2);
    LeadsAlong(j, s, t1, given, RunReduce(k, contents, results), t2);
    t' := t2.(m := ReduceFinished(t2.m, t2.reduces[k].tasks), reported := t2.reported + {b});
    assert Next(j, t2, ReportReduce(k), t');
    LeadsAlong(j, s, t2, given, ReportReduce(k), t');
  }

  lemma GivenIsGood(j: Job, s: Sys, k: nat)
    requires GoodJob(j) && Good(j, s) && k < |s.reduces|
    ensures s.reduces[k].tasks != [] && s.reduces[k].tasks[0].taskId == s.reduces[k].bucket
  {
    assert AssignmentGood(j, s.m, s.reduces[k]);
  }

  lemma CanBeWritten(kvs: seq<KeyValue>, reducef: Reducer) returns (results: seq<Result>)
    ensures WrittenFrom(results, kvs, reducef)
  {
    ByKeyIsOrdering();
    var sorted := Sorting.SortExists(kvs, ByKey);
    results := Grouped(sorted, reducef, 0);
  }

  /** As long as the job is not done there is a bucket to reduce, if any input wrote a file. */
  lemma BucketLeft(j: Job, s: Sys, x: nat, y: nat) returns (b: int)
    requires GoodJob(j) && Sound(j, s) && s.m.isMapDone && !s.m.isReduceDone && Writes(j, x, y)
    ensures b in s.m.reduceBucket
  {
    hide FilesGood, AssignmentGood, OutputsGood, GivenGood;
    WritesKept(j, x, y);
    if s.reported == {} {
      assert Done(j, s.m, x);
      b := y;
      assert Produced(j, s.m, b);
    } else {
      assert s.m.reduceTask.Keys != {};
      var f := Some1(s.m.reduceTask.Keys);
      assert Unreported(j, s.m, s.reported, f);
      b :| IsFile(j, s.m, f, b) && b !in s.reported;
      assert Follows(s.m, f, b);
    }
  }

  lemma {:induction false} FinishReduces(j: Job, s: Sys, t: Sys, given: set<nat>, x: nat, y: nat) returns (t': Sys)
    requires GoodJob(j) && Leads(j, s, t, given) && Sound(j, t) && t.m.isMapDone && Writes(j, x, y)
    ensures Leads(j, s, t', given) && t'.m.isReduceDone
    decreases |t.m.reduceBucket.Keys|
  {
    hide Good, TasksKnown, Leads, Writes;
    if t.m.isReduceDone {
      t' := t;
    } else {
      var b := BucketLeft(j, t, x, y);
      var t1 := FinishReduce(j, s, t, given, b);
      t' := FinishReduces(j, s, t1, given, x, y);
    }
  }

  /**
   No run gets stuck: from every state that it reaches, if some input yields a pair, steps lead to the end of the job,
   and they need nobody who holds a task in that state. Only timers, new requests and tasks given out later are used.
   */
  lemma CanAlwaysFinish(j: Job, states: seq<Sys>, steps: seq<Step>, i: nat, x: nat, y: nat) returns (s': Sys, given: set<nat>)
    requires GoodJob(j) && Run(j, states, steps) && i < |states| && Writes(j, x, y)
    ensures Leads(j, states[i], s', given) && s'.m.isReduceDone
  {
    hide Good, TasksKnown, Leads, Next;
    ReachableIsSound(j, states, steps, i);
    LeadsNowhere(j, states[i]);
    WritesKept(j, x, y);
    var t, g := FinishMaps(j, states[i], states[i], {});
    given := g;
    s' := FinishReduces(j, states[i], t, given, x, y);
  }

  /** A job can end exactly when some input yields a pair. */
  lemma JobEndsIff(j: Job)
    requires GoodJob(j)
    ensures (exists states: seq<Sys>, steps :: Run(j, states, steps) && states[|steps|].m.isReduceDone) <==> (exists x: nat, y: nat :: Writes(j, x, y))
  {
    hide Good, Next, Writes;
    if x: nat, y: nat :| Writes(j, x, y) {
      assert Run(j, [Begin(j)], []);
      var s', given := CanAlwaysFinish(j, [Begin(j)], [], 0, x, y);
      var states: seq<Sys>, steps, gs :| Trace(j, states, steps, gs) && states[0] == Begin(j) && states[|steps|] == s' && gs[|steps|] == given;
      assert Run(j, states, steps);
    } else {
      forall states: seq<Sys>, steps | Run(j, states, steps)
        ensures !states[|steps|].m.isReduceDone
      {
        EmptyJobNeverEnds(j, states, steps, |steps|);
      }
    }
  }
}
