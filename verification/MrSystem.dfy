/**
 The steps of a MapReduce job: the master, workers that may be slow, crash or
 report twice, timers that may fire late, and the files they leave (mr/master.go,
 mr/worker.go); and the invariant that every step keeps.
 */
module MrSystem {
  import opened Seqs
  import Sorting
  import opened MapReduce
  import opened Master

  /** docs[x] is what Map makes of input files[x]. */
  datatype Job = Job(files: seq<string>, docs: seq<seq<KeyValue>>, hash: string -> nat, nReduce: nat, reducef: Reducer)

  ghost predicate GoodJob(j: Job) {
    |j.files| == |j.docs| && j.nReduce > 0
  }

  /** Of an input that is named more than once, only the last mention makes a task. */
  ghost predicate Kept(j: Job, x: nat) {
    x < |j.files| && j.files[x] !in j.files[x + 1..]
  }

  ghost function Doc(j: Job, x: nat): seq<KeyValue>
    requires x < |j.docs|
  {
    if Kept(j, x) then j.docs[x] else []
  }

  /** What Map makes of the inputs that count. */
  ghost function Docs(j: Job): (docs: seq<seq<KeyValue>>)
    ensures |docs| == |j.docs| && forall x :: 0 <= x < |docs| ==> docs[x] == Doc(j, x)
  {
    seq(|j.docs|, x requires 0 <= x < |j.docs| => Doc(j, x))
  }

  /** A name has one last mention. */
  lemma KeptOnce(j: Job, x: nat, x': nat)
    requires Kept(j, x) && Kept(j, x') && j.files[x] == j.files[x']
    ensures x == x'
  {
    if x < x' {
      LaterMention(j, x, x');
    } else if x' < x {
      LaterMention(j, x', x);
    }
  }

  lemma LaterMention(j: Job, x: nat, x': nat)
    requires x < x' < |j.files| && j.files[x] == j.files[x']
    ensures !Kept(j, x)
  {
    assert j.files[x'] == j.files[x + 1..][x' - x - 1];
  }

  lemma {:induction false} LastMention(j: Job, f: string, n: nat) returns (x: nat)
    requires n <= |j.files| && f in j.files[..n] && f !in j.files[n..]
    ensures Kept(j, x) && j.files[x] == f
  {
    if j.files[n - 1] == f {
      x := n - 1;
    } else {
      assert j.files[..n] == j.files[..n - 1] + [j.files[n - 1]];
      assert j.files[n - 1..] == [j.files[n - 1]] + j.files[n..];
      x := LastMention(j, f, n - 1);
    }
  }

  datatype Assignment = Assignment(bucket: int, tasks: seq<AssignTask>)

  /**
   The master; the map tasks and the reduce tasks it ever gave out; the intermediate
   files; the output files by bucket; and the buckets reported as finished.
   */
  datatype Sys = Sys(m: State, maps: set<nat>, reduces: seq<Assignment>, fs: map<string, seq<KeyValue>>,
                     outputs: map<int, seq<Result>>, reported: set<int>)

  /** What input x has for bucket y. */
  ghost function Part(j: Job, x: nat, y: nat): seq<KeyValue>
    requires GoodJob(j) && x < |j.docs|
  {
    InBucket(Doc(j, x), j.hash, j.nReduce, y)
  }

  /** Input x writes a file for bucket y. */
  ghost predicate Writes(j: Job, x: nat, y: nat)
    requires GoodJob(j)
  {
    x < |j.docs| && Part(j, x, y) != []
  }

  function FileOf(x: nat, y: nat): string {
    NumberToStr(x + 1, y)
  }

  lemma WritesKept(j: Job, x: nat, y: nat)
    requires GoodJob(j) && Writes(j, x, y)
    ensures Kept(j, x) && 1 <= y <= j.nReduce
  {
    InBucketRange(Doc(j, x), j.hash, j.nReduce, y);
  }

  ghost predicate Done(j: Job, m: State, x: nat) {
    Kept(j, x) && j.files[x] !in m.mapTask
  }

  // ----- The steps

  datatype Step =
    | Request(reply: Reply)
    | WriteFile(x: nat, y: nat)
    | ReportMap(x: nat, buckets: seq<int>)
    | RunReduce(k: nat, contents: seq<seq<KeyValue>>, results: seq<Result>)
    | ReportReduce(k: nat)
    | TimerMap(x: nat)
    | TimerReduce(k: nat)

  /** The worker has written a file for each bucket it reports, and reports each. */
  ghost predicate Lists(j: Job, x: nat, buckets: seq<int>)
    requires GoodJob(j)
  {
    && (forall k :: 0 <= k < |buckets| ==> buckets[k] >= 0 && Writes(j, x, buckets[k]))
    && (forall y: nat :: Writes(j, x, y) ==> y in buckets)
  }

  /** The input whose task a reply gives out, by the task's number. */
  ghost function Given(j: Job, reply: Reply): set<nat> {
    if reply.MapReply? && 0 < reply.task.taskId <= |j.files| then {reply.task.taskId - 1} else {}
  }

  /** What doReduce writes: it sorts the pairs, in whatever order among equal keys, and groups them. */
  ghost predicate WrittenFrom(results: seq<Result>, kvs: seq<KeyValue>, reducef: Reducer) {
    exists sorted :: Sorting.Sorted(sorted, ByKey) && multiset(sorted) == multiset(kvs) && results == Grouped(sorted, reducef, 0)
  }

  ghost predicate Next(j: Job, s: Sys, step: Step, s': Sys)
    requires GoodJob(j)
  {
    match step
    case Request(reply) =>
      && Assigned(s.m, reply, s'.m)
      && s' == s.(m := s'.m,
                  maps := s.maps + Given(j, reply),
                  reduces := s.reduces + (if reply.ReduceReply? then [Assignment(reply.bucket, reply.tasks)] else []))
    case WriteFile(x, y) =>
      x in s.maps && Writes(j, x, y) && s' == s.(fs := s.fs[FileOf(x, y) := Part(j, x, y)])
    case ReportMap(x, buckets) =>
      && x in s.maps && x < |j.files| && Lists(j, x, buckets)
      && (forall y: nat :: Writes(j, x, y) ==> FileOf(x, y) in s.fs)
      && s' == s.(m := MapFinished(s.m, FinishTask(j.files[x], x + 1, buckets)))
    case RunReduce(k, contents, results) =>
      && k < |s.reduces|
      && var a := s.reduces[k];
         && |contents| == |a.tasks|
         && (forall t :: 0 <= t < |contents| ==> a.tasks[t].fileName in s.fs && contents[t] == s.fs[a.tasks[t].fileName])
         && WrittenFrom(results, Flatten(contents), j.reducef)
         && s' == s.(outputs := s.outputs[a.bucket := results])
    case ReportReduce(k) =>
      && k < |s.reduces| && s.reduces[k].tasks != [] && s.reduces[k].bucket in s.outputs
      && s' == s.(m := ReduceFinished(s.m, s.reduces[k].tasks), reported := s.reported + {s.reduces[k].bucket})
    case TimerMap(x) =>
      x in s.maps && x < |j.files| && s' == s.(m := MapTimeout(s.m, AssignTask(j.files[x], x + 1)))
    case TimerReduce(k) =>
      k < |s.reduces| && s.reduces[k].tasks != [] && s' == s.(m := ReduceTimeout(s.m, s.reduces[k].tasks))
  }

  // ----- The invariant

  /** Every unfinished input has its own number in mapTask, positive or negative. */
  ghost predicate MapsGood(j: Job, m: State) {
    && (forall f :: f in m.mapTask ==> f in j.files)
    && (forall x: nat :: Kept(j, x) && j.files[x] in m.mapTask ==>
          m.mapTask[j.files[x]] == x + 1 || m.mapTask[j.files[x]] == -(x + 1))
    && (m.isMapDone ==> m.mapTask == map[])
    && (m.mapTask == map[] && j.files != [] ==> m.isMapDone)
  }

  /** Some finished input wrote a file for bucket b. */
  ghost predicate Produced(j: Job, m: State, b: int)
    requires GoodJob(j)
  {
    b >= 0 && exists x: nat :: Done(j, m, x) && Writes(j, x, b)
  }

  /** f is the file of a finished input for bucket b. */
  ghost predicate IsFile(j: Job, m: State, f: string, b: int)
    requires GoodJob(j)
  {
    b >= 0 && exists x: nat :: Done(j, m, x) && Writes(j, x, b) && f == FileOf(x, b)
  }

  /** The buckets produced and not reported, with their files; a bucket and its files wait together. */
  ghost predicate BucketsGood(j: Job, m: State, reported: set<int>)
    requires GoodJob(j)
  {
    && (forall b :: b in m.reduceBucket <==> Produced(j, m, b) && b !in reported)
    && (forall f :: f in m.reduceTask ==> Unreported(j, m, reported, f))
    && (forall f, b :: IsFile(j, m, f, b) && b !in reported ==> Follows(m, f, b))
  }

  ghost predicate Unreported(j: Job, m: State, reported: set<int>, f: string)
    requires GoodJob(j)
  {
    exists b :: IsFile(j, m, f, b) && b !in reported
  }

  /** The file is with a worker exactly when its bucket is. */
  ghost predicate Follows(m: State, f: string, b: int) {
    b in m.reduceBucket && f in m.reduceTask && m.reduceTask[f] == if m.reduceBucket[b] then b else -b
  }

  /** Before the map phase is over, nothing has been reduced. */
  ghost predicate PhaseGood(s: Sys) {
    && (!s.m.isMapDone ==> s.reported == {} && s.reduces == [] && forall b :: b in s.m.reduceBucket ==> s.m.reduceBucket[b])
    && (s.m.isReduceDone ==> s.m.isMapDone && s.m.reduceTask == map[])
  }

  /** A reduce task was given every file of its bucket. */
  ghost predicate AssignmentGood(j: Job, m: State, a: Assignment)
    requires GoodJob(j)
  {
    && a.tasks != [] && NoRepeats(a.tasks)
    && (forall t :: 0 <= t < |a.tasks| ==> a.tasks[t].taskId == a.bucket)
    && (forall f :: f in Names(a.tasks) <==> IsFile(j, m, f, a.bucket))
  }

  ghost predicate FilesGood(j: Job, s: Sys)
    requires GoodJob(j)
  {
    && (forall x: nat, y: nat :: x < |j.docs| && FileOf(x, y) in s.fs ==> s.fs[FileOf(x, y)] == Part(j, x, y))
    && (forall x: nat, y: nat :: Done(j, s.m, x) && Writes(j, x, y) ==> FileOf(x, y) in s.fs)
  }

  /** What is reported has been written. */
  ghost predicate OutputsGood(s: Sys) {
    s.reported <= s.outputs.Keys
  }

  /** Every output is Reduce of its whole bucket. */
  ghost predicate OutputsRight(j: Job, s: Sys)
    requires GoodJob(j)
  {
    forall b :: b in s.outputs ==> b >= 0 && Reduces(s.outputs[b], InBucket(Flatten(Docs(j)), j.hash, j.nReduce, b), j.reducef)
  }

  /** Only the last mention of an input is ever given out. */
  ghost predicate GivenGood(j: Job, s: Sys) {
    forall x :: x in s.maps ==> Kept(j, x)
  }

  ghost predicate Good(j: Job, s: Sys)
    requires GoodJob(j)
  {
    && MapsGood(j, s.m)
    && BucketsGood(j, s.m, s.reported)
    && PhaseGood(s)
    && (forall k :: 0 <= k < |s.reduces| ==> AssignmentGood(j, s.m, s.reduces[k]))
    && FilesGood(j, s)
    && OutputsGood(s)
    && GivenGood(j, s)
  }

  // ----- Facts about the pieces

  lemma FileTells(x: nat, y: nat, x': nat, y': nat)
    requires FileOf(x, y) == FileOf(x', y')
    ensures x == x' && y == y'
  {
    NamesDiffer(x + 1, y, x' + 1, y');
  }

  /** A file belongs to one bucket. */
  lemma FileHasOneBucket(j: Job, m: State, f: string, b: int, b': int)
    requires GoodJob(j) && IsFile(j, m, f, b) && IsFile(j, m, f, b')
    ensures b == b'
  {
    var x: nat :| Done(j, m, x) && Writes(j, x, b) && f == FileOf(x, b);
    var x': nat :| Done(j, m, x') && Writes(j, x', b') && f == FileOf(x', b');
    FileTells(x, b, x', b');
  }

  /** What is produced depends only on which inputs are finished. */
  lemma SameDone(j: Job, m: State, m': State)
    requires GoodJob(j) && m.mapTask.Keys == m'.mapTask.Keys
    ensures forall x: nat :: Done(j, m, x) <==> Done(j, m', x)
    ensures forall b :: Produced(j, m, b) <==> Produced(j, m', b)
    ensures forall f, b :: IsFile(j, m, f, b) <==> IsFile(j, m', f, b)
  {
    assert forall x: nat :: Done(j, m, x) <==> Done(j, m', x);
    forall f, b
      ensures IsFile(j, m, f, b) <==> IsFile(j, m', f, b)
    {
    }
    forall b
      ensures Produced(j, m, b) <==> Produced(j, m', b)
    {
    }
  }

  lemma SameAssignments(j: Job, m: State, m': State, a: Assignment)
    requires GoodJob(j) && m.mapTask.Keys == m'.mapTask.Keys && AssignmentGood(j, m, a)
    ensures AssignmentGood(j, m', a)
  {
    hide IsFile, Produced, Done;
    SameDone(j, m, m');
  }

  lemma SameFiles(j: Job, s: Sys, s': Sys)
    requires GoodJob(j) && FilesGood(j, s) && s'.m.mapTask.Keys == s.m.mapTask.Keys && s'.fs == s.fs
    ensures FilesGood(j, s')
  {
    SameDone(j, s.m, s'.m);
    hide IsFile, Produced;
  }

  /** A step that changes only the master, and finishes no input. */
  lemma OnlyMaster(j: Job, s: Sys, s': Sys)
    requires GoodJob(j) && Good(j, s)
    requires s' == s.(m := s'.m, maps := s'.maps) && s'.m.mapTask.Keys == s.m.mapTask.Keys && GivenGood(j, s')
    requires MapsGood(j, s'.m) && BucketsGood(j, s'.m, s'.reported) && PhaseGood(s')
    ensures Good(j, s')
  {
    hide MapsGood, BucketsGood, PhaseGood, AssignmentGood, FilesGood, OutputsGood, GivenGood;
    SameFiles(j, s, s');
    OutputsSame(s, s');
    forall k | 0 <= k < |s'.reduces|
      ensures AssignmentGood(j, s'.m, s'.reduces[k])
    {
      SameAssignments(j, s.m, s'.m, s.reduces[k]);
    }
  }

  /** A bucket that was produced has a file. */
  lemma ProducedHasFile(j: Job, m: State, b: int) returns (f: string)
    requires GoodJob(j) && Produced(j, m, b)
    ensures IsFile(j, m, f, b)
  {
    var x: nat :| Done(j, m, x) && Writes(j, x, b);
    f := FileOf(x, b);
  }

  // ----- Each step keeps the invariant

  /** A bucket that waits waits with all its files. */
  lemma WaitingIsAll(j: Job, m: State, reported: set<int>, b: int)
    requires GoodJob(j) && BucketsGood(j, m, reported) && b > 0 && b in m.reduceBucket && m.reduceBucket[b]
    ensures forall f :: f in FilesWaiting(m, b) <==> IsFile(j, m, f, b)
    ensures FilesWaiting(m, b) != {}
  {
    hide IsFile, Produced;
    forall f
      ensures f in FilesWaiting(m, b) <==> IsFile(j, m, f, b)
    {
      if f in FilesWaiting(m, b) {
        var b' :| IsFile(j, m, f, b') && b' !in reported;
        BucketNotNegative(j, m, f, b');
        assert b' == b;
      }
    }
    var f := ProducedHasFile(j, m, b);
    assert f in FilesWaiting(m, b);
  }

  lemma BucketNotNegative(j: Job, m: State, f: string, b: int)
    requires GoodJob(j) && IsFile(j, m, f, b)
    ensures b >= 0
  {
  }

  lemma AssignReduceKeeps(j: Job, m: State, reported: set<int>, b: int)
    requires GoodJob(j) && BucketsGood(j, m, reported) && b > 0 && b in m.reduceBucket && m.reduceBucket[b]
    ensures BucketsGood(j, AssignReduce(m, b), reported)
  {
    hide IsFile, Produced, Done;
    var m' := AssignReduce(m, b);
    SameDone(j, m, m');
    forall f, b' | IsFile(j, m', f, b') && b' !in reported
      ensures Follows(m', f, b')
    {
      assert Follows(m, f, b');
      BucketNotNegative(j, m, f, b');
    }
    forall f | f in m'.reduceTask
      ensures Unreported(j, m', reported, f)
    {
      assert Unreported(j, m, reported, f);
    }
  }

  lemma RequestKeeps(j: Job, s: Sys, reply: Reply, s': Sys)
    requires GoodJob(j) && Good(j, s) && Next(j, s, Request(reply), s')
    ensures Good(j, s')
  {
    match reply
    case NoTask =>
      if s'.m != s.m {
        var b: int :| b > 0 && b in s.m.reduceBucket && s.m.reduceBucket[b] && FilesWaiting(s.m, b) == {} && s'.m == AssignReduce(s.m, b);
        WaitingIsAll(j, s.m, s.reported, b);
        assert false;
      }
    case MapReply(task) =>
      AssignMapKeeps(j, s, task, s');
    case ReduceReply(b, tasks) =>
      ReduceReplyKeeps(j, s, b, tasks, s');
  }

  lemma AssignMapKeeps(j: Job, s: Sys, task: AssignTask, s': Sys)
    requires GoodJob(j) && Good(j, s) && !s.m.isMapDone && task.fileName in s.m.mapTask
    requires task.taskId == s.m.mapTask[task.fileName] > 0
    requires s' == s.(m := AssignMap(s.m, task.fileName), maps := s.maps + Given(j, MapReply(task)))
    ensures Good(j, s')
  {
    assert forall x :: x in s.maps ==> Kept(j, x);
    hide AssignmentGood, FilesGood, OutputsGood, BucketsGood, MapsGood, GivenGood, Given, Kept;
    AssignMapsGood(j, s.m, task.fileName);
    GivenIsKept(j, s.m, s.maps, task);
    SameBuckets(j, s.m, s'.m, s.reported);
    GivenFrom(j, s');
    OnlyMaster(j, s, s');
  }

  lemma AssignMapsGood(j: Job, m: State, f: string)
    requires MapsGood(j, m) && f in m.mapTask && !m.isMapDone
    ensures MapsGood(j, AssignMap(m, f)) && AssignMap(m, f).mapTask.Keys == m.mapTask.Keys
  {
    var m' := AssignMap(m, f);
    assert m'.mapTask.Keys == m.mapTask.Keys;
    assert m'.mapTask != map[];
  }

  lemma GivenIsKept(j: Job, m: State, maps: set<nat>, task: AssignTask)
    requires MapsGood(j, m) && task.fileName in m.mapTask && task.taskId == m.mapTask[task.fileName] > 0
    ensures (forall x :: x in maps ==> Kept(j, x)) ==> forall x :: x in maps + Given(j, MapReply(task)) ==> Kept(j, x)
  {
    hide MapsGood, Kept;
    var x := WaitsFor(j, m, task.fileName);
    assert Given(j, MapReply(task)) == {x};
  }

  lemma GivenFrom(j: Job, s: Sys)
    requires forall x :: x in s.maps ==> Kept(j, x)
    ensures GivenGood(j, s)
  {
  }

  /** The input that a map task is for. */
  lemma WaitsFor(j: Job, m: State, f: string) returns (x: nat)
    requires MapsGood(j, m) && f in m.mapTask
    ensures Kept(j, x) && x < |j.files| && j.files[x] == f && (m.mapTask[f] == x + 1 || m.mapTask[f] == -(x + 1))
  {
    assert j.files[..|j.files|] == j.files;
    x := LastMention(j, f, |j.files|);
  }

  lemma SameBuckets(j: Job, m: State, m': State, reported: set<int>)
    requires GoodJob(j) && BucketsGood(j, m, reported)
    requires m'.mapTask.Keys == m.mapTask.Keys && m'.reduceTask == m.reduceTask && m'.reduceBucket == m.reduceBucket
    ensures BucketsGood(j, m', reported)
  {
    hide IsFile, Produced, Done;
    SameDone(j, m, m');
    forall f | f in m'.reduceTask
      ensures Unreported(j, m', reported, f)
    {
      assert Unreported(j, m, reported, f);
    }
    forall f, b | IsFile(j, m', f, b) && b !in reported
      ensures Follows(m', f, b)
    {
      assert Follows(m, f, b);
    }
  }

  lemma ReduceReplyKeeps(j: Job, s: Sys, b: int, tasks: seq<AssignTask>, s': Sys)
    requires GoodJob(j) && Good(j, s) && Assigned(s.m, ReduceReply(b, tasks), s'.m)
    requires s' == s.(m := s'.m, reduces := s.reduces + [Assignment(b, tasks)])
    ensures Good(j, s')
  {
    hide FilesGood, OutputsGood, BucketsGood, IsFile;
    AssignReduceKeeps(j, s.m, s.reported, b);
    WaitingIsAll(j, s.m, s.reported, b);
    assert AssignmentGood(j, s.m, Assignment(b, tasks));
    hide AssignmentGood;
    SameAssignments(j, s.m, s'.m, Assignment(b, tasks));
    OnlyMaster(j, s, s.(m := s'.m));
    FilesRest(j, s.(m := s'.m), s');
  }

  lemma FilesRest(j: Job, s: Sys, s': Sys)
    requires GoodJob(j) && FilesGood(j, s) && OutputsGood(s) && GivenGood(j, s)
    requires s'.m == s.m && s'.fs == s.fs && s'.outputs == s.outputs && s'.reported == s.reported && s'.maps == s.maps
    ensures FilesGood(j, s') && OutputsGood(s') && GivenGood(j, s')
  {
  }

  lemma WriteKeeps(j: Job, s: Sys, x: nat, y: nat, s': Sys)
    requires GoodJob(j) && Good(j, s) && Next(j, s, WriteFile(x, y), s')
    ensures Good(j, s')
  {
    hide MapsGood, BucketsGood, AssignmentGood, OutputsGood;
    OutputsSame(s, s');
    forall x': nat, y': nat | x' < |j.docs| && FileOf(x', y') in s'.fs
      ensures s'.fs[FileOf(x', y')] == Part(j, x', y')
    {
      if FileOf(x', y') == FileOf(x, y) {
        FileTells(x', y', x, y);
      }
    }
  }

  lemma OutputsSame(s: Sys, s': Sys)
    requires OutputsGood(s) && s'.outputs == s.outputs && s'.reported == s.reported
    ensures OutputsGood(s')
  {
  }

  /** f is the file of the task for one of the buckets. */
  ghost predicate Listed(taskId: nat, buckets: seq<int>, f: string) {
    exists b: nat :: b in buckets && f == NumberToStr(taskId, b)
  }

  lemma ListedSnoc(taskId: nat, rest: seq<int>, b0: nat, f: string)
    ensures Listed(taskId, rest + [b0], f) <==> Listed(taskId, rest, f) || f == NumberToStr(taskId, b0)
  {
    var more := rest + [b0];
    if Listed(taskId, rest, f) {
      var b: nat :| b in rest && f == NumberToStr(taskId, b);
      assert b in more;
    }
    assert b0 in more;
  }

  lemma {:induction false} AddBucketsMarks(m: State, taskId: nat, buckets: seq<int>)
    requires forall k :: 0 <= k < |buckets| ==> buckets[k] >= 0
    ensures var m' := AddBuckets(m, taskId, buckets);
            && m'.mapTask == m.mapTask && m'.isMapDone == m.isMapDone && m'.isReduceDone == m.isReduceDone
            && (forall b :: b in m'.reduceBucket <==> b in m.reduceBucket || b in buckets)
            && (forall b :: b in m'.reduceBucket ==> m'.reduceBucket[b] == (b in buckets || m.reduceBucket[b]))
  {
    if buckets != [] {
      var rest, b0 := buckets[..|buckets| - 1], buckets[|buckets| - 1];
      AddBucketsMarks(m, taskId, rest);
      assert buckets == rest + [b0];
    }
  }

  lemma {:induction false} AddBucketsFiles(m: State, taskId: nat, buckets: seq<int>)
    requires forall k :: 0 <= k < |buckets| ==> buckets[k] >= 0
    ensures var m' := AddBuckets(m, taskId, buckets);
            && (forall f :: f in m'.reduceTask <==> f in m.reduceTask || Listed(taskId, buckets, f))
            && (forall b: nat :: b in buckets ==> Listed(taskId, buckets, NumberToStr(taskId, b)) && m'.reduceTask[NumberToStr(taskId, b)] == b)
            && (forall f :: f in m.reduceTask && !Listed(taskId, buckets, f) ==> m'.reduceTask[f] == m.reduceTask[f])
  {
    hide NumberToStr;
    if buckets != [] {
      var rest, b0 := buckets[..|buckets| - 1], buckets[|buckets| - 1];
      AddBucketsFiles(m, taskId, rest);
      assert buckets == rest + [b0];
      var t, m' := AddBuckets(m, taskId, rest), AddBuckets(m, taskId, buckets);
      assert m'.reduceTask == t.reduceTask[NumberToStr(taskId, b0) := b0];
      forall f
        ensures Listed(taskId, buckets, f) <==> Listed(taskId, rest, f) || f == NumberToStr(taskId, b0)
      {
        ListedSnoc(taskId, rest, b0, f);
      }
      hide Listed, AddBuckets;
      forall b: nat | b in buckets
        ensures Listed(taskId, buckets, NumberToStr(taskId, b)) && m'.reduceTask[NumberToStr(taskId, b)] == b
      {
        if NumberToStr(taskId, b) == NumberToStr(taskId, b0) {
          NamesDiffer(taskId, b, taskId, b0);
        } else {
          assert b in rest;
        }
      }
    }
  }

  // A finished map task

  ghost predicate FinishesOnly(j: Job, m: State, m': State, x: nat) {
    Kept(j, x) && forall f :: f in m'.mapTask <==> f in m.mapTask && f != j.files[x]
  }

  lemma DoneAfter(j: Job, m: State, m': State, x: nat)
    requires GoodJob(j) && FinishesOnly(j, m, m', x)
    ensures forall x': nat :: Done(j, m', x') <==> Done(j, m, x') || x' == x
  {
    forall x': nat | Kept(j, x') && j.files[x'] == j.files[x]
      ensures x' == x
    {
      KeptOnce(j, x, x');
    }
  }

  lemma FilesAfter(j: Job, m: State, m': State, x: nat)
    requires GoodJob(j) && FinishesOnly(j, m, m', x)
    ensures forall f, b: int :: IsFile(j, m', f, b) <==> IsFile(j, m, f, b) || (b >= 0 && Writes(j, x, b) && f == FileOf(x, b))
    ensures forall b: int :: Produced(j, m', b) <==> Produced(j, m, b) || (b >= 0 && Writes(j, x, b))
  {
    DoneAfter(j, m, m', x);
    hide Done, FinishesOnly;
    forall f, b: int
      ensures IsFile(j, m', f, b) <==> IsFile(j, m, f, b) || (b >= 0 && Writes(j, x, b) && f == FileOf(x, b))
    {
      if b >= 0 && Writes(j, x, b) && f == FileOf(x, b) {
        assert Done(j, m', x);
      }
    }
    forall b: int
      ensures Produced(j, m', b) <==> Produced(j, m, b) || (b >= 0 && Writes(j, x, b))
    {
      if b >= 0 && Writes(j, x, b) {
        assert Done(j, m', x);
      }
    }
  }

  /** The master after a map task is finished for the first time or again, before the map phase is over. */
  lemma MapFinishedDoes(j: Job, m: State, x: nat, buckets: seq<int>)
    requires GoodJob(j) && Kept(j, x) && Lists(j, x, buckets) && !m.isMapDone
    ensures var m' := MapFinished(m, FinishTask(j.files[x], x + 1, buckets));
            && FinishesOnly(j, m, m', x)
            && (m'.isMapDone <==> m'.mapTask == map[]) && m'.isReduceDone == m.isReduceDone
            && m'.mapTask == m.mapTask - {j.files[x]}
            && (forall b: int :: b in m'.reduceBucket <==> b in m.reduceBucket || (b >= 0 && Writes(j, x, b)))
            && (forall b :: b in m'.reduceBucket && (b in m.reduceBucket ==> m.reduceBucket[b]) ==> m'.reduceBucket[b])
            && (forall f :: f in m'.reduceTask <==> f in m.reduceTask || WrittenBy(j, x, f))
            && (forall b: nat :: Writes(j, x, b) ==> WrittenBy(j, x, FileOf(x, b)) && m'.reduceTask[FileOf(x, b)] == b)
            && (forall f :: f in m.reduceTask && !WrittenBy(j, x, f) ==> m'.reduceTask[f] == m.reduceTask[f])
  {
    hide Writes, AddBuckets;
    var left := m.mapTask - {j.files[x]};
    var cut := m.(mapTask := left, isMapDone := left == map[]);
    AddBucketsMarks(cut, x + 1, buckets);
    AddBucketsFiles(cut, x + 1, buckets);
    assert forall b: nat :: b in buckets <==> Writes(j, x, b);
    forall f
      ensures WrittenBy(j, x, f) <==> Listed(x + 1, buckets, f)
    {
      if WrittenBy(j, x, f) {
        var b: nat :| Writes(j, x, b) && f == FileOf(x, b);
        assert b in buckets;
      }
    }
  }

  /** f is one of the files of input x. */
  ghost predicate WrittenBy(j: Job, x: nat, f: string)
    requires GoodJob(j)
  {
    exists b: nat :: Writes(j, x, b) && f == FileOf(x, b)
  }

  /** Whoever wrote it, the file of x for b is the only file with that name. */
  lemma FileOfOther(j: Job, m: State, f: string, b: int, x: nat, b': nat)
    requires GoodJob(j) && IsFile(j, m, f, b) && f == FileOf(x, b')
    ensures b == b'
  {
    var x0: nat :| Done(j, m, x0) && Writes(j, x0, b) && f == FileOf(x0, b);
    FileTells(x, b', x0, b);
  }

  lemma MapFinishedFollows(j: Job, m: State, x: nat, buckets: seq<int>, f: string, b: int)
    requires GoodJob(j) && Kept(j, x) && Lists(j, x, buckets) && !m.isMapDone
    requires forall b :: b in m.reduceBucket ==> m.reduceBucket[b]
    requires (IsFile(j, m, f, b) && Follows(m, f, b)) || (b >= 0 && Writes(j, x, b) && f == FileOf(x, b))
    ensures Follows(MapFinished(m, FinishTask(j.files[x], x + 1, buckets)), f, b)
  {
    hide MapFinished, FinishesOnly, IsFile, Writes;
    MapFinishedDoes(j, m, x, buckets);
    if IsFile(j, m, f, b) && Follows(m, f, b) {
      if WrittenBy(j, x, f) {
        var b': nat :| Writes(j, x, b') && f == FileOf(x, b');
        FileOfOther(j, m, f, b, x, b');
      }
    }
  }

  lemma ReportMapBuckets(j: Job, m: State, x: nat, buckets: seq<int>)
    requires GoodJob(j) && Kept(j, x) && Lists(j, x, buckets) && !m.isMapDone && BucketsGood(j, m, {})
    requires forall b :: b in m.reduceBucket ==> m.reduceBucket[b]
    ensures BucketsGood(j, MapFinished(m, FinishTask(j.files[x], x + 1, buckets)), {})
  {
    hide MapFinished, FinishesOnly, IsFile, Produced, Writes, Follows;
    var m' := MapFinished(m, FinishTask(j.files[x], x + 1, buckets));
    MapFinishedDoes(j, m, x, buckets);
    FilesAfter(j, m, m', x);
    forall f | f in m'.reduceTask
      ensures Unreported(j, m', {}, f)
    {
      if f in m.reduceTask {
        assert Unreported(j, m, {}, f);
      } else {
        assert WrittenBy(j, x, f);
        var b: nat :| Writes(j, x, b) && f == FileOf(x, b);
        assert IsFile(j, m', f, b);
      }
    }
    forall f, b | IsFile(j, m', f, b) && b !in {}
      ensures Follows(m', f, b)
    {
      MapFinishedFollows(j, m, x, buckets, f, b);
    }
  }

  lemma FinishKeepsMaps(j: Job, m: State, m': State, x: nat)
    requires MapsGood(j, m) && x < |j.files| && m'.mapTask == m.mapTask - {j.files[x]} && (m'.isMapDone <==> m'.mapTask == map[])
    ensures MapsGood(j, m')
  {
  }

  lemma FinishKeepsFiles(j: Job, s: Sys, s': Sys, x: nat)
    requires GoodJob(j) && FilesGood(j, s) && FinishesOnly(j, s.m, s'.m, x) && s'.fs == s.fs
    requires forall y: nat :: Writes(j, x, y) ==> FileOf(x, y) in s.fs
    ensures FilesGood(j, s')
  {
    DoneAfter(j, s.m, s'.m, x);
    hide Done, FinishesOnly;
  }

  lemma ReportMapKeeps(j: Job, s: Sys, x: nat, buckets: seq<int>, s': Sys)
    requires GoodJob(j) && Good(j, s) && Next(j, s, ReportMap(x, buckets), s')
    ensures Good(j, s')
  {
    hide MapFinished, FinishesOnly, AssignmentGood, OutputsGood, BucketsGood, FilesGood, MapsGood, PhaseGood;
    if s.m.isMapDone {
      MapReportIgnored(s.m, FinishTask(j.files[x], x + 1, buckets));
    } else {
      ReportMapCounts(j, s, x, buckets, s');
    }
  }

  lemma ReportMapCounts(j: Job, s: Sys, x: nat, buckets: seq<int>, s': Sys)
    requires GoodJob(j) && Good(j, s) && !s.m.isMapDone && Kept(j, x) && Lists(j, x, buckets)
    requires forall y: nat :: Writes(j, x, y) ==> FileOf(x, y) in s.fs
    requires s' == s.(m := MapFinished(s.m, FinishTask(j.files[x], x + 1, buckets)))
    ensures Good(j, s')
  {
    hide MapFinished, FinishesOnly, AssignmentGood, OutputsGood, BucketsGood, FilesGood, MapsGood, GivenGood, Writes, FileOf;
    MapFinishedDoes(j, s.m, x, buckets);
    ReportMapBuckets(j, s.m, x, buckets);
    FinishKeepsMaps(j, s.m, s'.m, x);
    FinishKeepsFiles(j, s, s', x);
    OutputsSame(s, s');
    GivenSame(j, s, s');
    assert PhaseGood(s') by {
      assert forall b :: b in s'.m.reduceBucket ==> s'.m.reduceBucket[b];
    }
  }

  /** A report that comes after the map phase changes nothing. */
  lemma MapReportIgnored(m: State, task: FinishTask)
    requires task.taskId >= 0 && forall k :: 0 <= k < |task.bucketNums| ==> task.bucketNums[k] >= 0
    requires m.isMapDone
    ensures MapFinished(m, task) == m
  {
  }

  // A reduce task runs

  /** The input whose file for bucket b is f. */
  ghost function InputOf(j: Job, m: State, f: string, b: int): (x: nat)
    requires GoodJob(j) && IsFile(j, m, f, b)
    ensures Done(j, m, x) && Writes(j, x, b) && f == FileOf(x, b)
  {
    var x: nat :| Done(j, m, x) && Writes(j, x, b) && f == FileOf(x, b);
    x
  }

  ghost predicate OrderOf(j: Job, m: State, a: Assignment, order: seq<nat>)
    requires GoodJob(j)
  {
    a.bucket >= 0 && |order| == |a.tasks| &&
    forall t :: 0 <= t < |order| ==> Done(j, m, order[t]) && Writes(j, order[t], a.bucket) && a.tasks[t].fileName == FileOf(order[t], a.bucket)
  }

  lemma TaskIsFile(j: Job, m: State, a: Assignment, t: nat)
    requires GoodJob(j) && AssignmentGood(j, m, a) && t < |a.tasks|
    ensures IsFile(j, m, a.tasks[t].fileName, a.bucket)
  {
    hide IsFile;
    assert a.tasks[t].fileName in Names(a.tasks);
  }

  lemma InputsInOrder(j: Job, m: State, a: Assignment) returns (order: seq<nat>)
    requires GoodJob(j) && AssignmentGood(j, m, a)
    ensures OrderOf(j, m, a, order)
  {
    hide IsFile, AssignmentGood, Done, Writes;
    TaskCount(j, m, a);
    TaskIsFile(j, m, a, 0);
    BucketNotNegative(j, m, a.tasks[0].fileName, a.bucket);
    order := [];
    for t := 0 to |a.tasks|
      invariant |order| == t
      invariant forall u :: 0 <= u < t ==>
        Done(j, m, order[u]) && Writes(j, order[u], a.bucket) && a.tasks[u].fileName == FileOf(order[u], a.bucket)
    {
      TaskIsFile(j, m, a, t);
      order := order + [InputOf(j, m, a.tasks[t].fileName, a.bucket)];
    }
  }

  lemma TaskCount(j: Job, m: State, a: Assignment)
    requires GoodJob(j) && AssignmentGood(j, m, a)
    ensures |a.tasks| > 0
  {
  }

  /** Once the map phase is over, a reduce task lists the files of its bucket, each once. */
  lemma OrderIsFiles(j: Job, m: State, a: Assignment, order: seq<nat>)
    requires GoodJob(j) && MapsGood(j, m) && m.isMapDone && AssignmentGood(j, m, a) && OrderOf(j, m, a, order)
    ensures FilesOf(Docs(j), j.hash, j.nReduce, a.bucket, order)
  {
    forall t, u | 0 <= t < u < |order|
      ensures order[t] != order[u]
    {
      assert a.tasks[t] != a.tasks[u];
      assert a.tasks[t].taskId == a.tasks[u].taskId;
    }
    forall x: nat
      ensures x in order <==> Writes(j, x, a.bucket)
    {
      if Writes(j, x, a.bucket) {
        WritesKept(j, x, a.bucket);
        assert Done(j, m, x);
        assert IsFile(j, m, FileOf(x, a.bucket), a.bucket);
        var t :| 0 <= t < |a.tasks| && a.tasks[t].fileName == FileOf(x, a.bucket);
        FileTells(order[t], a.bucket, x, a.bucket);
        assert order[t] in order;
      }
    }
  }

  /** What a reduce task writes is what Reduce makes of its bucket. */
  lemma ReducesBucket(j: Job, s: Sys, a: Assignment, contents: seq<seq<KeyValue>>, results: seq<Result>)
    requires GoodJob(j) && OrderFree(j.reducef) && MapsGood(j, s.m) && s.m.isMapDone && FilesGood(j, s) && AssignmentGood(j, s.m, a)
    requires |contents| == |a.tasks|
    requires forall t :: 0 <= t < |contents| ==> a.tasks[t].fileName in s.fs && contents[t] == s.fs[a.tasks[t].fileName]
    requires WrittenFrom(results, Flatten(contents), j.reducef)
    ensures a.bucket >= 0 && Reduces(results, InBucket(Flatten(Docs(j)), j.hash, j.nReduce, a.bucket), j.reducef)
  {
    hide AssignmentGood, MapsGood, Reduces, OrderFree, FilesOf, Flatten, InBucket, Grouped, Sorting.Sorted;
    var order := InputsInOrder(j, s.m, a);
    OrderIsFiles(j, s.m, a, order);
    FilesHoldBucket(Docs(j), j.hash, j.nReduce, a.bucket, order);
    assert contents == Contents(Docs(j), j.hash, j.nReduce, a.bucket, order);
    var sorted :| Sorting.Sorted(sorted, ByKey) && multiset(sorted) == multiset(Flatten(contents)) && results == Grouped(sorted, j.reducef, 0);
    GroupedReduces(sorted, j.reducef);
    SamePairsSameResults(results, sorted, InBucket(Flatten(Docs(j)), j.hash, j.nReduce, a.bucket), j.reducef);
  }

  lemma RunReduceKeeps(j: Job, s: Sys, k: nat, contents: seq<seq<KeyValue>>, results: seq<Result>, s': Sys)
    requires GoodJob(j) && Good(j, s) && Next(j, s, RunReduce(k, contents, results), s')
    ensures Good(j, s')
  {
    hide AssignmentGood, BucketsGood, MapsGood, WrittenFrom, Flatten, InBucket, GivenGood;
    GivenSame(j, s, s');
  }

  lemma GivenSame(j: Job, s: Sys, s': Sys)
    requires GivenGood(j, s) && s'.maps == s.maps
    ensures GivenGood(j, s')
  {
  }

  /** Whatever is written keeps every output right. */
  lemma OutputsStayRight(j: Job, s: Sys, step: Step, s': Sys)
    requires GoodJob(j) && OrderFree(j.reducef) && Good(j, s) && OutputsRight(j, s) && Next(j, s, step, s')
    ensures OutputsRight(j, s')
  {
    hide AssignmentGood, BucketsGood, MapsGood, Reduces, OrderFree, Flatten, InBucket, WrittenFrom, FilesGood;
    if step.RunReduce? {
      ReducesBucket(j, s, s.reduces[step.k], step.contents, step.results);
    }
  }

  // A reduce task is reported

  /** A file that is not listed is the file of another bucket. */
  lemma OtherBucket(j: Job, m: State, a: Assignment, f: string, b: int)
    requires GoodJob(j) && AssignmentGood(j, m, a) && IsFile(j, m, f, b)
    ensures f in Names(a.tasks) <==> b == a.bucket
  {
    hide IsFile;
    if f in Names(a.tasks) {
      FileHasOneBucket(j, m, f, b, a.bucket);
    }
  }

  lemma ReportReduceBuckets(j: Job, m: State, reported: set<int>, a: Assignment)
    requires GoodJob(j) && BucketsGood(j, m, reported) && AssignmentGood(j, m, a)
    ensures BucketsGood(j, ReduceFinished(m, a.tasks), reported + {a.bucket})
  {
    hide IsFile, Produced, Done;
    var m', reported' := ReduceFinished(m, a.tasks), reported + {a.bucket};
    SameDone(j, m, m');
    forall f | f in m'.reduceTask
      ensures Unreported(j, m', reported', f)
    {
      assert Unreported(j, m, reported, f);
      var b :| IsFile(j, m, f, b) && b !in reported;
      OtherBucket(j, m, a, f, b);
    }
    forall f, b | IsFile(j, m', f, b) && b !in reported'
      ensures Follows(m', f, b)
    {
      assert Follows(m, f, b);
      OtherBucket(j, m, a, f, b);
    }
  }

  lemma ReportReduceKeeps(j: Job, s: Sys, k: nat, s': Sys)
    requires GoodJob(j) && Good(j, s) && Next(j, s, ReportReduce(k), s')
    ensures Good(j, s')
  {
    hide AssignmentGood, BucketsGood, FilesGood, GivenGood;
    GivenSame(j, s, s');
    var a := s.reduces[k];
    ReportReduceBuckets(j, s.m, s.reported, a);
    SameFiles(j, s, s');
    assert PhaseGood(s');
    forall i | 0 <= i < |s'.reduces|
      ensures AssignmentGood(j, s'.m, s'.reduces[i])
    {
      SameAssignments(j, s.m, s'.m, s.reduces[i]);
    }
  }

  // A timer fires

  lemma TimerMapKeeps(j: Job, s: Sys, x: nat, s': Sys)
    requires GoodJob(j) && Good(j, s) && Next(j, s, TimerMap(x), s')
    ensures Good(j, s')
  {
    hide AssignmentGood, FilesGood, OutputsGood, BucketsGood, MapsGood, GivenGood, Kept, MapTimeout, PhaseGood;
    GivenKept(j, s, x);
    TimerMapsGood(j, s.m, x);
    SameBuckets(j, s.m, s'.m, s.reported);
    GivenSame(j, s, s');
    SamePhase(s, s');
    OnlyMaster(j, s, s');
  }

  lemma GivenKept(j: Job, s: Sys, x: nat)
    requires GivenGood(j, s) && x in s.maps
    ensures Kept(j, x)
  {
  }

  lemma SamePhase(s: Sys, s': Sys)
    requires PhaseGood(s) && s' == s.(m := s.m.(mapTask := s'.m.mapTask))
    ensures PhaseGood(s')
  {
  }

  lemma TimerMapsGood(j: Job, m: State, x: nat)
    requires MapsGood(j, m) && Kept(j, x)
    ensures x < |j.files|
    ensures var m' := MapTimeout(m, AssignTask(j.files[x], x + 1));
            && MapsGood(j, m') && m'.mapTask.Keys == m.mapTask.Keys && m' == m.(mapTask := m'.mapTask)
            && forall x': nat :: Kept(j, x') && x' != x && j.files[x'] in m.mapTask ==> m'.mapTask[j.files[x']] == m.mapTask[j.files[x']]
  {
    var m' := MapTimeout(m, AssignTask(j.files[x], x + 1));
    assert m'.mapTask.Keys == m.mapTask.Keys;
    assert m'.mapTask == map[] <==> m.mapTask == map[];
    forall x': nat | Kept(j, x') && x' != x && j.files[x'] in m.mapTask
      ensures m'.mapTask[j.files[x']] == m.mapTask[j.files[x']]
    {
      if j.files[x'] == j.files[x] {
        KeptOnce(j, x, x');
      }
    }
  }

  lemma {:induction false} WaitingDoes(tasks: seq<AssignTask>, left: map<string, int>, b: int)
    requires forall t :: 0 <= t < |tasks| ==> tasks[t].taskId == b
    ensures var w := Waiting(tasks, left);
            && w.Keys == left.Keys + Names(tasks)
            && (forall f :: f in Names(tasks) ==> w[f] == b)
            && (forall f :: f in left && f !in Names(tasks) ==> w[f] == left[f])
  {
    if tasks != [] {
      var n := |tasks| - 1;
      WaitingDoes(tasks[..n], left, b);
      NamesSnoc(tasks[..n], tasks[n]);
      assert tasks == tasks[..n] + [tasks[n]];
    }
  }

  lemma TimerReduceBuckets(j: Job, m: State, reported: set<int>, a: Assignment)
    requires GoodJob(j) && BucketsGood(j, m, reported) && AssignmentGood(j, m, a)
    ensures BucketsGood(j, ReduceTimeout(m, a.tasks), reported)
  {
    hide IsFile, Produced, Done, Waiting;
    if a.bucket in m.reduceBucket {
      var m' := ReduceTimeout(m, a.tasks);
      WaitingDoes(a.tasks, m.reduceTask, a.bucket);
      SameDone(j, m, m');
      forall f | f in m'.reduceTask
        ensures Unreported(j, m', reported, f)
      {
        if f in Names(a.tasks) {
          assert IsFile(j, m, f, a.bucket);
        } else {
          assert Unreported(j, m, reported, f);
        }
      }
      forall f, b | IsFile(j, m', f, b) && b !in reported
        ensures Follows(m', f, b)
      {
        assert Follows(m, f, b);
        OtherBucket(j, m, a, f, b);
      }
    }
  }

  /** When no file waits, every bucket that was produced has been reported. */
  lemma NothingWaits(j: Job, m: State, reported: set<int>)
    requires GoodJob(j) && BucketsGood(j, m, reported) && m.reduceTask == map[]
    ensures m.reduceBucket == map[]
    ensures forall b :: Produced(j, m, b) ==> b in reported
  {
    hide IsFile, Produced;
    forall b | Produced(j, m, b)
      ensures b in reported
    {
      var f := ProducedHasFile(j, m, b);
      assert b !in reported ==> Follows(m, f, b);
    }
    assert forall b :: b !in m.reduceBucket;
  }

  lemma TimerReduceKeeps(j: Job, s: Sys, k: nat, s': Sys)
    requires GoodJob(j) && Good(j, s) && Next(j, s, TimerReduce(k), s')
    ensures Good(j, s')
  {
    hide AssignmentGood, BucketsGood, FilesGood, OutputsGood, MapsGood;
    TimerReduceBuckets(j, s.m, s.reported, s.reduces[k]);
    if s.m.isReduceDone {
      NothingWaits(j, s.m, s.reported);
    }
    MapsSame(j, s.m, s'.m);
    OnlyMaster(j, s, s');
  }

  lemma MapsSame(j: Job, m: State, m': State)
    requires MapsGood(j, m) && m'.mapTask == m.mapTask && m'.isMapDone == m.isMapDone
    ensures MapsGood(j, m')
  {
  }
}
