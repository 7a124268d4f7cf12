/**
 The MapReduce master (mr/master.go): which task goes to whom, what a report or a
 timeout changes. Each handler is taken as one atomic step.
 */
module Master {
  import opened Seqs

  datatype AssignTask = AssignTask(fileName: string, taskId: int)

  datatype FinishTask = FinishTask(fileName: string, taskId: int, bucketNums: seq<int>)

  /** A negative task number says that the task is with a worker; reduceBucket[b] says that bucket b waits for one. */
  datatype State = State(
    isMapDone: bool, isReduceDone: bool,
    mapTask: map<string, int>, reduceTask: map<string, int>, reduceBucket: map<int, bool>)

  // ----- File names

  function Digit(d: nat): char
    requires d < 10
  {
    "0123456789"[d]
  }

  /** strconv.Itoa, for numbers that are not negative. */
  function Itoa(n: nat): (s: string)
    ensures s != [] && '-' !in s
  {
    if n < 10 then [Digit(n)] else Itoa(n / 10) + [Digit(n % 10)]
  }

  /** The name of the intermediate file of task x and bucket y. */
  function NumberToStr(x: nat, y: nat): string {
    "mr-" + Itoa(x) + "-" + Itoa(y)
  }

  lemma DigitInjective(c: nat, d: nat)
    requires c < 10 && d < 10 && Digit(c) == Digit(d)
    ensures c == d
  {
  }

  lemma {:induction false} ItoaInjective(m: nat, n: nat)
    requires Itoa(m) == Itoa(n)
    ensures m == n
    decreases m + n
  {
    var s := Itoa(m);
    if m >= 10 && n >= 10 {
      assert s[..|s| - 1] == Itoa(m / 10) == Itoa(n / 10);
      ItoaInjective(m / 10, n / 10);
      DigitInjective(m % 10, n % 10);
    } else if m < 10 && n < 10 {
      DigitInjective(m, n);
    } else {
      ItoaLength(m);
      ItoaLength(n);
    }
  }

  lemma ItoaLength(n: nat)
    ensures |Itoa(n)| == 1 <==> n < 10
  {
  }

  /** Two strings without the separator that agree around it are the same. */
  lemma {:induction false} SplitAtDash(a: string, b: string, c: string, d: string)
    requires '-' !in a && '-' !in c && a + "-" + b == c + "-" + d
    ensures a == c && b == d
  {
    var s := a + "-" + b;
    assert s[|a|] == '-' && s[|c|] == '-';
    assert forall i :: 0 <= i < |a| ==> s[i] == a[i] && a[i] in a;
    assert forall i :: 0 <= i < |c| ==> s[i] == c[i] && c[i] in c;
    assert |a| == |c|;
    assert a == s[..|a|] && c == s[..|c|];
    assert b == s[|a| + 1..] && d == s[|c| + 1..];
  }

  /** A file name tells its task and its bucket. */
  lemma NamesDiffer(x: nat, y: nat, x': nat, y': nat)
    requires NumberToStr(x, y) == NumberToStr(x', y')
    ensures x == x' && y == y'
  {
    var s := NumberToStr(x, y);
    assert s[3..] == Itoa(x) + "-" + Itoa(y);
    assert s[3..] == Itoa(x') + "-" + Itoa(y');
    SplitAtDash(Itoa(x), Itoa(y), Itoa(x'), Itoa(y'));
    ItoaInjective(x, x');
    ItoaInjective(y, y');
  }

  // ----- The handlers

  function Start(files: seq<string>): State {
    State(false, false, Numbered(files), map[], map[])
  }

  /** mapTask[file] = idx + 1, file by file: a file named twice keeps its last number. */
  function Numbered(files: seq<string>): map<string, int> {
    if files == [] then map[] else Numbered(files[..|files| - 1])[files[|files| - 1] := |files|]
  }

  /** A map task that waits goes to a worker. */
  function AssignMap(s: State, file: string): State
    requires file in s.mapTask
  {
    s.(mapTask := s.mapTask[file := -s.mapTask[file]])
  }

  /** The files that wait for bucket b. */
  function FilesWaiting(s: State, b: int): set<string> {
    set f | f in s.reduceTask && s.reduceTask[f] == b
  }

  /** A bucket that waits goes to a worker, with all its files. */
  function AssignReduce(s: State, b: int): State {
    s.(reduceBucket := s.reduceBucket[b := false],
       reduceTask := map f | f in s.reduceTask :: if s.reduceTask[f] == b then -b else s.reduceTask[f])
  }

  function AddBuckets(s: State, taskId: nat, buckets: seq<int>): State
    requires forall k :: 0 <= k < |buckets| ==> buckets[k] >= 0
  {
    if buckets == [] then s else
    var t, b := AddBuckets(s, taskId, buckets[..|buckets| - 1]), buckets[|buckets| - 1];
    t.(reduceBucket := t.reduceBucket[b := true], reduceTask := t.reduceTask[NumberToStr(taskId, b) := b])
  }

  /** A worker reports a finished map task: FinishedType MAP_TASK with one task. */
  function MapFinished(s: State, task: FinishTask): State
    requires task.taskId >= 0 && forall k :: 0 <= k < |task.bucketNums| ==> task.bucketNums[k] >= 0
  {
    if s.isMapDone then s else
    var left := s.mapTask - {task.fileName};
    AddBuckets(s.(mapTask := left, isMapDone := left == map[]), task.taskId, task.bucketNums)
  }

  function Names(tasks: seq<AssignTask>): set<string> {
    set k | 0 <= k < |tasks| :: tasks[k].fileName
  }

  /** A worker reports a finished reduce task. */
  function ReduceFinished(s: State, tasks: seq<AssignTask>): State
    requires tasks != []
  {
    var left := s.reduceTask - Names(tasks);
    s.(reduceBucket := s.reduceBucket - {tasks[0].taskId}, reduceTask := left,
       isReduceDone := s.isReduceDone || left == map[])
  }

  /** The timer of a map task: the task waits again, if it is still there. */
  function MapTimeout(s: State, task: AssignTask): State {
    if task.fileName in s.mapTask then s.(mapTask := s.mapTask[task.fileName := task.taskId]) else s
  }

  function Waiting(tasks: seq<AssignTask>, left: map<string, int>): map<string, int> {
    if tasks == [] then left
    else Waiting(tasks[..|tasks| - 1], left)[tasks[|tasks| - 1].fileName := tasks[|tasks| - 1].taskId]
  }

  /** The timer of a reduce task: the bucket waits again, with the files it was assigned with, if it is still there. */
  function ReduceTimeout(s: State, tasks: seq<AssignTask>): State
    requires tasks != []
  {
    if tasks[0].taskId in s.reduceBucket
    then s.(reduceBucket := s.reduceBucket[tasks[0].taskId := true], reduceTask := Waiting(tasks, s.reduceTask))
    else s
  }

  // ----- The object

  datatype Reply = NoTask | MapReply(task: AssignTask) | ReduceReply(bucket: int, tasks: seq<AssignTask>)

  /** A map task waits. */
  ghost predicate MapWaits(s: State) {
    exists f :: f in s.mapTask && s.mapTask[f] > 0
  }

  /** Bucket b waits. */
  predicate BucketWaits(s: State, b: int) {
    b in s.reduceBucket && s.reduceBucket[b]
  }

  /**
   What a request for a task may be answered with, and the state it leaves. There is no task if none waits, if the
   bucket found has a number that is not positive, or if it has no file that waits.
   */
  ghost predicate Assigned(s: State, reply: Reply, s': State) {
    match reply
    case NoTask =>
      if !s.isMapDone then !MapWaits(s) && s' == s
      else
        || (s' == s && ((forall b :: !BucketWaits(s, b)) || (exists b :: b <= 0 && BucketWaits(s, b))))
        || (exists b: int :: b > 0 && BucketWaits(s, b) && FilesWaiting(s, b) == {} && s' == AssignReduce(s, b))
    case MapReply(task) =>
      && !s.isMapDone && task.fileName in s.mapTask && task.taskId == s.mapTask[task.fileName] > 0
      && s' == AssignMap(s, task.fileName)
    case ReduceReply(b, tasks) =>
      && s.isMapDone && b > 0 && BucketWaits(s, b)
      && tasks != [] && NoRepeats(tasks) && Names(tasks) == FilesWaiting(s, b)
      && (forall k :: 0 <= k < |tasks| ==> tasks[k].taskId == b)
      && s' == AssignReduce(s, b)
  }

  class MasterServer {
    var isMapDone: bool
    var isReduceDone: bool
    var mapTask: map<string, int>
    var reduceTask: map<string, int>
    var reduceBucket: map<int, bool>

    function View(): State
      reads this
    {
      State(isMapDone, isReduceDone, mapTask, reduceTask, reduceBucket)
    }

    constructor (files: seq<string>)
      ensures View() == Start(files)
    {
      isMapDone, isReduceDone := false, false;
      mapTask, reduceTask, reduceBucket := map[], map[], map[];
      new;
      for idx := 0 to |files|
        invariant View() == State(false, false, Numbered(files[..idx]), map[], map[])
      {
        mapTask := mapTask[files[idx] := idx + 1];
        assert files[..idx + 1][..idx] == files[..idx];
      }
      assert files[..|files|] == files;
    }

    /** `range` over a map may yield any task that waits. */
    method GetTask() returns (reply: Reply)
      modifies this
      ensures Assigned(old(View()), reply, View())
    {
      reply := NoTask;
      if !isMapDone {
        if file :| file in mapTask && mapTask[file] > 0 {
          reply := MapReply(AssignTask(file, mapTask[file]));
          mapTask := mapTask[file := -mapTask[file]];
        }
        return;
      }
      if number :| number in reduceBucket && reduceBucket[number] {
        if number > 0 {
          var tasks := ListTasks(number);
          reduceBucket := reduceBucket[number := false];
          MarkAssigned(tasks, number);
          if tasks != [] {
            reply := ReduceReply(number, tasks);
          } else {
            assert Names(tasks) == {};
            assert BucketWaits(old(View()), number);
          }
        } else {
          assert BucketWaits(View(), number);
        }
      }
    }

    method ListTasks(b: int) returns (tasks: seq<AssignTask>)
      ensures NoRepeats(tasks) && Names(tasks) == FilesWaiting(View(), b)
      ensures forall k :: 0 <= k < |tasks| ==> tasks[k].taskId == b
    {
      tasks := [];
      var left := FilesWaiting(View(), b);
      while left != {}
        invariant left <= FilesWaiting(View(), b) && NoRepeats(tasks)
        invariant Names(tasks) == FilesWaiting(View(), b) - left
        invariant forall k :: 0 <= k < |tasks| ==> tasks[k].taskId == b && tasks[k].fileName !in left
        decreases left
      {
        var f :| f in left;
        ghost var before := tasks;
        tasks, left := tasks + [AssignTask(f, b)], left - {f};
        NamesSnoc(before, AssignTask(f, b));
      }
    }

    /** m.reduceTask[task.FileName] = -task.TaskId, for each task. */
    method MarkAssigned(tasks: seq<AssignTask>, b: int)
      requires Names(tasks) == FilesWaiting(View(), b) && forall k :: 0 <= k < |tasks| ==> tasks[k].taskId == b
      modifies this`reduceTask
      ensures reduceTask == map f | f in old(reduceTask) :: if old(reduceTask)[f] == b then -b else old(reduceTask)[f]
    {
      for k := 0 to |tasks|
        invariant reduceTask == map f | f in old(reduceTask) :: if f in Names(tasks[..k]) then -b else old(reduceTask)[f]
      {
        assert tasks[k].fileName in Names(tasks);
        reduceTask := reduceTask[tasks[k].fileName := -tasks[k].taskId];
        NamesSnoc(tasks[..k], tasks[k]);
        assert tasks[..k + 1] == tasks[..k] + [tasks[k]];
      }
      assert tasks[..|tasks|] == tasks;
    }

    method MapTaskFinished(task: FinishTask)
      requires task.taskId >= 0 && forall k :: 0 <= k < |task.bucketNums| ==> task.bucketNums[k] >= 0
      modifies this
      ensures View() == MapFinished(old(View()), task)
    {
      if isMapDone {
        return;
      }
      mapTask := mapTask - {task.fileName};
      if mapTask == map[] {
        isMapDone := true;
      }
      ghost var before := View();
      for k := 0 to |task.bucketNums|
        invariant View() == AddBuckets(before, task.taskId, task.bucketNums[..k])
      {
        var b := task.bucketNums[k];
        reduceBucket := reduceBucket[b := true];
        reduceTask := reduceTask[NumberToStr(task.taskId, b) := b];
        assert task.bucketNums[..k + 1][..k] == task.bucketNums[..k];
      }
      assert task.bucketNums[..|task.bucketNums|] == task.bucketNums;
    }

    method ReduceTaskFinished(tasks: seq<AssignTask>)
      requires tasks != []
      modifies this
      ensures View() == ReduceFinished(old(View()), tasks)
    {
      reduceBucket := reduceBucket - {tasks[0].taskId};
      ghost var before := View();
      for k := 0 to |tasks|
        invariant View() == before.(reduceTask := before.reduceTask - Names(tasks[..k]))
      {
        reduceTask := reduceTask - {tasks[k].fileName};
        NamesSnoc(tasks[..k], tasks[k]);
        assert tasks[..k + 1] == tasks[..k] + [tasks[k]];
      }
      assert tasks[..|tasks|] == tasks;
      if reduceTask == map[] {
        isReduceDone := true;
      }
    }

    method MapTaskTimedOut(task: AssignTask)
      modifies this
      ensures View() == MapTimeout(old(View()), task)
    {
      if task.fileName in mapTask {
        mapTask := mapTask[task.fileName := task.taskId];
      }
    }

    method ReduceTaskTimedOut(tasks: seq<AssignTask>)
      requires tasks != []
      modifies this
      ensures View() == ReduceTimeout(old(View()), tasks)
    {
      if tasks[0].taskId in reduceBucket {
        reduceBucket := reduceBucket[tasks[0].taskId := true];
        ghost var before := View();
        for k := 0 to |tasks|
          invariant View() == before.(reduceTask := Waiting(tasks[..k], before.reduceTask))
        {
          reduceTask := reduceTask[tasks[k].fileName := tasks[k].taskId];
          assert tasks[..k + 1][..k] == tasks[..k];
        }
        assert tasks[..|tasks|] == tasks;
      }
    }
  }

  lemma NamesSnoc(tasks: seq<AssignTask>, t: AssignTask)
    ensures Names(tasks + [t]) == Names(tasks) + {t.fileName}
  {
    var more := tasks + [t];
    assert more[|tasks|] == t;
    assert forall k :: 0 <= k < |tasks| ==> more[k] == tasks[k];
    forall f | f in Names(tasks)
      ensures f in Names(more)
    {
      var k :| 0 <= k < |tasks| && tasks[k].fileName == f;
      assert more[k].fileName == f;
    }
  }
}
