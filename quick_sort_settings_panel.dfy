/** The settings panel's controller state: the five-entry sample table the combo
    boxes edit, the task list of the single-thread executor that calculate() fills,
    and the events sent to the charts, table, console and application. */
module QuickSortSettingsPanel {
  import opened QuickSortRun

  /** A task handed to the executor; a sort job carries the array it will sort. */
  datatype Task =
    | BlockUITask
    | WriteStartedTask
    | SortJob(algorithm: Algorithm, n: int, data: array<int>)
    | WriteFinishedTask
    | UnblockUITask

  function Shape(t: Task): TaskShape
  {
    match t
    case BlockUITask => BlockUI
    case WriteStartedTask => WriteStarted
    case SortJob(algorithm, n, _) => Job(algorithm, n)
    case WriteFinishedTask => WriteFinished
    case UnblockUITask => UnblockUI
  }

  function Shapes(q: seq<Task>): (r: seq<TaskShape>)
    ensures |r| == |q|
  {
    seq(|q|, i requires 0 <= i < |q| => Shape(q[i]))
  }

  lemma ShapesAppend(a: seq<Task>, b: seq<Task>)
    ensures Shapes(a + b) == Shapes(a) + Shapes(b)
  {
    assert forall i :: 0 <= i < |a + b| ==> Shapes(a + b)[i] == (Shapes(a) + Shapes(b))[i];
  }

  lemma RunEventsStep(tasks: seq<TaskShape>, samples: seq<int>, times: seq<nat>, k: nat)
    requires |times| == |tasks| && k < |tasks|
    ensures RunEvents(tasks[..k + 1], samples, times[..k + 1]) ==
      RunEvents(tasks[..k], samples, times[..k]) + TaskEvents(tasks[k], samples, times[k])
  {
    RunEventsAppend(tasks[..k], [tasks[k]], times[..k], [times[k]], samples);
    assert tasks[..k + 1] == tasks[..k] + [tasks[k]];
    assert times[..k + 1] == times[..k] + [times[k]];
    assert TaskEvents(tasks[k], samples, times[k]) + [] == TaskEvents(tasks[k], samples, times[k]);
  }

  /** The queue after calculate(): the old tasks, block and start log, the jobs, end log and unblock. */
  lemma AssembledRun(q0: seq<Task>, jobs: seq<Task>, s: seq<int>)
    requires Shapes(jobs) == JobPairs(s)
    ensures var q := q0 + [BlockUITask, WriteStartedTask] + jobs + [WriteFinishedTask, UnblockUITask];
      Shapes(q) == Shapes(q0) + RunSchedule(s) &&
      q[..|q0|] == q0 && q[|q0| + 2..|q| - 2] == jobs && JobArrays(q[|q0|..]) == JobArrays(jobs)
  {
    var q := q0 + [BlockUITask, WriteStartedTask] + jobs + [WriteFinishedTask, UnblockUITask];
    ShapesAppend(q0 + [BlockUITask, WriteStartedTask], jobs);
    ShapesAppend(q0, [BlockUITask, WriteStartedTask]);
    ShapesAppend(q0 + [BlockUITask, WriteStartedTask] + jobs, [WriteFinishedTask, UnblockUITask]);
    assert q[|q0| + 2..|q| - 2] == jobs;
    assert q[|q0|..] == [BlockUITask, WriteStartedTask] + jobs + [WriteFinishedTask, UnblockUITask];
    JobArraysAppend([BlockUITask, WriteStartedTask] + jobs, [WriteFinishedTask, UnblockUITask]);
    JobArraysAppend([BlockUITask, WriteStartedTask], jobs);
    assert JobArrays([BlockUITask, WriteStartedTask]) == {};
    assert JobArrays([WriteFinishedTask, UnblockUITask]) == {};
  }

  /** The item listener's ItemEvent.getStateChange(). */
  datatype StateChange = Selected | Deselected

  /** Two distinct arrays with the same contents: n thousand values, each in [0, 100000). */
  ghost predicate ClonedSample(a: array<int>, b: array<int>, n: int)
    reads a, b
  {
    a != b && a.Length == n * ElementsPerThousand && a[..] == b[..] &&
    forall i :: 0 <= i < a.Length ==> 0 <= a[i] < RandomValueBound
  }

  /** An iteration job and a recursion job for size n, each holding its own copy of one generated sample. */
  ghost predicate ScheduledPair(it: Task, rec: Task, n: int)
    reads (if it.SortJob? then {it.data} else {}) + (if rec.SortJob? then {rec.data} else {})
  {
    it.SortJob? && rec.SortJob? &&
    it.algorithm == Iterative && rec.algorithm == Recursive && it.n == n && rec.n == n &&
    ClonedSample(it.data, rec.data, n)
  }

  /** The arrays the sort jobs of a task list carry. */
  ghost function JobArrays(q: seq<Task>): set<array<int>>
  {
    set i | 0 <= i < |q| && q[i].SortJob? :: q[i].data
  }

  lemma JobArraysAppend(a: seq<Task>, b: seq<Task>)
    ensures JobArrays(a + b) == JobArrays(a) + JobArrays(b)
  {
    var ab := a + b;
    forall x | x in JobArrays(ab) ensures x in JobArrays(a) + JobArrays(b) {
      var i :| 0 <= i < |ab| && ab[i].SortJob? && ab[i].data == x;
      if i >= |a| { assert b[i - |a|] == ab[i]; }
    }
    forall x | x in JobArrays(a) ensures x in JobArrays(ab) {
      var i :| 0 <= i < |a| && a[i].SortJob? && a[i].data == x;
      assert ab[i] == a[i];
    }
    forall x | x in JobArrays(b) ensures x in JobArrays(ab) {
      var i :| 0 <= i < |b| && b[i].SortJob? && b[i].data == x;
      assert ab[|a| + i] == b[i];
    }
  }

  /** The jobs of a run so far: pair k is scheduled for the sample size s[k]. */
  ghost predicate ScheduledPairs(jobs: seq<Task>, s: seq<int>)
    reads JobArrays(jobs)
  {
    |jobs| == 2 * |s| &&
    forall k :: 0 <= k < |s| ==> ScheduledPair(jobs[2 * k], jobs[2 * k + 1], s[k])
  }

  lemma ScheduledPairsExtend(jobs: seq<Task>, pair: seq<Task>, s: seq<int>, n: int)
    requires ScheduledPairs(jobs, s) && |pair| == 2 && ScheduledPair(pair[0], pair[1], n)
    ensures ScheduledPairs(jobs + pair, s + [n])
  {
    var all := jobs + pair;
    forall k | 0 <= k < |s| + 1
      ensures ScheduledPair(all[2 * k], all[2 * k + 1], (s + [n])[k])
    {
      if k == |s| {
        assert all[2 * k] == pair[0] && all[2 * k + 1] == pair[1];
      } else {
        assert all[2 * k] == jobs[2 * k] && all[2 * k + 1] == jobs[2 * k + 1];
        assert ScheduledPair(jobs[2 * k], jobs[2 * k + 1], s[k]);
      }
    }
  }

  /** Scheduled pairs have the shape of the run's job list. */
  lemma {:induction false} ScheduledPairsShapes(jobs: seq<Task>, s: seq<int>)
    requires ScheduledPairs(jobs, s)
    ensures Shapes(jobs) == JobPairs(s)
  {
    forall i | 0 <= i < |jobs| ensures Shapes(jobs)[i] == JobPairs(s)[i] {
      var k := i / 2;
      JobPairsAt(s, k);
      assert ScheduledPair(jobs[2 * k], jobs[2 * k + 1], s[k]);
      assert Shapes(jobs)[i] == Shape(jobs[i]);
      if i == 2 * k {
        assert Shape(jobs[i]) == Job(Iterative, s[k]);
      } else {
        assert i == 2 * k + 1 && Shape(jobs[i]) == Job(Recursive, s[k]);
      }
    }
  }

  /** Every job owns its array: no array is shared by two jobs of the list. */
  ghost predicate DistinctJobArrays(jobs: seq<Task>)
  {
    (forall i :: 0 <= i < |jobs| ==> jobs[i].SortJob?) &&
    forall i, j :: 0 <= i < j < |jobs| ==> jobs[i].data != jobs[j].data
  }

  /** With sizes that do not repeat, the pairs of a run never share an array: the two jobs of a
      pair hold an array and its clone, and arrays of different pairs differ in length. */
  lemma ScheduledPairsOwnTheirArrays(jobs: seq<Task>, s: seq<int>)
    requires ScheduledPairs(jobs, s) && Distinct(s)
    ensures DistinctJobArrays(jobs)
  {
    forall i | 0 <= i < |jobs| ensures jobs[i].SortJob? {
      assert ScheduledPair(jobs[2 * (i / 2)], jobs[2 * (i / 2) + 1], s[i / 2]);
    }
    forall i, j | 0 <= i < j < |jobs| ensures jobs[i].data != jobs[j].data {
      TwoJobsTwoArrays(jobs, s, i, j);
    }
  }

  lemma TwoJobsTwoArrays(jobs: seq<Task>, s: seq<int>, i: int, j: int)
    requires ScheduledPairs(jobs, s) && Distinct(s) && 0 <= i < j < |jobs|
    ensures jobs[i].SortJob? && jobs[j].SortJob? && jobs[i].data != jobs[j].data
  {
    var k, l := i / 2, j / 2;
    assert ScheduledPair(jobs[2 * k], jobs[2 * k + 1], s[k]);
    assert ScheduledPair(jobs[2 * l], jobs[2 * l + 1], s[l]);
    if k != l {
      assert s[k] != s[l];
      assert jobs[i].data.Length != jobs[j].data.Length;
    } else {
      assert i == 2 * k && j == 2 * k + 1;
    }
  }

  /** simplyDataGenerator: elementsInThousands * 1000 values drawn from [0, 100000).
      Each draw is an arbitrary value of that range: the generator's entropy is not modelled. */
  method SimplyDataGenerator(elementsInThousands: nat) returns (data: array<int>)
    ensures fresh(data)
    ensures data.Length == elementsInThousands * ElementsPerThousand
    ensures forall i :: 0 <= i < data.Length ==> 0 <= data[i] < RandomValueBound
  {
    data := new int[elementsInThousands * ElementsPerThousand];
    var i := 0;
    while i < data.Length
      invariant 0 <= i <= data.Length
      invariant forall j :: 0 <= j < i ==> 0 <= data[j] < RandomValueBound
    {
      var value :| 0 <= value < RandomValueBound;
      data[i] := value;
      i := i + 1;
    }
  }

  /** int[].clone(): a new array with the same contents. */
  method CloneArray(a: array<int>) returns (b: array<int>)
    ensures fresh(b)
    ensures b[..] == a[..]
  {
    b := new int[a.Length];
    var i := 0;
    while i < a.Length
      invariant 0 <= i <= a.Length
      invariant forall j :: 0 <= j < i ==> b[j] == a[j]
    {
      b[i] := a[i];
      i := i + 1;
    }
  }

  class SettingsPanel {
    /** The sample sizes, in thousands, one per combo box. */
    var samples: seq<int>
    /** Tasks handed to the executor and not yet run, in FIFO order. */
    var queue: seq<Task>
    /** What the panel has sent to its collaborators, oldest first. */
    var events: seq<Event>

    ghost predicate Valid()
      reads this`samples
    {
      |samples| == SampleCount && InRange(samples)
    }

    constructor ()
      ensures Valid()
      ensures samples == InitialSamples() && Distinct(samples)
      ensures queue == [] && events == []
    {
      samples := InitialSamples();
      queue := [];
      events := [];
    }

    /** The item listener of combo box `index`; `value` is one of the box's items and
        `iterationTimes` is what the charts panel reports at that moment. */
    method SelectItem(index: int, change: StateChange, value: int, iterationTimes: seq<int>)
      requires Valid()
      requires 0 <= index < SampleCount
      requires value in ComboItems()
      modifies this`samples, this`events
      ensures Valid()
      ensures change == Deselected ==> samples == old(samples) && events == old(events)
      ensures change == Selected ==>
                |samples| == |old(samples)| && samples[index] == value &&
                (forall j :: 0 <= j < |samples| && j != index ==> samples[j] == old(samples)[j])
      ensures change == Selected ==>
                events == old(events) + ResetEvents(iterationTimes) + EditEvents(index, value)
    {
      if change == Selected {
        ClearDataAfterActionIfValuesAreComputed(iterationTimes);
        ComboItemsAreTheRange(value);
        samples := samples[index := value];
        events := events + [ChartUpdated(Iterative), ChartUpdated(Recursive)];
        events := events + [TableCell(index, 0, SizeCell(value))];
      }
    }

    /** The calculate button: a table with a repeated value only raises the notice;
        otherwise stale results are cleared and the run is scheduled. */
    method PressCalculate(iterationTimes: seq<int>) returns (accepted: bool)
      requires Valid()
      modifies this`queue, this`events
      ensures Valid()
      ensures accepted <==> Distinct(samples)
      ensures !accepted ==> queue == old(queue) && events == old(events) + [DuplicateNotice]
      ensures accepted ==> events == old(events) + ResetEvents(iterationTimes)
      ensures accepted ==> Shapes(queue) == Shapes(old(queue)) + RunSchedule(samples)
      ensures accepted ==> ScheduledPairs(queue[|old(queue)| + 2..|queue| - 2], samples)
      ensures accepted ==> fresh(JobArrays(queue[|old(queue)|..]))
      ensures accepted ==> DistinctJobArrays(queue[|old(queue)| + 2..|queue| - 2])
      ensures queue[..|old(queue)|] == old(queue)
    {
      if !CalculateAccepted(samples) {
        events := events + [DuplicateNotice];
        return false;
      }
      ClearDataAfterActionIfValuesAreComputed(iterationTimes);
      Calculate();
      ScheduledPairsOwnTheirArrays(queue[|old(queue)| + 2..|queue| - 2], samples);
      accepted := true;
    }

    /** Hands the run's fourteen tasks to the executor. Each pair of jobs gets its own
        freshly generated array and a clone of it; the size is taken when scheduling. */
    method Calculate()
      requires Valid()
      modifies this`queue
      ensures Shapes(queue) == Shapes(old(queue)) + RunSchedule(samples)
      ensures queue[..|old(queue)|] == old(queue)
      ensures ScheduledPairs(queue[|old(queue)| + 2..|queue| - 2], samples)
      ensures fresh(JobArrays(queue[|old(queue)|..]))
    {
      queue := queue + [BlockUITask, WriteStartedTask];
      ghost var jobs: seq<Task> := [];
      var index := 0;
      while index < SampleCount
        invariant 0 <= index <= SampleCount
        invariant queue == old(queue) + [BlockUITask, WriteStartedTask] + jobs
        invariant ScheduledPairs(jobs, samples[..index])
        invariant fresh(JobArrays(jobs))
      {
        var pair := ScheduleJobPair(index, jobs);
        JobArraysAppend(jobs, pair);
        jobs := jobs + pair;
        index := index + 1;
      }
      queue := queue + [WriteFinishedTask, UnblockUITask];
      assert samples[..SampleCount] == samples;
      ScheduledPairsShapes(jobs, samples);
      AssembledRun(old(queue), jobs, samples);
    }

    /** The body of calculate()'s loop for one index: read the size, generate an array,
        clone it, and queue the iteration job on the original and the recursion job on
        the clone. `jobs` are the jobs this run has queued for the indices before it. */
    method ScheduleJobPair(index: nat, ghost jobs: seq<Task>) returns (pair: seq<Task>)
      requires Valid() && index < SampleCount
      requires ScheduledPairs(jobs, samples[..index])
      modifies this`queue
      ensures queue == old(queue) + pair
      ensures ScheduledPairs(jobs + pair, samples[..index + 1])
      ensures fresh(JobArrays(pair))
    {
      var elementsInThousands := samples[index];
      var dataForIteration := SimplyDataGenerator(elementsInThousands);
      var dataForRecursion := CloneArray(dataForIteration);
      pair := [SortJob(Iterative, elementsInThousands, dataForIteration),
               SortJob(Recursive, elementsInThousands, dataForRecursion)];
      queue := queue + pair;
      ScheduledPairsExtend(jobs, pair, samples[..index], elementsInThousands);
      assert samples[..index + 1] == samples[..index] + [elementsInThousands];
    }

    /** Sends the stale-results reset when every recorded iteration time is non-zero. */
    method ClearDataAfterActionIfValuesAreComputed(iterationTimes: seq<int>)
      modifies this`events
      ensures events == old(events) + ResetEvents(iterationTimes)
    {
      if NoneZero(iterationTimes) {
        events := events + [ChartsReset];
        events := events + [ChartUpdated(Iterative), ChartUpdated(Recursive)];
        events := events + [TableNoData];
        events := events + [ConsoleCleared];
      }
    }

    /** The executor runs the task at the head of its queue; a sort job looks its row up
        in the live sample table and reports the measured `elapsed` nanoseconds. */
    method RunNextTask(elapsed: nat)
      requires queue != []
      modifies this`queue, this`events
      ensures queue == old(queue)[1..]
      ensures events == old(events) + TaskEvents(Shape(old(queue)[0]), samples, elapsed)
    {
      var task := queue[0];
      queue := queue[1..];
      match task
      case BlockUITask =>
        events := events + [UIBlocked, TableCalculating, ConsoleCleared];
      case WriteStartedTask =>
        events := events + [ConsoleWrite(SortingStarted)];
      case SortJob(algorithm, n, _) =>
        var index := IndexOf(samples, n);
        events := events + [JobRan(algorithm, n)];
        events := events + [TimeRecorded(algorithm, index, elapsed), ChartUpdated(algorithm)];
        events := events + [TableCell(index, Column(algorithm), TimeCell(elapsed))];
        events := events + [ConsoleWrite(Sorted(algorithm, n))];
      case WriteFinishedTask =>
        events := events + [ConsoleWrite(SortingFinished)];
      case UnblockUITask =>
        events := events + [UIUnblocked];
    }

    /** The worker drains the whole queue in order, the k-th task taking times[k]. */
    method DrainQueue(times: seq<nat>)
      requires |times| == |queue|
      modifies this`queue, this`events
      ensures queue == []
      ensures events == old(events) + RunEvents(Shapes(old(queue)), samples, times)
    {
      ghost var tasks := Shapes(queue);
      var k := 0;
      while k < |times|
        invariant 0 <= k <= |times|
        invariant queue == old(queue)[k..]
        invariant events == old(events) + RunEvents(tasks[..k], samples, times[..k])
      {
        assert Shape(queue[0]) == tasks[k];
        ghost var before := events;
        RunNextTask(times[k]);
        assert events == before + TaskEvents(tasks[k], samples, times[k]);
        RunEventsStep(tasks, samples, times, k);
        assert old(queue)[k..][1..] == old(queue)[k + 1..];
        k := k + 1;
      }
      assert tasks[..k] == tasks && times[..k] == times;
    }
  }

  /** Start-up, one press of the calculate button, and the worker running every queued task:
      the console shows the start banner, a line per job in table order, and the end banner. */
  method FirstRun(iterationTimes: seq<int>, times: seq<nat>) returns (log: seq<LogLine>)
    requires |times| == 14
    ensures log == [SortingStarted] + SortedLines(InitialSamples()) + [SortingFinished]
  {
    var panel := new SettingsPanel();
    var accepted := panel.PressCalculate(iterationTimes);
    assert accepted && Shapes([]) == [];
    assert panel.events == ResetEvents(iterationTimes);
    assert Shapes(panel.queue) == RunSchedule(InitialSamples());
    panel.DrainQueue(times);
    assert panel.events == ResetEvents(iterationTimes) + RunEvents(RunSchedule(InitialSamples()), InitialSamples(), times);
    log := ConsoleLog(panel.events);
    ConsoleLogAppend(ResetEvents(iterationTimes), RunEvents(RunSchedule(InitialSamples()), InitialSamples(), times));
    ResetWritesNoLine(iterationTimes);
    RunConsoleLog(InitialSamples(), InitialSamples(), times);
  }
}
