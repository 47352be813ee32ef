/** Values and pure rules of the quicksort settings panel's run controller:
    the sample table's constants, the duplicate guard, the index lookup the
    job wrappers use, the stale-results test, the fixed task schedule that a
    run hands to the single-thread executor, and the events each task sends
    to the chart, table and console panels. */
module QuickSortRun {

  /** Number of combo boxes, and so of entries in the sample table. */
  const SampleCount: nat := 5
  /** Smallest and largest selectable sample size, in thousands of elements. */
  const SampleMinValue: int := 5
  const SampleMaxValue: int := 100
  /** A sample size n stands for n * 1000 elements. */
  const ElementsPerThousand: nat := 1000
  /** Generated values are drawn from [0, RandomValueBound). */
  const RandomValueBound: int := 100000

  datatype Algorithm = Iterative | Recursive

  /** What a task queued on the executor does, without the array it carries. */
  datatype TaskShape =
    | BlockUI
    | WriteStarted
    | Job(algorithm: Algorithm, n: int)
    | WriteFinished
    | UnblockUI

  /** The kind of a console line; the wording and the time formatting are not modelled. */
  datatype LogLine = SortingStarted | Sorted(algorithm: Algorithm, n: int) | SortingFinished

  /** A results-table cell: a sample size (column 0) or an elapsed time (columns 1 and 2). */
  datatype CellValue = SizeCell(thousands: int) | TimeCell(nanos: nat)

  /** What the panel sends to its collaborators (application, charts, table, console, dialog). */
  datatype Event =
    | UIBlocked                       // tabbed pane, combo boxes and button disabled
    | UIUnblocked                     // ... and enabled again
    | TableCalculating
    | TableNoData
    | TableCell(row: int, column: int, value: CellValue)
    | ConsoleCleared
    | ConsoleWrite(line: LogLine)
    | ChartsReset
    | ChartUpdated(algorithm: Algorithm)
    | TimeRecorded(algorithm: Algorithm, index: int, nanos: nat)
    | JobRan(algorithm: Algorithm, n: int)  // the sort call itself, left opaque
    | DuplicateNotice                 // the "values must not repeat" dialog

  /** The items of a combo box built from IntStream.rangeClosed(lo, hi). */
  function RangeClosed(lo: int, hi: int): (r: seq<int>)
    ensures |r| == if lo <= hi then hi - lo + 1 else 0
    ensures forall i :: 0 <= i < |r| ==> r[i] == lo + i
    decreases hi - lo
  {
    if lo > hi then [] else [lo] + RangeClosed(lo + 1, hi)
  }

  function ComboItems(): seq<int>
  {
    RangeClosed(SampleMinValue, SampleMaxValue)
  }

  /** A value is selectable exactly when it lies in [SampleMinValue, SampleMaxValue]. */
  lemma ComboItemsAreTheRange(v: int)
    ensures v in ComboItems() <==> SampleMinValue <= v <= SampleMaxValue
  {
    if SampleMinValue <= v <= SampleMaxValue {
      assert ComboItems()[v - SampleMinValue] == v;
    }
  }

  ghost predicate InRange(s: seq<int>)
  {
    forall i :: 0 <= i < |s| ==> SampleMinValue <= s[i] <= SampleMaxValue
  }

  ghost predicate Distinct(s: seq<int>)
  {
    forall i, j :: 0 <= i < j < |s| ==> s[i] != s[j]
  }

  /** The sample table the panel starts with. */
  function InitialSamples(): (s: seq<int>)
    ensures |s| == SampleCount && InRange(s) && Distinct(s)
  {
    [50, 60, 70, 80, 90]
  }

  /** samples.stream().distinct().count(): never more than the length, and equal to it
      exactly when no value repeats. */
  function DistinctCount(s: seq<int>): (r: nat)
    ensures r <= |s|
    ensures r == |s| <==> Distinct(s)
  {
    ElementSetSize(s);
    |set x | x in s|
  }

  lemma {:induction false} ElementSetSize(s: seq<int>)
    ensures |set x | x in s| <= |s|
    ensures |set x | x in s| == |s| <==> Distinct(s)
  {
    if s != [] {
      var rest := s[1..];
      ElementSetSize(rest);
      var all, tail := set x | x in s, set x | x in rest;
      assert all == {s[0]} + tail by {
        forall x | x in all ensures x in {s[0]} + tail {
          var i :| 0 <= i < |s| && s[i] == x;
          if i > 0 { assert rest[i - 1] == x; }
        }
      }
      if s[0] in tail {
        var j :| 0 <= j < |rest| && rest[j] == s[0];
        assert s[j + 1] == s[0];
        assert all == tail;
      } else {
        assert |all| == |tail| + 1;
        if Distinct(rest) {
          forall i, j | 0 <= i < j < |s| ensures s[i] != s[j] {
            assert s[j] == rest[j - 1];
            if i > 0 { assert s[i] == rest[i - 1]; }
          }
        }
        if Distinct(s) {
          forall i, j | 0 <= i < j < |rest| ensures rest[i] != rest[j] {
            assert rest[i] == s[i + 1] && rest[j] == s[j + 1];
          }
        }
      }
    }
  }

  /** The calculate button's guard: rejected when fewer than five distinct values are
      present. It needs at least five entries, and on a five-entry table it accepts
      exactly the tables without a repeated value. */
  function CalculateAccepted(s: seq<int>): (r: bool)
    ensures r ==> SampleCount <= |s|
    ensures |s| == SampleCount ==> (r <==> Distinct(s))
  {
    !(DistinctCount(s) < SampleCount)
  }

  /** List.indexOf: the first position holding x, or -1 when x is absent. */
  function IndexOf(s: seq<int>, x: int): (r: int)
    ensures -1 <= r < |s|
    ensures r == -1 <==> x !in s
    ensures r >= 0 ==> s[r] == x && forall j :: 0 <= j < r ==> s[j] != x
  {
    if s == [] then -1
    else if s[0] == x then 0
    else
      var k := IndexOf(s[1..], x);
      if k == -1 then -1 else k + 1
  }

  /** In a table without repeats, looking up the value at i finds i. */
  lemma IndexOfDistinct(s: seq<int>, i: int)
    requires Distinct(s) && 0 <= i < |s|
    ensures IndexOf(s, s[i]) == i
  {
    assert IndexOf(s, s[i]) >= 0;
  }

  /** getIterationTimes().stream().noneMatch(v -> v == 0), scanning from the front. */
  function NoneZero(times: seq<int>): (r: bool)
    ensures r <==> forall i :: 0 <= i < |times| ==> times[i] != 0
  {
    if times == [] then true
    else if times[0] == 0 then false
    else
      assert forall i :: 1 <= i < |times| ==> times[i] == times[1..][i - 1];
      NoneZero(times[1..])
  }

  /** What clearDataAfterActionIfValuesAreComputed sends: the full reset when every
      recorded iteration time is non-zero, nothing otherwise. */
  function ResetEvents(iterationTimes: seq<int>): (r: seq<Event>)
    ensures r != [] <==> forall i :: 0 <= i < |iterationTimes| ==> iterationTimes[i] != 0
    ensures r != [] ==> ChartsReset in r && TableNoData in r && ConsoleCleared in r
    ensures r != [] ==> ChartUpdated(Iterative) in r && ChartUpdated(Recursive) in r
    ensures forall e | e in r :: !e.ConsoleWrite? && !e.TableCell? && !e.TimeRecorded?
  {
    if NoneZero(iterationTimes)
    then [ChartsReset, ChartUpdated(Iterative), ChartUpdated(Recursive), TableNoData, ConsoleCleared]
    else []
  }

  /** What the item listener sends after storing a newly selected value: both charts are
      redrawn and the size cell of that row, and no other cell, shows the value. */
  function EditEvents(index: int, value: int): (r: seq<Event>)
    ensures ChartUpdated(Iterative) in r && ChartUpdated(Recursive) in r
    ensures TableCell(index, 0, SizeCell(value)) in r
    ensures forall e | e in r && e.TableCell? :: e.row == index && e.column == 0
    ensures forall e | e in r :: !e.ConsoleWrite? && !e.ConsoleCleared? && !e.ChartsReset? && !e.TimeRecorded?
  {
    [ChartUpdated(Iterative), ChartUpdated(Recursive), TableCell(index, 0, SizeCell(value))]
  }

  /** One iteration job and one recursion job per sample size, in table order. */
  function JobPairs(s: seq<int>): (r: seq<TaskShape>)
    ensures |r| == 2 * |s|
    ensures forall i :: 0 <= i < |r| ==> r[i].Job? && r[i].n in s
  {
    if s == [] then [] else [Job(Iterative, s[0]), Job(Recursive, s[0])] + JobPairs(s[1..])
  }

  /** The task list calculate() hands to the executor, in FIFO order: block and start log,
      two jobs per size, end log and unblock. */
  function RunSchedule(s: seq<int>): (r: seq<TaskShape>)
    ensures |r| == 2 * |s| + 4
    ensures r[0] == BlockUI && r[1] == WriteStarted
    ensures r[|r| - 2] == WriteFinished && r[|r| - 1] == UnblockUI
    ensures forall i :: 2 <= i < |r| - 2 ==> r[i].Job?
  {
    [BlockUI, WriteStarted] + JobPairs(s) + [WriteFinished, UnblockUI]
  }

  lemma {:induction false} JobPairsAt(s: seq<int>, i: int)
    requires 0 <= i < |s|
    ensures JobPairs(s)[2 * i] == Job(Iterative, s[i])
    ensures JobPairs(s)[2 * i + 1] == Job(Recursive, s[i])
  {
    if i > 0 {
      JobPairsAt(s[1..], i - 1);
    }
  }

  lemma {:induction false} JobPairsAppend(a: seq<int>, b: seq<int>)
    ensures JobPairs(a + b) == JobPairs(a) + JobPairs(b)
  {
    if a != [] {
      assert (a + b)[1..] == a[1..] + b;
      JobPairsAppend(a[1..], b);
    } else {
      assert a + b == b;
    }
  }

  /** A run is fourteen tasks: block, start log, the job pairs by ascending index, end log, unblock. */
  lemma RunScheduleLayout(s: seq<int>)
    requires |s| == SampleCount
    ensures |RunSchedule(s)| == 14
    ensures RunSchedule(s)[0] == BlockUI && RunSchedule(s)[1] == WriteStarted
    ensures RunSchedule(s)[12] == WriteFinished && RunSchedule(s)[13] == UnblockUI
    ensures forall i :: 0 <= i < SampleCount ==>
              RunSchedule(s)[2 + 2 * i] == Job(Iterative, s[i]) &&
              RunSchedule(s)[3 + 2 * i] == Job(Recursive, s[i])
  {
    forall i | 0 <= i < SampleCount
      ensures RunSchedule(s)[2 + 2 * i] == Job(Iterative, s[i])
      ensures RunSchedule(s)[3 + 2 * i] == Job(Recursive, s[i])
    {
      JobPairsAt(s, i);
    }
  }

  /** Column of the results table an algorithm's time goes to. */
  function Column(algorithm: Algorithm): int
  {
    match algorithm
    case Iterative => 1
    case Recursive => 2
  }

  /** What running one task sends, given the live sample table and the measured time.
      A job reports its time to the chart index and the table row where the live table
      holds its size, -1 when the size is no longer in the table, and in the column of its
      algorithm; the other tasks record no time and fill no cell. */
  function TaskEvents(t: TaskShape, samples: seq<int>, elapsed: nat): (r: seq<Event>)
    ensures t.Job? ==>
              |r| == 5 && r[0] == JobRan(t.algorithm, t.n) &&
              r[1].TimeRecorded? && r[1].algorithm == t.algorithm &&
              r[2] == ChartUpdated(t.algorithm) && r[3].TableCell? &&
              r[1].index == r[3].row && r[3].column == Column(t.algorithm) &&
              r[1].nanos == elapsed && r[3].value == TimeCell(elapsed) &&
              (r[1].index == -1 <==> t.n !in samples) &&
              (0 <= r[1].index ==> r[1].index < |samples| && samples[r[1].index] == t.n &&
                                   forall j :: 0 <= j < r[1].index ==> samples[j] != t.n)
    ensures !t.Job? ==> forall e | e in r :: !e.TimeRecorded? && !e.TableCell? && !e.JobRan?
  {
    match t
    case BlockUI => [UIBlocked, TableCalculating, ConsoleCleared]
    case WriteStarted => [ConsoleWrite(SortingStarted)]
    case Job(algorithm, n) =>
      var index := IndexOf(samples, n);
      [JobRan(algorithm, n), TimeRecorded(algorithm, index, elapsed), ChartUpdated(algorithm),
       TableCell(index, Column(algorithm), TimeCell(elapsed)), ConsoleWrite(Sorted(algorithm, n))]
    case WriteFinished => [ConsoleWrite(SortingFinished)]
    case UnblockUI => [UIUnblocked]
  }

  /** The events of running tasks in order, the k-th one taking times[k]. */
  function RunEvents(tasks: seq<TaskShape>, samples: seq<int>, times: seq<nat>): seq<Event>
    requires |times| == |tasks|
  {
    if tasks == [] then []
    else TaskEvents(tasks[0], samples, times[0]) + RunEvents(tasks[1..], samples, times[1..])
  }

  lemma {:induction false} RunEventsAppend(a: seq<TaskShape>, b: seq<TaskShape>, ta: seq<nat>, tb: seq<nat>, samples: seq<int>)
    requires |ta| == |a| && |tb| == |b|
    ensures RunEvents(a + b, samples, ta + tb) == RunEvents(a, samples, ta) + RunEvents(b, samples, tb)
  {
    if a != [] {
      assert (a + b)[1..] == a[1..] + b;
      assert (ta + tb)[1..] == ta[1..] + tb;
      RunEventsAppend(a[1..], b, ta[1..], tb, samples);
    } else {
      assert a + b == b && ta + tb == tb;
    }
  }

  /** The lines written to the console, in order. */
  function ConsoleLog(events: seq<Event>): seq<LogLine>
  {
    if events == [] then []
    else (if events[0].ConsoleWrite? then [events[0].line] else []) + ConsoleLog(events[1..])
  }

  lemma {:induction false} ConsoleLogAppend(a: seq<Event>, b: seq<Event>)
    ensures ConsoleLog(a + b) == ConsoleLog(a) + ConsoleLog(b)
  {
    if a != [] {
      assert (a + b)[1..] == a[1..] + b;
      ConsoleLogAppend(a[1..], b);
    } else {
      assert a + b == b;
    }
  }

  /** The log lines the job pairs of a run write, one iterative and one recursive per size. */
  function SortedLines(s: seq<int>): seq<LogLine>
  {
    if s == [] then [] else [Sorted(Iterative, s[0]), Sorted(Recursive, s[0])] + SortedLines(s[1..])
  }

  /** Running two tasks sends the first one's events, then the second one's. */
  lemma RunEventsOfTwo(t0: TaskShape, t1: TaskShape, samples: seq<int>, times: seq<nat>)
    requires |times| == 2
    ensures RunEvents([t0, t1], samples, times) ==
      TaskEvents(t0, samples, times[0]) + TaskEvents(t1, samples, times[1])
  {
    var rest := times[1..];
    assert [t0, t1][1..] == [t1] && [t1][1..] == [];
    assert rest[0] == times[1];
    assert RunEvents([t1], samples, rest) == TaskEvents(t1, samples, times[1]) + RunEvents([], samples, rest[1..]);
    assert TaskEvents(t1, samples, times[1]) + [] == TaskEvents(t1, samples, times[1]);
  }

  lemma ConsoleLogCons(x: Event, rest: seq<Event>)
    ensures ConsoleLog([x] + rest) == (if x.ConsoleWrite? then [x.line] else []) + ConsoleLog(rest)
  {
    assert ([x] + rest)[1..] == rest;
  }

  /** The stale-results reset clears the console but writes no line to it. */
  lemma ResetWritesNoLine(iterationTimes: seq<int>)
    ensures ConsoleLog(ResetEvents(iterationTimes)) == []
  {
    var r := ResetEvents(iterationTimes);
    if r != [] {
      ConsoleLogCons(ConsoleCleared, []);
      ConsoleLogCons(TableNoData, [ConsoleCleared]);
      ConsoleLogCons(ChartUpdated(Recursive), [TableNoData, ConsoleCleared]);
      ConsoleLogCons(ChartUpdated(Iterative), [ChartUpdated(Recursive), TableNoData, ConsoleCleared]);
      ConsoleLogCons(ChartsReset, [ChartUpdated(Iterative), ChartUpdated(Recursive), TableNoData, ConsoleCleared]);
    }
  }

  /** Each task writes at most one console line: the line of its own kind. */
  lemma TaskConsoleLine(t: TaskShape, samples: seq<int>, elapsed: nat)
    ensures ConsoleLog(TaskEvents(t, samples, elapsed)) ==
      match t
      case BlockUI => []
      case WriteStarted => [SortingStarted]
      case Job(algorithm, n) => [Sorted(algorithm, n)]
      case WriteFinished => [SortingFinished]
      case UnblockUI => []
  {
    match t
    case BlockUI =>
      ConsoleLogCons(ConsoleCleared, []);
      ConsoleLogCons(TableCalculating, [ConsoleCleared]);
      ConsoleLogCons(UIBlocked, [TableCalculating, ConsoleCleared]);
    case WriteStarted =>
      ConsoleLogCons(ConsoleWrite(SortingStarted), []);
    case Job(algorithm, n) =>
      var e := TaskEvents(t, samples, elapsed);
      ConsoleLogCons(e[4], []);
      ConsoleLogCons(e[3], e[4..]);
      ConsoleLogCons(e[2], e[3..]);
      ConsoleLogCons(e[1], e[2..]);
      ConsoleLogCons(e[0], e[1..]);
      assert e[4..] == [e[4]] + [] && e[3..] == [e[3]] + e[4..] && e[2..] == [e[2]] + e[3..];
      assert e[1..] == [e[1]] + e[2..] && e == [e[0]] + e[1..];
    case WriteFinished =>
      ConsoleLogCons(ConsoleWrite(SortingFinished), []);
    case UnblockUI =>
      ConsoleLogCons(UIUnblocked, []);
  }

  lemma PairConsoleLog(n: int, samples: seq<int>, ti: nat, tr: nat)
    ensures ConsoleLog(TaskEvents(Job(Iterative, n), samples, ti) + TaskEvents(Job(Recursive, n), samples, tr)) ==
      [Sorted(Iterative, n), Sorted(Recursive, n)]
  {
    ConsoleLogAppend(TaskEvents(Job(Iterative, n), samples, ti), TaskEvents(Job(Recursive, n), samples, tr));
    TaskConsoleLine(Job(Iterative, n), samples, ti);
    TaskConsoleLine(Job(Recursive, n), samples, tr);
  }

  lemma {:induction false} JobPairsConsoleLog(p: seq<int>, samples: seq<int>, times: seq<nat>)
    requires |times| == 2 * |p|
    ensures ConsoleLog(RunEvents(JobPairs(p), samples, times)) == SortedLines(p)
  {
    if p != [] {
      var it, rec := Job(Iterative, p[0]), Job(Recursive, p[0]);
      var tp, tr := times[..2], times[2..];
      assert times == tp + tr;
      assert JobPairs(p) == [it, rec] + JobPairs(p[1..]);
      RunEventsAppend([it, rec], JobPairs(p[1..]), tp, tr, samples);
      RunEventsOfTwo(it, rec, samples, tp);
      var ei, er := TaskEvents(it, samples, tp[0]), TaskEvents(rec, samples, tp[1]);
      var erest := RunEvents(JobPairs(p[1..]), samples, tr);
      ConsoleLogAppend(ei + er, erest);
      PairConsoleLog(p[0], samples, tp[0], tp[1]);
      JobPairsConsoleLog(p[1..], samples, tr);
    } else {
      assert JobPairs(p) == [];
    }
  }

  /** A run scheduled from table s, run against a live table that may have been edited since:
      whatever the timings and the live table's contents, the console log is the start banner,
      an iterative then a recursive line per sample size in table order, and the end banner. */
  lemma RunConsoleLog(s: seq<int>, live: seq<int>, times: seq<nat>)
    requires |times| == |RunSchedule(s)|
    ensures ConsoleLog(RunEvents(RunSchedule(s), live, times)) == [SortingStarted] + SortedLines(s) + [SortingFinished]
  {
    var head, jobs, tail := [BlockUI, WriteStarted], JobPairs(s), [WriteFinished, UnblockUI];
    var n := |jobs|;
    var th, tj, tt := times[..2], times[2..2 + n], times[2 + n..];
    assert times == th + tj + tt;
    assert RunSchedule(s) == head + jobs + tail;
    var eh, ej, et := RunEvents(head, live, th), RunEvents(jobs, live, tj), RunEvents(tail, live, tt);
    assert RunEvents(RunSchedule(s), live, times) == eh + ej + et by {
      RunEventsAppend(head + jobs, tail, th + tj, tt, live);
      RunEventsAppend(head, jobs, th, tj, live);
    }
    assert ConsoleLog(eh) == [SortingStarted] by {
      RunEventsOfTwo(BlockUI, WriteStarted, live, th);
      ConsoleLogAppend(TaskEvents(BlockUI, live, th[0]), TaskEvents(WriteStarted, live, th[1]));
      TaskConsoleLine(BlockUI, live, th[0]);
      TaskConsoleLine(WriteStarted, live, th[1]);
    }
    assert ConsoleLog(et) == [SortingFinished] by {
      RunEventsOfTwo(WriteFinished, UnblockUI, live, tt);
      ConsoleLogAppend(TaskEvents(WriteFinished, live, tt[0]), TaskEvents(UnblockUI, live, tt[1]));
      TaskConsoleLine(WriteFinished, live, tt[0]);
      TaskConsoleLine(UnblockUI, live, tt[1]);
    }
    JobPairsConsoleLog(s, live, tj);
    ConsoleLogAppend(eh + ej, et);
    ConsoleLogAppend(eh, ej);
  }

  /** With a table without repeats that has not changed since scheduling, the job the loop
      created at index i reports its time at row i, in column 1 or 2 by algorithm. */
  lemma ScheduledJobsReportAtTheirIndex(s: seq<int>, i: int, elapsed: nat)
    requires |s| == SampleCount && Distinct(s) && 0 <= i < SampleCount
    ensures TaskEvents(RunSchedule(s)[2 + 2 * i], s, elapsed) ==
      [JobRan(Iterative, s[i]), TimeRecorded(Iterative, i, elapsed), ChartUpdated(Iterative),
       TableCell(i, 1, TimeCell(elapsed)), ConsoleWrite(Sorted(Iterative, s[i]))]
    ensures TaskEvents(RunSchedule(s)[3 + 2 * i], s, elapsed) ==
      [JobRan(Recursive, s[i]), TimeRecorded(Recursive, i, elapsed), ChartUpdated(Recursive),
       TableCell(i, 2, TimeCell(elapsed)), ConsoleWrite(Sorted(Recursive, s[i]))]
  {
    RunScheduleLayout(s);
    IndexOfDistinct(s, i);
  }

  /** The job wrappers look the row up in the live table: once the entry both jobs of index i
      were scheduled from is replaced by a different value, neither job finds its size, so
      both report at index and row -1. The new value may occur elsewhere in the table. */
  lemma EditAfterSchedulingLosesRow(s: seq<int>, i: int, v: int, elapsed: nat)
    requires |s| == SampleCount && Distinct(s) && 0 <= i < SampleCount && v != s[i]
    ensures TimeRecorded(Iterative, -1, elapsed) in TaskEvents(RunSchedule(s)[2 + 2 * i], s[i := v], elapsed)
    ensures TableCell(-1, 1, TimeCell(elapsed)) in TaskEvents(RunSchedule(s)[2 + 2 * i], s[i := v], elapsed)
    ensures TimeRecorded(Recursive, -1, elapsed) in TaskEvents(RunSchedule(s)[3 + 2 * i], s[i := v], elapsed)
    ensures TableCell(-1, 2, TimeCell(elapsed)) in TaskEvents(RunSchedule(s)[3 + 2 * i], s[i := v], elapsed)
  {
    RunScheduleLayout(s);
    var t := s[i := v];
    forall j | 0 <= j < |t| ensures t[j] != s[i] {
      if j != i { assert t[j] == s[j]; }
    }
  }

  /** The console log of a run over the table [5, 10, 15, 20, 25]. */
  lemma ExampleRunLog(times: seq<nat>)
    requires |times| == 14
    ensures ConsoleLog(RunEvents(RunSchedule([5, 10, 15, 20, 25]), [5, 10, 15, 20, 25], times)) ==
      [SortingStarted,
       Sorted(Iterative, 5), Sorted(Recursive, 5), Sorted(Iterative, 10), Sorted(Recursive, 10),
       Sorted(Iterative, 15), Sorted(Recursive, 15), Sorted(Iterative, 20), Sorted(Recursive, 20),
       Sorted(Iterative, 25), Sorted(Recursive, 25),
       SortingFinished]
  {
    RunConsoleLog([5, 10, 15, 20, 25], [5, 10, 15, 20, 25], times);
  }
}
