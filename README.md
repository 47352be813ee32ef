# Quicksort settings panel: run controller

This project models the run controller inside `QuickSortSettingsPanel` of the
fibonacci-quicksort-hanoi desktop tool. The panel holds five sample sizes, one per combo
box. Each size is in thousands of elements. When the user presses "calculate", the panel
queues a fixed list of tasks on a single-thread executor. The tasks block the UI, log a
banner, and then run one iteration job and one recursion job per sample size. Each job
sorts a freshly generated random array and reports its time to the charts, the results
table and the console. At the end the tasks log a closing banner and unblock the UI.

The model has two modules:

- `QuickSortRun` (`quick_sort_run.dfy`) holds the values and the pure rules:
  - the constants 5, 100, 1000 and 100000, and the combo box items (`RangeClosed`);
  - the initial table `[50, 60, 70, 80, 90]`;
  - the duplicate guard (`DistinctCount`, `CalculateAccepted`);
  - `List.indexOf` (`IndexOf`) and the stale-results test (`NoneZero`, `ResetEvents`);
  - the run's task schedule (`JobPairs`, `RunSchedule`);
  - the events a task sends to the collaborators (`TaskEvents`, `RunEvents`) and the console log they produce (`ConsoleLog`).
- `QuickSortSettingsPanel` (`quick_sort_settings_panel.dfy`) holds the state that changes:
  - `SettingsPanel.samples`, the table the item listener edits in place;
  - `SettingsPanel.queue`, the executor's task list, which `calculate()` appends to;
  - `SettingsPanel.events`, what the panel has sent to the application, charts panel, table panel, console panel and dialog.
  - The generator and the clone work on `array<int>`, so the model keeps each job's array a separate object.

The charts panel's `getIterationTimes()` is passed in as a parameter, because that
panel's source is not part of this model. The measured elapsed nanoseconds are passed in
as well. Each value drawn by `java.util.Random` is an arbitrary value of `[0, 100000)`.

Behaviour of the code worth noting:

- Stale results are reset when *every* recorded iteration time is non-zero
  (`noneMatch(v -> v == 0)`). It is not enough that some time is non-zero. The reset is
  also evaluated on every combo box selection, not only before a run.
- The job wrappers look their table row up in the *live* sample table
  (`samples.indexOf(n)`). They do not use a snapshot taken at scheduling time.
  `EditAfterSchedulingLosesRow` shows the effect: after an edit, the lookup of a queued job
  finds nothing and gives -1. The job then passes -1 as its chart index and table row.
- A run is fourteen executor tasks, one per job plus four around them. The block task
  also sets the table to its "calculating" state and clears the console.
- The duplicate check is made by the panel's button listener. A rejected press shows a
  notice and schedules nothing.

## Model

| member | source | states |
|---|---|---|
| `QuickSortRun.RangeClosed` | src/main/java/io/fqsh/quickSort/QuickSortSettingsPanel.java:74-77 | The combo box items are `hi - lo + 1` consecutive values, and item `i` is `lo + i` (none when `lo > hi`) |
| `QuickSortRun.ComboItemsAreTheRange` | src/main/java/io/fqsh/quickSort/QuickSortSettingsPanel.java:65-77 | A value can be selected exactly when it lies in [5, 100] |
| `QuickSortRun.InitialSamples` | src/main/java/io/fqsh/quickSort/QuickSortSettingsPanel.java:27-29 | The initial table has five entries, all in [5, 100] and pairwise distinct |
| `QuickSortRun.DistinctCount` | src/main/java/io/fqsh/quickSort/QuickSortSettingsPanel.java:99 | `distinct().count()` is at most the length, and equals it exactly when no value repeats |
| `QuickSortRun.CalculateAccepted` | src/main/java/io/fqsh/quickSort/QuickSortSettingsPanel.java:98-103 | The button guard needs at least five entries. On the five-entry table it lets the press through exactly when all five sizes are distinct (both directions) |
| `QuickSortRun.IndexOf` | src/main/java/io/fqsh/quickSort/QuickSortSettingsPanel.java:133 | The lookup returns the first position holding the value, or -1 exactly when the value is absent |
| `QuickSortRun.IndexOfDistinct` | src/main/java/io/fqsh/quickSort/QuickSortSettingsPanel.java:115-133 | In a table without repeats, looking up the entry at `i` gives back `i` |
| `QuickSortRun.NoneZero` | src/main/java/io/fqsh/quickSort/QuickSortSettingsPanel.java:173 | The `noneMatch` test holds exactly when no recorded iteration time is 0 (also on an empty list) |
| `QuickSortRun.ResetEvents` | src/main/java/io/fqsh/quickSort/QuickSortSettingsPanel.java:172-179 | The reset sends something exactly when no recorded iteration time is 0. It then resets the charts, redraws both, sets the table to no data and clears the console. It never writes a console line, fills a cell or records a time |
| `QuickSortRun.EditEvents` | src/main/java/io/fqsh/quickSort/QuickSortSettingsPanel.java:86-89 | After an edit, both charts are redrawn and the value is shown in row `index`, column 0. No other cell is touched, and nothing is written to the console or recorded |
| `QuickSortRun.ResetWritesNoLine` | src/main/java/io/fqsh/quickSort/QuickSortSettingsPanel.java:172-179 | The stale-results reset clears the console but writes no line to it |
| `QuickSortRun.JobPairs` | src/main/java/io/fqsh/quickSort/QuickSortSettingsPanel.java:115-122 | The loop queues exactly two jobs per sample size, and each is a sort job for a size of the table |
| `QuickSortRun.RunSchedule` | src/main/java/io/fqsh/quickSort/QuickSortSettingsPanel.java:112-124 | A run has `2n + 4` tasks: block, start log, then only sort jobs, then end log and unblock |
| `QuickSortRun.JobPairsAt` | src/main/java/io/fqsh/quickSort/QuickSortSettingsPanel.java:115-122 | Job `2i` is the iteration job and job `2i+1` the recursion job for the size at index `i` |
| `QuickSortRun.RunScheduleLayout` | src/main/java/io/fqsh/quickSort/QuickSortSettingsPanel.java:112-124 | A run is 14 tasks: block, start log, then the iteration and recursion jobs for indices 0..4 ascending, then end log, unblock |
| `QuickSortRun.TaskEvents` | src/main/java/io/fqsh/quickSort/QuickSortSettingsPanel.java:132-169 | A job first runs its sort. It then records its time in its own algorithm's chart series and redraws that chart. Its chart index and table row are the same value: the first position of the job's size in the live table, or -1 exactly when the size is no longer there. The time goes to column 1 (iterative) or 2 (recursive). The block, unblock and banner tasks record no time and fill no cell |
| `QuickSortRun.TaskConsoleLine` | src/main/java/io/fqsh/quickSort/QuickSortSettingsPanel.java:113-169 | Each task writes at most one console line: the banners, or one line per job naming its algorithm and size |
| `QuickSortRun.JobPairsConsoleLog` | src/main/java/io/fqsh/quickSort/QuickSortSettingsPanel.java:115-169 | The jobs of a run log an iterative then a recursive line per size, in table order, whatever the timings |
| `QuickSortRun.RunConsoleLog` | src/main/java/io/fqsh/quickSort/QuickSortSettingsPanel.java:111-169 | Draining a run gives the console log: start banner, the job lines in scheduling order, end banner. This holds for any timings, and for any live table, including one edited after scheduling |
| `QuickSortRun.ScheduledJobsReportAtTheirIndex` | src/main/java/io/fqsh/quickSort/QuickSortSettingsPanel.java:132-163 | If the table has no repeats and has not changed since scheduling, the jobs from loop index `i` report at chart index and table row `i`. The iteration time goes to column 1 and the recursion time to column 2 |
| `QuickSortRun.EditAfterSchedulingLosesRow` | src/main/java/io/fqsh/quickSort/QuickSortSettingsPanel.java:132-143 | In a table without repeats, if the entry a queued pair of jobs came from is replaced by a different value before they run, each job's lookup gives -1. The iteration job records its time at index -1 and column 1, and the recursion job at index -1 and column 2. The new value may occur elsewhere in the table |
| `QuickSortRun.ExampleRunLog` | src/main/java/io/fqsh/quickSort/QuickSortSettingsPanel.java:111-126 | For the table [5, 10, 15, 20, 25], the console log is the start banner, iterative/recursive lines for 5, 10, 15, 20, 25, and the end banner |
| `QuickSortSettingsPanel.SimplyDataGenerator` | src/main/java/io/fqsh/quickSort/QuickSortSettingsPanel.java:128-130 | A new array of `n * 1000` values, each in [0, 100000) |
| `QuickSortSettingsPanel.CloneArray` | src/main/java/io/fqsh/quickSort/QuickSortSettingsPanel.java:118 | A new array, distinct from the original, with the same contents |
| `QuickSortSettingsPanel.ScheduledPairsShapes` | src/main/java/io/fqsh/quickSort/QuickSortSettingsPanel.java:115-122 | The job list that `calculate()` builds has the shape of the schedule: the iteration job, then the recursion job, per size |
| `QuickSortSettingsPanel.SettingsPanel.constructor` | src/main/java/io/fqsh/quickSort/QuickSortSettingsPanel.java:27 | The panel starts with samples 50, 60, 70, 80, 90, an empty task list and no events |
| `QuickSortSettingsPanel.SettingsPanel.SelectItem` | src/main/java/io/fqsh/quickSort/QuickSortSettingsPanel.java:79-91 | A selection of `v` in box `i` runs the reset rule, sets `samples[i] := v`, and keeps the length at 5 and the other four entries. It then updates both charts and writes `v` to row `i`, column 0. The table stays in [5, 100]. A deselection changes nothing. No task is queued |
| `QuickSortSettingsPanel.SettingsPanel.PressCalculate` | src/main/java/io/fqsh/quickSort/QuickSortSettingsPanel.java:96-107 | The press is accepted exactly when the sizes are distinct. A rejected press only shows the notice: no reset and no task. An accepted press runs the reset rule, then appends the 14-task schedule with fresh cloned arrays. No two of its ten jobs share an array |
| `QuickSortSettingsPanel.ScheduledPairsOwnTheirArrays` | src/main/java/io/fqsh/quickSort/QuickSortSettingsPanel.java:115-121 | When the sizes do not repeat, every job of the run owns its array: the two jobs of a pair hold an array and its clone, and different pairs hold arrays of different lengths |
| `QuickSortSettingsPanel.SettingsPanel.Calculate` | src/main/java/io/fqsh/quickSort/QuickSortSettingsPanel.java:111-126 | Appends exactly `RunSchedule(samples)` to the task list and leaves earlier tasks alone. Job pair `k` holds two distinct fresh arrays with the same contents, of length `samples[k] * 1000`, with values in [0, 100000), and the size read at scheduling time |
| `QuickSortSettingsPanel.SettingsPanel.ScheduleJobPair` | src/main/java/io/fqsh/quickSort/QuickSortSettingsPanel.java:115-122 | One loop step reads `samples[index]`, queues its iteration job and its recursion job on a fresh array and its fresh clone, and keeps the earlier pairs |
| `QuickSortSettingsPanel.SettingsPanel.ClearDataAfterActionIfValuesAreComputed` | src/main/java/io/fqsh/quickSort/QuickSortSettingsPanel.java:172-180 | Sends charts reset, both chart updates, table no-data and console clear, in that order, exactly when no iteration time is 0. Otherwise it sends nothing |
| `QuickSortSettingsPanel.SettingsPanel.RunNextTask` | src/main/java/io/fqsh/quickSort/QuickSortSettingsPanel.java:132-194 | The worker removes the head task (FIFO) and sends that task's events. A job looks its row up in the live table |
| `QuickSortSettingsPanel.SettingsPanel.DrainQueue` | src/main/java/io/fqsh/quickSort/QuickSortSettingsPanel.java:112-125 | The single worker runs every queued task in order. The events are those of the queued tasks, in queue order |
| `QuickSortSettingsPanel.FirstRun` | src/main/java/io/fqsh/quickSort/QuickSortSettingsPanel.java:96-126 | Start-up, one press and a full drain log the start banner, the lines for 50, 60, 70, 80, 90 (iterative then recursive), and the end banner |

## Left out

- The sorts `QuickSortIteration.calculate` and `QuickSortRecursive.calculate` are not part of this model. A job's sort is the opaque event `JobRan`, and the array it would sort in place is not changed.
- Swing construction and layout (`build`, `buildSettingsPanel`, `buildComboBoxes`, borders, the button) are not modelled. Enabling and disabling widgets is not modelled either: `UIBlocked` and `UIUnblocked` are events. So the model does not stop `SelectItem` while the UI is blocked.
- The `JOptionPane` dialog is the event `DuplicateNotice`. Its text is not modelled.
- Threads are not modelled. Each press creates a new single-thread executor, and two quick presses could give two executors running at once. The model appends every run to one task list, which is one possible interleaving. `shutdown()` is not modelled.
- `System.nanoTime` is not modelled. Elapsed times are parameters.
- `Utils.convertTime` is not part of this model. A time cell carries the raw nanoseconds.
- The Polish `String.format` console text is not modelled. Only the kind of line is kept: a banner, or a job's algorithm and size.
- `java.util.Random` is not modelled: each generated value is an arbitrary value of [0, 100000).
- SimplyDataGenerator: takes a non-negative size and does not model Java's 32-bit overflow of `elementsInThousands * 1000`. The panel only passes sizes in [5, 100], where that product fits.
- Calls to the application, charts, table and console panels are assumed to return normally, including calls with index or row -1. The charts and table panels are not part of this model. If `setIterationTimeAt(-1, …)` threw, the rest of that job would not run, and `TaskEvents` does not capture that.
- The internals of the charts, table and console panels are not modelled. What they receive is recorded as events, and the iteration times the reset rule reads are a parameter.
- Guice injection (`@Inject`, `@Singleton`) and the `getSamples()` accessor are not modelled. They are framework plumbing, and the accessor only exposes the table.
