# ZenC core logic in Dafny

This project models the sequential logic at the heart of ZenC's anomaly
pipeline and the workload generators that exercise it, and proves what that
logic promises. It covers four parts:

- **Telemetry windowing** (`sequences.dfy`, with the records in
  `telemetry.dfy`). Sample dictionaries become fixed-width rows, with 0.0
  for a missing or non-numeric value. Each run is cut into fixed-length
  windows at a fixed stride and labelled; runs that are too short are
  skipped.
- **The ML guard** (`ml_guard.dfy`). It covers:
  - the per-pid watcher registry (`watch` / `stop`);
  - the 240-sample buffer and the `min_samples` gate;
  - the kill / skip-termination / update / exit decisions of the monitor
    loop;
  - the jail test on resolved paths.

  The process inspector, the inference engine and the resolved working
  directory are inputs: one `Poll` per turn of the loop.
- **Evaluation bookkeeping** (`evaluate.dfy`). It covers the confusion
  table, per-label support, correct count and total of the baseline report,
  plus the empty case and index-to-label mapping of the LSTM report.
- **Four C workload simulators**. Operating-system calls (`malloc`,
  `pthread_create`, `open`) are oracles that say whether the call made at a
  given step succeeds (`oracle.dfy`). The resource tables are arrays with
  counters, in classes whose methods are proved against specification
  functions.
  - `resource_exhaustion_combo.dfy` models the twenty-iteration combined
    attack and its cleanup.
  - `fork_bomb_gradual.dfy` models the clamped thread budget, the two
    creation phases, the delay and checkpoint schedules, and the join.
  - `memory_leak_progressive.dfy` models the growing allocations with their
    running total and stop-on-failure.
  - `ml_test_pattern.dfy` models the selector and the five pattern
    schedules.

`clib.dfy` gives the C library's `atoi` and decimal printing.
`arith.dfy` holds the integer facts the size progressions need.
`wrappers.dfy` holds `Option` and `Result`.

The guard's monitor loop returns as soon as the inspector cannot be created,
without unregistering the pid. The model keeps that behaviour:
`MLGuard.MonitorLoop` leaves the registry unchanged in that case.

## Model

| member | source | states |
|---|---|---|
| Sequences.NormaliseSamples | data/sequences.py:53-65 | One row per sample and one cell per key. A cell holds the float value, or 0.0 when the key is missing or the value does not convert. A run without samples raises the zero-size error of the min/max reduction. |
| Sequences.ExtractSequences | data/sequences.py:24-50 | The loop over runs and window starts returns exactly `Extract`: the runs' windows in input order, or the first error raised. |
| Sequences.FailureIsFinal | data/sequences.py:31-35 | Once some run raises, the whole extraction raises that error. |
| Sequences.Lower | data/sequences.py:37 | Lower-casing keeps the length and leaves no upper-case letter. Each upper-case letter becomes the lower-case letter at the same place in the alphabet, and every other character is kept. |
| Sequences.WindowsFromShape | data/sequences.py:38-49 | Window m exists exactly when from + m·stride + window fits the rows. Window k holds the rows and timestamps of the samples it covers. |
| Sequences.RunWindowsShape | data/sequences.py:38-49 | With stride > 0 and n ≥ window samples, a run yields exactly (n − window) / stride + 1 windows. They start at 0, stride, 2·stride, …, each start ≤ n − window, in strictly increasing order. Each window has window rows and window timestamps, equal to the slice [start, start + window), and carries the run's id and label. |
| Sequences.ShortRunYieldsNothing | data/sequences.py:33-34 | A run with fewer samples than the window yields no sequences. |
| Sequences.ShortRunSkipped | data/sequences.py:31-34 | Inserting a short run anywhere in the input changes nothing. |
| Sequences.ExtractAppend | data/sequences.py:31-50 | Extraction over concatenated runs is each part's output in order; the first error wins. |
| Sequences.ExtractSucceedsIff | data/sequences.py:31-50 | Extraction succeeds exactly when no single run raises. |
| Sequences.RunFailsIff | data/sequences.py:33-38 | A run raises exactly when it reaches the window length and either has no samples or the stride is 0. |
| Sequences.RunLabelDefaults | data/sequences.py:37 | A missing or empty label becomes "unknown". Any other label becomes its lower-cased form: same length, each upper-case letter replaced by its lower-case letter, every other character kept. |
| Sequences.MissingTimestampIsEmpty | data/sequences.py:36 | A sample without a timestamp is stamped with "". |
| MlGuard.InJailIff | monitor/ml_guard.py:174 | A cwd is in the jail exactly when it equals the root, or extends the root with "/" as the next character. |
| MlGuard.SubdirectoryInJail | monitor/ml_guard.py:174 | root + "/" + anything is inside the jail. |
| MlGuard.SiblingNotInJail | monitor/ml_guard.py:174 | A path that extends the root's name without a "/" is outside. |
| MlGuard.JailxNotInJail | monitor/ml_guard.py:174 | "/jailx" is not inside "/jail"; "/jail" and "/jail/x" are. |
| MlGuard.SlashRootHoldsOnlyItself | monitor/ml_guard.py:172-174 | With root "/", the test compares against "//". Of the paths not starting with "//", only "/" is inside. |
| MlGuard.UnresolvedCwdNotInJail | monitor/ml_guard.py:168-171 | A cwd that cannot be resolved is never in the jail. |
| MlGuard.PushSample | monitor/ml_guard.py:97-99 | The buffer never exceeds 240 entries, and the newest sample is always last. Below the cap the sample is appended. At the cap the oldest entry is dropped. |
| MlGuard.StepSpec | monitor/ml_guard.py:80-131 | One turn of the loop. A failed sample ends the loop. Below min_samples only the buffer changes. A kill needs a malicious, confident verdict and a jailed cwd. Past min_samples such a verdict logs the kill and sets `terminated` when the cwd is jailed, and logs a skipped kill otherwise. Either way it ends the loop. An update is logged exactly when the label differs or the confidence moved by at least 0.2, and only then is the remembered pair replaced. |
| MlGuard.HandlePoll | monitor/ml_guard.py:80-131 | The imperative loop body computes exactly that step: new state and whether the loop goes on. |
| MlGuard.MonitorPolls | monitor/ml_guard.py:66-134 | The loop and the exit event log exactly `Monitor`'s events. It reports a kill exactly when a termination was logged. |
| MlGuard.MonitorLog | monitor/ml_guard.py:117-134 | Every logged kill carries a malicious, confident verdict that a jailed poll predicted. At most one decision is logged: a kill comes last, and a skipped kill is followed only by the exit event. Each update reports a change. An exit event is logged exactly when something was predicted and the process was not killed. |
| MlGuard.DecisionOnStoppingPoll | monitor/ml_guard.py:78-124 | From a state with only updates logged, a non-update event left last by the loop is the decision on the poll that stopped the loop. That poll passed the loop condition and carried a sample and a malicious, confident verdict. The event is a kill when its cwd is jailed and a skipped kill otherwise. |
| MlGuard.KillDecidedOnStoppingPoll | monitor/ml_guard.py:78-124 | Every kill or skipped kill in a monitor log was decided on the poll that stopped the loop. Its prediction is that poll's malicious, confident verdict, and it is a kill exactly when that poll's cwd was in the jail. |
| MlGuard.KilledIffLogged | monitor/ml_guard.py:117-134 | The loop ends with `terminated` set exactly when its log records a termination. |
| MlGuard.QuietBelowMinSamples | monitor/ml_guard.py:101-103 | While fewer than min_samples samples can be buffered, nothing is predicted or logged. |
| MlGuard.NoEventsBelowMinSamples | monitor/ml_guard.py:101-103 | Fewer polls than min_samples, or a min_samples above the 240 cap, log no event at all. |
| MlGuard.MLGuard.constructor | monitor/ml_guard.py:26-29 | The configuration defaults to (0.4, 8, 0.85), and the registry starts empty. |
| MlGuard.MLGuard.Watch | monitor/ml_guard.py:32-43 | An already registered pid changes nothing. Otherwise exactly that pid is registered, with run id `run_id or live-<pid>`. |
| MlGuard.MLGuard.Stop | monitor/ml_guard.py:45-51 | Removes exactly that pid's entry; an unregistered pid is a no-op. |
| MlGuard.MLGuard.MonitorLoop | monitor/ml_guard.py:61-136 | Without an inspector it returns at once with the registry untouched. Otherwise it logs `Monitor`'s events and unregisters the pid. It reports a kill exactly when one was logged. |
| Evaluate.Zip | models/evaluate.py:90 | Pairs up the inputs position by position, as far as the shorter one goes. |
| Evaluate.Count | models/evaluate.py:94 | `labels.count(l)` never exceeds the length. |
| Evaluate.CountPositive | models/evaluate.py:94 | A label has positive count exactly when it occurs. |
| Evaluate.CountsSumToLength | models/evaluate.py:94 | Over duplicate-free values covering a sequence, the counts sum to its length. |
| Evaluate.TallyMapIsTally | models/evaluate.py:89-91 | The table after a prefix of pairs counts every (label, prediction) pair of that prefix. A row exists exactly for the labels seen, and a column exactly for the predictions seen with that label. |
| Evaluate.TallyDone | models/evaluate.py:89-91 | A tally of all zipped pairs counts the pairs of the two input lists. |
| Evaluate.ConfusionTable | models/evaluate.py:89-91 | Every cell confusion[l][p] is the number of zipped pairs (l, p). Rows and columns exist exactly for the pairs that occur. |
| Evaluate.Support | models/evaluate.py:94 | The support has a key exactly for each label that occurs, mapped to its count. |
| Evaluate.ConfidenceMean | models/evaluate.py:97 | With no confidences the mean is 0.0. |
| Evaluate.ConfidenceStd | models/evaluate.py:98 | With no confidences the standard deviation is 0.0. |
| Evaluate.SummarisePredictions | models/evaluate.py:88-100 | It gives: support[l] = count of l; correct = matching zipped positions, at most total; total = number of labels; the confusion table's cells count the pairs; with no confidences, mean and std are 0.0. |
| Evaluate.CorrectBounds | models/evaluate.py:95 | 0 ≤ correct ≤ total. When there are no more labels than predictions, correct equals total exactly when every label equals its prediction. |
| Evaluate.MatchesAll | models/evaluate.py:95 | All pairs match exactly when the match count is the number of pairs. |
| Evaluate.SupportsSumToTotal | models/evaluate.py:94-96 | The supports, summed over the distinct labels, equal the total. |
| Evaluate.ConfusionRowIsSupport | models/evaluate.py:89-94 | For equal-length inputs, row l of the confusion table sums to support[l]. |
| Evaluate.ConfusionSumsToTotal | models/evaluate.py:89-96 | For equal-length inputs, all cells together sum to the total. |
| Evaluate.DiagonalIsCorrect | models/evaluate.py:89-95 | The diagonal cells confusion[l][l] sum to the correct count. |
| Evaluate.MeanWithinBounds | models/evaluate.py:97 | Over exact reals, the mean of non-empty confidences lies between their bounds. |
| Evaluate.IdxToLabel | models/evaluate.py:110 | The inverted mapping has a key exactly for each index some label maps to. |
| Evaluate.EvaluateLstm | models/evaluate.py:103-127 | No sequences give support = correct = total = 0 and no confidence fields. Otherwise support = total = number of sequences, correct ≤ total, and the confidence fields are present. |
| Evaluate.LstmCorrectCounts | models/evaluate.py:116-119 | correct counts the sequences whose label equals the label of the predicted index, with "unknown" for an unmapped index. |
| Evaluate.DefaultLabels | models/evaluate.py:109-117 | Under the default mapping, 0, 1 and 2 read as benign, malicious and unknown, and any other index reads as unknown. |
| Evaluate.UnmappedIndexIsUnknown | models/evaluate.py:117 | An index no label maps to reads as "unknown". |
| Evaluate.IndexRoundTrip | models/evaluate.py:109-117 | When no two labels share an index, a label's index maps back to that label. |
| ResourceExhaustionCombo.Spawn | ml_anomaly_tests/resource_exhaustion_combo.c:74-78 | A batch adds at most three threads, and never more than the table has room for. |
| ResourceExhaustionCombo.SpawnContents | ml_anomaly_tests/resource_exhaustion_combo.c:74-77 | Every thread a batch adds comes from one of its own successful `pthread_create` calls. |
| ResourceExhaustionCombo.SpawnFromIsSpawn | ml_anomaly_tests/resource_exhaustion_combo.c:74-78 | Walking the inner loop over the table appends exactly the batch. |
| ResourceExhaustionCombo.ThreadStep | ml_anomaly_tests/resource_exhaustion_combo.c:72-80 | A batch never takes the thread table past its 60 slots. |
| ResourceExhaustionCombo.LeaksAfter | ml_anomaly_tests/resource_exhaustion_combo.c:57-69 | The leak count never exceeds the 30 slots. |
| ResourceExhaustionCombo.ThreadsAfter | ml_anomaly_tests/resource_exhaustion_combo.c:57-80 | The thread count never exceeds MAX_THREADS (60). |
| ResourceExhaustionCombo.FilesAfter | ml_anomaly_tests/resource_exhaustion_combo.c:57-91 | The file count never exceeds MAX_FILES (100). |
| ResourceExhaustionCombo.LeakSizesAfter | ml_anomaly_tests/resource_exhaustion_combo.c:61-66 | Leak k (0-based) has size (k+1)·8 MB. |
| ResourceExhaustionCombo.ThreadsCreatedAfter | ml_anomaly_tests/resource_exhaustion_combo.c:72-78 | Every counted thread was created by a successful call of a batch on an earlier iteration that is a multiple of 3. |
| ResourceExhaustionCombo.FilesValidAfter | ml_anomaly_tests/resource_exhaustion_combo.c:86-88 | Every counted descriptor is non-negative. |
| ResourceExhaustionCombo.BatchesCount | ml_anomaly_tests/resource_exhaustion_combo.c:72 | ⌈n/3⌉ of the first n iterations spawn a batch. |
| ResourceExhaustionCombo.LeaksBound | ml_anomaly_tests/resource_exhaustion_combo.c:61 | Leaks happen on even iterations only: at most ⌈n/2⌉ after n. |
| ResourceExhaustionCombo.FilesBound | ml_anomaly_tests/resource_exhaustion_combo.c:83 | Files are opened on odd iterations only: at most ⌊n/2⌋ after n. |
| ResourceExhaustionCombo.ThreadsBound | ml_anomaly_tests/resource_exhaustion_combo.c:72-78 | At most three threads per batch. |
| ResourceExhaustionCombo.AttackBounds | ml_anomaly_tests/resource_exhaustion_combo.c:57-91 | Over the 20 iterations: at most 10 leaks, 10 files and 21 threads. |
| ResourceExhaustionCombo.LeaksAreSuccesses | ml_anomaly_tests/resource_exhaustion_combo.c:61-66 | The leak count is the number of even iterations whose `malloc` succeeded. |
| ResourceExhaustionCombo.FilesAreSuccesses | ml_anomaly_tests/resource_exhaustion_combo.c:83-88 | The file count is the number of odd iterations whose `open` succeeded. |
| ResourceExhaustionCombo.AfterGrows | ml_anomaly_tests/resource_exhaustion_combo.c:57-110 | Each table only grows: an earlier table is a prefix of every later one. |
| ResourceExhaustionCombo.LeakSizes | ml_anomaly_tests/resource_exhaustion_combo.c:62 | Successive leak sizes grow by exactly 8 MB, and all fit in a 32-bit `int`. |
| ResourceExhaustionCombo.TempNamesDistinct | ml_anomaly_tests/resource_exhaustion_combo.c:85 | Distinct file indices give distinct temporary names. |
| ResourceExhaustionCombo.ComboAttack.constructor | ml_anomaly_tests/resource_exhaustion_combo.c:46-49 | Tables of 30, 60 and 100 slots, with all counters at zero. |
| ResourceExhaustionCombo.ComboAttack.Leak | ml_anomaly_tests/resource_exhaustion_combo.c:61-69 | The counted leaks become `LeakStep` of the old ones, and the table invariant is kept. |
| ResourceExhaustionCombo.ComboAttack.SpawnBatch | ml_anomaly_tests/resource_exhaustion_combo.c:72-80 | The counted threads become `ThreadStep` of the old ones, within 60. |
| ResourceExhaustionCombo.ComboAttack.OpenFile | ml_anomaly_tests/resource_exhaustion_combo.c:83-91 | The counted descriptors become `FileStep` of the old ones. An attempted open is returned with its name, the temporary name of the slot it fills. |
| ResourceExhaustionCombo.ComboAttack.Round | ml_anomaly_tests/resource_exhaustion_combo.c:58-109 | One iteration takes the counted tables from `After(i)` to `After(i + 1)`. |
| ResourceExhaustionCombo.ComboAttack.Attack | ml_anomaly_tests/resource_exhaustion_combo.c:57-110 | After the loop, the counted tables are exactly `After(20)`. |
| ResourceExhaustionCombo.ComboAttack.Cleanup | ml_anomaly_tests/resource_exhaustion_combo.c:141-158 | It joins exactly the thread_count counted threads, frees exactly the leak_count counted blocks, and closes exactly the file_count counted descriptors. It unlinks exactly the names 0 … file_count − 1 that were opened. |
| ForkBombGradual.ClampMaxThreads | ml_anomaly_tests/fork_bomb_gradual.c:42-47 | Without an argument the budget is 80. With one it is `atoi` of it clamped into [5, 80], each case spelled out. |
| ForkBombGradual.ClampKeepsDecimal | ml_anomaly_tests/fork_bomb_gradual.c:44-46 | A decimal argument inside [5, 80] is taken as is. |
| ForkBombGradual.DelayNonIncreasing | ml_anomaly_tests/fork_bomb_gradual.c:87-93 | The delay is one of 500000, 300000 or 100000 µs and never grows with the slot. |
| ForkBombGradual.DelaysExact | ml_anomaly_tests/fork_bomb_gradual.c:86-93 | One delay per slot from 5 on, in slot order, each that slot's delay. |
| ForkBombGradual.CheckpointCases | ml_anomaly_tests/fork_bomb_gradual.c:72-80 | A message is printed exactly at 10, 25, 50 and the other multiples of 10. The levels at 10, 25 and 50 are suspicious, alarming and critical, and take precedence over the generic one. |
| ForkBombGradual.MessagesExact | ml_anomaly_tests/fork_bomb_gradual.c:69-80 | A message names count c exactly when c was reached and has a checkpoint, at that checkpoint's level. |
| ForkBombGradual.ForkBomb.constructor | ml_anomaly_tests/fork_bomb_gradual.c:42-52 | The clamped budget, an id buffer of that size, no threads counted, and an empty thread table. |
| ForkBombGradual.ForkBomb.CreateSlot | ml_anomaly_tests/fork_bomb_gradual.c:56-57 | Slot i gets id i+1 and holds a thread exactly when `pthread_create` succeeds. Every other slot is untouched. |
| ForkBombGradual.ForkBomb.Startup | ml_anomaly_tests/fork_bomb_gradual.c:55-62 | Slot i gets id i+1 and holds a thread exactly when its creation succeeded. The count is the number of successes. Nothing else changes. |
| ForkBombGradual.ForkBomb.Attack | ml_anomaly_tests/fork_bomb_gradual.c:67-94 | It stops at the first failed creation from slot 5 on, or at the budget. Each slot tried gets id i+1. The count grows by the successes. It prints the checkpoint messages and sleeps one delay per success. |
| ForkBombGradual.ForkBomb.JoinAll | ml_anomaly_tests/fork_bomb_gradual.c:117-119 | Joins exactly `created_threads` slots, 0, 1, …, each within the budget. |
| ForkBombGradual.ForkBomb.Run | ml_anomaly_tests/fork_bomb_gradual.c:42-119 | The created count is the phase-one successes plus the phase-two run. Joined = created ≤ budget ≤ 80. When every phase-one creation succeeded, the joined slots are exactly those holding threads. |
| ForkBombGradual.FirstFailureAt | ml_anomaly_tests/fork_bomb_gradual.c:81-83 | Where a run of successes ends in a failure or at the end, the first failure is that point. |
| MemoryLeakProgressive.AllocSize | ml_anomaly_tests/memory_leak_progressive.c:35 | Every request is positive. |
| MemoryLeakProgressive.AllocSizeSteps | ml_anomaly_tests/memory_leak_progressive.c:35 | Each request is (i+1)·5 whole MB, exactly 5 MB more than the one before. |
| MemoryLeakProgressive.TotalStep | ml_anomaly_tests/memory_leak_progressive.c:48 | Adding a request to the running total gives the next total, still a whole number of MB. |
| MemoryLeakProgressive.Reports | ml_anomaly_tests/memory_leak_progressive.c:50-54 | One report per completed iteration, in order. |
| MemoryLeakProgressive.EscalationsExact | ml_anomaly_tests/memory_leak_progressive.c:59-67 | An escalation appears only at iterations 5, 10 and 15, once reached. |
| MemoryLeakProgressive.GrantedCompleted | ml_anomaly_tests/memory_leak_progressive.c:46-67 | A granted iteration extends the state of k successful iterations to k+1. |
| MemoryLeakProgressive.GrantedEscalations | ml_anomaly_tests/memory_leak_progressive.c:59-67 | A granted iteration adds its escalation exactly at 5, 10 and 15. |
| MemoryLeakProgressive.GrantedTotal | ml_anomaly_tests/memory_leak_progressive.c:48 | A granted iteration adds its request to `total_allocated`. |
| MemoryLeakProgressive.GrantedReports | ml_anomaly_tests/memory_leak_progressive.c:50-54 | The report of a granted iteration shows its step, its size in MB, the running total in MB, and a growth equal to its size. |
| MemoryLeakProgressive.LeakFromCompleted | ml_anomaly_tests/memory_leak_progressive.c:33-68 | From k completed iterations, the loop ends in the outcome `LeakOutcome` states. |
| MemoryLeakProgressive.LeakOutcome | ml_anomaly_tests/memory_leak_progressive.c:33-68 | Let k be the first failing iteration, or 25. Slots below k hold their blocks, slot k holds NULL, and later slots are untouched. The total is exactly k blocks (the failed one is not added). There is one report per block, escalations at 5, 10 and 15 below k, and the failure is reported with its step and size. |
| MemoryLeakProgressive.Leaker.constructor | ml_anomaly_tests/memory_leak_progressive.c:27-28 | A 30-slot table and a zero total. |
| MemoryLeakProgressive.Leaker.Leak | ml_anomaly_tests/memory_leak_progressive.c:33-68 | The loop leaves the table, total, reports, escalations and failure line that `LeakRun` gives for the old table. |
| MemoryLeakProgressive.FirstFailureIs | ml_anomaly_tests/memory_leak_progressive.c:39-43 | The loop stops at the first failing iteration. |
| MemoryLeakProgressive.LeakBounds | ml_anomaly_tests/memory_leak_progressive.c:27-33 | At most 25 blocks, inside the 30-slot table, totalling at most 1625 MB. |
| MemoryLeakProgressive.AllocSizeFits | ml_anomaly_tests/memory_leak_progressive.c:35 | The request, computed in `int`, stays below 2³¹ in all 25 iterations. |
| MlTestPattern.Selector | ui_test_programs/ml_test_pattern.c:40-43 | Without an argument the pattern is 1. |
| MlTestPattern.ExitCode | ui_test_programs/ml_test_pattern.c:125-136 | The exit status is 0 exactly for patterns 1 to 5, and 1 otherwise. |
| MlTestPattern.DecimalSelector | ui_test_programs/ml_test_pattern.c:40-45 | A decimal selector is read as its value and runs a pattern exactly when it lies in 1 to 5. |
| MlTestPattern.NonNumericSelector | ui_test_programs/ml_test_pattern.c:42 | A non-numeric selector reads as 0 and exits with 1. |
| MlTestPattern.RampBytes | ui_test_programs/ml_test_pattern.c:76 | Every pattern-3 request is positive. |
| MlTestPattern.RampMegabytes | ui_test_programs/ml_test_pattern.c:76-78 | The request printed at iteration i is 5·(i+1) MB. |
| MlTestPattern.ConsecutiveProduct | ui_test_programs/ml_test_pattern.c:78 | (i+1)(i+2) is even. |
| MlTestPattern.PrintedTotal | ui_test_programs/ml_test_pattern.c:78 | The printed total (i+1)(i+2)/2·5 loses nothing to integer division and equals the sum of requests 0..i. |
| MlTestPattern.RampLinesExact | ui_test_programs/ml_test_pattern.c:77-78 | One line per iteration, in order, showing the step, the 5·(j+1) MB request and the sum of the requests so far. |
| MlTestPattern.RampReport | ui_test_programs/ml_test_pattern.c:77-78 | The C expressions of the printed line give the step, the request in MB and the sum of the requests so far. |
| MlTestPattern.Gradual | ui_test_programs/ml_test_pattern.c:49-53 | Twenty iterations with load (i+1)·5 percent. The burst is 50 + 25i ms: strictly increasing, between 50 and 525. |
| MlTestPattern.Spike | ui_test_programs/ml_test_pattern.c:59-68 | Of 15 iterations only index 7 bursts for 800 ms; all others burst for 50 ms. |
| MlTestPattern.RampIteration | ui_test_programs/ml_test_pattern.c:76-79 | One iteration prints its line, then stores its (i+1)·5 MB block in slot i, or NULL when `malloc` fails. Every other slot is untouched. |
| MlTestPattern.MemoryRamp | ui_test_programs/ml_test_pattern.c:74-85 | Let k be the first failing `malloc`, or 20. Slots below k hold their (i+1)·5 MB blocks and slot k holds NULL. The lines of iterations 0..k are printed, and the loop reports failure exactly when k < 20. |
| MlTestPattern.Oscillating | ui_test_programs/ml_test_pattern.c:95-104 | Even iterations burst for 600 ms and odd ones for 50 ms, so neighbours always differ. |
| MlTestPattern.Combined | ui_test_programs/ml_test_pattern.c:110-122 | Only iteration 10 bursts for 700 ms and requests 50 MB; all others burst for 100 ms. The block is freed exactly when it was granted. |
| MlTestPattern.Run | ui_test_programs/ml_test_pattern.c:40-136 | Runs the selected pattern exactly when the selector is in 1 to 5, and exits with the matching status. With no argument it runs pattern 1 and exits with 0. |
| MlTestPattern.FirstFailureIs | ui_test_programs/ml_test_pattern.c:80-83 | The loop stops at the first failing allocation. |
| Oracle.FirstFailure | ml_anomaly_tests/memory_leak_progressive.c:37-43 | The first failing step: every step before it succeeds, and it fails unless it is the end. |
| Oracle.CountOk | ml_anomaly_tests/fork_bomb_gradual.c:55-58 | At most one success per step. |
| Oracle.CountOkAll | ml_anomaly_tests/fork_bomb_gradual.c:55-58 | The count of successes is the whole range exactly when every step succeeds. |
| Arith.StepTotalClosedForm | ml_anomaly_tests/memory_leak_progressive.c:48 | After k iterations the total is 5·k(k+1)/2 MB. |
| Arith.StepTotalMonotone | ml_anomaly_tests/memory_leak_progressive.c:48 | The running total never decreases. |
| CLib.NatToDecimal | ml_anomaly_tests/resource_exhaustion_combo.c:85 | `%d` of a natural is a non-empty digit string without a leading zero. |
| CLib.IntToDecimal | ml_anomaly_tests/resource_exhaustion_combo.c:85 | `%d` of an integer starts with "-" exactly when it is negative. |
| CLib.SkipSpaces | ml_anomaly_tests/fork_bomb_gradual.c:44 | `atoi` reads from the first character that is not white space. Every character it skips is white space, and what remains is the rest of the argument. |
| CLib.LeadingDigits | ml_anomaly_tests/fork_bomb_gradual.c:44 | `atoi` reads the longest prefix of digits. |
| CLib.DigitsValueOfDecimal | ml_anomaly_tests/resource_exhaustion_combo.c:85 | Printing a natural in decimal and reading the digits back gives the natural. |
| CLib.AtoiOfDecimal | ml_anomaly_tests/fork_bomb_gradual.c:44 | `atoi` of the decimal form of any integer is that integer. |
| CLib.AtoiOfNatural | ml_anomaly_tests/fork_bomb_gradual.c:44 | `atoi` of the decimal form of a natural is that natural. |
| CLib.AtoiOfNegative | ml_anomaly_tests/fork_bomb_gradual.c:44 | `atoi` of "-" followed by the digits of m is −m. |
| CLib.AtoiOfDigits | ml_anomaly_tests/fork_bomb_gradual.c:44 | `atoi` of a string of digits is their value. |
| CLib.AtoiNonNumeric | ui_test_programs/ml_test_pattern.c:42 | `atoi` of a string with no digit after the optional sign is 0. |

## Left out

- Min-max scaling (data/sequences.py:64-69) is floating-point numerics. The features are the unscaled rows.
- Python's `float()` on a string is not computed. A text value carries what `float` returns for it, or that it raises.
- Sequences.Lower: lower-cases ASCII letters only, because Unicode case mapping is outside the model.
- The dataclass `SequenceExample.features` is a float32 array; the model keeps the rows as exact reals.
- MlGuard: threads, the stop event and its waits, `os.kill`, the resolution of `/proc/<pid>/cwd` and the jail root, and the JSON event payload are left out. Timestamps, pid, command and probabilities are not logged; an event keeps only its action and prediction.
- MlGuard: the process inspector, the sample payload it builds and the inference engine are inputs. Each `Poll` says whether the stop event is set and whether the process runs. It also carries the sample (None when sampling raised), the prediction for the buffered samples and the resolved cwd.
- MlGuard.MLGuard.Watch: the thread object and its start are left out. The registry maps a pid to what its watcher was started with.
- MlGuard.InJail: works on already-resolved path strings. `Path.resolve` and its RuntimeError are not modelled.
- Evaluate: `main` (argparse, artifact loading, JSON output), the scaler and classifier, and the torch model and softmax are left out. Predicted indices and confidences are inputs.
- Evaluate.SummarisePredictions: the confidence mean is over exact reals, and the population standard deviation is an input function. Both are floating point in the source.
- Evaluate.ConfusionTable, Evaluate.ConfusionRowIsSupport: row and total sums are stated over a duplicate-free key list. The model has no sum over a map's keys.
- ResourceExhaustionCombo: the CPU consumer threads, `keep_running`, `memset`, the sleeps, the summary and phase-3 narration, and the warning prints at iterations 5, 10 and 15 are left out.
- ResourceExhaustionCombo.ComboAttack.Attack: requires the three counters to be zero on entry, as the program's locals are just before the loop (one attack per process).
- ResourceExhaustionCombo.ComboAttack: a thread slot records the (iteration, attempt) that created it instead of a `pthread_t`. `getpid()` is a parameter.
- ForkBombGradual: the worker threads, `keep_running`, the sleeps (the delays are returned as values) and the phase-3 narration are left out. So is the float growth rate (ml_anomaly_tests/fork_bomb_gradual.c:109).
- ForkBombGradual.ForkBomb.constructor: the `malloc` of `thread_ids` is taken to succeed, as the source never checks it. The `free` is not modelled.
- ForkBombGradual.ForkBomb.Run: a failed phase-one creation leaves a gap in the slots, because that loop does not stop (lines 55-62). The join loop then walks the first `created_threads` indices, which need not be the created ones. So the exact join set is claimed only when every phase-one creation succeeded; otherwise only the count is claimed.
- CLib.Atoi: out-of-range input is undefined behaviour in C, so it is not modelled. The model reads any digit string as an unbounded integer.
- MemoryLeakProgressive: `memset`, the sleeps, the phase-2 prints and the float average (ml_anomaly_tests/memory_leak_progressive.c:82) are left out.
- MemoryLeakProgressive: the cleanup loop at ml_anomaly_tests/memory_leak_progressive.c:88-92 frees all 30 slots, including ones never assigned after an early stop. The model makes no claim about it. `LeakOutcome` states that slots above the failure keep whatever they held.
- MlTestPattern: `cpu_burst`'s busy loop is modelled by its duration. `rand`, the sleeps and the narration are not modelled.
- MlTestPattern: the cleanup loop at ui_test_programs/ml_test_pattern.c:87-89 frees all 20 slots, including ones not assigned after a failure. The model makes no claim about it.
- MlTestPattern.MemoryRamp: leaves the loop through a `failed` flag instead of `break`. The slots written and the lines printed are the same.
- The other simulators (CPU spike, I/O storm and the UI test programs) and the inference engine are not part of this model.
