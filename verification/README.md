# Verification of iperf3-rs

This Dafny project models the parts of iperf3-rs whose correctness is hard to see from one function at a time, and
proves what they are meant to guarantee. `dafny verify dfyconfig.toml` checks all of it.

- `Pipeline`: the live metrics pipeline as interleaved atomic steps of three threads (the libiperf callback, the
  worker that writes files and cuts windows, the thread that pushes over HTTP) with a raw queue and a delivery queue,
  each keeping everything or only the newest item. `Channels` is the channel and the enqueue that replaces stale items.
- `Windows`: the two loops that cut samples into windows, each proved against one plan computed from a trace of
  receives, clock readings and timeouts. `Samples` is the window summary.
- `SignalPipe`: the signal handler, the interruptible `select`, and prepare and cleanup of the CLI, with any number of
  handler instances and a table of descriptor numbers that are reused. Atomics are sequentially consistent, the default
  of section 7.17.3 of ISO C11.
- `Pidfile`: pidfile inspection, ownership and removal, on a file system that anyone may change between system calls.
- `Calendar`: the closed-form Gregorian date against a calendar walked one day at a time, and the timestamp made of it.
- `Args`: the argv splitter, a scan that marks words in place and a loop that acts on the marks. Native getopt is a
  classifier of words.
- `GroupingPath`, `Exposition`, `Durations`: the Pushgateway path, the Prometheus text and the duration printers, each
  with a reader that knows nothing of how the text was written.
- `OwnedCommands`: the process-group owner used by the integration tests, against any answers of the operating system.
- `AtomicWrite`: replacing a snapshot by way of a temporary file, with any number of writers and faults anywhere.
- `Shim`: reorder deltas and the sample made of the streams of one direction.
- `Decimal`, `Texts`, `TextBuffers`, `Wrappers`: shared vocabulary.

Code that changes things step by step is modelled by methods, classes and arrays, each proved against a function whose
properties are then proved as lemmas. Protocols between threads or processes are modelled by a state and its steps; the
sequential code of `AtomicWrite` is proved, call by call, to take only steps of that machine.

## What turned out otherwise

- `iperf3rs_cli_select` means never to count the wake pipe in a non-negative result. From the second period on this can
  fail: a handler delivered in an earlier period, and not yet counted when cleanup drained the handlers, may store its
  signal number just before the new period's `cli_signal = 0` and load the new `cli_writefd`, so its wake byte arrives
  without a signal. `StaleStartHappens` is such a schedule, and `WakePipeIsNeverCountedExactlyWhenFresh` gives the exact
  condition on the state at the reset. `FirstPeriodIsFresh` shows that a first period is never affected, and the program
  itself has no other: `src/cli.rs:73` is the only caller of prepare and runs once per process, so a second period is
  reached through the C interface only.
- Cleanup removes the pidfile by name after comparing inodes. If the path is rebound between `lstat` and `unlink`, the
  file removed is the new one; `RemoveOwned` says exactly what goes and `AnotherFileCanBeRemoved` shows it happening.
- The pid is written at the start of a file created or truncated earlier. Bytes that somebody else puts there in between
  stay behind it, and the call succeeds: `MoreThanThePidCanRemain` is such a run. `PidfileChecked` gives the exact
  condition: what the write leaves is the pid alone if and only if the file it found was no longer than the pid.
- `civil_from_days` overflows for the last 719468 day counts of `i64`; `OverflowsExactlyNearTheTop` gives the bound, and
  `BuildDateOnU64` that no timestamp gets near it.
- `whole_seconds_arg` is a ceiling except where that exceeds `u64`; `WholeSecondsIsCeiling` says when.

## Model

| member | source | states |
|---|---|---|
| Pipeline.ReachableInv | src/metrics.rs:685-721 | after every schedule of callback, worker and delivery thread the pipeline invariant holds: the trail from the sinks back to the callback is in production order without repeats, queues fit their policy, the file follows production, DELETE is last |
| Pipeline.DeliveryIsInOrder | src/metrics.rs:946-958 | at every moment what was handed to `push` is a strictly increasing sequence of sample numbers below what was produced: in order, no repeat, nothing invented |
| Pipeline.SecondTrySendFits | src/metrics.rs:949-955 | whenever the retry of an enqueue is due, at the callback or at the worker, its queue has room |
| Pipeline.QueuesHoldTheNewest | src/metrics.rs:555-573 | after every schedule: immediate delivery has at most one event waiting, with a file or without, and a pipeline with neither a file nor windows at most one sample; no other queue ever drops anything |
| Pipeline.SendsReplaceStaleItems | src/metrics.rs:946-958 | a send that has just ended leaves its event alone in the queue of an immediate delivery and behind all others in that of a windowed one; likewise a sample in the raw queue, which keeps all exactly with a file or windows |
| Pipeline.CutsCompleteWindows | src/metrics.rs:724-783 | a cut puts the whole open window in hand and starts the next with the sample in hand; any other sample joins the open window; a flush and the end empty it |
| Pipeline.EventsSuitTheSink | src/metrics.rs:695-721 | every event queued for delivery or handed to push is a single sample for immediate delivery and a non-empty window for windowed delivery |
| Pipeline.LastSampleIsDelivered | src/metrics.rs:555-573 | once the worker has returned without a failure the last delivered event holds the last sample produced, and windowed delivery has delivered every sample in order |
| Pipeline.ReturnMeansDelivered | src/metrics.rs:697-705 | `run_metrics_sinks` returns, on success and on error alike, only when the delivery queue is empty, delivery is done and every event handed over was pushed; a DELETE is made exactly if configured and is the last call of all |
| Pipeline.CompletedWindowsAreDelivered | src/metrics.rs:697-705 | windowed delivery, a file error or none: what was pushed by the return is an unbroken start of production, and includes every window the worker had completed at any earlier moment |
| Pipeline.FileHoldsEverySample | src/metrics.rs:413-422 | with a file sink the file holds samples 0, 1, 2, ... in order at every moment, and all of them when the worker ends without a failure, whatever delivery does |
| Pipeline.NothingWrittenAfterFailure | src/metrics.rs:745-749 | after the first failed write no step of any thread changes the file |
| Pipeline.WorkerIgnoresDelivery | src/metrics.rs:707-721 | until the join, whether a worker step can be taken and what it does to the file and the raw queue is the same for every delivery queue and every state of delivery |
| Pipeline.WorkerNeverBlocksOnDelivery | src/metrics.rs:690-705 | a worker that still runs can always take a step, unless it waits for a sample that was not produced yet |
| Pipeline.WorkerFinishesWithoutDelivery | src/metrics.rs:690-705 | from every reachable state whose producer has closed there is a continuation without any delivery step in which the worker empties its queue, completes the file unless a failure came before, and lets go of both queues |
| Pipeline.StepsAreBounded | src/metrics.rs:685-705 | every step but the production of a sample makes the measure smaller |
| Pipeline.ClosedPipelineTerminates | src/metrics.rs:494-503 | once the producer has closed, every continuation is at most as long as the measure |
| Pipeline.ClosedPipelineProgresses | src/metrics.rs:494-503 | once the producer has closed, some step is possible until the worker has returned |
| Channels.MetricsChannel | src/metrics.rs:555-573 | a keep-everything channel is unbounded, a keep-newest channel holds one item |
| Channels.EnqueueLatest | src/metrics.rs:946-958 | an item is appended when there is room; a full keep-newest queue loses its oldest item and gains the new one; a disconnected or full plain queue is unchanged |
| Channels.Channel.TrySend | src/metrics.rs:947-956 | sends exactly when connected and not full, and otherwise gives the item back |
| Channels.Channel.TryRecv | src/metrics.rs:951-953 | takes the oldest item, if any |
| Windows.ForwardWindowEvents | src/metrics.rs:603-654 | the library loop sends exactly the summaries of the plan's windows, up to the point where the consumer is gone, and fails exactly when a deadline overflows before that |
| Windows.PushWindowMetrics | src/metrics.rs:724-783 | the CLI loop queues exactly the summaries of the plan's windows, its file holds exactly the samples of the plan, and it returns the plan's error |
| Windows.FlushWindowEvent | src/metrics.rs:656-662 | a non-empty window is summarised, sent if the consumer is there, and cleared; an empty one sends nothing |
| Windows.FlushWindowMetrics | src/metrics.rs:803-809 | a non-empty window adds its summary to the queue and is cleared; an empty one adds nothing |
| Windows.WriteMetricsFile | src/metrics.rs:812-817 | a write appends the sample or fails and leaves the file as it was |
| Windows.WindowsAreTheSamples | src/metrics.rs:603-654 | for every trace of receives, clock readings, timeouts and disconnect: every window is non-empty and uniform in context, and the windows in order, with the window an error loses, are exactly the samples received; without an error they are all samples |
| Windows.BothLoopsCutAlike | src/metrics.rs:744-775 | while no write fails, the loop with a file has the same plan, windows and errors as the loop without one |
| Windows.NothingIsCountedTwice | src/metrics.rs:670-682 | without an error the totals of all emitted windows equal the sanitised sums over all samples |
| Windows.FileHoldsSamplesUpToFirstError | src/metrics.rs:745-767 | when no deadline overflows, the file gets the samples before the first write that fails and none after it, and the loop fails exactly when some write does |
| Windows.QuietWindowsAreRuns | src/metrics.rs:670-682 | when time plays no part the windows are exactly the maximal runs of samples of one context |
| Windows.WindowsAreInTime | src/metrics.rs:608-651 | every window of a run has readings of the clock and a reason: its samples after the first were received at readings below the one that armed its deadline plus the interval; a window ended by the clock was ended by a later reading that had reached the deadline, one ended by a receive was ended by one that gave up, the window after one ended by a sample has another context, and one ended by disconnection is the last |
| Windows.PlanAccounts | src/metrics.rs:734-775 | from any point of a run: what is still emitted and lost is the open window followed by the samples still to come |
| Samples.AggregateWindow | src/metrics.rs:967-1041 | the aggregation loop computes the summary defined by sums, counts, minima and maxima over the samples; nothing for no samples |
| Samples.GaugeAccumulator.Observe | src/metrics.rs:1052-1065 | one value more is tallied exactly if it is finite |
| Samples.GaugeAccumulator.Finish | src/metrics.rs:1073-1083 | the statistics of everything tallied: count, mean, least and greatest; GaugeOfConcat says which mean |
| Samples.GaugeAccumulator.FinishWithMean | src/metrics.rs:1085-1091 | the mean is replaced unless nothing was tallied |
| Samples.OptionalCounter.Observe | src/metrics.rs:1101-1107 | a present reading is added, sanitised; an absent one changes nothing |
| Samples.OptionalCounter.Finish | src/metrics.rs:1109-1111 | the total is there exactly when some sample had a reading |
| Samples.SummaryTotals | src/metrics.rs:990-1008 | one window's totals are the sanitised sums over its samples |
| Samples.GaugeOfConcat | src/metrics.rs:1073-1083 | the gauge of two stretches has the sum of the counts, the lesser and the greater extreme, and the mean that weighs every value alike |
| Samples.SummaryOfOne | src/metrics.rs:967-1041 | the summary of a window of one sample is that sample, field by field: each gauge its finite reading, each counter its sanitised reading if present, the bandwidth mean its bits over its time when time passed |
| Samples.SummariesMerge | src/metrics.rs:967-1041 | the summary of any window is made of the summaries of any two parts: totals and counters add up, gauges merge by weight, context of the first, timestamp of the last, and bandwidth mean times duration is eight times the bytes when time passed |
| Samples.TotalsAreConserved | src/metrics.rs:967-1041 | whatever the segmentation into windows, byte, duration, omitted and counter totals over all windows equal the sanitised sums over all samples |
| Samples.GaugeIsOrdered | src/metrics.rs:1073-1083 | least <= mean <= greatest for every gauge that observed anything, every observed value lies between them, and both were observed |
| Samples.BandwidthIsOrdered | src/metrics.rs:1010-1027 | for consistent samples the time-weighted bandwidth mean that replaces the plain one still lies between the window's extremes |
| SignalPipe.PlayIsSafe | native/iperf3rs_cli.c:149-160 | after any interleaving of any number of handlers, callers and prepare and cleanup periods, the in-flight counter is exact and a handler that holds a descriptor holds the write end of the pipe open now |
| SignalPipe.WakeWriteReachesOpenPipe | native/iperf3rs_cli.c:156-158 | a handler about to write a wake byte writes to the write end of the current period's pipe, never to a closed or reused number |
| SignalPipe.CloseFindsNoHolder | native/iperf3rs_cli.c:194-201 | when either end is about to be closed no handler holds a descriptor number |
| SignalPipe.NoWakeUpIsLost | native/iperf3rs_cli.c:168-181 | once a handler of the period has finished, a blocked call can wake, a call that starts returns EINTR, and a woken one returns EINTR |
| SignalPipe.EveryLaterCallIsInterrupted | native/iperf3rs_cli.c:168-181 | once a handler of the period has finished, however the period goes on: a call begun afterwards never blocks and never returns a result, and none that was under way returns one either |
| SignalPipe.CallsAreSelects | native/iperf3rs_cli.c:168-181 | in every run of a period that starts fresh, every call is told what a plain select would tell it: it waits unless a signal was stored before, returns the kernel's own count unless a signal was stored by then, and is interrupted exactly otherwise; while no handler stores a signal none is interrupted |
| SignalPipe.OrdinaryCallReturns | native/iperf3rs_cli.c:168-181 | while no signal was stored, a call that enters and checks waits, and when the kernel wakes it returns exactly the count of its own descriptors |
| SignalPipe.SignalIsTheLastMark | native/iperf3rs_cli.c:149-166 | what a period's callers read as the signal is the one last stored since the reset, zero before the first |
| SignalPipe.WakePipeIsNeverCountedExactlyWhenFresh | native/iperf3rs_cli.c:176-180 | no call of a period ever counts the wake pipe among the ready descriptors if and only if, when the period clears the signal number, no wake byte is there or on its way without its signal |
| SignalPipe.StaleStartHappens | native/iperf3rs_cli.c:235-245 | the condition can fail: a concrete schedule of two periods in which a handler delivered in the first stores its signal just before the second clears it |
| SignalPipe.FirstPeriodIsFresh | native/iperf3rs_cli.c:235-237 | until a process first installs its handler nothing is stale, so the reset of its first period always meets the condition |
| Pidfile.PidfileChecked | native/iperf3rs_cli.c:32-101 | with anyone acting between system calls and any call failing: this process removes nothing, and truncates or writes only the file it owns, which it created, or read as a well-formed positive pid and then probed as missing; every file that was there, is not owned and was left alone by the environment keeps its bytes; a success ends with the write of the pid and a close, and that write leaves exactly this pid if and only if the file it found was no longer than the pid, which it was if left alone; when no call fails and, from the judgement on, others change no more than bytes of files, an empty path and a stale pidfile lead to success, and any other file to its error: EEXIST if the probe finds the process, the probe's error if that is not ESRCH, EINVAL for every malformed file; when nothing interferes the files at the end are determined |
| Pidfile.Inspect | native/iperf3rs_cli.c:45-77 | judging an existing file changes nothing and vouches for an inode only on proof that it is stale; when no call fails the verdict is the one its kind, its bytes and the probe call for |
| Pidfile.JudgeStale | native/iperf3rs_cli.c:52-73 | only ESRCH from the probe makes a pid stale; EPERM, success, every malformed content and anything longer than the buffer are errors |
| Pidfile.PidOfExactly | native/iperf3rs_cli.c:54-69 | a file names a pid exactly if it holds its decimal digits, leading zeros or not, with or without a final newline and nothing else, and the pid is positive and fits |
| Pidfile.TakeOwnership | native/iperf3rs_cli.c:83-95 | only the inode judged stale, or one created here, is truncated and written, and nothing is removed; a replaced one is refused; after success the last event is the write, which leaves exactly the pid if and only if it found no more bytes than those |
| Pidfile.Claim | native/iperf3rs_cli.c:79-100 | from the second open to the close: nothing is removed, only the owned file is changed, every other file left alone keeps its bytes; a success ends with the write and the close, and the write leaves exactly the pid if and only if it found no more bytes than those; without a failing call, and with others changing bytes at most, the claim succeeds |
| Pidfile.WritePid | native/iperf3rs_cli.c:90-94 | succeeds exactly when the file is still there and the write takes the whole text; the file then holds exactly the pid if and only if it was no longer than the pid when the write found it |
| Pidfile.MoreThanThePidCanRemain | native/iperf3rs_cli.c:88-94 | a stale pidfile is taken over with success, and somebody wrote into it between the truncation and the write: the file ends with the rest of those bytes behind the pid, for every longer text |
| Pidfile.OwnPidfileReadsBack | native/iperf3rs_cli.c:54-69 | the file this program writes reads back as its own pid, with or without a final newline |
| Pidfile.RemoveOwned | native/iperf3rs_cli.c:202-209 | cleanup unlinks exactly when it saw the owned inode at the path and neither call fails, and then whatever is at the path; a missing path is no error, a replacement seen in time is EBUSY and left alone |
| Pidfile.AnotherFileCanBeRemoved | native/iperf3rs_cli.c:203-208 | a file bound to the path between lstat and unlink is removed in place of the owned one: a concrete environment |
| Calendar.CivilIsWalk | build.rs:322-338 | for every integer day count the closed form is the valid date reached by stepping the calendar day by day from 1970-01-01, and the day number of that date is the count |
| Calendar.CivilIsBijection | build.rs:322-338 | every valid date comes from exactly one day count |
| Calendar.WalkCountsDays | build.rs:322-338 | stepping n days forward or back from the epoch arrives at the valid date with day number n |
| Calendar.OverflowsExactlyNearTheTop | build.rs:322-329 | on `i64` input every intermediate value fits an `i64` exactly when the count is at most the maximum less 719468 |
| Calendar.Iso8601RoundTrip | build.rs:311-320 | a reader of the timestamp gets back the second it was made from |
| Calendar.BuildDateOnU64 | build.rs:299-320 | for every `u64` second nothing overflows and two seconds never share a timestamp |
| Durations.DecimalSecondsArg | src/command.rs:780-792 | the printed text read as a decimal is exactly the duration, with no trailing zero after a point and no trailing point |
| Durations.WholeSecondsIsCeiling | src/command.rs:771-778 | the printed number is the exact ceiling if and only if that fits a `u64`, and the `u64` maximum otherwise |
| Durations.MillisecondsIsCeiling | src/command.rs:794-802 | the printed number is the exact ceiling in milliseconds |
| Args.WordsAreTheArgv | src/args.rs:582-620 | the tokens of an argv, in order, are the argv: nothing lost, repeated or moved |
| Args.TokensAreProper | src/args.rs:589-617 | an own option has its separate value exactly when it takes one, has none inline and a word is left; an upstream option never starts with an own one; verbatim words only come last |
| Args.ForwardedReadsClean | src/args.rs:578-620 | reading the forwarded words again finds the same upstream and verbatim tokens and no own option |
| Args.ArgumentBoundaries | src/args.rs:578-620 | the scan fills the array with exactly the marks of the tokens, visits exactly the token starts, and stops early exactly for help, version or a malformed word |
| Args.ReachedNext | src/args.rs:584-618 | reading one token more moves the scan past exactly its words |
| Args.TakeValue | src/args.rs:389-396 | the word after the option, or nothing at the end of argv |
| Args.ActOnSpans | src/args.rs:109-255 | from the marks alone the acting loop forwards exactly the words that are not own options, sets exactly the options of the tokens in order, or fails with the first fault |
| Args.ExtractAppOptions | src/args.rs:57-255 | the two loops together compute the reading of argv, and the acting loop's visits start with the scan's |
| Args.SplitIsIdempotent | src/args.rs:57-255 | splitting the forwarded argv again forwards it unchanged and sets no option |
| Args.InlineValueIsRest | src/args.rs:385-387 | a word key=value whose key starts with two dashes and has no equals sign splits into exactly that key and that value, whatever the value holds |
| Args.InlineValueExactly | src/args.rs:385-387 | a word has an inline value if and only if it is such a key, an equals sign and a rest |
| Args.InlineAndSeparateAgree | src/args.rs:109-255 | for each of the eleven options that take a value, anywhere in an argv, key=value and key followed by value split alike: same options, same forwarded words, same fault, same help or version |
| Args.ValueIsSet | src/args.rs:109-255 | either spelling alone sets the one option to exactly the value and forwards nothing, or is an invalid value if the option's parser refuses it; the key alone is a missing value |
| Args.FlagIsSet | src/args.rs:159-162 | the flag takes no word after it, and an inline value of its own |
| Args.ForwardedAsItStands | src/args.rs:109-117 | from a double dash, or from a word native getopt does not know, everything is forwarded as it stands, own options included, and the options are those before it |
| Args.OperandIsForwarded | src/args.rs:603-617 | the word after a libiperf option that needs one is its operand, even if it spells an own option |
| Args.StopsThere | src/args.rs:578-620 | the first word that asks for help or the version, or is malformed, decides the result, whatever stands around it |
| GroupingPath.EncodePathByte | src/pushgateway.rs:530-551 | a byte's text is itself exactly for an unreserved byte, has only unreserved characters and percent signs, and decodes to the byte |
| GroupingPath.EncodePathSegment | src/pushgateway.rs:511-522 | the loop produces the texts of the bytes in order |
| GroupingPath.SegmentRoundTrip | src/pushgateway.rs:511-551 | percent-decoding a segment gives back the bytes, for every byte string |
| GroupingPath.Base64RoundTrip | src/pushgateway.rs:342-344 | a strict base64url decoder gives back the bytes, for every byte string |
| GroupingPath.AppendGroupingPair | src/pushgateway.rs:337-349 | a pair is appended as name and percent-encoded value, or as name@base64 and base64url value for a value with a slash or a dot segment |
| GroupingPath.PairInForm | src/pushgateway.rs:337-349 | a value with a slash or that is a dot segment goes in base64, any other as a percent-encoded segment, which for unreserved characters is the value itself |
| GroupingPath.GroupingPath | src/pushgateway.rs:325-335 | the path is the base without trailing slashes, /metrics, and the pairs of the job and the labels in order |
| GroupingPath.PathRoundTrip | src/pushgateway.rs:325-349 | decoding the path after /metrics, splitting it at slashes and decoding the base64 pairs gives exactly the job and the labels, for valid names and any values |
| GroupingPath.PathsAreDistinct | src/pushgateway.rs:325-349 | two groupings share a path if and only if they are the same |
| GroupingPath.RemoveDotsEffect | src/pushgateway.rs:340-342 | dot-segment removal (section 5.2.4 of RFC 3986) leaves a path alone if it has no dot segment and shortens it otherwise |
| GroupingPath.DotRemovalKeepsPath | src/pushgateway.rs:319-349 | normalising a grouping path changes it if and only if the base path has a dot segment |
| GroupingPath.TailIsPathText | src/pushgateway.rs:530-551 | no character of the encoded part can end the path of a URL |
| GroupingPath.ValidatedLabelsRoundTrip | src/pushgateway.rs:380-428 | labels that pass validation read back exactly, under distinct names |
| GroupingPath.ValidateLabel | src/pushgateway.rs:397-414 | accepts exactly valid, unreserved names with non-empty values |
| GroupingPath.ValidateLabels | src/pushgateway.rs:389-428 | accepts exactly valid labels under distinct names, and calls a duplicate only when every label is valid by itself |
| Texts.IsValidName | src/pushgateway.rs:476-489 | the byte loop accepts exactly a letter or underscore followed by letters, digits and underscores |
| Texts.FirstDuplicate | src/pushgateway.rs:416-428 | finds the first label whose name occurred before, if any |
| Exposition.PushEscapedLabelValue | src/prometheus.rs:413-422 | appends the escaped value |
| Exposition.LabelSet | src/prometheus.rs:394-411 | the loop writes every label once, in order, separated by commas; nothing for no labels |
| Exposition.Gauge | src/prometheus.rs:455-464 | appends a TYPE line and a sample line for one family |
| Exposition.GaugeOption | src/prometheus.rs:466-470 | appends nothing for an absent value |
| Exposition.PushGaugeStats | src/prometheus.rs:424-453 | appends mean, least and greatest, or nothing when nothing was observed |
| Exposition.RenderInterval | src/prometheus.rs:165-263 | writes the 15 families of an interval, each from its own field |
| Exposition.RenderWindow | src/prometheus.rs:270-388 | writes the 30 families of a window, each from its own field |
| Exposition.QuotedReads | src/prometheus.rs:413-422 | an independent reader gets back any label value from its escaped, quoted form |
| Exposition.LabelsRead | src/prometheus.rs:394-411 | the reader gets back any label list from the braces |
| Exposition.TableReadsBack | src/prometheus.rs:455-470 | the reader gets back exactly the present families, in order, with value texts and labels |
| Exposition.PresentExactly | src/prometheus.rs:424-470 | a family is there exactly when its value is, with that value, and once |
| Exposition.IntervalReadsBack | src/prometheus.rs:165-263 | for every sample, valid prefix, labels with arbitrary values and formatter: the text reads back as exactly the present families, each once, and no absent one |
| Exposition.WindowReadsBack | src/prometheus.rs:270-388 | the same for every window summary |
| Exposition.GaugesAppearWhenObserved | src/prometheus.rs:424-453 | what is read of a window has the three families of a gauge exactly when the gauge observed something |
| Exposition.IntervalSays | src/prometheus.rs:165-263 | reading the text of any interval finds under each of the 15 names exactly one sample with the text of that very field, or none if it is absent |
| Exposition.WindowSays | src/prometheus.rs:270-388 | reading the text of any window finds under each of the 30 names exactly one sample with the text of that very field: mean, least and greatest of each gauge under their own names if it observed anything, each counter if it has a total |
| Exposition.ValidateMetricPrefix | src/prometheus.rs:82-108 | accepts exactly a letter or underscore followed by letters, digits and underscores |
| Exposition.ValidateLabels | src/prometheus.rs:110-139 | accepts exactly valid names other than __name__ with non-empty values, without duplicates |
| OwnedCommands.OwnedCommand.ObserveExit | tests/integration/process.rs:224-257 | probes without reaping: a pinned owner looks at the keeper and, if that runs and the command is held, at the command; the result and the new state are given for every pair of answers, a lost keeper making the owner Lost and a lost command giving up its handle; anything but a pinned owner is an error without a system call |
| OwnedCommands.OwnedCommand.TryWait | tests/integration/process.rs:214-222 | past the deadline it times out and no system call is made |
| OwnedCommands.OwnedCommand.SignalAndReap | tests/integration/process.rs:280-377 | one group kill while a started keeper is held, then one wait for each handle held; a Lost or Reaped owner makes no system call; success returns exactly the status that the wait for the command gave, if the command was held; an error of a pinned owner has its reason among the answers of this call, and without a fault the owner is reaped |
| OwnedCommands.OwnedCommand.Wait | tests/integration/process.rs:402-444 | returns exactly the status that the wait for the command gave, and only after the command was seen to have exited, its output was read and the group was killed; a timeout comes only at the deadline, not without a look at the command, and not past an exit with nothing left to read; every other error has its reason: not pinned, a broken capture, no command, or a fault or an exited keeper among the answers of this call |
| OwnedCommands.OwnedCommand.Drop | tests/integration/process.rs:448-457 | an owner that is not reaped is cleaned up; one that stays unreaped had a system call fail or a child lost |
| OwnedCommands.Spawn | tests/integration/process.rs:131-210 | succeeds exactly when there is a deadline and both starts succeed, with the guard made before the command is started; a missing deadline starts nothing, and a failed start reaps the keeper unless a call fails |
| OwnedCommands.Life | tests/integration/process.rs:84-90 | every life of an owner, whatever is asked of it and answered to it: a group signal is attempted only once the keeper was started, and no more after a successful one, after a wait or after the keeper is lost; a child is waited for only once it was started and a signal has succeeded, not twice and not after it was lost; a status returned is the command's; and both children are reaped unless an answer is a fault |
| OwnedCommands.Extend | tests/integration/process.rs:280-377 | an event that has its grounds, and that nothing before it rules out, keeps a log safe |
| OwnedCommands.KeeperProbed | tests/integration/process.rs:228-243 | the outcome of looking at the keeper decides between pinned and lost |
| OwnedCommands.GroupSignalled | tests/integration/process.rs:309-317 | a failed kill leaves the owner pinned; a successful one allows the waits |
| OwnedCommands.KeeperWaited | tests/integration/process.rs:341-366 | after the last wait the owner is reaped, or lost if anything failed |
| AtomicWrite.StepKeepsInv | src/metrics_file.rs:207-228 | every step of every call keeps the invariant of the directory |
| AtomicWrite.DestinationIsWhole | src/metrics_file.rs:201-228 | for any number of calls in any interleaving, failing or stopping anywhere: the destination is as it was found or holds all of one completed call with the mode it had, as told by the order of completions, and every other file of the start is untouched |
| AtomicWrite.StepTouchesOnlyItsOwn | src/metrics_file.rs:208-228 | a step changes nothing but the call's own temporary file, which it created, and the destination's name when the call completes |
| AtomicWrite.CallsAreBounded | src/metrics_file.rs:207-228 | whatever the others do, a call takes at most six steps more than its contents have bytes |
| AtomicWrite.NoTempIsLeft | src/metrics_file.rs:217-227 | in every run, a temporary name no other call uses is there exactly if it was there at the start, or its call still owns the file, or that call failed and could not remove it; a completed call leaves none |
| AtomicWrite.OthersRely | src/metrics_file.rs:201-228 | any steps of other calls keep what a call relies on |
| AtomicWrite.Directory.WriteTempThenRename | src/metrics_file.rs:207-228 | among others that do the same: success means the whole contents were put in place with the mode there was, failure means this call never was in place; it succeeds exactly when there is a destination, the temporary name and the file's number are free, and no system call of it fails; a success leaves no temporary name, and a failure after creation leaves one only if the removal, its last call, fails |
| AtomicWrite.Directory.WriteAll | src/metrics_file.rs:220-221 | writes until nothing is left, or fails and leaves the call to clean up |
| AtomicWrite.TempNames.TempPathFor | src/metrics_file.rs:230-241 | each name uses the counter once |
| AtomicWrite.TempNamesAreDistinct | src/metrics_file.rs:230-241 | two calls share a temporary name only if they share process id and counter, and no temporary name is the destination's |
| Shim.ReorderDelta | native/iperf3rs_shim.c:106-114 | non-negative exactly when both readings are; then the rise, or after a fall the whole reading |
| Shim.EpochsAreEpochs | native/iperf3rs_shim.c:112-113 | the epochs of a history make it up, none falls inside and each starts below the end of the one before |
| Shim.DeltasAreEpochs | native/iperf3rs_shim.c:106-114 | the deltas of a non-negative history from zero add up to the last readings of its epochs |
| Shim.ReportedEventsAreEpochs | native/iperf3rs_shim.c:122-164 | over a run, what the intervals report is never negative and adds up to the last readings of all epochs of all sending streams |
| Shim.SenderStands | native/iperf3rs_shim.c:145-163 | a sending stream's reading stands where the sending streams before it end: the two passes pair the same streams |
| Shim.Test.CaptureSenders | native/iperf3rs_shim.c:135-151 | the array holds the readings of the sending streams, in order |
| Shim.Test.StatsCallback | native/iperf3rs_shim.c:122-164 | the snapshot is the sum of the deltas of the sending streams, available exactly if one of them has both readings, for a sending TCP test that counts retransmits and for no other |
| Shim.ReportIntervals | native/iperf3rs_shim.c:122-164 | over the intervals of a test the reported events are the run total of the rows collected, from zero; with no negative reading that is the sum of the last readings of all epochs of all senders |
| Shim.EmitIntervalMetrics | native/iperf3rs_shim.c:173-356 | the loop makes the sample defined by the last intervals of the streams of one direction, or none |
| Shim.SampleIsConsistent | native/iperf3rs_shim.c:298-300 | a sample of an interval with a length has bandwidth = 8 * bytes / duration and non-negative bytes, as the window summaries need it |
| Shim.SampleExactly | native/iperf3rs_shim.c:245-294 | there is a sample exactly if some stream's interval lasted a tenth of the reporting interval or carried bytes |
| Shim.SampleContext | native/iperf3rs_shim.c:211-230 | role, direction, protocol, stream count, first duration, reorder events and the omitted flag are those of the test and its streams |
| Shim.SampleCounts | native/iperf3rs_shim.c:250-280 | bytes, retransmits, packets, lost packets and out-of-order packets are each the sum of their own field over the streams, and there exactly for their protocol and direction |
| Shim.SampleJitter | native/iperf3rs_shim.c:281-302 | the jitter is the mean over all streams, and there exactly for a receiving UDP test |
| Shim.SampleGauges | native/iperf3rs_shim.c:255-323 | each TCP gauge is the mean of the readings of its own field, lies between them in its unit, and is there exactly if a sending stream has one |
| Shim.AddedIsASum | native/iperf3rs_shim.c:250-280 | the sums over streams are sums: of none, of one and of two groups |
| Shim.AcceptedIsAFilter | native/iperf3rs_shim.c:259-272 | the readings that count are those of the streams that reach the least value, each once, in order |
| Shim.MatchingExactly | native/iperf3rs_shim.c:236-243 | a sample is made of exactly the streams of its direction that have an interval |
| Shim.MeanIsBetween | native/iperf3rs_shim.c:260-323 | a gauge is there exactly when some stream has a reading, and lies between the readings, in its unit |

## Left out

- HTTP, TLS, URL parsing and retries: a push is an event that eventually returns; `url` normalises paths as section 5.2.4 of RFC 3986 does, and its own escaping is not part of this model.
- Native getopt: a function from a word to its kind. A NUL in a word makes that word malformed; the code also rejects a word whose successor has one.
- Environment defaults, option values' own parsers, enabling-option rules and error texts of `src/args.rs`: the parsers are one validator, the rest adds only single-branch facts.
- Rounding, overflow and text of `f64`: numbers are reals or `NonFinite`, a value's text comes from a formatter that writes no space or line break.
- JSON lines: a write appends one record or fails; the encoding is not part of this model.
- Wrap-around of the temporary-file counter and of sums of C `long`: they count without bound. The handler counter wraps, but no more handlers are alive than it can count.
- File identity is the inode number alone; device numbers are not part of this model. Two processes that both judge one pidfile stale are not kept apart by the code, and nothing here says they are.
- Daemonising, SIGPIPE handling, and the allocation, lock-freedom and `fcntl` failures of `iperf3rs_cli_prepare`, which leave it as a failing `pipe` or a failing later step does.
- `wait_for_stdout` and the contents of captured output in the process owner: a capture is pending, finished or broken.
- A file name that is not text, or a path without a file name, in `temp_path_for`.
- The three threads of the pipeline are steps on one state rather than methods on shared objects, because their interleaving is the point; loops of one thread are also modelled as methods in Windows and Channels.
- Signal handlers and callers are steps on one state for the same reason; memory is sequentially consistent.
- AtomicWrite.DestinationIsWhole: does not model writers outside this program that create, remove or write files in the directory.
- Samples.BandwidthIsOrdered: is about samples with positive duration and bandwidth = 8 * bytes / duration, as the native callback makes them; for others the replacement mean need not lie between the extremes.
- Windows.ForwardWindowEvents: the consumer accepts a given number of events and is gone after that; blocking is not part of this model, the channel being unbounded.
- Exposition.IntervalReadsBack: says nothing of the number a value's text denotes, only that the text comes back.
