# kbench in Dafny

A model of the core of kbench, a small benchmark that times how fast a
Kubernetes cluster starts and removes pods and rescales deployments, with
proofs about that model.

- **The watch-stream correlation loops** `wait_for_startup` and
  `wait_for_cleanup` (kbench/bench_pod.py, and its identical copy
  bench_pod.py).
  - The loop starts with every key of `pods` pending and walks the watch
    stream in order.
  - For each event whose pod is still pending and which passes the
    milestone's test, it stamps that pod's record from the monotonic clock.
    The test is phase `Running` for start-up and event type `DELETED` for
    clean-up.
  - It then drops the name from the pending set and returns on the event
    that empties the set.
  - The stream is a finite `seq<Event>`. A wait that runs out of events
    reports `done == false`, standing for a real watch that blocks for ever.
  - `Correlation.Pending` and `Correlation.Stamped` give the specification
    as left folds over stream prefixes. `BenchPod.WaitForStartup` and
    `BenchPod.WaitForCleanup` are the imperative loops, proved against those
    folds.
- **The record keeping around the loops.**
  - `PodLog` is a class whose milestone fields are written in place.
  - The `pods` dict is a `PodTable` class: insertion-ordered keys and a map
    from key to record.
  - `startup_pods` and `cleanup_pods` are methods, and `main` is
    `BenchPod.Run`. With a clock that never goes backwards, `Run` ends with
    every record created ≤ started ≤ deleted ≤ exited. It also summarises
    both duration lists (min, mean, max), and no duration is negative.
- **kbench/__main__.py.**
  - The `--node-selector key=value` parser `dict([kv.split("=") ...])` is
    modelled on values, with `split`, `join` and `dict`.
  - The three commands are methods of a `Session` that records every
    helper call, clock reading and `timer` block in a trace:
    - `pod_latency` is `Scenarios.PodLatency`.
    - `pod_throughput` is `Scenarios.PodThroughput`.
    - `deployment_scaling` is `Scenarios.DeploymentScaling`.
  - Each method is proved to produce the reference trace of module
    `ScenarioTrace`. Lemmas there state the call order the commands promise.

`bench_pod.py` and `kbench/bench_pod.py` are the same file line for line.
They are modelled once, and the table below cites whichever of the two it
names at the same line numbers.

## Model

| member | source | states |
|---|---|---|
| `Clock.MonotonicClock.Monotonic` | kbench/bench_pod.py:47 | a clock reading is never below the previous one |
| `Cluster.Api.CreatePod` | kbench/bench_pod.py:27-35 | the orchestrator answers a `generate_name` creation with a name it has never handed out before, and records it after the earlier ones |
| `Cluster.Api.DeletePod` | kbench/bench_pod.py:57-59 | a deletion request is recorded after the earlier ones; creations are untouched |
| `Correlation.Step` | kbench/bench_pod.py:46-51 | one loop pass removes at most the event's own name, and removes it exactly when it was pending and the event passes the test |
| `Correlation.Pending` | kbench/bench_pod.py:39-51 | the pending set after a stream prefix only ever holds keys of `pods` |
| `Correlation.Stamped` | kbench/bench_pod.py:46-47 | there are no more stamps than events, and only keys of `pods` are stamped |
| `Correlation.StampedPartition` | kbench/bench_pod.py:46-51 | every initially pending name is either stamped exactly once or still pending, never both; the pending set only ever loses names of `pods` |
| `Correlation.Extend` | kbench/bench_pod.py:42-51 | one more event changes the pending set and the stamp order only when it matches, and then by exactly that name |
| `Correlation.Ignored` | kbench/bench_pod.py:39-47 | an event for a name that is not pending, or one that fails the milestone's test, changes nothing |
| `Correlation.PendingShrinks` | bench_pod.py:51 | reading more events never brings a name back into the pending set |
| `Correlation.FirstEmpty` | bench_pod.py:53-54 | if the set is non-empty before event n-1, every shorter prefix also left it non-empty, so the wait returns on the first event that empties it |
| `Correlation.Completeness` | kbench/bench_pod.py:46-51 | a pod with a passing event in the stream is no longer pending after the stream |
| `Correlation.AllSatisfied` | kbench/bench_pod.py:42-54 | if every pod has a passing event, the pending set ends empty and every pod has been stamped |
| `Correlation.StampedHasCause` | bench_pod.py:46-47 | every stamp comes from an event that names that pod, passes the test, and arrives while the pod is still pending |
| `Correlation.NothingPending` | kbench/bench_pod.py:39 | with no pods nothing is ever stamped and the pending set never empties after a removal, so the loop cannot return |
| `Correlation.StartupIgnoresKind` | kbench/bench_pod.py:46 | start-up never looks at the event type: streams that agree on names and phases stamp the same pods in the same order |
| `Correlation.CleanupIgnoresPhase` | kbench/bench_pod.py:71 | clean-up never looks at the phase: streams that agree on names and event types stamp the same pods in the same order |
| `PodLogs.PodLog.constructor` | kbench/bench_pod.py:17-24 | a new record carries the given name and creation reading, and no other milestone |
| `PodLogs.PodTable.constructor` | kbench/bench_pod.py:139 | `pods = {}` is an empty, well-formed dict |
| `PodLogs.PodTable.Values` | kbench/bench_pod.py:144 | `pods.values()` lists the records in key insertion order |
| `PodLogs.PodTable.Put` | kbench/bench_pod.py:97 | `pods[k] = v` keeps keys distinct; a new key goes last, an existing key keeps its place and gets the new record |
| `Stats.Min` | kbench/bench_pod.py:146 | `min` of a non-empty list is an element that no element is below |
| `Stats.Max` | bench_pod.py:146 | `max` of a non-empty list is an element that no element exceeds |
| `Stats.Mean` | kbench/bench_pod.py:146 | the mean times the number of terms is the sum of the terms |
| `Stats.MeanBetween` | kbench/bench_pod.py:146 | the mean lies between any lower and any upper bound of the terms |
| `Stats.Summarize` | kbench/bench_pod.py:144-150 | an empty list raises; otherwise min ≤ mean ≤ max, min and max are elements, and every element lies between them |
| `Stats.SingleDuration` | bench_pod.py:144-146 | a single duration is its own min, mean and max |
| `BenchPod.StampStarted` | bench_pod.py:47 | stamping `started_at` writes only that record's field, with one new clock reading no earlier than the previous stamps |
| `BenchPod.ObserveStartup` | bench_pod.py:42-54 | one loop pass on a Running/pending event takes one clock reading, stamps that pod alone with it and drops it; any other event takes no reading and changes no record; `done` is set on the event that empties the set |
| `BenchPod.WaitForStartup` | kbench/bench_pod.py:38-54 | returns on exactly the event that first empties the pending set, and otherwise consumes the whole stream; it stamped exactly the pods the specification fold names, in that order, with non-decreasing readings, and took exactly one clock reading per stamp; pods still pending are untouched |
| `BenchPod.StampExited` | bench_pod.py:72 | stamping `exited_at` writes only that record's field, with one new clock reading no earlier than the previous stamps |
| `BenchPod.ObserveCleanup` | bench_pod.py:66-79 | one loop pass on a DELETED/pending event takes one clock reading, stamps that pod alone with it and drops it; any other event takes no reading and changes no record |
| `BenchPod.WaitForCleanup` | kbench/bench_pod.py:62-79 | the same loop keyed on DELETED: exits on the emptying event, stamps `exited_at` exactly as the fold says, one clock reading per stamp, leaves pending pods untouched |
| `BenchPod.WaitReturns` | kbench/bench_pod.py:51-54 | a wait returns exactly when the whole stream would empty a non-empty pending set |
| `BenchPod.AllStamped` | kbench/bench_pod.py:53-54 | when a wait has returned, every pod in its dict carries its milestone, read within the wait |
| `BenchPod.AddPod` | kbench/bench_pod.py:95-97 | one creation files a fresh record under the new name, with only `name` and `created_at` set |
| `BenchPod.CreatePods` | kbench/bench_pod.py:94-97 | `range(num_pods)` creations: the keys are exactly the created names in creation order, each with a fresh record holding only its creation reading; the clock is read once per pod, in key order |
| `BenchPod.AwaitStartup` | kbench/bench_pod.py:99-107 | the clock is read for `start`, once per stamp, and for `end` only if the wait returns; the stamps fall after `start`; the logged elapsed time exists exactly when the wait returns, and is non-negative |
| `BenchPod.StartupPods` | kbench/bench_pod.py:93-107 | the clock readings are, in order, one per creation, `start`, one per stamp and `end` if the wait returns; every creation reading precedes `start`, which precedes every `started_at`; deletion and exit stay unset; the wait's outcome is as `WaitForStartup` states |
| `BenchPod.DeleteOne` | bench_pod.py:112-114 | one deletion request, then `deleted_at` on that record alone |
| `BenchPod.DeletePods` | kbench/bench_pod.py:111-114 | every key is deleted in insertion order; each record gets its own `deleted_at` reading, one clock reading per key, non-decreasing |
| `BenchPod.AwaitCleanup` | kbench/bench_pod.py:116-124 | the clock is read for `start`, once per stamp, and for `end` only if the wait returns; the stamps fall after `start`; the elapsed time exists exactly when the wait returns |
| `BenchPod.CleanupPods` | kbench/bench_pod.py:110-124 | the clock readings are, in order, one per deletion, `start`, one per stamp and `end` if the wait returns; every `deleted_at` precedes `start`, which precedes every `exited_at`; `created_at` and `started_at` are untouched |
| `BenchPod.StartupDone` | bench_pod.py:141 | a returned start-up wait leaves every record created before and started after the phase's `start` |
| `BenchPod.CleanupDone` | bench_pod.py:142 | a returned clean-up wait leaves every record deleted before and exited after the phase's `start` |
| `BenchPod.Lifecycle` | kbench/bench_pod.py:141-142 | start-up then clean-up leaves every record with created ≤ started ≤ deleted ≤ exited |
| `BenchPod.Count` | kbench/bench_pod.py:94 | `range(num_pods)` runs `num_pods` times, and not at all for a negative count |
| `BenchPod.StartupDurations` | kbench/bench_pod.py:144 | one start-up duration per record, in `pods.values()` order, each its `started_at - created_at` |
| `BenchPod.CleanupDurations` | kbench/bench_pod.py:148 | one clean-up duration per record, in `pods.values()` order, each its `exited_at - deleted_at` |
| `BenchPod.DurationsNonNegative` | kbench/bench_pod.py:144-148 | for records in lifecycle order, no start-up or clean-up duration is negative |
| `BenchPod.Report` | bench_pod.py:144-150 | both lists summarise without error, and neither minimum is negative |
| `BenchPod.Run` | kbench/bench_pod.py:127-150 | `main` stalls in start-up exactly when the stream cannot empty a non-empty set of pods; it stalls in clean-up exactly when start-up completes but clean-up cannot; otherwise every record is complete and the report is the summary of both duration lists |
| `NodeSelector.Split` | kbench/__main__.py:65 | `kv.split("=")` gives at least one piece, none containing `=` |
| `NodeSelector.SplitJoin` | kbench/__main__.py:65 | joining the pieces with `=` gives the string back |
| `NodeSelector.JoinSplit` | kbench/__main__.py:65 | pieces without `=`, joined and split again, come back unchanged |
| `NodeSelector.SplitLength` | kbench/__main__.py:65 | there is one more piece than there are `=` |
| `NodeSelector.Dict` | kbench/__main__.py:65 | `dict()` of a list of lists succeeds exactly when every item has two parts; otherwise it reports the first bad item and its length |
| `NodeSelector.Pairs` | kbench/__main__.py:65 | the list comprehension splits every string, in order |
| `NodeSelector.ParseNodeSelector` | kbench/__main__.py:65 | the selector parses exactly when every string splits into two pieces; otherwise the first string that does not is reported with its piece count |
| `NodeSelector.Occurrences` | kbench/__main__.py:65 | a count of `=` is at most the string's length, and zero exactly when there is none |
| `NodeSelector.DictKeys` | kbench/__main__.py:65 | the dict's keys are exactly the items' first parts |
| `NodeSelector.DictValues` | kbench/__main__.py:65 | an item whose key no later item repeats sets that key's value |
| `NodeSelector.ParseAccepts` | kbench/__main__.py:106 | the option is accepted exactly when every string holds exactly one `=`; otherwise the first offending string is reported |
| `NodeSelector.ParseSingle` | kbench/__main__.py:65 | `key=value` without further `=` becomes the single entry key → value |
| `NodeSelector.ParseLaterWins` | kbench/__main__.py:65 | the selector maps each key to the value of its last occurrence and holds no other key |
| `ScenarioTrace.LatencyLayout` | kbench/__main__.py:74-85 | the latency trace is one six-call round per pod, in order |
| `ScenarioTrace.LatencySingleWaits` | kbench/__main__.py:75-85 | each round creates, reads the clock, waits for its own single pod to start, deletes, reads the clock and waits for that same pod to go away |
| `ScenarioTrace.CreationsLayout` | kbench/__main__.py:116-119 | pod i's creation call is followed at once by its `created_at` reading |
| `ScenarioTrace.DeletionsLayout` | kbench/__main__.py:126-128 | key i's deletion call is followed at once by its `deleted_at` reading |
| `ScenarioTrace.CreationsKinds` | kbench/__main__.py:116-119 | the creation loop makes only creation calls and clock readings |
| `ScenarioTrace.DeletionsKinds` | kbench/__main__.py:126-128 | the deletion loop makes only deletion calls and clock readings |
| `ScenarioTrace.ThroughputBarriers` | kbench/__main__.py:115-132 | there is exactly one start-up wait and one clean-up wait, each over every pod; every creation precedes the first, every deletion lies between them, and nothing is printed |
| `ScenarioTrace.ThroughputCreationStamps` | kbench/__main__.py:117-119 | in the throughput trace, each creation is followed by the reading filed as that pod's `created_at`, in creation order |
| `ScenarioTrace.ThroughputDeletionStamps` | kbench/__main__.py:127-128 | in the throughput trace, each deletion is followed by the reading stamped as that pod's `deleted_at`, in key order |
| `ScenarioTrace.LatencyQuiet` | kbench/__main__.py:74-87 | nothing is printed during the latency rounds |
| `ScenarioTrace.ReportedOnce` | kbench/__main__.py:89-92 | after a quiet body the statistics are printed exactly once, last, for all keys; timings appear exactly when the flag is set |
| `ScenarioTrace.DeploymentOrder` | kbench/__main__.py:151-169 | exactly seven calls: create(init), wait(init), rescale(target), wait(target), rescale(init), wait(init), delete; the timed phases are creation, scale-out and scale-in, in that order |
| `Scenarios.Session.CreatePod` | kbench/__main__.py:75 | `create_pod` returns a name never handed out before and is logged |
| `Scenarios.Session.Monotonic` | kbench/__main__.py:76 | a clock reading, never below the previous one, is logged |
| `Scenarios.Session.WaitForStartup` | kbench/__main__.py:80 | the wait is logged with the keys of the dict it receives; it may write only `started_at` |
| `Scenarios.Session.DeletePod` | kbench/__main__.py:82 | the deletion request is recorded and logged |
| `Scenarios.Session.WaitForCleanup` | kbench/__main__.py:85 | the wait is logged with the keys of the dict it receives; it may write only `exited_at` |
| `Scenarios.Session.PrintStats` | kbench/__main__.py:89 | the statistics call is logged with the dict's keys |
| `Scenarios.Session.PrintTimings` | kbench/__main__.py:92 | the timings call is logged with the dict's keys |
| `Scenarios.Session.TimerStart` | kbench/__main__.py:17-20 | entering a `timer` block is logged with its label |
| `Scenarios.Session.TimerStop` | kbench/__main__.py:21-23 | leaving a `timer` block is logged with its label |
| `Scenarios.Session.CreateDeployment` | kbench/__main__.py:152 | the creation is logged with image, replica count and the returned name |
| `Scenarios.Session.WaitForRescale` | kbench/__main__.py:153 | the wait is logged with its name and replica count |
| `Scenarios.Session.Rescale` | kbench/__main__.py:158 | the rescale is logged with its name and replica count |
| `Scenarios.Session.DeleteDeployment` | kbench/__main__.py:169 | the deletion is logged |
| `Scenarios.Report` | kbench/__main__.py:89-92 | `print_stats`, then `print_timings` exactly when asked |
| `Scenarios.Conclude` | kbench/__main__.py:134-137 | the closing report writes no record field |
| `Scenarios.StartPod` | kbench/__main__.py:75-80 | create, make a record holding only name and creation reading (no deletion or exit stamp), and wait for that one pod alone |
| `Scenarios.StopPod` | kbench/__main__.py:82-85 | delete, stamp that record's `deleted_at` with a later reading, and wait for that one pod alone |
| `Scenarios.MeasurePod` | kbench/__main__.py:76-85 | one pod's round, with created ≤ deleted; the earlier records keep their stamps |
| `Scenarios.FileRecord` | kbench/__main__.py:87 | the record enters `pods` as the last key, under a name not yet in it, and every record keeps the readings it was filed with |
| `Scenarios.LatencyIteration` | kbench/__main__.py:74-87 | one loop pass adds one key, one round to the trace, and one record stamped with that round's readings, both taken after the earlier rounds' |
| `Scenarios.MeasureEach` | kbench/__main__.py:74-87 | `num_pods` rounds: one new key and one fresh record per round, the trace is the rounds in order, and each pod is created no later than it is deleted, and deleted no later than the next pod is created |
| `Scenarios.PodLatency` | kbench/__main__.py:63-92 | a malformed selector fails before any call; otherwise the trace is one round per pod, then the report; `pods` has one fresh record per round, filed with that round's creation and deletion readings; each record is created no later than it is deleted, and before the next record is created |
| `Scenarios.FilePod` | kbench/__main__.py:117-119 | one creation files a fresh record under the new name as the last key |
| `Scenarios.FilePods` | kbench/__main__.py:116-119 | the keys are the created names in creation order, and each record holds its own creation reading |
| `Scenarios.DeleteOne` | kbench/__main__.py:127-128 | one deletion, then that key's `deleted_at`; the other records are untouched |
| `Scenarios.DeleteAll` | kbench/__main__.py:126-128 | every key is deleted in insertion order and stamped right after its own deletion call |
| `Scenarios.ReadInOrder` | kbench/__main__.py:116-128 | readings taken one after another from a clock that never goes back are non-decreasing and lie between the clock before and after |
| `Scenarios.PhasesInOrder` | kbench/__main__.py:115-132 | the readings of one phase, then those of a later phase, are in order together |
| `Scenarios.RoundsInOrder` | kbench/__main__.py:74-87 | in the latency rounds each pod is created no later than it is deleted, and deleted no later than the next pod is created |
| `Scenarios.StartAll` | kbench/__main__.py:115-123 | the timed start-up phase: every creation, then one wait over every key |
| `Scenarios.FinishCleanup` | kbench/__main__.py:130-132 | the clean-up wait over every key closes the timed phase and writes only `exited_at` |
| `Scenarios.StopAll` | kbench/__main__.py:125-132 | the timed clean-up phase: every deletion, then one wait over every key |
| `Scenarios.TimePhases` | kbench/__main__.py:113-137 | the two timed phases then the report: every creation reading, then every deletion reading, all non-decreasing within the call |
| `Scenarios.PodThroughput` | kbench/__main__.py:104-137 | a malformed selector fails before any call; otherwise the trace is the start-up phase, the clean-up phase and the report, with each record filed and stamped from its own readings; all creation readings, then all deletion readings, never decrease |
| `Scenarios.CreationPhase` | kbench/__main__.py:151-155 | the timed creation at the initial size and its wait |
| `Scenarios.ScalePhase` | kbench/__main__.py:157-167 | a timed rescale and the wait for that replica count |
| `Scenarios.DeploymentScaling` | kbench/__main__.py:147-169 | the trace is exactly the three timed phases, then the deletion |

## Left out

- The Kubernetes client is not modelled.
  - The creation, deletion and watch calls, `load_kube_config`, the connection check and `get_api_versions` are network I/O.
  - Creation is an oracle that hands out fresh `bench-<n>` names.
  - The watch is a finite event sequence given as a parameter.
  - A wait that runs out of events reports that it would block. Blocking for ever, and a watch that ends or fails, are not modelled.
- The pod specification built in `create_pod` (container, image, metadata) is not modelled: it only builds library objects from constants.
  - `BenchPod` therefore drops the image argument.
  - `Scenarios` keeps the image and the node selector in the logged call.
- `time.monotonic` is an abstract counter. Its contract only says that readings never go backwards; the counter's one-tick step is not relied on.
- The readings taken inside the `timer` context manager and its log line are not modelled. Only the block's entry and exit are in the trace.
- Float subtraction, `statistics.mean` rounding and the `{:.3f}` formatting are not modelled. Durations are whole ticks and the mean is an exact `real`.
- Logging (loguru), `argparse` and `click` option handling are not modelled.
- The `logger.trace` lines inside the waits (kbench/bench_pod.py:48-49 and 73-74) evaluate `started_at - created_at` and `exited_at - deleted_at` whatever the log level. A record whose `created_at` (or `deleted_at`) is `None` would raise TypeError there. The waits therefore require every record in their dict to carry that reading, and the error path is not modelled.
- kbench/pod.py and kbench/deployment.py are not part of this model.
  - Their helpers are `Session` methods that only log their call.
  - Their `PodLog` is taken to have the same fields as the one in bench_pod.py.
  - Their waits are taken to write only `started_at` and `exited_at` respectively.
  - The deployment's name is a parameter (`serverName`) standing for what `create_deployment` returns.
- BenchPod.StartupPods: modelled for the empty dict that `main` passes. The source would also accept a non-empty dict.
- BenchPod.CreatePods: modelled for the empty dict that `main` passes. The source would also accept a non-empty dict.
- Distinct pod names always get distinct `PodLog` objects (`DistinctLogs`). The waits rely on this as a caller guarantee. Python could alias one record under two keys, but the benchmark never does.
- Scenarios.Session.WaitForStartup: the contract states only which field the helper may write, not which pods it stamps, because kbench/pod.py is not part of this model.
- Scenarios.Session.WaitForCleanup: the contract states only which field the helper may write, not which pods it stamps, because kbench/pod.py is not part of this model.
