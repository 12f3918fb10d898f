/** The three benchmark commands of `kbench/__main__.py`: `pod_latency`,
    `pod_throughput` and `deployment_scaling`. The helpers they call
    (`create_pod`, `wait_for_startup`, `delete_pod`, `wait_for_cleanup`,
    `print_stats`, `print_timings` and the deployment helpers) live in
    kbench/pod.py and kbench/deployment.py, which are not part of this
    model: each is a method of `Session` that only logs its call, and whose
    contract says which record fields it may write. */
module Scenarios {
  import opened Wrappers
  import opened Clock
  import opened Cluster
  import opened PodLogs
  import opened NodeSelector
  import opened ScenarioTrace
  import BenchPod

  /** What a command sees of the outside world: the client handle, the
      clock, and the calls made so far. */
  class Session {
    const api: Api
    const clock: MonotonicClock
    /** Every helper call and clock reading, in program order. */
    var trace: seq<Op>

    constructor (api: Api, clock: MonotonicClock)
      ensures this.api == api && this.clock == clock && trace == []
    {
      this.api := api;
      this.clock := clock;
      trace := [];
    }

    /** `create_pod(v1, image, node_selector)`: a pod under a name not
        handed out before. */
    method CreatePod(image: string, selector: map<string, string>) returns (name: string)
      requires api.Valid()
      modifies this, api
      ensures api.Valid()
      ensures name !in old(api.created)
      ensures api.created == old(api.created) + [name] && api.deleted == old(api.deleted)
      ensures trace == old(trace) + [Op.CreatePod(name, image, selector)]
    {
      name := api.CreatePod();
      trace := trace + [Op.CreatePod(name, image, selector)];
    }

    /** `time.monotonic()` */
    method Monotonic() returns (t: int)
      modifies this, clock
      ensures old(clock.now) <= t == clock.now
      ensures trace == old(trace) + [ReadClock(t)]
    {
      t := clock.Monotonic();
      trace := trace + [ReadClock(t)];
    }

    /** `wait_for_startup(v1, pods)`: may stamp `started_at` on the
        records it is given, and touches nothing else. */
    method WaitForStartup(pods: map<string, PodLog>)
      modifies this, pods.Values`startedAt
      ensures trace == old(trace) + [Op.WaitForStartup(pods.Keys)]
    {
      trace := trace + [Op.WaitForStartup(pods.Keys)];
    }

    /** `delete_pod(v1, name)` */
    method DeletePod(name: string)
      modifies this, api
      ensures api.created == old(api.created) && api.deleted == old(api.deleted) + [name]
      ensures trace == old(trace) + [Op.DeletePod(name)]
    {
      api.DeletePod(name);
      trace := trace + [Op.DeletePod(name)];
    }

    /** `wait_for_cleanup(v1, pods)`: may stamp `exited_at` on the
        records it is given, and touches nothing else. */
    method WaitForCleanup(pods: map<string, PodLog>)
      modifies this, pods.Values`exitedAt
      ensures trace == old(trace) + [Op.WaitForCleanup(pods.Keys)]
    {
      trace := trace + [Op.WaitForCleanup(pods.Keys)];
    }

    /** `print_stats(pods)` */
    method PrintStats(pods: PodTable)
      modifies this
      ensures trace == old(trace) + [Op.PrintStats(pods.keys)]
    {
      trace := trace + [Op.PrintStats(pods.keys)];
    }

    /** `print_timings(pods)` */
    method PrintTimings(pods: PodTable)
      modifies this
      ensures trace == old(trace) + [Op.PrintTimings(pods.keys)]
    {
      trace := trace + [Op.PrintTimings(pods.keys)];
    }

    /** Entry into a `with timer(label):` block. */
    method TimerStart(timer: string)
      modifies this
      ensures trace == old(trace) + [Op.TimerStart(timer)]
    {
      trace := trace + [Op.TimerStart(timer)];
    }

    /** Exit from a `with timer(label):` block. */
    method TimerStop(timer: string)
      modifies this
      ensures trace == old(trace) + [Op.TimerStop(timer)]
    {
      trace := trace + [Op.TimerStop(timer)];
    }

    /** `create_deployment(v1, image, replicas)`; `serverName` is the name
        the orchestrator gives the deployment. */
    method CreateDeployment(image: string, replicas: int, serverName: string) returns (name: string)
      modifies this
      ensures name == serverName
      ensures trace == old(trace) + [Op.CreateDeployment(image, replicas, name)]
    {
      name := serverName;
      trace := trace + [Op.CreateDeployment(image, replicas, name)];
    }

    /** `wait_for_deployment_rescale(v1, name, replicas)` */
    method WaitForRescale(name: string, replicas: int)
      modifies this
      ensures trace == old(trace) + [Op.WaitForRescale(name, replicas)]
    {
      trace := trace + [Op.WaitForRescale(name, replicas)];
    }

    /** `rescale_deployment(v1, name, replicas)` */
    method Rescale(name: string, replicas: int)
      modifies this
      ensures trace == old(trace) + [Op.Rescale(name, replicas)]
    {
      trace := trace + [Op.Rescale(name, replicas)];
    }

    /** `delete_deployment(v1, name)` */
    method DeleteDeployment(name: string)
      modifies this
      ensures trace == old(trace) + [Op.DeleteDeployment(name)]
    {
      trace := trace + [Op.DeleteDeployment(name)];
    }
  }

  /** `log` is the record `PodLog(name=name, created_at=created)`. */
  ghost predicate Filed(log: PodLog, name: string, created: int)
    reads log`name, log`createdAt
  {
    log.name == name && log.createdAt == Some(created)
  }

  /** `log.deleted_at` holds the reading `deleted`. */
  ghost predicate Deleted(log: PodLog, deleted: int)
    reads log`deletedAt
  {
    log.deletedAt == Some(deleted)
  }

  /** Key `keys[j]` is filed with a record created at reading `created[j]`. */
  ghost predicate AllFiled(logs: map<string, PodLog>, keys: seq<string>, created: seq<int>)
    reads logs.Values`name, logs.Values`createdAt
  {
    && |created| == |keys|
    && forall j :: 0 <= j < |keys| ==> keys[j] in logs && Filed(logs[keys[j]], keys[j], created[j])
  }

  /** The record of key `keys[j]` was stamped deleted at reading `deleted[j]`. */
  ghost predicate AllDeleted(logs: map<string, PodLog>, keys: seq<string>, deleted: seq<int>)
    reads logs.Values`deletedAt
  {
    && |deleted| == |keys|
    && forall j :: 0 <= j < |keys| ==> keys[j] in logs && Deleted(logs[keys[j]], deleted[j])
  }

  lemma AllFiledAppend(logs: map<string, PodLog>, keys: seq<string>, created: seq<int>, name: string, log: PodLog, c: int)
    requires AllFiled(logs, keys, created) && name !in keys && Filed(log, name, c)
    ensures AllFiled(logs[name := log], keys + [name], created + [c])
  {
    var logs', keys' := logs[name := log], keys + [name];
    forall j | 0 <= j < |keys'|
      ensures keys'[j] in logs' && Filed(logs'[keys'[j]], keys'[j], (created + [c])[j])
    {
      if j < |keys| {
        assert keys'[j] == keys[j] != name;
      }
    }
  }

  lemma AllDeletedAppend(logs: map<string, PodLog>, keys: seq<string>, deleted: seq<int>, name: string, log: PodLog, d: int)
    requires AllDeleted(logs, keys, deleted) && name !in keys && Deleted(log, d)
    ensures AllDeleted(logs[name := log], keys + [name], deleted + [d])
  {
    var logs', keys' := logs[name := log], keys + [name];
    forall j | 0 <= j < |keys'|
      ensures keys'[j] in logs' && Deleted(logs'[keys'[j]], (deleted + [d])[j])
    {
      if j < |keys| {
        assert keys'[j] == keys[j] != name;
      }
    }
  }

  /** The readings `rs` were taken in order, none before `lo` and none
      after `hi`. */
  ghost predicate ReadBetween(rs: seq<int>, lo: int, hi: int)
  {
    if rs == [] then lo <= hi
    else ReadBetween(rs[..|rs| - 1], lo, rs[|rs| - 1]) && rs[|rs| - 1] <= hi
  }

  /** What `ReadBetween` means: the readings never decrease and all lie
      between `lo` and `hi`. */
  lemma {:induction false} ReadInOrder(rs: seq<int>, lo: int, hi: int)
    requires ReadBetween(rs, lo, hi)
    ensures lo <= hi && BenchPod.Nondecreasing(rs) && BenchPod.Within(rs, lo, hi)
  {
    if rs != [] {
      var front, last := rs[..|rs| - 1], rs[|rs| - 1];
      ReadInOrder(front, lo, last);
      assert forall i :: 0 <= i < |front| ==> rs[i] == front[i];
    }
  }

  /** One more reading `t`, taken once the clock stood at `now`. */
  lemma ReadingAppend(rs: seq<int>, lo: int, now: int, t: int)
    requires ReadBetween(rs, lo, now) && now <= t
    ensures ReadBetween(rs + [t], lo, t)
  {
    assert (rs + [t])[..|rs|] == rs;
    if rs != [] {
      assert ReadBetween(rs[..|rs| - 1], lo, rs[|rs| - 1]);
    }
  }

  /** Two phases read one after the other: all of `a` by `mid`, all of `b`
      from `mid` on. */
  lemma {:induction false} PhasesInOrder(a: seq<int>, b: seq<int>, lo: int, mid: int, hi: int)
    requires ReadBetween(a, lo, mid) && ReadBetween(b, mid, hi)
    ensures ReadBetween(a + b, lo, hi)
  {
    if b == [] {
      assert a + b == a;
      ReadingWiden(a, lo, mid, hi);
    } else {
      var front, last := b[..|b| - 1], b[|b| - 1];
      PhasesInOrder(a, front, lo, mid, last);
      assert (a + b)[..|a + b| - 1] == a + front;
    }
  }

  /** Readings taken by `hi` were taken by any later `hi'`. */
  lemma ReadingWiden(rs: seq<int>, lo: int, hi: int, hi': int)
    requires ReadBetween(rs, lo, hi) && hi <= hi'
    ensures ReadBetween(rs, lo, hi')
  {
  }

  /** Sequential rounds, the last one over by the time the clock reads
      `now`: round j's creation reading is no later than its deletion
      reading, which is no later than round j+1's creation. */
  ghost predicate InRounds(created: seq<int>, deleted: seq<int>, now: int)
  {
    && |created| == |deleted|
    && if created == [] then true
       else
         var n := |created| - 1;
         && InRounds(created[..n], deleted[..n], created[n])
         && created[n] <= deleted[n] <= now
  }

  /** One more round, read between `now` and `now'`, after the earlier ones. */
  lemma RoundsAppend(created: seq<int>, deleted: seq<int>, now: int, c: int, d: int, now': int)
    requires InRounds(created, deleted, now) && now <= c <= d <= now'
    ensures InRounds(created + [c], deleted + [d], now')
  {
    assert (created + [c])[..|created|] == created;
    assert (deleted + [d])[..|deleted|] == deleted;
    if created != [] {
      var n := |created| - 1;
      assert InRounds(created[..n], deleted[..n], created[n]);
    }
  }

  /** What `InRounds` means, pairwise: each pod was created no later than
      it was deleted, and deleted no later than the next pod was created. */
  lemma {:induction false} RoundsInOrder(created: seq<int>, deleted: seq<int>, now: int)
    requires InRounds(created, deleted, now)
    ensures forall j :: 0 <= j < |created| ==> created[j] <= deleted[j] <= now
    ensures forall j :: 0 < j < |created| ==> deleted[j - 1] <= created[j]
  {
    if created != [] {
      var n := |created| - 1;
      RoundsInOrder(created[..n], deleted[..n], created[n]);
    }
  }

  /** Lines 89-92 and 134-137: `print_stats(pods)`, then
      `print_timings(pods)` when asked for. */
  method Report(s: Session, pods: PodTable, timings: bool)
    modifies s
    ensures s.trace == old(s.trace) + Closing(pods.keys, timings)
  {
    s.PrintStats(pods);
    if timings {
      s.PrintTimings(pods);
    }
  }

  /** The closing report of both pod commands, which leaves every record
      as it was. */
  method Conclude(s: Session, pods: PodTable, timings: bool, ghost created: seq<int>, ghost deleted: seq<int>)
    requires AllFiled(pods.logs, pods.keys, created) && AllDeleted(pods.logs, pods.keys, deleted)
    modifies s
    ensures s.trace == old(s.trace) + Closing(pods.keys, timings)
    ensures AllFiled(pods.logs, pods.keys, created) && AllDeleted(pods.logs, pods.keys, deleted)
  {
    Report(s, pods, timings);
  }

  // ---------------------------------------------------------------------
  // pod_latency

  /** Lines 75-80 of `pod_latency`: create a pod, file its record, and
      wait for that one pod to run. */
  method StartPod(s: Session, image: string, selector: map<string, string>)
    returns (name: string, created: int, log: PodLog)
    requires s.api.Valid()
    modifies s, s.api, s.clock
    ensures s.api.Valid()
    ensures name !in old(s.api.created)
    ensures s.api.created == old(s.api.created) + [name] && s.api.deleted == old(s.api.deleted)
    ensures s.trace == old(s.trace) + [Op.CreatePod(name, image, selector), ReadClock(created), Op.WaitForStartup({name})]
    ensures fresh(log) && Filed(log, name, created)
    ensures log.deletedAt == None && log.exitedAt == None
    ensures old(s.clock.now) <= created <= s.clock.now
  {
    name := s.CreatePod(image, selector);
    created := s.Monotonic();
    log := new PodLog(name, created);
    var single := map[name := log];
    assert single.Keys == {name};
    s.WaitForStartup(single);
  }

  /** Lines 82-85 of `pod_latency`: delete the pod, stamp `deleted_at`,
      and wait for that one pod to go away. */
  method StopPod(s: Session, name: string, log: PodLog) returns (deleted: int)
    modifies s, s.api, s.clock, log`deletedAt, log`exitedAt
    ensures s.api.created == old(s.api.created) && s.api.deleted == old(s.api.deleted) + [name]
    ensures s.trace == old(s.trace) + [Op.DeletePod(name), ReadClock(deleted), Op.WaitForCleanup({name})]
    ensures Deleted(log, deleted)
    ensures old(s.clock.now) <= deleted <= s.clock.now
  {
    s.DeletePod(name);
    deleted := s.Monotonic();
    log.deletedAt := Some(deleted);
    var single := map[name := log];
    assert single.Keys == {name};
    s.WaitForCleanup(single);
  }

  /** Appending one name after a prefix and some keys. */
  lemma AppendOne(prefix: seq<string>, keys: seq<string>, name: string)
    ensures prefix + keys + [name] == prefix + (keys + [name])
  {
  }

  /** Lines 75-85 of `pod_latency`: one pod measured from creation to
      clean-up, its record extending the records `logs` of the earlier
      passes (stamped with `created0` and `deleted0`). */
  method MeasurePod(s: Session, image: string, selector: map<string, string>,
                    ghost logs: map<string, PodLog>, ghost keys: seq<string>,
                    ghost created0: seq<int>, ghost deleted0: seq<int>)
    returns (name: string, created: int, deleted: int, log: PodLog)
    requires s.api.Valid()
    requires forall j :: 0 <= j < |keys| ==> keys[j] in s.api.created
    requires AllFiled(logs, keys, created0) && AllDeleted(logs, keys, deleted0)
    modifies s, s.api, s.clock
    ensures s.api.Valid()
    ensures name !in keys && name !in old(s.api.created) && fresh(log)
    ensures s.api.created == old(s.api.created) + [name] && s.api.deleted == old(s.api.deleted) + [name]
    ensures s.trace == old(s.trace) + [Op.CreatePod(name, image, selector), ReadClock(created), Op.WaitForStartup({name})]
      + [Op.DeletePod(name), ReadClock(deleted), Op.WaitForCleanup({name})]
    ensures AllFiled(logs[name := log], keys + [name], created0 + [created])
    ensures AllDeleted(logs[name := log], keys + [name], deleted0 + [deleted])
    ensures old(s.clock.now) <= created <= deleted <= s.clock.now
  {
    name, created, log := StartPod(s, image, selector);
    deleted := StopPod(s, name, log);
    AllFiledAppend(logs, keys, created0, name, log, created);
    AllDeletedAppend(logs, keys, deleted0, name, log, deleted);
  }

  /** Line 87 of `pod_latency`: `pods[name] = log` for a new name. */
  method FileRecord(pods: PodTable, name: string, log: PodLog, ghost created: seq<int>, ghost deleted: seq<int>)
    requires pods.Valid() && name !in pods.logs
    requires forall k :: k in pods.logs ==> pods.logs[k] != log
    requires AllFiled(pods.logs[name := log], pods.keys + [name], created)
    requires AllDeleted(pods.logs[name := log], pods.keys + [name], deleted)
    modifies pods
    ensures pods.Valid()
    ensures pods.keys == old(pods.keys) + [name] && pods.logs == old(pods.logs)[name := log]
    ensures AllFiled(pods.logs, pods.keys, created) && AllDeleted(pods.logs, pods.keys, deleted)
  {
    pods.Put(name, log);
  }

  /** One pass of the `pod_latency` loop (lines 75-87): the new pod's
      record is handed to both waits in a single-entry dict, stamped with
      its deletion time in between, and filed in `pods` only at the end.
      Stated against what the loop has done so far (`apiCreated`,
      `apiDeleted`, `trace0` before the loop; `created0`, `deleted0` the
      readings of the earlier passes): one more round. */
  method LatencyIteration(s: Session, image: string, selector: map<string, string>, pods: PodTable,
                          ghost apiCreated: seq<string>, ghost apiDeleted: seq<string>, ghost trace0: seq<Op>,
                          ghost created0: seq<int>, ghost deleted0: seq<int>, ghost made: seq<PodLog>)
    returns (name: string, created: int, deleted: int, log: PodLog)
    requires s.api.Valid() && pods.Valid()
    requires |created0| == |pods.keys| == |deleted0|
    requires s.api.created == apiCreated + pods.keys && s.api.deleted == apiDeleted + pods.keys
    requires s.trace == trace0 + LatencyRounds(pods.keys, image, selector, created0, deleted0)
    requires AllFiled(pods.logs, pods.keys, created0) && AllDeleted(pods.logs, pods.keys, deleted0)
    requires InRounds(created0, deleted0, s.clock.now)
    requires forall k :: k in pods.logs ==> pods.logs[k] in made
    modifies s, s.api, s.clock, pods
    ensures s.api.Valid() && pods.Valid()
    ensures name !in old(pods.logs) && pods.keys == old(pods.keys) + [name]
    ensures fresh(log) && pods.logs == old(pods.logs)[name := log]
    ensures forall k :: k in pods.logs ==> pods.logs[k] in made + [log]
    ensures s.api.created == apiCreated + pods.keys && s.api.deleted == apiDeleted + pods.keys
    ensures s.trace == trace0 + LatencyRounds(pods.keys, image, selector, created0 + [created], deleted0 + [deleted])
    ensures AllFiled(pods.logs, pods.keys, created0 + [created])
    ensures AllDeleted(pods.logs, pods.keys, deleted0 + [deleted])
    ensures old(s.clock.now) <= created <= deleted <= s.clock.now
    ensures InRounds(created0 + [created], deleted0 + [deleted], s.clock.now)
  {
    ghost var before := s.trace;
    ghost var now := s.clock.now;
    name, created, deleted, log := MeasurePod(s, image, selector, pods.logs, pods.keys, created0, deleted0);
    LatencyRoundsAppend(trace0, pods.keys, image, selector, created0, deleted0, name, created, deleted, before, s.trace);
    AppendOne(apiCreated, pods.keys, name);
    AppendOne(apiDeleted, pods.keys, name);
    FileRecord(pods, name, log, created0 + [created], deleted0 + [deleted]);
    RoundsAppend(created0, deleted0, now, created, deleted, s.clock.now);
  }

  /** Records made since the enclosing method began stay new once one
      more such record joins them. */
  twostate lemma FreshAppend(new made: seq<PodLog>, new log: PodLog)
    requires forall j :: 0 <= j < |made| ==> fresh(made[j])
    requires fresh(log)
    ensures forall j :: 0 <= j < |made + [log]| ==> fresh((made + [log])[j])
  {
  }

  /** The loop of `pod_latency` (lines 74-87): `num_pods` rounds, one
      after another, each filing its pod's record once it is gone. */
  method MeasureEach(s: Session, numPods: int, image: string, selector: map<string, string>)
    returns (pods: PodTable, ghost created: seq<int>, ghost deleted: seq<int>)
    requires s.api.Valid()
    modifies s, s.api, s.clock
    ensures fresh(pods) && pods.Valid() && s.api.Valid()
    ensures |pods.keys| == BenchPod.Count(numPods) == |created| == |deleted|
    ensures s.api.created == old(s.api.created) + pods.keys
    ensures s.api.deleted == old(s.api.deleted) + pods.keys
    ensures s.trace == old(s.trace) + LatencyRounds(pods.keys, image, selector, created, deleted)
    ensures forall k :: k in pods.logs ==> fresh(pods.logs[k])
    ensures AllFiled(pods.logs, pods.keys, created) && AllDeleted(pods.logs, pods.keys, deleted)
    ensures InRounds(created, deleted, s.clock.now)
  {
    created, deleted := [], [];
    pods := new PodTable();
    ghost var made: seq<PodLog> := [];
    var i := 0;
    while i < numPods
      invariant i <= BenchPod.Count(numPods) && |pods.keys| == i == |created| == |deleted|
      invariant fresh(pods) && pods.Valid() && s.api.Valid()
      invariant s.api.created == old(s.api.created) + pods.keys
      invariant s.api.deleted == old(s.api.deleted) + pods.keys
      invariant s.trace == old(s.trace) + LatencyRounds(pods.keys, image, selector, created, deleted)
      invariant forall j :: 0 <= j < |made| ==> fresh(made[j])
      invariant forall k :: k in pods.logs ==> pods.logs[k] in made
      invariant AllFiled(pods.logs, pods.keys, created) && AllDeleted(pods.logs, pods.keys, deleted)
      invariant InRounds(created, deleted, s.clock.now)
    {
      var _, c, d, log := LatencyIteration(s, image, selector, pods, old(s.api.created), old(s.api.deleted), old(s.trace),
                                           created, deleted, made);
      FreshAppend(made, log);
      made := made + [log];
      created, deleted := created + [c], deleted + [d];
      i := i + 1;
    }
  }

  /** `pod_latency` (lines 63-92): parse the node selector, then measure
      the pods strictly one after another, then report. A malformed
      selector stops the command before any call is made. */
  method PodLatency(s: Session, numPods: int, image: string, timings: bool, nodeSelector: seq<string>)
    returns (r: Result<PodTable, SelectorError>, ghost created: seq<int>, ghost deleted: seq<int>)
    requires s.api.Valid()
    modifies s, s.api, s.clock
    ensures s.api.Valid()
    ensures r.Failure? <==> ParseNodeSelector(nodeSelector).Failure?
    ensures r.Failure? ==>
      && r.error == ParseNodeSelector(nodeSelector).error
      && s.trace == old(s.trace) && s.api.created == old(s.api.created) && s.api.deleted == old(s.api.deleted)
    ensures r.Success? ==>
      var pods, selector := r.value, ParseNodeSelector(nodeSelector).value;
      && fresh(pods) && pods.Valid()
      && |pods.keys| == BenchPod.Count(numPods) == |created| == |deleted|
      && s.api.created == old(s.api.created) + pods.keys
      && s.api.deleted == old(s.api.deleted) + pods.keys
      && s.trace == old(s.trace) + LatencyRounds(pods.keys, image, selector, created, deleted) + Closing(pods.keys, timings)
      && (forall k :: k in pods.logs ==> fresh(pods.logs[k]))
      && AllFiled(pods.logs, pods.keys, created)
      && AllDeleted(pods.logs, pods.keys, deleted)
      && InRounds(created, deleted, s.clock.now)
  {
    created, deleted := [], [];
    var parsed := ParseNodeSelector(nodeSelector);
    if parsed.Failure? {
      return Failure(parsed.error), created, deleted;
    }
    var pods;
    pods, created, deleted := MeasureEach(s, numPods, image, parsed.value);
    Conclude(s, pods, timings, created, deleted);
    r := Success(pods);
  }

  // ---------------------------------------------------------------------
  // pod_throughput

  /** One pass of the creation loop of `pod_throughput` (lines 117-119),
      stated against what the loop has done so far (`apiCreated`, `trace0`
      before the loop, `created0` the earlier readings): one more key, one
      more creation call and reading in the trace. */
  method FilePod(s: Session, image: string, selector: map<string, string>, pods: PodTable,
                 ghost apiCreated: seq<string>, ghost trace0: seq<Op>, ghost created0: seq<int>)
    returns (name: string, created: int)
    requires s.api.Valid() && pods.Valid()
    requires |created0| == |pods.keys|
    requires s.api.created == apiCreated + pods.keys
    requires s.trace == trace0 + Creations(pods.keys, image, selector, created0)
    requires AllFiled(pods.logs, pods.keys, created0)
    modifies s, s.api, s.clock, pods
    ensures s.api.Valid() && pods.Valid()
    ensures name !in old(pods.logs) && pods.keys == old(pods.keys) + [name]
    ensures name in pods.logs && fresh(pods.logs[name]) && pods.logs == old(pods.logs)[name := pods.logs[name]]
    ensures s.api.created == apiCreated + pods.keys && s.api.deleted == old(s.api.deleted)
    ensures s.trace == trace0 + Creations(pods.keys, image, selector, created0 + [created])
    ensures AllFiled(pods.logs, pods.keys, created0 + [created])
    ensures old(s.clock.now) <= created == s.clock.now
  {
    ghost var keys0, logs0, before := pods.keys, pods.logs, s.trace;
    name := s.CreatePod(image, selector);
    created := s.Monotonic();
    CreationsAppend(trace0, keys0, image, selector, created0, name, created, before, s.trace);
    var log := new PodLog(name, created);
    pods.Put(name, log);
    assert name !in keys0;
    AppendOne(apiCreated, keys0, name);
    AllFiledAppend(logs0, keys0, created0, name, log, created);
  }

  /** The creation loop of `pod_throughput` (lines 116-119), filling the
      empty dict: the keys are the created names, in creation order. */
  method FilePods(s: Session, numPods: int, image: string, selector: map<string, string>, pods: PodTable)
    returns (ghost created: seq<int>)
    requires s.api.Valid() && pods.Valid() && pods.keys == []
    modifies s, s.api, s.clock, pods
    ensures s.api.Valid() && pods.Valid()
    ensures |pods.keys| == BenchPod.Count(numPods) == |created|
    ensures s.api.created == old(s.api.created) + pods.keys && s.api.deleted == old(s.api.deleted)
    ensures s.trace == old(s.trace) + Creations(pods.keys, image, selector, created)
    ensures forall k :: k in pods.logs ==> fresh(pods.logs[k])
    ensures AllFiled(pods.logs, pods.keys, created)
    ensures ReadBetween(created, old(s.clock.now), s.clock.now)
  {
    created := [];
    var i := 0;
    while i < numPods
      invariant i <= BenchPod.Count(numPods) && |pods.keys| == i == |created|
      invariant pods.Valid() && s.api.Valid()
      invariant s.api.created == old(s.api.created) + pods.keys && s.api.deleted == old(s.api.deleted)
      invariant s.trace == old(s.trace) + Creations(pods.keys, image, selector, created)
      invariant forall k :: k in pods.logs ==> fresh(pods.logs[k])
      invariant AllFiled(pods.logs, pods.keys, created)
      invariant old(s.clock.now) <= s.clock.now
      invariant ReadBetween(created, old(s.clock.now), s.clock.now)
    {
      ghost var now := s.clock.now;
      var _, c := FilePod(s, image, selector, pods, old(s.api.created), old(s.trace), created);
      ReadingAppend(created, old(s.clock.now), now, c);
      created := created + [c];
      i := i + 1;
    }
  }

  /** One pass of the deletion loop of `pod_throughput` (lines 127-128):
      `name` is deleted and its record `log` stamped, extending the stamps
      `deleted0` the earlier passes gave the records of `keys` (and the
      calls `apiDeleted`, `trace0` made before the loop). */
  method DeleteOne(s: Session, name: string, log: PodLog,
                   ghost logs: map<string, PodLog>, ghost keys: seq<string>,
                   ghost apiDeleted: seq<string>, ghost trace0: seq<Op>, ghost deleted0: seq<int>,
                   ghost allKeys: seq<string>, ghost created: seq<int>)
    returns (deleted: int)
    requires name in logs && logs[name] == log && name !in keys
    requires AllFiled(logs, allKeys, created)
    requires forall j :: 0 <= j < |keys| ==> keys[j] in logs && logs[keys[j]] != log
    requires AllDeleted(logs, keys, deleted0)
    requires s.api.deleted == apiDeleted + keys
    requires s.trace == trace0 + Deletions(keys, deleted0)
    modifies s, s.api, s.clock, log`deletedAt
    ensures s.api.created == old(s.api.created) && s.api.deleted == apiDeleted + (keys + [name])
    ensures s.trace == trace0 + Deletions(keys + [name], deleted0 + [deleted])
    ensures AllDeleted(logs, keys + [name], deleted0 + [deleted])
    ensures AllFiled(logs, allKeys, created)
    ensures old(s.clock.now) <= deleted == s.clock.now
  {
    ghost var before := s.trace;
    s.DeletePod(name);
    deleted := s.Monotonic();
    log.deletedAt := Some(deleted);
    DeletionsAppend(trace0, keys, deleted0, name, deleted, before, s.trace);
    AppendOne(apiDeleted, keys, name);
    assert logs[name := log] == logs;
    AllDeletedAppend(logs, keys, deleted0, name, log, deleted);
  }

  /** The deletion loop of `pod_throughput` (lines 126-128): every key, in
      insertion order, is deleted and its record stamped. */
  method DeleteAll(s: Session, pods: PodTable, ghost created: seq<int>) returns (ghost deleted: seq<int>)
    requires pods.Valid() && AllFiled(pods.logs, pods.keys, created)
    modifies s, s.api, s.clock, pods.logs.Values`deletedAt
    ensures |deleted| == |pods.keys|
    ensures s.api.created == old(s.api.created) && s.api.deleted == old(s.api.deleted) + pods.keys
    ensures s.trace == old(s.trace) + Deletions(pods.keys, deleted)
    ensures AllFiled(pods.logs, pods.keys, created) && AllDeleted(pods.logs, pods.keys, deleted)
    ensures ReadBetween(deleted, old(s.clock.now), s.clock.now)
  {
    deleted := [];
    var i := 0;
    while i < |pods.keys|
      invariant i <= |pods.keys|
      invariant AllFiled(pods.logs, pods.keys, created) && AllDeleted(pods.logs, pods.keys[..i], deleted)
      invariant s.api.created == old(s.api.created) && s.api.deleted == old(s.api.deleted) + pods.keys[..i]
      invariant s.trace == old(s.trace) + Deletions(pods.keys[..i], deleted)
      invariant old(s.clock.now) <= s.clock.now
      invariant ReadBetween(deleted, old(s.clock.now), s.clock.now)
    {
      BenchPod.OtherRecords(pods, i);
      ghost var now := s.clock.now;
      assert pods.keys[..i + 1] == pods.keys[..i] + [pods.keys[i]];
      var d := DeleteOne(s, pods.keys[i], pods.logs[pods.keys[i]],
                         pods.logs, pods.keys[..i], old(s.api.deleted), old(s.trace), deleted,
                         pods.keys, created);
      ReadingAppend(deleted, old(s.clock.now), now, d);
      deleted := deleted + [d];
      i := i + 1;
    }
    assert pods.keys[..i] == pods.keys;
  }

  /** Lines 115-123 of `pod_throughput`: the timed creation of every pod,
      then one wait for them all. */
  method StartAll(s: Session, numPods: int, image: string, selector: map<string, string>, pods: PodTable)
    returns (ghost created: seq<int>)
    requires s.api.Valid() && pods.Valid() && pods.keys == []
    modifies s, s.api, s.clock, pods
    ensures s.api.Valid() && pods.Valid()
    ensures |pods.keys| == BenchPod.Count(numPods) == |created|
    ensures s.api.created == old(s.api.created) + pods.keys && s.api.deleted == old(s.api.deleted)
    ensures s.trace == old(s.trace) + StartupPhase(pods.keys, image, selector, created)
    ensures forall k :: k in pods.logs ==> fresh(pods.logs[k])
    ensures AllFiled(pods.logs, pods.keys, created)
    ensures ReadBetween(created, old(s.clock.now), s.clock.now)
  {
    ghost var t0 := s.trace;
    s.TimerStart(STARTUP_TIMER);
    created := FilePods(s, numPods, image, selector, pods);
    s.WaitForStartup(pods.logs);
    s.TimerStop(STARTUP_TIMER);
    assert KeySet(pods.keys) == pods.logs.Keys;
    TimedAppend(t0, STARTUP_TIMER, Creations(pods.keys, image, selector, created),
                Op.WaitForStartup(KeySet(pods.keys)), s.trace);
  }

  /** Lines 130-132 of `pod_throughput`: the one wait for every pod, which
      only stamps `exited_at`, and the end of the clean-up timer. */
  method FinishCleanup(s: Session, pods: PodTable, ghost created: seq<int>, ghost deleted: seq<int>)
    requires pods.Valid()
    requires AllFiled(pods.logs, pods.keys, created) && AllDeleted(pods.logs, pods.keys, deleted)
    modifies s, pods.logs.Values`exitedAt
    ensures s.trace == old(s.trace) + [Op.WaitForCleanup(KeySet(pods.keys))] + [TimerStop(CLEANUP_TIMER)]
    ensures AllFiled(pods.logs, pods.keys, created) && AllDeleted(pods.logs, pods.keys, deleted)
  {
    assert KeySet(pods.keys) == pods.logs.Keys;
    s.WaitForCleanup(pods.logs);
    s.TimerStop(CLEANUP_TIMER);
  }

  /** Lines 125-132 of `pod_throughput`: the timed deletion of every pod,
      then one wait for them all. */
  method StopAll(s: Session, pods: PodTable, ghost created: seq<int>) returns (ghost deleted: seq<int>)
    requires pods.Valid() && AllFiled(pods.logs, pods.keys, created)
    modifies s, s.api, s.clock, pods.logs.Values`deletedAt, pods.logs.Values`exitedAt
    ensures |deleted| == |pods.keys|
    ensures s.api.created == old(s.api.created) && s.api.deleted == old(s.api.deleted) + pods.keys
    ensures s.trace == old(s.trace) + CleanupPhase(pods.keys, deleted)
    ensures AllFiled(pods.logs, pods.keys, created) && AllDeleted(pods.logs, pods.keys, deleted)
    ensures ReadBetween(deleted, old(s.clock.now), s.clock.now)
  {
    ghost var t0 := s.trace;
    s.TimerStart(CLEANUP_TIMER);
    deleted := DeleteAll(s, pods, created);
    FinishCleanup(s, pods, created, deleted);
    TimedAppend(t0, CLEANUP_TIMER, Deletions(pods.keys, deleted), Op.WaitForCleanup(KeySet(pods.keys)), s.trace);
  }

  /** The two timed phases, one after the other, are the throughput trace. */
  lemma ThroughputAppend(t0: seq<Op>, keys: seq<string>, image: string, selector: map<string, string>,
                         created: seq<int>, deleted: seq<int>)
    requires |created| == |keys| == |deleted|
    ensures t0 + StartupPhase(keys, image, selector, created) + CleanupPhase(keys, deleted)
      == t0 + ThroughputTrace(keys, image, selector, created, deleted)
  {
  }

  /** Lines 113-137 of `pod_throughput`, once the selector is parsed: the
      timed start-up phase, the timed clean-up phase, then the report. */
  method TimePhases(s: Session, numPods: int, image: string, selector: map<string, string>, timings: bool)
    returns (pods: PodTable, ghost created: seq<int>, ghost deleted: seq<int>)
    requires s.api.Valid()
    modifies s, s.api, s.clock
    ensures s.api.Valid()
    ensures fresh(pods) && pods.Valid()
    ensures |pods.keys| == BenchPod.Count(numPods) == |created| == |deleted|
    ensures s.api.created == old(s.api.created) + pods.keys
    ensures s.api.deleted == old(s.api.deleted) + pods.keys
    ensures s.trace == old(s.trace) + ThroughputTrace(pods.keys, image, selector, created, deleted) + Closing(pods.keys, timings)
    ensures forall k :: k in pods.logs ==> fresh(pods.logs[k])
    ensures AllFiled(pods.logs, pods.keys, created)
    ensures AllDeleted(pods.logs, pods.keys, deleted)
    ensures ReadBetween(created + deleted, old(s.clock.now), s.clock.now)
  {
    pods := new PodTable();
    ghost var t0, c0 := s.trace, s.clock.now;
    created := StartAll(s, numPods, image, selector, pods);
    ghost var c1 := s.clock.now;
    deleted := StopAll(s, pods, created);
    PhasesInOrder(created, deleted, c0, c1, s.clock.now);
    ThroughputAppend(t0, pods.keys, image, selector, created, deleted);
    Conclude(s, pods, timings, created, deleted);
  }

  /** `pod_throughput` (lines 104-137): parse the node selector; time the
      creation of every pod and one wait for them all; time the deletion of
      every pod and one wait for them all; then report. A malformed
      selector stops the command before any call is made. */
  method PodThroughput(s: Session, numPods: int, image: string, timings: bool, nodeSelector: seq<string>)
    returns (r: Result<PodTable, SelectorError>, ghost created: seq<int>, ghost deleted: seq<int>)
    requires s.api.Valid()
    modifies s, s.api, s.clock
    ensures s.api.Valid()
    ensures r.Failure? <==> ParseNodeSelector(nodeSelector).Failure?
    ensures r.Failure? ==>
      && r.error == ParseNodeSelector(nodeSelector).error
      && s.trace == old(s.trace) && s.api.created == old(s.api.created) && s.api.deleted == old(s.api.deleted)
    ensures r.Success? ==>
      var pods, selector := r.value, ParseNodeSelector(nodeSelector).value;
      && fresh(pods) && pods.Valid()
      && |pods.keys| == BenchPod.Count(numPods) == |created| == |deleted|
      && s.api.created == old(s.api.created) + pods.keys
      && s.api.deleted == old(s.api.deleted) + pods.keys
      && s.trace == old(s.trace) + ThroughputTrace(pods.keys, image, selector, created, deleted) + Closing(pods.keys, timings)
      && (forall k :: k in pods.logs ==> fresh(pods.logs[k]))
      && AllFiled(pods.logs, pods.keys, created)
      && AllDeleted(pods.logs, pods.keys, deleted)
      && ReadBetween(created + deleted, old(s.clock.now), s.clock.now)
  {
    created, deleted := [], [];
    var parsed := ParseNodeSelector(nodeSelector);
    if parsed.Failure? {
      return Failure(parsed.error), created, deleted;
    }
    var pods;
    pods, created, deleted := TimePhases(s, numPods, image, parsed.value, timings);
    r := Success(pods);
  }

  // ---------------------------------------------------------------------
  // deployment_scaling

  /** Lines 151-155: the timed creation at the initial size. */
  method CreationPhase(s: Session, image: string, numInit: int, serverName: string) returns (name: string)
    modifies s
    ensures name == serverName
    ensures s.trace == old(s.trace)
      + Timed(CREATION_TIMER, [Op.CreateDeployment(image, numInit, name), Op.WaitForRescale(name, numInit)])
  {
    s.TimerStart(CREATION_TIMER);
    name := s.CreateDeployment(image, numInit, serverName);
    s.WaitForRescale(name, numInit);
    s.TimerStop(CREATION_TIMER);
  }

  /** Lines 157-167: a timed rescale and the wait for its replica count. */
  method ScalePhase(s: Session, timer: string, name: string, replicas: int)
    modifies s
    ensures s.trace == old(s.trace) + Timed(timer, [Op.Rescale(name, replicas), Op.WaitForRescale(name, replicas)])
  {
    s.TimerStart(timer);
    s.Rescale(name, replicas);
    s.WaitForRescale(name, replicas);
    s.TimerStop(timer);
  }

  /** `deployment_scaling` (lines 147-169); `serverName` is the name the
      orchestrator gives the new deployment. */
  method DeploymentScaling(s: Session, image: string, numInit: int, numTarget: int, serverName: string)
    returns (name: string)
    modifies s
    ensures name == serverName
    ensures s.trace == old(s.trace) + DeploymentTrace(image, numInit, numTarget, name)
  {
    name := CreationPhase(s, image, numInit, serverName);
    ScalePhase(s, SCALE_OUT_TIMER, name, numTarget);
    ScalePhase(s, SCALE_IN_TIMER, name, numInit);
    s.DeleteDeployment(name);
  }
}
