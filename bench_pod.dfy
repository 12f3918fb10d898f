/** The pod start-up/clean-up benchmark: the two watch loops that stamp
    `started_at` and `exited_at`, the phases that create and delete the
    pods around them, and `main`, which reports the durations. */
module BenchPod {
  import opened Wrappers
  import opened Correlation
  import opened PodLogs
  import opened Clock
  import opened Cluster
  import opened Stats

  predicate Nondecreasing(s: seq<int>)
  {
    forall i, j :: 0 <= i < j < |s| ==> s[i] <= s[j]
  }

  /** Every reading in `s` lies between `lo` and `hi`. */
  predicate Within(s: seq<int>, lo: int, hi: int)
  {
    forall i :: 0 <= i < |s| ==> lo <= s[i] <= hi
  }

  /** The record field a wait stamps: `started_at` or `exited_at`. */
  function Milestone(log: PodLog, m: Milestone): Option<int>
    reads log
  {
    match m
    case Startup => log.startedAt
    case Cleanup => log.exitedAt
  }

  /** `names[j]` had milestone `m` stamped with `stamps[j]`; the readings
      never decrease and all lie between `lo` and `hi`. */
  ghost predicate StampedAs(m: Milestone, pods: map<string, PodLog>, names: seq<string>, stamps: seq<int>, lo: int, hi: int)
    reads pods.Values
  {
    && |stamps| == |names|
    && (forall j :: 0 <= j < |names| ==> names[j] in pods && Milestone(pods[names[j]], m) == Some(stamps[j]))
    && Nondecreasing(stamps) && Within(stamps, lo, hi)
  }

  /** Per name: every stamped pod carries a reading between `lo` and `hi`. */
  lemma StampedWithin(m: Milestone, pods: map<string, PodLog>, names: seq<string>, stamps: seq<int>, lo: int, hi: int)
    requires StampedAs(m, pods, names, stamps, lo, hi)
    ensures forall k :: k in names ==>
      k in pods && Milestone(pods[k], m).Some? && lo <= Milestone(pods[k], m).value <= hi
  {
    forall k | k in names
      ensures k in pods && Milestone(pods[k], m).Some? && lo <= Milestone(pods[k], m).value <= hi
    {
      var j :| 0 <= j < |names| && names[j] == k;
    }
  }

  /** Stamps read between `lo` and `hi` were read before any later `hi'`. */
  lemma StampedWiden(m: Milestone, pods: map<string, PodLog>, names: seq<string>, stamps: seq<int>, lo: int, hi: int, hi': int)
    requires StampedAs(m, pods, names, stamps, lo, hi) && hi <= hi'
    ensures StampedAs(m, pods, names, stamps, lo, hi')
  {
  }

  // ---------------------------------------------------------------------
  // wait_for_startup

  /** `pods[name].started_at = time.monotonic()` for a pending `name`. */
  method StampStarted(pods: map<string, PodLog>, name: string, log: PodLog, clock: MonotonicClock,
                      ghost names: seq<string>, ghost stamps: seq<int>, ghost lo: int)
    returns (t: int)
    requires DistinctLogs(pods) && name in pods && pods[name] == log && name !in names
    requires lo <= clock.now && StampedAs(Startup, pods, names, stamps, lo, clock.now)
    modifies clock, log`startedAt
    ensures old(clock.now) <= t == clock.now
    ensures clock.readings == old(clock.readings) + [t]
    ensures log.startedAt == Some(t)
    ensures StampedAs(Startup, pods, names + [name], stamps + [t], lo, clock.now)
  {
    t := clock.Monotonic();
    log.startedAt := Some(t);
  }

  /** The state of a wait for milestone `m` after `consumed` events of
      `stream`: `pending` and `names` are the specification's pending set
      and stamping order for that prefix, `done` says the wait has
      returned, which happens exactly on the event that empties a
      non-empty pending set, and the stamps written so far lie between
      `lo` and `hi`. */
  ghost predicate Waiting(m: Milestone, pods: map<string, PodLog>, stream: seq<Event>, consumed: nat,
                          pending: set<string>, names: seq<string>, stamps: seq<int>, done: bool, lo: int, hi: int)
    reads pods.Values
  {
    && consumed <= |stream|
    && pending == Pending(m, pods.Keys, stream[..consumed]) && pending <= pods.Keys
    && names == Stamped(m, pods.Keys, stream[..consumed])
    && done == (pods.Keys != {} && pending == {})
    && (!done ==> pods.Keys != {} ==> pending != {})
    && (done ==> consumed > 0 && Pending(m, pods.Keys, stream[..consumed - 1]) != {})
    && StampedAs(m, pods, names, stamps, lo, hi)
  }

  /** One pass of the loop body of `wait_for_startup` on the event
      `stream[consumed]`: stamp and drop the event's pod when it is pending
      and Running, otherwise change nothing. */
  method ObserveStartup(pods: map<string, PodLog>, stream: seq<Event>, consumed: nat, clock: MonotonicClock, pending: set<string>,
                        ghost names: seq<string>, ghost stamps: seq<int>, ghost lo: int)
    returns (done: bool, pending': set<string>, ghost names': seq<string>, ghost stamps': seq<int>)
    requires DistinctLogs(pods) && consumed < |stream| && lo <= clock.now
    requires Waiting(Startup, pods, stream, consumed, pending, names, stamps, false, lo, clock.now)
    requires forall k :: k in pods ==> pods[k].createdAt.Some?
    modifies clock, pods.Values`startedAt
    ensures old(clock.now) <= clock.now
    ensures Waiting(Startup, pods, stream, consumed + 1, pending', names', stamps', done, lo, clock.now)
    ensures pending' <= pending
    ensures forall k :: k in pending' ==> pods[k].startedAt == old(pods[k].startedAt)
    ensures Matches(Startup, pending, stream[consumed]) ==>
      && names' == names + [stream[consumed].name] && stamps' == stamps + [clock.now]
      && clock.readings == old(clock.readings) + [clock.now]
      && forall k :: k in pods && k != stream[consumed].name ==> pods[k].startedAt == old(pods[k].startedAt)
    ensures !Matches(Startup, pending, stream[consumed]) ==>
      && names' == names && stamps' == stamps
      && clock.now == old(clock.now) && clock.readings == old(clock.readings)
      && forall k :: k in pods ==> pods[k].startedAt == old(pods[k].startedAt)
  {
    var event := stream[consumed];
    assert stream[..consumed + 1] == stream[..consumed] + [event];
    Extend(Startup, pods.Keys, stream[..consumed], event);
    pending', names', stamps' := pending, names, stamps;
    var matched := event.name in pending && event.phase == Some(RUNNING);
    if matched {
      StampedPartition(Startup, pods.Keys, stream[..consumed]);
      var t := StampStarted(pods, event.name, pods[event.name], clock, names, stamps, lo);
      pending' := pending - {event.name};
      names' := names + [event.name];
      stamps' := stamps + [t];
    }
    done := matched && pending' == {};
  }

  /** `wait_for_startup(v1, pods)` on a finite `stream`. The loop starts
      with the keys of `pods` pending, stamps `started_at` for a pending
      pod whose phase is Running (the event type is not looked at), drops
      it from the pending set, and returns (`done`) on the event that
      empties the set, having consumed `consumed` events. When the stream
      runs out first, `done` is false: the real watch would block for
      ever. `stamps` are the readings written, in stamping order. */
  method WaitForStartup(pods: map<string, PodLog>, stream: seq<Event>, clock: MonotonicClock)
    returns (done: bool, consumed: nat, ghost stamps: seq<int>)
    requires DistinctLogs(pods)
    requires forall k :: k in pods ==> pods[k].createdAt.Some?
    modifies clock, pods.Values`startedAt
    ensures consumed <= |stream|
    ensures done == (pods.Keys != {} && Pending(Startup, pods.Keys, stream[..consumed]) == {})
    ensures done ==> consumed > 0 && Pending(Startup, pods.Keys, stream[..consumed - 1]) != {}
    ensures !done ==> consumed == |stream|
    ensures old(clock.now) <= clock.now
    ensures clock.readings == old(clock.readings) + stamps
    ensures StampedAs(Startup, pods, Stamped(Startup, pods.Keys, stream[..consumed]), stamps, old(clock.now), clock.now)
    ensures forall k :: k in pods && k in Pending(Startup, pods.Keys, stream[..consumed]) ==>
      pods[k].startedAt == old(pods[k].startedAt)
  {
    var pending := pods.Keys;
    ghost var names: seq<string> := [];
    stamps := [];
    done, consumed := false, 0;
    while consumed < |stream| && !done
      invariant Waiting(Startup, pods, stream, consumed, pending, names, stamps, done, old(clock.now), clock.now)
      invariant old(clock.now) <= clock.now
      invariant clock.readings == old(clock.readings) + stamps
      invariant forall k :: k in pending ==> pods[k].startedAt == old(pods[k].startedAt)
    {
      done, pending, names, stamps := ObserveStartup(pods, stream, consumed, clock, pending, names, stamps, old(clock.now));
      consumed := consumed + 1;
    }
    if !done {
      assert stream[..consumed] == stream;
    }
  }

  // ---------------------------------------------------------------------
  // wait_for_cleanup

  /** `pods[name].exited_at = time.monotonic()` for a pending `name`. */
  method StampExited(pods: map<string, PodLog>, name: string, log: PodLog, clock: MonotonicClock,
                     ghost names: seq<string>, ghost stamps: seq<int>, ghost lo: int)
    returns (t: int)
    requires DistinctLogs(pods) && name in pods && pods[name] == log && name !in names
    requires lo <= clock.now && StampedAs(Cleanup, pods, names, stamps, lo, clock.now)
    modifies clock, log`exitedAt
    ensures old(clock.now) <= t == clock.now
    ensures clock.readings == old(clock.readings) + [t]
    ensures log.exitedAt == Some(t)
    ensures StampedAs(Cleanup, pods, names + [name], stamps + [t], lo, clock.now)
  {
    t := clock.Monotonic();
    log.exitedAt := Some(t);
  }

  /** One pass of the loop body of `wait_for_cleanup` on the event
      `stream[consumed]`: stamp and drop the event's pod when it is pending
      and the event is a deletion, otherwise change nothing. */
  method ObserveCleanup(pods: map<string, PodLog>, stream: seq<Event>, consumed: nat, clock: MonotonicClock, pending: set<string>,
                        ghost names: seq<string>, ghost stamps: seq<int>, ghost lo: int)
    returns (done: bool, pending': set<string>, ghost names': seq<string>, ghost stamps': seq<int>)
    requires DistinctLogs(pods) && consumed < |stream| && lo <= clock.now
    requires Waiting(Cleanup, pods, stream, consumed, pending, names, stamps, false, lo, clock.now)
    requires forall k :: k in pods ==> pods[k].deletedAt.Some?
    modifies clock, pods.Values`exitedAt
    ensures old(clock.now) <= clock.now
    ensures Waiting(Cleanup, pods, stream, consumed + 1, pending', names', stamps', done, lo, clock.now)
    ensures pending' <= pending
    ensures forall k :: k in pending' ==> pods[k].exitedAt == old(pods[k].exitedAt)
    ensures Matches(Cleanup, pending, stream[consumed]) ==>
      && names' == names + [stream[consumed].name] && stamps' == stamps + [clock.now]
      && clock.readings == old(clock.readings) + [clock.now]
      && forall k :: k in pods && k != stream[consumed].name ==> pods[k].exitedAt == old(pods[k].exitedAt)
    ensures !Matches(Cleanup, pending, stream[consumed]) ==>
      && names' == names && stamps' == stamps
      && clock.now == old(clock.now) && clock.readings == old(clock.readings)
      && forall k :: k in pods ==> pods[k].exitedAt == old(pods[k].exitedAt)
  {
    var event := stream[consumed];
    assert stream[..consumed + 1] == stream[..consumed] + [event];
    Extend(Cleanup, pods.Keys, stream[..consumed], event);
    pending', names', stamps' := pending, names, stamps;
    var matched := event.name in pending && event.kind == DELETED;
    if matched {
      StampedPartition(Cleanup, pods.Keys, stream[..consumed]);
      var t := StampExited(pods, event.name, pods[event.name], clock, names, stamps, lo);
      pending' := pending - {event.name};
      names' := names + [event.name];
      stamps' := stamps + [t];
    }
    done := matched && pending' == {};
  }

  /** `wait_for_cleanup(v1, pods)` on a finite `stream`: the same loop as
      `wait_for_startup`, keyed on the event type DELETED (the phase is not
      looked at), stamping `exited_at`. */
  method WaitForCleanup(pods: map<string, PodLog>, stream: seq<Event>, clock: MonotonicClock)
    returns (done: bool, consumed: nat, ghost stamps: seq<int>)
    requires DistinctLogs(pods)
    requires forall k :: k in pods ==> pods[k].deletedAt.Some?
    modifies clock, pods.Values`exitedAt
    ensures consumed <= |stream|
    ensures done == (pods.Keys != {} && Pending(Cleanup, pods.Keys, stream[..consumed]) == {})
    ensures done ==> consumed > 0 && Pending(Cleanup, pods.Keys, stream[..consumed - 1]) != {}
    ensures !done ==> consumed == |stream|
    ensures old(clock.now) <= clock.now
    ensures clock.readings == old(clock.readings) + stamps
    ensures StampedAs(Cleanup, pods, Stamped(Cleanup, pods.Keys, stream[..consumed]), stamps, old(clock.now), clock.now)
    ensures forall k :: k in pods && k in Pending(Cleanup, pods.Keys, stream[..consumed]) ==>
      pods[k].exitedAt == old(pods[k].exitedAt)
  {
    var pending := pods.Keys;
    ghost var names: seq<string> := [];
    stamps := [];
    done, consumed := false, 0;
    while consumed < |stream| && !done
      invariant Waiting(Cleanup, pods, stream, consumed, pending, names, stamps, done, old(clock.now), clock.now)
      invariant old(clock.now) <= clock.now
      invariant clock.readings == old(clock.readings) + stamps
      invariant forall k :: k in pending ==> pods[k].exitedAt == old(pods[k].exitedAt)
    {
      done, pending, names, stamps := ObserveCleanup(pods, stream, consumed, clock, pending, names, stamps, old(clock.now));
      consumed := consumed + 1;
    }
    if !done {
      assert stream[..consumed] == stream;
    }
  }

  /** A finished wait returns exactly when the whole stream would have
      emptied its non-empty pending set: a wait that returned early could
      not have been resumed into more stamps, and one that ran out of
      events never would have returned. */
  lemma WaitReturns(m: Milestone, p0: set<string>, stream: seq<Event>, consumed: nat, done: bool)
    requires consumed <= |stream|
    requires done == (p0 != {} && Pending(m, p0, stream[..consumed]) == {})
    requires !done ==> consumed == |stream|
    ensures done <==> p0 != {} && Pending(m, p0, stream) == {}
  {
    if done {
      PendingShrinks(m, p0, stream, consumed);
    } else {
      assert stream[..consumed] == stream;
    }
  }

  /** When a wait has returned, every pod in the map carries its
      milestone, read between `lo` and `hi`. */
  lemma AllStamped(m: Milestone, pods: map<string, PodLog>, seen: seq<Event>, stamps: seq<int>, lo: int, hi: int)
    requires Pending(m, pods.Keys, seen) == {}
    requires StampedAs(m, pods, Stamped(m, pods.Keys, seen), stamps, lo, hi)
    ensures forall k :: k in pods ==> Milestone(pods[k], m).Some? && lo <= Milestone(pods[k], m).value <= hi
  {
    StampedPartition(m, pods.Keys, seen);
    StampedWithin(m, pods, Stamped(m, pods.Keys, seen), stamps, lo, hi);
  }

  // ---------------------------------------------------------------------
  // startup_pods and cleanup_pods

  /** Number of iterations of `range(n)`. */
  function Count(n: int): (c: nat)
    ensures n <= c && (c == 0 || c == n)
  {
    if n < 0 then 0 else n
  }

  /** A record just made by `PodLog(name=k, created_at=...)`, its creation
      read between `lo` and `hi`. */
  ghost predicate JustCreated(log: PodLog, k: string, lo: int, hi: int)
    reads log
  {
    && log.name == k
    && log.createdAt.Some? && lo <= log.createdAt.value <= hi
    && log.startedAt == None && log.deletedAt == None && log.exitedAt == None
  }

  /** One pass of the creation loop: `create_pod`, then
      `pods[pod_name] = PodLog(name=pod_name, created_at=time.monotonic())`. */
  method AddPod(cluster: Api, clock: MonotonicClock, pods: PodTable) returns (name: string)
    requires pods.Valid() && cluster.Valid()
    requires forall k :: k in pods.logs ==> k in cluster.created
    modifies pods, cluster, clock
    ensures pods.Valid() && cluster.Valid()
    ensures forall k :: k in pods.logs ==> k in cluster.created
    ensures cluster.created == old(cluster.created) + [name] && cluster.deleted == old(cluster.deleted)
    ensures name !in old(pods.logs) && pods.keys == old(pods.keys) + [name]
    ensures pods.logs == old(pods.logs)[name := pods.logs[name]]
    ensures fresh(pods.logs[name]) && JustCreated(pods.logs[name], name, old(clock.now), clock.now)
    ensures old(clock.now) <= clock.now
    ensures clock.readings == old(clock.readings) + [pods.logs[name].createdAt.value]
  {
    name := cluster.CreatePod();
    var t := clock.Monotonic();
    var log := new PodLog(name, t);
    pods.Put(name, log);
  }

  /** The creation loop of `startup_pods`, on the empty dict `main` passes:
      `num_pods` times, create a pod and file a record for the returned
      name. The keys are the created names, in creation order. */
  method CreatePods(numPods: int, cluster: Api, clock: MonotonicClock, pods: PodTable)
    returns (ghost created: seq<int>)
    requires pods.Valid() && pods.keys == [] && cluster.Valid()
    modifies pods, cluster, clock
    ensures pods.Valid() && cluster.Valid()
    ensures cluster.created == old(cluster.created) + pods.keys && cluster.deleted == old(cluster.deleted)
    ensures |pods.keys| == Count(numPods)
    ensures old(clock.now) <= clock.now
    ensures forall k :: k in pods.logs ==> fresh(pods.logs[k]) && JustCreated(pods.logs[k], k, old(clock.now), clock.now)
    ensures |created| == |pods.keys| && clock.readings == old(clock.readings) + created
    ensures forall i :: 0 <= i < |pods.keys| ==> pods.logs[pods.keys[i]].createdAt == Some(created[i])
  {
    created := [];
    var i := 0;
    while i < numPods
      invariant i <= Count(numPods) && |pods.keys| == i
      invariant pods.Valid() && cluster.Valid()
      invariant cluster.created == old(cluster.created) + pods.keys && cluster.deleted == old(cluster.deleted)
      invariant old(clock.now) <= clock.now
      invariant forall k :: k in pods.logs ==> fresh(pods.logs[k]) && JustCreated(pods.logs[k], k, old(clock.now), clock.now)
      invariant |created| == i && clock.readings == old(clock.readings) + created
      invariant forall j :: 0 <= j < i ==> pods.logs[pods.keys[j]].createdAt == Some(created[j])
    {
      var name := AddPod(cluster, clock, pods);
      created := created + [pods.logs[name].createdAt.value];
      i := i + 1;
    }
  }

  /** Lines 99-107 of `startup_pods`: read the clock (`start`), wait for
      the pods to run, and, once the wait returns, read the clock again;
      `elapsed` is the logged phase time `end - start`. */
  method AwaitStartup(pods: map<string, PodLog>, stream: seq<Event>, clock: MonotonicClock)
    returns (done: bool, consumed: nat, start: int, elapsed: Option<int>, ghost stamps: seq<int>)
    requires DistinctLogs(pods)
    requires forall k :: k in pods ==> pods[k].createdAt.Some?
    modifies clock, pods.Values`startedAt
    ensures old(clock.now) <= start <= clock.now
    ensures clock.readings == old(clock.readings) + [start] + stamps + (if done then [clock.now] else [])
    ensures consumed <= |stream|
    ensures done == (pods.Keys != {} && Pending(Startup, pods.Keys, stream[..consumed]) == {})
    ensures done ==> consumed > 0 && Pending(Startup, pods.Keys, stream[..consumed - 1]) != {}
    ensures !done ==> consumed == |stream|
    ensures StampedAs(Startup, pods, Stamped(Startup, pods.Keys, stream[..consumed]), stamps, start, clock.now)
    ensures forall k :: k in pods && k in Pending(Startup, pods.Keys, stream[..consumed]) ==>
      pods[k].startedAt == old(pods[k].startedAt)
    ensures elapsed.Some? <==> done
    ensures elapsed.Some? ==> 0 <= elapsed.value && start + elapsed.value == clock.now
  {
    start := clock.Monotonic();
    done, consumed, stamps := WaitForStartup(pods, stream, clock);
    elapsed := None;
    if done {
      ghost var hi := clock.now;
      var end := clock.Monotonic();
      StampedWiden(Startup, pods, Stamped(Startup, pods.Keys, stream[..consumed]), stamps, start, hi, clock.now);
      elapsed := Some(end - start);
    }
  }

  /** `startup_pods` as `main` calls it, on the empty dict: create the
      pods, then time the wait for all of them to run. */
  method StartupPods(numPods: int, cluster: Api, clock: MonotonicClock, pods: PodTable, stream: seq<Event>)
    returns (done: bool, consumed: nat, start: int, elapsed: Option<int>, ghost created: seq<int>, ghost stamps: seq<int>)
    requires pods.Valid() && pods.keys == [] && cluster.Valid()
    modifies pods, cluster, clock
    ensures pods.Valid() && cluster.Valid()
    ensures cluster.created == old(cluster.created) + pods.keys && cluster.deleted == old(cluster.deleted)
    ensures |pods.keys| == Count(numPods)
    ensures old(clock.now) <= start <= clock.now
    ensures fresh(pods.logs.Values)
    ensures forall k :: k in pods.logs ==> pods.logs[k].name == k
    ensures forall k :: k in pods.logs ==>
      pods.logs[k].createdAt.Some? && old(clock.now) <= pods.logs[k].createdAt.value <= start
    ensures forall k :: k in pods.logs ==> pods.logs[k].deletedAt == None && pods.logs[k].exitedAt == None
    ensures |created| == |pods.keys|
    ensures forall i :: 0 <= i < |pods.keys| ==> pods.logs[pods.keys[i]].createdAt == Some(created[i])
    ensures clock.readings == old(clock.readings) + created + [start] + stamps + (if done then [clock.now] else [])
    ensures consumed <= |stream|
    ensures done == (pods.logs.Keys != {} && Pending(Startup, pods.logs.Keys, stream[..consumed]) == {})
    ensures done ==> consumed > 0 && Pending(Startup, pods.logs.Keys, stream[..consumed - 1]) != {}
    ensures !done ==> consumed == |stream|
    ensures StampedAs(Startup, pods.logs, Stamped(Startup, pods.logs.Keys, stream[..consumed]), stamps, start, clock.now)
    ensures forall k :: k in pods.logs && k in Pending(Startup, pods.logs.Keys, stream[..consumed]) ==>
      pods.logs[k].startedAt == None
    ensures elapsed.Some? <==> done
    ensures elapsed.Some? ==> 0 <= elapsed.value && start + elapsed.value == clock.now
  {
    created := CreatePods(numPods, cluster, clock, pods);
    done, consumed, start, elapsed, stamps := AwaitStartup(pods.logs, stream, clock);
  }

  /** Distinct keys are filed with distinct records. */
  lemma OtherRecords(pods: PodTable, i: nat)
    requires pods.Valid() && i < |pods.keys|
    ensures forall j :: 0 <= j < |pods.keys| && j != i ==> pods.logs[pods.keys[j]] != pods.logs[pods.keys[i]]
  {
  }

  /** Stamps given in key order, looked up by key. */
  lemma DeletedWithin(pods: PodTable, deletions: seq<int>, lo: int, hi: int)
    requires pods.Valid() && |deletions| == |pods.keys| && Within(deletions, lo, hi)
    requires forall i :: 0 <= i < |pods.keys| ==> pods.logs[pods.keys[i]].deletedAt == Some(deletions[i])
    ensures forall k :: k in pods.logs ==>
      pods.logs[k].deletedAt.Some? && lo <= pods.logs[k].deletedAt.value <= hi
  {
    forall k | k in pods.logs
      ensures pods.logs[k].deletedAt.Some? && lo <= pods.logs[k].deletedAt.value <= hi
    {
      var j :| 0 <= j < |pods.keys| && pods.keys[j] == k;
    }
  }

  /** One pass of the deletion loop: `delete_pod(v1, name)`, then
      `pods[name].deleted_at = time.monotonic()` on its record `log`. */
  method DeleteOne(cluster: Api, clock: MonotonicClock, name: string, log: PodLog) returns (t: int)
    modifies cluster, clock, log`deletedAt
    ensures cluster.created == old(cluster.created) && cluster.deleted == old(cluster.deleted) + [name]
    ensures old(clock.now) <= t == clock.now && log.deletedAt == Some(t)
    ensures clock.readings == old(clock.readings) + [t]
  {
    cluster.DeletePod(name);
    t := clock.Monotonic();
    log.deletedAt := Some(t);
  }

  /** The deletion loop of `cleanup_pods`: for each key in insertion
      order, ask for the deletion, then stamp `deleted_at`. `deletions`
      are the readings, in that order. */
  method DeletePods(cluster: Api, clock: MonotonicClock, pods: PodTable) returns (ghost deletions: seq<int>)
    requires pods.Valid()
    modifies cluster, clock, pods.logs.Values`deletedAt
    ensures cluster.created == old(cluster.created) && cluster.deleted == old(cluster.deleted) + pods.keys
    ensures |deletions| == |pods.keys| && Nondecreasing(deletions) && Within(deletions, old(clock.now), clock.now)
    ensures clock.readings == old(clock.readings) + deletions
    ensures forall i :: 0 <= i < |pods.keys| ==> pods.logs[pods.keys[i]].deletedAt == Some(deletions[i])
    ensures forall k :: k in pods.logs ==>
      pods.logs[k].deletedAt.Some? && old(clock.now) <= pods.logs[k].deletedAt.value <= clock.now
  {
    deletions := [];
    var i := 0;
    while i < |pods.keys|
      invariant i <= |pods.keys|
      invariant cluster.created == old(cluster.created) && cluster.deleted == old(cluster.deleted) + pods.keys[..i]
      invariant old(clock.now) <= clock.now
      invariant |deletions| == i && Nondecreasing(deletions) && Within(deletions, old(clock.now), clock.now)
      invariant clock.readings == old(clock.readings) + deletions
      invariant forall j :: 0 <= j < i ==> pods.logs[pods.keys[j]].deletedAt == Some(deletions[j])
    {
      OtherRecords(pods, i);
      var t := DeleteOne(cluster, clock, pods.keys[i], pods.logs[pods.keys[i]]);
      assert pods.keys[..i + 1] == pods.keys[..i] + [pods.keys[i]];
      deletions := deletions + [t];
      i := i + 1;
    }
    assert pods.keys[..i] == pods.keys;
    DeletedWithin(pods, deletions, old(clock.now), clock.now);
  }

  /** Lines 116-124 of `cleanup_pods`: read the clock (`start`), wait for
      the pods to go away, and, once the wait returns, read the clock
      again. */
  method AwaitCleanup(pods: map<string, PodLog>, stream: seq<Event>, clock: MonotonicClock)
    returns (done: bool, consumed: nat, start: int, elapsed: Option<int>, ghost stamps: seq<int>)
    requires DistinctLogs(pods)
    requires forall k :: k in pods ==> pods[k].deletedAt.Some?
    modifies clock, pods.Values`exitedAt
    ensures old(clock.now) <= start <= clock.now
    ensures clock.readings == old(clock.readings) + [start] + stamps + (if done then [clock.now] else [])
    ensures consumed <= |stream|
    ensures done == (pods.Keys != {} && Pending(Cleanup, pods.Keys, stream[..consumed]) == {})
    ensures done ==> consumed > 0 && Pending(Cleanup, pods.Keys, stream[..consumed - 1]) != {}
    ensures !done ==> consumed == |stream|
    ensures StampedAs(Cleanup, pods, Stamped(Cleanup, pods.Keys, stream[..consumed]), stamps, start, clock.now)
    ensures forall k :: k in pods && k in Pending(Cleanup, pods.Keys, stream[..consumed]) ==>
      pods[k].exitedAt == old(pods[k].exitedAt)
    ensures elapsed.Some? <==> done
    ensures elapsed.Some? ==> 0 <= elapsed.value && start + elapsed.value == clock.now
  {
    start := clock.Monotonic();
    done, consumed, stamps := WaitForCleanup(pods, stream, clock);
    elapsed := None;
    if done {
      ghost var hi := clock.now;
      var end := clock.Monotonic();
      StampedWiden(Cleanup, pods, Stamped(Cleanup, pods.Keys, stream[..consumed]), stamps, start, hi, clock.now);
      elapsed := Some(end - start);
    }
  }

  /** `cleanup_pods`: delete every pod, then time the wait for all of them
      to go away. */
  method CleanupPods(cluster: Api, clock: MonotonicClock, pods: PodTable, stream: seq<Event>)
    returns (done: bool, consumed: nat, start: int, elapsed: Option<int>, ghost deletions: seq<int>, ghost stamps: seq<int>)
    requires pods.Valid()
    modifies cluster, clock, pods.logs.Values`deletedAt, pods.logs.Values`exitedAt
    ensures cluster.created == old(cluster.created) && cluster.deleted == old(cluster.deleted) + pods.keys
    ensures |deletions| == |pods.keys| && Nondecreasing(deletions) && Within(deletions, old(clock.now), start)
    ensures clock.readings == old(clock.readings) + deletions + [start] + stamps + (if done then [clock.now] else [])
    ensures forall i :: 0 <= i < |pods.keys| ==> pods.logs[pods.keys[i]].deletedAt == Some(deletions[i])
    ensures forall k :: k in pods.logs ==>
      pods.logs[k].deletedAt.Some? && old(clock.now) <= pods.logs[k].deletedAt.value <= start
    ensures start <= clock.now
    ensures consumed <= |stream|
    ensures done == (pods.logs.Keys != {} && Pending(Cleanup, pods.logs.Keys, stream[..consumed]) == {})
    ensures done ==> consumed > 0 && Pending(Cleanup, pods.logs.Keys, stream[..consumed - 1]) != {}
    ensures !done ==> consumed == |stream|
    ensures StampedAs(Cleanup, pods.logs, Stamped(Cleanup, pods.logs.Keys, stream[..consumed]), stamps, start, clock.now)
    ensures forall k :: k in pods.logs && k in Pending(Cleanup, pods.logs.Keys, stream[..consumed]) ==>
      pods.logs[k].exitedAt == old(pods.logs[k].exitedAt)
    ensures elapsed.Some? <==> done
    ensures forall k :: k in pods.logs ==>
      pods.logs[k].createdAt == old(pods.logs[k].createdAt) && pods.logs[k].startedAt == old(pods.logs[k].startedAt)
    ensures elapsed.Some? ==> 0 <= elapsed.value && start + elapsed.value == clock.now
  {
    deletions := DeletePods(cluster, clock, pods);
    done, consumed, start, elapsed, stamps := AwaitCleanup(pods.logs, stream, clock);
  }

  // ---------------------------------------------------------------------
  // main

  /** After start-up: every record was created by `lo` and started
      between `lo` and `hi`. Reads only the two fields clean-up leaves
      alone. */
  ghost predicate Started(logs: map<string, PodLog>, lo: int, hi: int)
    reads logs.Values`createdAt, logs.Values`startedAt
  {
    forall k :: k in logs ==>
      && logs[k].createdAt.Some? && logs[k].createdAt.value <= lo
      && logs[k].startedAt.Some? && lo <= logs[k].startedAt.value <= hi
  }

  /** After clean-up: every record was deleted between `lo` and `mid` and
      exited between `mid` and `hi`. */
  ghost predicate Stopped(logs: map<string, PodLog>, lo: int, mid: int, hi: int)
    reads logs.Values`deletedAt, logs.Values`exitedAt
  {
    forall k :: k in logs ==>
      && logs[k].deletedAt.Some? && lo <= logs[k].deletedAt.value <= mid
      && logs[k].exitedAt.Some? && mid <= logs[k].exitedAt.value <= hi
  }

  /** A start-up whose wait returned leaves the records `Started`. */
  lemma StartupDone(pods: map<string, PodLog>, seen: seq<Event>, stamps: seq<int>, lo: int, hi: int)
    requires forall k :: k in pods ==> pods[k].createdAt.Some? && pods[k].createdAt.value <= lo
    requires Pending(Startup, pods.Keys, seen) == {}
    requires StampedAs(Startup, pods, Stamped(Startup, pods.Keys, seen), stamps, lo, hi)
    ensures Started(pods, lo, hi)
  {
    AllStamped(Startup, pods, seen, stamps, lo, hi);
  }

  /** A clean-up whose wait returned leaves the records `Stopped`. */
  lemma CleanupDone(pods: map<string, PodLog>, seen: seq<Event>, stamps: seq<int>, lo: int, mid: int, hi: int)
    requires forall k :: k in pods ==> pods[k].deletedAt.Some? && lo <= pods[k].deletedAt.value <= mid
    requires Pending(Cleanup, pods.Keys, seen) == {}
    requires StampedAs(Cleanup, pods, Stamped(Cleanup, pods.Keys, seen), stamps, mid, hi)
    ensures Stopped(pods, lo, mid, hi)
  {
    AllStamped(Cleanup, pods, seen, stamps, mid, hi);
  }

  /** Every record in `logs` has all four milestones, in lifecycle order:
      created, started, deleted, exited. */
  ghost predicate Complete(logs: seq<PodLog>)
    reads logs
  {
    forall i :: 0 <= i < |logs| ==>
      && logs[i].createdAt.Some? && logs[i].startedAt.Some? && logs[i].deletedAt.Some? && logs[i].exitedAt.Some?
      && logs[i].createdAt.value <= logs[i].startedAt.value <= logs[i].deletedAt.value <= logs[i].exitedAt.value
  }

  /** A start-up that ended by `t` followed by a clean-up that began at
      `t` leaves every record complete. */
  lemma Lifecycle(pods: PodTable, lo: int, t: int, mid: int, hi: int)
    requires pods.Valid() && Started(pods.logs, lo, t) && Stopped(pods.logs, t, mid, hi)
    ensures Complete(pods.Values())
  {
    var logs := pods.Values();
    forall i | 0 <= i < |logs|
      ensures logs[i].createdAt.Some? && logs[i].startedAt.Some? && logs[i].deletedAt.Some? && logs[i].exitedAt.Some?
      ensures logs[i].createdAt.value <= logs[i].startedAt.value <= logs[i].deletedAt.value <= logs[i].exitedAt.value
    {
      assert pods.keys[i] in pods.logs;
    }
  }

  /** `[log.started_at - log.created_at for log in pods.values()]` */
  function StartupDurations(logs: seq<PodLog>): (ds: seq<int>)
    reads logs
    requires forall i :: 0 <= i < |logs| ==> logs[i].createdAt.Some? && logs[i].startedAt.Some?
    ensures |ds| == |logs|
    ensures forall i :: 0 <= i < |logs| ==> ds[i] == logs[i].startedAt.value - logs[i].createdAt.value
  {
    if logs == [] then []
    else [logs[0].startedAt.value - logs[0].createdAt.value] + StartupDurations(logs[1..])
  }

  /** `[log.exited_at - log.deleted_at for log in pods.values()]` */
  function CleanupDurations(logs: seq<PodLog>): (ds: seq<int>)
    reads logs
    requires forall i :: 0 <= i < |logs| ==> logs[i].deletedAt.Some? && logs[i].exitedAt.Some?
    ensures |ds| == |logs|
    ensures forall i :: 0 <= i < |logs| ==> ds[i] == logs[i].exitedAt.value - logs[i].deletedAt.value
  {
    if logs == [] then []
    else [logs[0].exitedAt.value - logs[0].deletedAt.value] + CleanupDurations(logs[1..])
  }

  /** For records whose milestones are complete and in lifecycle order,
      no start-up or clean-up duration is negative. */
  lemma {:induction false} DurationsNonNegative(logs: seq<PodLog>)
    requires Complete(logs)
    ensures forall d :: d in StartupDurations(logs) ==> d >= 0
    ensures forall d :: d in CleanupDurations(logs) ==> d >= 0
  {
    if logs != [] {
      DurationsNonNegative(logs[1..]);
    }
  }

  /** What `main` reports: either a wait that never returns (the watch
      blocks for ever in `phase`), or both summary lines. */
  datatype Outcome = Stalled(phase: Milestone) | Finished(startup: Summary, cleanup: Summary)

  /** Lines 144-150 of `main`: summarise both duration lists. Neither list
      is empty, and neither minimum is negative. */
  function Report(logs: seq<PodLog>): (o: Outcome)
    reads logs
    requires logs != [] && Complete(logs)
    ensures o.Finished?
    ensures Summarize(StartupDurations(logs)) == Success(o.startup)
    ensures Summarize(CleanupDurations(logs)) == Success(o.cleanup)
    ensures 0 <= o.startup.min && 0 <= o.cleanup.min
  {
    DurationsNonNegative(logs);
    Finished(Summarize(StartupDurations(logs)).value, Summarize(CleanupDurations(logs)).value)
  }

  /** `main` after argument parsing and client set-up: start up `numPods`
      pods against `startupStream`, clean them up against
      `cleanupStream`, and summarise both duration lists. */
  method Run(numPods: int, cluster: Api, clock: MonotonicClock, startupStream: seq<Event>, cleanupStream: seq<Event>)
    returns (outcome: Outcome, pods: PodTable)
    requires cluster.Valid()
    modifies cluster, clock
    ensures fresh(pods) && pods.Valid() && |pods.keys| == Count(numPods)
    ensures cluster.created == old(cluster.created) + pods.keys
    ensures cluster.deleted == old(cluster.deleted) + if outcome == Stalled(Startup) then [] else pods.keys
    ensures outcome == Stalled(Startup) <==>
      !(Count(numPods) > 0 && Pending(Startup, pods.logs.Keys, startupStream) == {})
    ensures outcome == Stalled(Cleanup) <==>
      && Count(numPods) > 0 && Pending(Startup, pods.logs.Keys, startupStream) == {}
      && Pending(Cleanup, pods.logs.Keys, cleanupStream) != {}
    ensures outcome.Finished? ==> |pods.keys| > 0 && Complete(pods.Values())
    ensures outcome.Finished? ==> outcome == Report(pods.Values())
  {
    pods := new PodTable();
    var done, consumed, start, elapsed;
    ghost var stamps, deletions;
    ghost var created;
    done, consumed, start, elapsed, created, stamps := StartupPods(numPods, cluster, clock, pods, startupStream);
    WaitReturns(Startup, pods.logs.Keys, startupStream, consumed, done);
    if |pods.keys| > 0 {
      assert pods.keys[0] in pods.logs;
    }
    if !done {
      outcome := Stalled(Startup);
      return;
    }
    ghost var t0, t := start, clock.now;
    StartupDone(pods.logs, startupStream[..consumed], stamps, t0, t);
    done, consumed, start, elapsed, deletions, stamps := CleanupPods(cluster, clock, pods, cleanupStream);
    WaitReturns(Cleanup, pods.logs.Keys, cleanupStream, consumed, done);
    if !done {
      outcome := Stalled(Cleanup);
      return;
    }
    CleanupDone(pods.logs, cleanupStream[..consumed], stamps, t, start, clock.now);
    Lifecycle(pods, t0, t, start, clock.now);
    outcome := Report(pods.Values());
  }
}
