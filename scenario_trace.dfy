/** The three benchmark commands of `kbench/__main__.py` as traces of the
    calls they make: each pod or deployment helper call, each clock
    reading, and the entry and exit of each `timer` block. The helpers
    themselves are opaque; only their order and arguments are modelled. */
module ScenarioTrace {

  /** Timer labels. */
  const STARTUP_TIMER: string := "Pod startup"
  const CLEANUP_TIMER: string := "Pod cleanup"
  const CREATION_TIMER: string := "Deployment creation"
  const SCALE_OUT_TIMER: string := "Deployment scale-out"
  const SCALE_IN_TIMER: string := "Deployment scale-in"

  datatype Op =
    | CreatePod(name: string, image: string, selector: map<string, string>)
    | ReadClock(t: int)
    | WaitForStartup(pods: set<string>)
    | DeletePod(name: string)
    | WaitForCleanup(pods: set<string>)
    | PrintStats(keys: seq<string>)
    | PrintTimings(keys: seq<string>)
    | TimerStart(timer: string)
    | TimerStop(timer: string)
    | CreateDeployment(image: string, replicas: int, name: string)
    | WaitForRescale(name: string, replicas: int)
    | Rescale(name: string, replicas: int)
    | DeleteDeployment(name: string)

  /** The keys of a dict, as the set a wait helper receives. */
  function KeySet(names: seq<string>): (ks: set<string>)
    ensures forall k :: k in ks <==> k in names
  {
    set k | k in names
  }

  /** A `with timer(label):` block around `calls`. */
  function Timed(timer: string, calls: seq<Op>): seq<Op>
  {
    [TimerStart(timer)] + calls + [TimerStop(timer)]
  }

  /** A trace grown by a timer start, some calls, one last call and the
      timer stop has grown by one timed block. */
  lemma TimedAppend(prefix: seq<Op>, timer: string, calls: seq<Op>, last: Op, after: seq<Op>)
    requires after == prefix + [TimerStart(timer)] + calls + [last] + [TimerStop(timer)]
    ensures after == prefix + Timed(timer, calls + [last])
  {
  }

  // ---------------------------------------------------------------------
  // pod_latency

  /** One iteration of the `pod_latency` loop (lines 75-85): create,
      stamp `created_at`, wait for the single pod to run, delete, stamp
      `deleted_at`, wait for it to go away. */
  function LatencyRound(name: string, image: string, selector: map<string, string>, created: int, deleted: int): seq<Op>
  {
    [ CreatePod(name, image, selector), ReadClock(created), WaitForStartup({name}),
      DeletePod(name), ReadClock(deleted), WaitForCleanup({name}) ]
  }

  /** The rounds for `names`, in order, with their clock readings. */
  function LatencyRounds(names: seq<string>, image: string, selector: map<string, string>, created: seq<int>, deleted: seq<int>): seq<Op>
    requires |created| == |names| == |deleted|
  {
    if names == [] then []
    else
      var n := |names| - 1;
      LatencyRounds(names[..n], image, selector, created[..n], deleted[..n])
        + LatencyRound(names[n], image, selector, created[n], deleted[n])
  }

  /** One more pass of the loop extends the trace by one round. */
  lemma LatencyRoundsAppend(prefix: seq<Op>, names: seq<string>, image: string, selector: map<string, string>,
                            created: seq<int>, deleted: seq<int>, name: string, c: int, d: int,
                            before: seq<Op>, after: seq<Op>)
    requires |created| == |names| == |deleted|
    requires before == prefix + LatencyRounds(names, image, selector, created, deleted)
    requires after == before + [CreatePod(name, image, selector), ReadClock(c), WaitForStartup({name})]
      + [DeletePod(name), ReadClock(d), WaitForCleanup({name})]
    ensures after == prefix + LatencyRounds(names + [name], image, selector, created + [c], deleted + [d])
  {
    assert (names + [name])[..|names|] == names;
    assert (created + [c])[..|names|] == created;
    assert (deleted + [d])[..|names|] == deleted;
    assert [CreatePod(name, image, selector), ReadClock(c), WaitForStartup({name})]
      + [DeletePod(name), ReadClock(d), WaitForCleanup({name})] == LatencyRound(name, image, selector, c, d);
    assert after == before + LatencyRound(name, image, selector, c, d);
  }

  /** Round `i` occupies positions `6 * i` to `6 * i + 5`, op `j` being
      op `j % 6` of round `j / 6`. */
  lemma {:induction false} LatencyLayout(names: seq<string>, image: string, selector: map<string, string>, created: seq<int>, deleted: seq<int>)
    requires |created| == |names| == |deleted|
    ensures |LatencyRounds(names, image, selector, created, deleted)| == 6 * |names|
    ensures forall j :: 0 <= j < 6 * |names| ==>
      LatencyRounds(names, image, selector, created, deleted)[j]
        == LatencyRound(names[j / 6], image, selector, created[j / 6], deleted[j / 6])[j % 6]
  {
    if names != [] {
      var n := |names| - 1;
      var front := LatencyRounds(names[..n], image, selector, created[..n], deleted[..n]);
      LatencyLayout(names[..n], image, selector, created[..n], deleted[..n]);
      var ops := LatencyRounds(names, image, selector, created, deleted);
      forall j | 0 <= j < 6 * |names|
        ensures ops[j] == LatencyRound(names[j / 6], image, selector, created[j / 6], deleted[j / 6])[j % 6]
      {
        if j < 6 * n {
          assert ops[j] == front[j];
          assert j / 6 < n;
        } else {
          assert j / 6 == n;
        }
      }
    }
  }

  /** In `pod_latency` every wait is given the one pod of its own round,
      the start-up wait of round `i` sits between that pod's creation and
      its deletion, and the clean-up wait closes the round. */
  lemma LatencySingleWaits(names: seq<string>, image: string, selector: map<string, string>, created: seq<int>, deleted: seq<int>)
    requires |created| == |names| == |deleted|
    ensures |LatencyRounds(names, image, selector, created, deleted)| == 6 * |names|
    ensures forall j :: 0 <= j < 6 * |names| ==>
      var op := LatencyRounds(names, image, selector, created, deleted)[j];
      && (op.WaitForStartup? ==> j % 6 == 2 && op.pods == {names[j / 6]})
      && (op.WaitForCleanup? ==> j % 6 == 5 && op.pods == {names[j / 6]})
      && (op.CreatePod? ==> j % 6 == 0 && op.name == names[j / 6])
      && (op.DeletePod? ==> j % 6 == 3 && op.name == names[j / 6])
  {
    LatencyLayout(names, image, selector, created, deleted);
  }

  // ---------------------------------------------------------------------
  // pod_throughput

  /** The creation loop of `pod_throughput` (lines 116-119): per pod, the
      creation call and the `created_at` reading. */
  function Creations(names: seq<string>, image: string, selector: map<string, string>, created: seq<int>): seq<Op>
    requires |created| == |names|
  {
    if names == [] then []
    else
      var n := |names| - 1;
      Creations(names[..n], image, selector, created[..n])
        + [CreatePod(names[n], image, selector), ReadClock(created[n])]
  }

  /** The deletion loop of `pod_throughput` (lines 126-128): per key, the
      deletion call and the `deleted_at` reading. */
  function Deletions(names: seq<string>, deleted: seq<int>): seq<Op>
    requires |deleted| == |names|
  {
    if names == [] then []
    else
      var n := |names| - 1;
      Deletions(names[..n], deleted[..n]) + [DeletePod(names[n]), ReadClock(deleted[n])]
  }

  lemma CreationsAppend(prefix: seq<Op>, names: seq<string>, image: string, selector: map<string, string>,
                        created: seq<int>, name: string, c: int, before: seq<Op>, after: seq<Op>)
    requires |created| == |names|
    requires before == prefix + Creations(names, image, selector, created)
    requires after == before + [CreatePod(name, image, selector)] + [ReadClock(c)]
    ensures after == prefix + Creations(names + [name], image, selector, created + [c])
  {
    assert (names + [name])[..|names|] == names;
    assert (created + [c])[..|names|] == created;
  }

  lemma DeletionsAppend(prefix: seq<Op>, names: seq<string>, deleted: seq<int>, name: string, d: int,
                        before: seq<Op>, after: seq<Op>)
    requires |deleted| == |names|
    requires before == prefix + Deletions(names, deleted)
    requires after == before + [DeletePod(name)] + [ReadClock(d)]
    ensures after == prefix + Deletions(names + [name], deleted + [d])
  {
    assert (names + [name])[..|names|] == names;
    assert (deleted + [d])[..|names|] == deleted;
  }

  /** Lines 115-123: the timed start-up phase, every creation and then a
      single wait for every pod. */
  function StartupPhase(names: seq<string>, image: string, selector: map<string, string>, created: seq<int>): seq<Op>
    requires |created| == |names|
  {
    Timed(STARTUP_TIMER, Creations(names, image, selector, created) + [WaitForStartup(KeySet(names))])
  }

  /** Lines 125-132: the timed clean-up phase, every deletion and then a
      single wait for every pod. */
  function CleanupPhase(names: seq<string>, deleted: seq<int>): seq<Op>
    requires |deleted| == |names|
  {
    Timed(CLEANUP_TIMER, Deletions(names, deleted) + [WaitForCleanup(KeySet(names))])
  }

  /** Lines 115-132: both timed phases. */
  function ThroughputTrace(names: seq<string>, image: string, selector: map<string, string>, created: seq<int>, deleted: seq<int>): seq<Op>
    requires |created| == |names| == |deleted|
  {
    StartupPhase(names, image, selector, created) + CleanupPhase(names, deleted)
  }

  /** Pod `i`'s creation call is op `2 * i`, its `created_at` reading
      the op right after. */
  lemma {:induction false} CreationsLayout(names: seq<string>, image: string, selector: map<string, string>, created: seq<int>)
    requires |created| == |names|
    ensures |Creations(names, image, selector, created)| == 2 * |names|
    ensures forall i :: 0 <= i < |names| ==>
      && Creations(names, image, selector, created)[2 * i] == CreatePod(names[i], image, selector)
      && Creations(names, image, selector, created)[2 * i + 1] == ReadClock(created[i])
  {
    if names != [] {
      var n := |names| - 1;
      var front := Creations(names[..n], image, selector, created[..n]);
      CreationsLayout(names[..n], image, selector, created[..n]);
      var last := [CreatePod(names[n], image, selector), ReadClock(created[n])];
      var ops := Creations(names, image, selector, created);
      assert ops == front + last;
      forall i | 0 <= i < |names|
        ensures ops[2 * i] == CreatePod(names[i], image, selector) && ops[2 * i + 1] == ReadClock(created[i])
      {
        if i < n {
          assert ops[2 * i] == front[2 * i] && ops[2 * i + 1] == front[2 * i + 1];
          assert names[..n][i] == names[i] && created[..n][i] == created[i];
        } else {
          assert ops[2 * i] == last[0] && ops[2 * i + 1] == last[1];
        }
      }
    }
  }

  /** Key `i`'s deletion call is op `2 * i`, its `deleted_at` reading the
      op right after. */
  lemma {:induction false} DeletionsLayout(names: seq<string>, deleted: seq<int>)
    requires |deleted| == |names|
    ensures |Deletions(names, deleted)| == 2 * |names|
    ensures forall i :: 0 <= i < |names| ==>
      && Deletions(names, deleted)[2 * i] == DeletePod(names[i])
      && Deletions(names, deleted)[2 * i + 1] == ReadClock(deleted[i])
  {
    if names != [] {
      var n := |names| - 1;
      var front := Deletions(names[..n], deleted[..n]);
      DeletionsLayout(names[..n], deleted[..n]);
      var last := [DeletePod(names[n]), ReadClock(deleted[n])];
      var ops := Deletions(names, deleted);
      assert ops == front + last;
      forall i | 0 <= i < |names|
        ensures ops[2 * i] == DeletePod(names[i]) && ops[2 * i + 1] == ReadClock(deleted[i])
      {
        if i < n {
          assert ops[2 * i] == front[2 * i] && ops[2 * i + 1] == front[2 * i + 1];
          assert names[..n][i] == names[i] && deleted[..n][i] == deleted[i];
        } else {
          assert ops[2 * i] == last[0] && ops[2 * i + 1] == last[1];
        }
      }
    }
  }

  /** Only creation calls and clock readings happen in the creation loop. */
  lemma {:induction false} CreationsKinds(names: seq<string>, image: string, selector: map<string, string>, created: seq<int>)
    requires |created| == |names|
    ensures |Creations(names, image, selector, created)| == 2 * |names|
    ensures forall j :: 0 <= j < |Creations(names, image, selector, created)| ==>
      Creations(names, image, selector, created)[j].CreatePod? || Creations(names, image, selector, created)[j].ReadClock?
  {
    if names != [] {
      var n := |names| - 1;
      CreationsKinds(names[..n], image, selector, created[..n]);
    }
  }

  /** Only deletion calls and clock readings happen in the deletion loop. */
  lemma {:induction false} DeletionsKinds(names: seq<string>, deleted: seq<int>)
    requires |deleted| == |names|
    ensures |Deletions(names, deleted)| == 2 * |names|
    ensures forall j :: 0 <= j < |Deletions(names, deleted)| ==>
      Deletions(names, deleted)[j].DeletePod? || Deletions(names, deleted)[j].ReadClock?
  {
    if names != [] {
      var n := |names| - 1;
      DeletionsKinds(names[..n], deleted[..n]);
    }
  }

  /** `pod_throughput` runs two barriers: every creation precedes the one
      start-up wait, which covers every pod; every deletion comes after it
      and precedes the one clean-up wait, which again covers every pod.
      Nothing is printed during either phase. */
  lemma ThroughputBarriers(names: seq<string>, image: string, selector: map<string, string>, created: seq<int>, deleted: seq<int>)
    requires |created| == |names| == |deleted|
    ensures var ops := ThroughputTrace(names, image, selector, created, deleted);
      var startup := 2 * |names| + 1;
      var cleanup := 4 * |names| + 4;
      && |ops| == cleanup + 2
      && ops[startup] == WaitForStartup(KeySet(names))
      && ops[cleanup] == WaitForCleanup(KeySet(names))
      && (forall j :: 0 <= j < |ops| && ops[j].WaitForStartup? ==> j == startup)
      && (forall j :: 0 <= j < |ops| && ops[j].WaitForCleanup? ==> j == cleanup)
      && (forall j :: 0 <= j < |ops| && ops[j].CreatePod? ==> j < startup)
      && (forall j :: 0 <= j < |ops| && ops[j].DeletePod? ==> startup < j < cleanup)
      && Quiet(ops)
  {
    var n := |names|;
    var cs := Creations(names, image, selector, created);
    var ds := Deletions(names, deleted);
    CreationsKinds(names, image, selector, created);
    DeletionsKinds(names, deleted);
    var startupPhase := [TimerStart(STARTUP_TIMER)] + cs;
    var beforeDeletions := startupPhase + [WaitForStartup(KeySet(names)), TimerStop(STARTUP_TIMER), TimerStart(CLEANUP_TIMER)];
    var beforeWait := beforeDeletions + ds;
    var ops := ThroughputTrace(names, image, selector, created, deleted);
    assert ops == beforeWait + [WaitForCleanup(KeySet(names)), TimerStop(CLEANUP_TIMER)];
    assert ops[2 * n + 1] == beforeDeletions[2 * n + 1];
    forall j | 0 <= j < |ops|
      ensures ops[j].WaitForStartup? ==> j == 2 * n + 1
      ensures ops[j].WaitForCleanup? ==> j == 4 * n + 4
      ensures ops[j].CreatePod? ==> j < 2 * n + 1
      ensures ops[j].DeletePod? ==> 2 * n + 1 < j < 4 * n + 4
      ensures !ops[j].PrintStats? && !ops[j].PrintTimings?
    {
      if j < |beforeWait| {
        assert ops[j] == beforeWait[j];
        if j < |beforeDeletions| {
          assert beforeWait[j] == beforeDeletions[j];
          if 0 < j < |startupPhase| {
            assert beforeDeletions[j] == startupPhase[j] == cs[j - 1];
          }
        } else {
          assert beforeWait[j] == ds[j - |beforeDeletions|];
        }
      }
    }
  }

  /** In `pod_throughput` each creation call is followed at once by the
      reading filed as that pod's `created_at`, in creation order. */
  lemma ThroughputCreationStamps(names: seq<string>, image: string, selector: map<string, string>, created: seq<int>, deleted: seq<int>)
    requires |created| == |names| == |deleted|
    ensures |ThroughputTrace(names, image, selector, created, deleted)| == 4 * |names| + 6
    ensures forall i :: 0 <= i < |names| ==>
      && ThroughputTrace(names, image, selector, created, deleted)[1 + 2 * i] == CreatePod(names[i], image, selector)
      && ThroughputTrace(names, image, selector, created, deleted)[2 + 2 * i] == ReadClock(created[i])
  {
    var cs := Creations(names, image, selector, created);
    CreationsLayout(names, image, selector, created);
    DeletionsKinds(names, deleted);
    var startupPhase := [TimerStart(STARTUP_TIMER)] + cs;
    var ops := ThroughputTrace(names, image, selector, created, deleted);
    var rest := [WaitForStartup(KeySet(names)), TimerStop(STARTUP_TIMER), TimerStart(CLEANUP_TIMER)]
      + Deletions(names, deleted) + [WaitForCleanup(KeySet(names)), TimerStop(CLEANUP_TIMER)];
    assert ops == startupPhase + rest;
    forall i | 0 <= i < |names|
      ensures ops[1 + 2 * i] == CreatePod(names[i], image, selector) && ops[2 + 2 * i] == ReadClock(created[i])
    {
      assert ops[1 + 2 * i] == startupPhase[1 + 2 * i] == cs[2 * i];
      assert ops[2 + 2 * i] == startupPhase[2 + 2 * i] == cs[2 * i + 1];
    }
  }

  /** In `pod_throughput` each deletion call is followed at once by the
      reading stamped as that pod's `deleted_at`, in key order. */
  lemma ThroughputDeletionStamps(names: seq<string>, image: string, selector: map<string, string>, created: seq<int>, deleted: seq<int>)
    requires |created| == |names| == |deleted|
    ensures |ThroughputTrace(names, image, selector, created, deleted)| == 4 * |names| + 6
    ensures forall i :: 0 <= i < |names| ==>
      && ThroughputTrace(names, image, selector, created, deleted)[2 * |names| + 4 + 2 * i] == DeletePod(names[i])
      && ThroughputTrace(names, image, selector, created, deleted)[2 * |names| + 5 + 2 * i] == ReadClock(deleted[i])
  {
    var n := |names|;
    var ds := Deletions(names, deleted);
    CreationsKinds(names, image, selector, created);
    DeletionsLayout(names, deleted);
    var beforeDeletions := [TimerStart(STARTUP_TIMER)] + Creations(names, image, selector, created)
      + [WaitForStartup(KeySet(names)), TimerStop(STARTUP_TIMER), TimerStart(CLEANUP_TIMER)];
    var ops := ThroughputTrace(names, image, selector, created, deleted);
    assert ops == beforeDeletions + ds + [WaitForCleanup(KeySet(names)), TimerStop(CLEANUP_TIMER)];
    forall i | 0 <= i < n
      ensures ops[2 * n + 4 + 2 * i] == DeletePod(names[i]) && ops[2 * n + 5 + 2 * i] == ReadClock(deleted[i])
    {
      assert ops[2 * n + 4 + 2 * i] == ds[2 * i];
      assert ops[2 * n + 5 + 2 * i] == ds[2 * i + 1];
    }
  }

  // ---------------------------------------------------------------------
  // The closing report shared by both pod commands

  /** Lines 89-92 and 134-137: the statistics, then the per-pod timings
      when asked for. */
  function Closing(keys: seq<string>, timings: bool): seq<Op>
  {
    [PrintStats(keys)] + (if timings then [PrintTimings(keys)] else [])
  }

  /** No report is printed among `ops`. */
  predicate Quiet(ops: seq<Op>)
  {
    forall j :: 0 <= j < |ops| ==> !ops[j].PrintStats? && !ops[j].PrintTimings?
  }

  lemma LatencyQuiet(names: seq<string>, image: string, selector: map<string, string>, created: seq<int>, deleted: seq<int>)
    requires |created| == |names| == |deleted|
    ensures Quiet(LatencyRounds(names, image, selector, created, deleted))
  {
    LatencyLayout(names, image, selector, created, deleted);
  }

  /** After a quiet body, the statistics are printed exactly once, after
      every other call, for all the keys; the timings appear exactly when
      the flag is set. */
  lemma ReportedOnce(body: seq<Op>, keys: seq<string>, timings: bool)
    requires Quiet(body)
    ensures var ops := body + Closing(keys, timings);
      && ops[|body|] == PrintStats(keys)
      && (forall j :: 0 <= j < |ops| && ops[j].PrintStats? ==> j == |body|)
      && ((exists j :: 0 <= j < |ops| && ops[j].PrintTimings?) <==> timings)
  {
    var closing := Closing(keys, timings);
    var ops := body + closing;
    assert ops[|body|] == closing[0];
    if timings {
      assert ops[|body| + 1] == closing[1];
    }
    forall j | 0 <= j < |ops|
      ensures ops[j].PrintTimings? ==> timings
      ensures ops[j].PrintStats? ==> j == |body|
    {
      if j < |body| {
        assert ops[j] == body[j];
      } else {
        assert ops[j] == closing[j - |body|];
      }
    }
  }

  // ---------------------------------------------------------------------
  // deployment_scaling

  /** Lines 151-169: three timed phases, each a call and a wait for the
      replica count it asked for, then the deletion. */
  function DeploymentTrace(image: string, numInit: int, numTarget: int, name: string): seq<Op>
  {
    Timed(CREATION_TIMER, [CreateDeployment(image, numInit, name), WaitForRescale(name, numInit)])
      + Timed(SCALE_OUT_TIMER, [Rescale(name, numTarget), WaitForRescale(name, numTarget)])
      + Timed(SCALE_IN_TIMER, [Rescale(name, numInit), WaitForRescale(name, numInit)])
      + [DeleteDeployment(name)]
  }

  /** The calls of `ops`, timer boundaries dropped. */
  function Calls(ops: seq<Op>): (calls: seq<Op>)
    ensures |calls| <= |ops|
    ensures forall j :: 0 <= j < |calls| ==> !calls[j].TimerStart? && !calls[j].TimerStop?
  {
    if ops == [] then []
    else if ops[0].TimerStart? || ops[0].TimerStop? then Calls(ops[1..])
    else [ops[0]] + Calls(ops[1..])
  }

  /** The labels of the timed phases of `ops`, in the order they start. */
  function Phases(ops: seq<Op>): (timers: seq<string>)
    ensures |timers| <= |ops|
  {
    if ops == [] then []
    else if ops[0].TimerStart? then [ops[0].timer] + Phases(ops[1..])
    else Phases(ops[1..])
  }

  lemma {:induction false} CallsAppend(a: seq<Op>, b: seq<Op>)
    ensures Calls(a + b) == Calls(a) + Calls(b)
  {
    if a != [] {
      assert (a + b)[1..] == a[1..] + b;
      CallsAppend(a[1..], b);
    } else {
      assert a + b == b;
    }
  }

  lemma {:induction false} PhasesAppend(a: seq<Op>, b: seq<Op>)
    ensures Phases(a + b) == Phases(a) + Phases(b)
  {
    if a != [] {
      assert (a + b)[1..] == a[1..] + b;
      PhasesAppend(a[1..], b);
    } else {
      assert a + b == b;
    }
  }

  /** A timed block of two calls contributes those calls and its label. */
  lemma TimedPair(timer: string, first: Op, second: Op)
    requires !first.TimerStart? && !first.TimerStop? && !second.TimerStart? && !second.TimerStop?
    ensures Calls(Timed(timer, [first, second])) == [first, second]
    ensures Phases(Timed(timer, [first, second])) == [timer]
  {
    var ops := Timed(timer, [first, second]);
    assert ops == [TimerStart(timer), first, second, TimerStop(timer)];
    var rest := [TimerStop(timer)];
    assert rest[1..] == [];
    assert Calls(rest) == [] && Phases(rest) == [];
    assert ops[1..][1..] == [second] + rest;
    assert ops[1..][1..][1..] == rest;
    assert Calls(ops[1..][1..]) == [second];
    assert Calls(ops[1..]) == [first, second];
    assert Phases(ops[1..]) == [];
  }

  /** `deployment_scaling` makes exactly seven calls, in this order:
      create at the initial size, wait for it, scale to the target, wait,
      scale back, wait, delete; and it times creation, scale-out and
      scale-in, in that order. */
  lemma DeploymentOrder(image: string, numInit: int, numTarget: int, name: string)
    ensures Calls(DeploymentTrace(image, numInit, numTarget, name)) ==
      [ CreateDeployment(image, numInit, name), WaitForRescale(name, numInit),
        Rescale(name, numTarget), WaitForRescale(name, numTarget),
        Rescale(name, numInit), WaitForRescale(name, numInit),
        DeleteDeployment(name) ]
    ensures Phases(DeploymentTrace(image, numInit, numTarget, name)) ==
      [CREATION_TIMER, SCALE_OUT_TIMER, SCALE_IN_TIMER]
  {
    var creation := Timed(CREATION_TIMER, [CreateDeployment(image, numInit, name), WaitForRescale(name, numInit)]);
    var scaleOut := Timed(SCALE_OUT_TIMER, [Rescale(name, numTarget), WaitForRescale(name, numTarget)]);
    var scaleIn := Timed(SCALE_IN_TIMER, [Rescale(name, numInit), WaitForRescale(name, numInit)]);
    var deletion := [DeleteDeployment(name)];
    TimedPair(CREATION_TIMER, CreateDeployment(image, numInit, name), WaitForRescale(name, numInit));
    TimedPair(SCALE_OUT_TIMER, Rescale(name, numTarget), WaitForRescale(name, numTarget));
    TimedPair(SCALE_IN_TIMER, Rescale(name, numInit), WaitForRescale(name, numInit));
    assert Calls(deletion) == deletion && Phases(deletion) == [] by {
      assert deletion[1..] == [];
    }
    CallsAppend(creation, scaleOut);
    CallsAppend(creation + scaleOut, scaleIn);
    CallsAppend(creation + scaleOut + scaleIn, deletion);
    PhasesAppend(creation, scaleOut);
    PhasesAppend(creation + scaleOut, scaleIn);
    PhasesAppend(creation + scaleOut + scaleIn, deletion);
  }
}
