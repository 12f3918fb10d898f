/** The per-pod milestone record `PodLog` and the `pods` dictionary that
    maps each pod name to its record. */
module PodLogs {
  import opened Wrappers

  /** Milestone record of one pod. Timestamps are clock readings; None is
      the Python default until a milestone is stamped. */
  class PodLog {
    var name: string
    var createdAt: Option<int>
    var startedAt: Option<int>
    var deletedAt: Option<int>
    var exitedAt: Option<int>

    /** `PodLog(name=..., created_at=...)`, the only form the benchmark
        uses. */
    constructor (name: string, createdAt: int)
      ensures this.name == name && this.createdAt == Some(createdAt)
      ensures startedAt == None && deletedAt == None && exitedAt == None
    {
      this.name := name;
      this.createdAt := Some(createdAt);
      startedAt, deletedAt, exitedAt := None, None, None;
    }
  }

  /** No two names share one record object. */
  ghost predicate DistinctLogs(logs: map<string, PodLog>)
  {
    forall a, b :: a in logs && b in logs && a != b ==> logs[a] != logs[b]
  }

  /** A Python dict from pod name to record: keys in insertion order. */
  class PodTable {
    var keys: seq<string>
    var logs: map<string, PodLog>

    ghost predicate Valid()
      reads this
    {
      && (forall i, j :: 0 <= i < j < |keys| ==> keys[i] != keys[j])
      && (forall k :: k in logs <==> k in keys)
      && DistinctLogs(logs)
    }

    /** `pods = {}` */
    constructor ()
      ensures Valid() && keys == [] && logs == map[]
    {
      keys, logs := [], map[];
    }

    /** `pods.values()`, in key order. */
    function Values(): (vs: seq<PodLog>)
      reads this
      requires Valid()
      ensures |vs| == |keys|
      ensures forall i :: 0 <= i < |keys| ==> vs[i] == logs[keys[i]]
    {
      var ks, ls := keys, logs;
      seq(|ks|, i requires 0 <= i < |ks| && ks[i] in ls => ls[ks[i]])
    }

    /** `pods[name] = log`: a new key goes to the end; an existing key
        keeps its position and gets the new record. */
    method Put(name: string, log: PodLog)
      requires Valid()
      requires forall k :: k in logs && k != name ==> logs[k] != log
      modifies this
      ensures Valid()
      ensures logs == old(logs)[name := log]
      ensures keys == if name in old(logs) then old(keys) else old(keys) + [name]
    {
      if name !in logs {
        keys := keys + [name];
      }
      logs := logs[name := log];
    }
  }
}
