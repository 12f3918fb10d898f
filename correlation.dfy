/** The watch-stream correlation loop shared by `wait_for_startup` and
    `wait_for_cleanup`, stated on values: which names are still pending and
    which have been stamped, in order, after the loop has looked at a
    prefix of the event stream. The methods in module BenchPod are proved
    against these folds. */
module Correlation {
  import opened Wrappers

  /** Pod phase that completes start-up. */
  const RUNNING: string := "Running"
  /** Watch event type that completes clean-up. */
  const DELETED: string := "DELETED"

  /** One watch notification: `event["type"]`, the pod's
      `metadata.name` and its `status.phase` (None before the kubelet
      reports one). */
  datatype Event = Event(kind: string, name: string, phase: Option<string>)

  /** The two milestones a wait can stamp. */
  datatype Milestone = Startup | Cleanup

  /** The per-event test of each wait: start-up looks only at the phase,
      clean-up only at the event type. */
  predicate Satisfies(m: Milestone, e: Event)
  {
    match m
    case Startup => e.phase == Some(RUNNING)
    case Cleanup => e.kind == DELETED
  }

  /** True when the loop stamps the pod named by `e`. */
  predicate Matches(m: Milestone, pending: set<string>, e: Event)
  {
    e.name in pending && Satisfies(m, e)
  }

  /** One loop iteration on the pending set. */
  function Step(m: Milestone, pending: set<string>, e: Event): (p: set<string>)
    ensures p <= pending
    ensures forall k :: k != e.name ==> (k in p <==> k in pending)
    ensures e.name in p <==> e.name in pending && !Satisfies(m, e)
  {
    if Matches(m, pending, e) then pending - {e.name} else pending
  }

  /** The pending set after the loop has processed `es`, starting from
      `p0` (the keys of `pods`). */
  function Pending(m: Milestone, p0: set<string>, es: seq<Event>): (p: set<string>)
    ensures p <= p0
  {
    if es == [] then p0
    else Step(m, Pending(m, p0, es[..|es| - 1]), es[|es| - 1])
  }

  /** The names stamped while processing `es`, in stamping order. */
  function Stamped(m: Milestone, p0: set<string>, es: seq<Event>): (ss: seq<string>)
    ensures |ss| <= |es|
    ensures forall i :: 0 <= i < |ss| ==> ss[i] in p0
  {
    if es == [] then []
    else
      var prior, e := es[..|es| - 1], es[|es| - 1];
      Stamped(m, p0, prior) + (if Matches(m, Pending(m, p0, prior), e) then [e.name] else [])
  }

  predicate NoDuplicates(s: seq<string>)
  {
    forall i, j :: 0 <= i < j < |s| ==> s[i] != s[j]
  }

  /** Every name that starts pending is either stamped exactly once or
      still pending, never both: stamping is at most once per name, and the
      pending set is what is left of `p0` after the stamped names. */
  lemma {:induction false} StampedPartition(m: Milestone, p0: set<string>, es: seq<Event>)
    ensures Pending(m, p0, es) <= p0
    ensures NoDuplicates(Stamped(m, p0, es))
    ensures forall k :: k in Stamped(m, p0, es) <==> k in p0 && k !in Pending(m, p0, es)
    ensures |Stamped(m, p0, es)| + |Pending(m, p0, es)| == |p0|
  {
    if es != [] {
      var prior, e := es[..|es| - 1], es[|es| - 1];
      StampedPartition(m, p0, prior);
      var p := Pending(m, p0, prior);
      if Matches(m, p, e) {
        assert Stamped(m, p0, es) == Stamped(m, p0, prior) + [e.name];
        assert e.name !in Stamped(m, p0, prior);
      } else {
        assert Stamped(m, p0, es) == Stamped(m, p0, prior);
      }
    } else {
      assert Pending(m, p0, es) == p0;
    }
  }

  /** Processing one more event: the pending set and the stamped list
      change only when the event matches, and then by exactly that name. */
  lemma Extend(m: Milestone, p0: set<string>, es: seq<Event>, e: Event)
    ensures Pending(m, p0, es + [e]) == Step(m, Pending(m, p0, es), e)
    ensures Stamped(m, p0, es + [e]) ==
      Stamped(m, p0, es) + (if Matches(m, Pending(m, p0, es), e) then [e.name] else [])
  {
    assert (es + [e])[..|es|] == es;
  }

  /** Irrelevance filtering: an event for a name that is not pending, or
      one the milestone's test rejects, changes neither the pending set nor
      the stamped list. */
  lemma Ignored(m: Milestone, p0: set<string>, es: seq<Event>, e: Event)
    requires e.name !in Pending(m, p0, es) || !Satisfies(m, e)
    ensures Pending(m, p0, es + [e]) == Pending(m, p0, es)
    ensures Stamped(m, p0, es + [e]) == Stamped(m, p0, es)
  {
    Extend(m, p0, es, e);
  }

  /** Looking at more events never brings a name back: the pending set of
      a longer prefix is included in that of a shorter one. In particular,
      once empty it stays empty. */
  lemma {:induction false} PendingShrinks(m: Milestone, p0: set<string>, es: seq<Event>, i: nat)
    requires i <= |es|
    ensures Pending(m, p0, es) <= Pending(m, p0, es[..i])
    decreases |es| - i
  {
    if i < |es| {
      PendingShrinks(m, p0, es, i + 1);
      Extend(m, p0, es[..i], es[i]);
      assert es[..i] + [es[i]] == es[..i + 1];
    } else {
      assert es[..i] == es;
    }
  }

  /** If the pending set is still non-empty just before event `n - 1`,
      it was non-empty after every shorter prefix too: the first prefix
      that empties it is `es[..n]`. */
  lemma FirstEmpty(m: Milestone, p0: set<string>, es: seq<Event>, n: nat)
    requires 0 < n <= |es| && Pending(m, p0, es[..n - 1]) != {}
    ensures forall i :: 0 <= i < n ==> Pending(m, p0, es[..i]) != {}
  {
    forall i | 0 <= i < n
      ensures Pending(m, p0, es[..i]) != {}
    {
      PendingShrinks(m, p0, es[..n - 1], i);
      assert es[..n - 1][..i] == es[..i];
    }
  }

  /** Completeness: a name that starts pending and has at least one event
      passing the milestone's test is no longer pending after that event. */
  lemma {:induction false} Completeness(m: Milestone, p0: set<string>, es: seq<Event>, j: nat)
    requires j < |es| && Satisfies(m, es[j])
    ensures es[j].name !in Pending(m, p0, es)
  {
    var k := es[j].name;
    Extend(m, p0, es[..j], es[j]);
    assert es[..j] + [es[j]] == es[..j + 1];
    assert k !in Pending(m, p0, es[..j + 1]);
    PendingShrinks(m, p0, es, j + 1);
  }

  /** If every initially pending name has a passing event in `es`, the
      pending set is empty after `es` and all of `p0` has been stamped. */
  lemma AllSatisfied(m: Milestone, p0: set<string>, es: seq<Event>)
    requires forall k :: k in p0 ==> exists j :: 0 <= j < |es| && es[j].name == k && Satisfies(m, es[j])
    ensures Pending(m, p0, es) == {}
    ensures |Stamped(m, p0, es)| == |p0|
  {
    StampedPartition(m, p0, es);
    forall k | k in Pending(m, p0, es)
      ensures false
    {
      var j :| 0 <= j < |es| && es[j].name == k && Satisfies(m, es[j]);
      Completeness(m, p0, es, j);
    }
  }

  /** Every stamp is caused by a matching event: for each stamped name
      there is an event naming it that passes the milestone's test, at a
      point where that name was still pending. */
  lemma {:induction false} StampedHasCause(m: Milestone, p0: set<string>, es: seq<Event>, k: string)
    requires k in Stamped(m, p0, es)
    ensures exists j :: 0 <= j < |es| && es[j].name == k && Matches(m, Pending(m, p0, es[..j]), es[j])
  {
    var prior, e := es[..|es| - 1], es[|es| - 1];
    if k in Stamped(m, p0, prior) {
      StampedHasCause(m, p0, prior, k);
      var j :| 0 <= j < |prior| && prior[j].name == k && Matches(m, Pending(m, p0, prior[..j]), prior[j]);
      assert prior[..j] == es[..j];
    } else {
      assert es[..|es| - 1] == prior;
      assert e.name == k && Matches(m, Pending(m, p0, prior), e);
    }
  }

  /** With nothing pending at the start, nothing is ever stamped and the
      pending set never becomes non-empty: the loop has no removal after
      which to return. */
  lemma {:induction false} NothingPending(m: Milestone, es: seq<Event>)
    ensures Pending(m, {}, es) == {}
    ensures Stamped(m, {}, es) == []
  {
    if es != [] {
      NothingPending(m, es[..|es| - 1]);
    }
  }

  /** Start-up never consults the event type: two streams that agree on
      every event's name and phase leave the same pending set and stamp the
      same names. */
  lemma {:induction false} StartupIgnoresKind(p0: set<string>, es: seq<Event>, fs: seq<Event>)
    requires |es| == |fs|
    requires forall i :: 0 <= i < |es| ==> es[i].name == fs[i].name && es[i].phase == fs[i].phase
    ensures Pending(Startup, p0, es) == Pending(Startup, p0, fs)
    ensures Stamped(Startup, p0, es) == Stamped(Startup, p0, fs)
  {
    if es != [] {
      StartupIgnoresKind(p0, es[..|es| - 1], fs[..|fs| - 1]);
    }
  }

  /** Clean-up never consults the phase: two streams that agree on every
      event's type and name leave the same pending set and stamp the same
      names. */
  lemma {:induction false} CleanupIgnoresPhase(p0: set<string>, es: seq<Event>, fs: seq<Event>)
    requires |es| == |fs|
    requires forall i :: 0 <= i < |es| ==> es[i].name == fs[i].name && es[i].kind == fs[i].kind
    ensures Pending(Cleanup, p0, es) == Pending(Cleanup, p0, fs)
    ensures Stamped(Cleanup, p0, es) == Stamped(Cleanup, p0, fs)
  {
    if es != [] {
      CleanupIgnoresPhase(p0, es[..|es| - 1], fs[..|fs| - 1]);
    }
  }
}
