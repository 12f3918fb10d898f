/** The orchestrator as the benchmark sees it through its client library:
    a creation call hands back a name it has never handed out before, a
    deletion call is acknowledged. Network, authentication and the pod
    specification itself are outside this model. */
module Cluster {

  /** `generate_name` prefix of every benchmark pod. */
  const POD_PREFIX: string := "bench-"

  function DigitChar(d: nat): char
    requires d < 10
  {
    (48 + d) as char
  }

  /** Decimal spelling of a serial number. */
  function Decimal(n: nat): (s: string)
    ensures |s| >= 1
    ensures n >= 10 ==> |s| >= 2
  {
    if n < 10 then [DigitChar(n)] else Decimal(n / 10) + [DigitChar(n % 10)]
  }

  /** Different serial numbers are spelled differently. */
  lemma {:induction false} DecimalInjective(a: nat, b: nat)
    requires Decimal(a) == Decimal(b)
    ensures a == b
  {
    if a >= 10 && b >= 10 {
      var sa, sb := Decimal(a), Decimal(b);
      assert sa[..|sa| - 1] == Decimal(a / 10);
      assert sb[..|sb| - 1] == Decimal(b / 10);
      DecimalInjective(a / 10, b / 10);
      assert DigitChar(a % 10) == sa[|sa| - 1] == sb[|sb| - 1] == DigitChar(b % 10);
    }
  }

  /** The name the orchestrator assigns to the pod created `serial`-th. */
  function PodName(serial: nat): string
  {
    POD_PREFIX + Decimal(serial)
  }

  lemma PodNameInjective(a: nat, b: nat)
    requires PodName(a) == PodName(b)
    ensures a == b
  {
    assert PodName(a)[|POD_PREFIX|..] == Decimal(a);
    assert PodName(b)[|POD_PREFIX|..] == Decimal(b);
    DecimalInjective(a, b);
  }

  /** The client handle (`v1`): records every creation and deletion call. */
  class Api {
    /** Names handed out by creation calls, in call order. */
    var created: seq<string>
    /** Names passed to deletion calls, in call order. */
    var deleted: seq<string>

    ghost predicate Valid()
      reads this
    {
      forall i :: 0 <= i < |created| ==> created[i] == PodName(i)
    }

    constructor ()
      ensures Valid() && created == [] && deleted == []
    {
      created, deleted := [], [];
    }

    /** `create_namespaced_pod` with a generated name: the orchestrator
        answers with a name it has not given out before. */
    method CreatePod() returns (name: string)
      requires Valid()
      modifies this
      ensures Valid()
      ensures name !in old(created)
      ensures created == old(created) + [name] && deleted == old(deleted)
    {
      name := PodName(|created|);
      if name in created {
        var i :| 0 <= i < |created| && created[i] == name;
        PodNameInjective(i, |created|);
        assert false;
      }
      created := created + [name];
    }

    /** `delete_namespaced_pod`: the request is acknowledged; the pod goes
        away later, which only the watch stream reports. */
    method DeletePod(name: string)
      modifies this
      ensures Valid() <==> old(Valid())
      ensures created == old(created) && deleted == old(deleted) + [name]
    {
      deleted := deleted + [name];
    }
  }
}
