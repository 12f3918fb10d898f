/** The summary `main` logs for a list of durations: `min(...)`,
    `statistics.mean(...)` and `max(...)`. Durations are whole clock ticks
    and the mean is an exact real. */
module Stats {
  import opened Wrappers

  datatype Summary = Summary(min: int, mean: real, max: int)

  /** `min()` of an empty list raises ValueError before the mean is
      computed. */
  datatype StatsError = EmptySequence

  function Min(ds: seq<int>): (m: int)
    requires |ds| > 0
    ensures m in ds && forall d :: d in ds ==> m <= d
  {
    if |ds| == 1 then ds[0]
    else
      var rest := Min(ds[1..]);
      assert forall d :: d in ds ==> d == ds[0] || d in ds[1..];
      if ds[0] <= rest then ds[0] else rest
  }

  function Max(ds: seq<int>): (m: int)
    requires |ds| > 0
    ensures m in ds && forall d :: d in ds ==> d <= m
  {
    if |ds| == 1 then ds[0]
    else
      var rest := Max(ds[1..]);
      assert forall d :: d in ds ==> d == ds[0] || d in ds[1..];
      if ds[0] >= rest then ds[0] else rest
  }

  function Sum(ds: seq<int>): (s: int)
  {
    if ds == [] then 0 else ds[0] + Sum(ds[1..])
  }

  /** A lower bound on every term bounds the sum from below. */
  lemma {:induction false} SumAtLeast(ds: seq<int>, lo: int)
    requires forall d :: d in ds ==> lo <= d
    ensures |ds| * lo <= Sum(ds)
  {
    if ds != [] {
      assert ds[0] in ds;
      assert forall d :: d in ds[1..] ==> d in ds;
      SumAtLeast(ds[1..], lo);
      assert |ds| * lo == (|ds| - 1) * lo + lo;
    }
  }

  /** An upper bound on every term bounds the sum from above. */
  lemma {:induction false} SumAtMost(ds: seq<int>, hi: int)
    requires forall d :: d in ds ==> d <= hi
    ensures Sum(ds) <= |ds| * hi
  {
    if ds != [] {
      assert ds[0] in ds;
      assert forall d :: d in ds[1..] ==> d in ds;
      SumAtMost(ds[1..], hi);
      assert |ds| * hi == (|ds| - 1) * hi + hi;
    }
  }

  /** The arithmetic mean as an exact real. */
  function Mean(ds: seq<int>): (r: real)
    requires |ds| > 0
    ensures r * |ds| as real == Sum(ds) as real
  {
    Sum(ds) as real / |ds| as real
  }

  lemma Quotient(s: real, n: real, lo: real, hi: real)
    requires n > 0.0 && n * lo <= s <= n * hi
    ensures lo <= s / n <= hi
  {
    var q := s / n;
    assert q * n == s;
    assert (q - lo) * n == s - n * lo;
    assert (hi - q) * n == n * hi - s;
  }

  /** A mean lies between any lower and any upper bound of its terms. */
  lemma MeanBetween(ds: seq<int>, lo: int, hi: int)
    requires |ds| > 0
    requires forall d :: d in ds ==> lo <= d <= hi
    ensures lo as real <= Mean(ds) <= hi as real
  {
    var n := |ds|;
    SumAtLeast(ds, lo);
    SumAtMost(ds, hi);
    assert (n * lo) as real == n as real * lo as real;
    assert (n * hi) as real == n as real * hi as real;
    Quotient(Sum(ds) as real, n as real, lo as real, hi as real);
  }

  /** min, mean and max of a list of durations, or the error an empty list
      raises. */
  function Summarize(ds: seq<int>): (r: Result<Summary, StatsError>)
    ensures r.Failure? <==> ds == []
    ensures r.Success? ==>
      && r.value.min in ds && r.value.max in ds
      && (forall d :: d in ds ==> r.value.min <= d <= r.value.max)
      && r.value.mean == Mean(ds)
      && r.value.min as real <= r.value.mean <= r.value.max as real
  {
    if ds == [] then Failure(EmptySequence)
    else
      MeanBetween(ds, Min(ds), Max(ds));
      Success(Summary(Min(ds), Mean(ds), Max(ds)))
  }

  /** A single duration is its own minimum, mean and maximum. */
  lemma SingleDuration(d: int)
    ensures Summarize([d]) == Success(Summary(d, d as real, d))
  {
    assert Sum([d]) == d + Sum([]);
  }
}
