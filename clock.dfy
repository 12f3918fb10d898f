/** The monotonic clock (`time.monotonic()`), as an abstract tick counter. */
module Clock {

  class MonotonicClock {
    /** The last reading handed out. */
    var now: int
    /** Every reading handed out, in order. */
    ghost var readings: seq<int>

    constructor (start: int)
      ensures now == start && readings == []
    {
      now := start;
      readings := [];
    }

    /** Reads the clock. The body advances by one tick; callers may rely
        only on the contract: a reading is never below an earlier one, and
        each call is one more reading. */
    method Monotonic() returns (t: int)
      modifies this
      ensures old(now) <= t && now == t
      ensures readings == old(readings) + [t]
    {
      now := now + 1;
      t := now;
      readings := readings + [t];
    }
  }
}
