/** A monotonic clock: successive readings never decrease. */
module Clocks {
  class Clock {
    var now: real

    constructor ()
    {
      now := 0.0;
    }

    method Monotonic() returns (t: real)
      modifies this
      ensures old(now) <= t == now
    {
      var d: real :| d >= 0.0;
      now := now + d;
      t := now;
    }
  }
}
