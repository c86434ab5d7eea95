/** Captured packets and the time arithmetic of src/Utils.cpp. */
module Packets {

  datatype TimeSpec = TimeSpec(sec: int, nsec: int)

  /** A packet already attributed to a device; signedLen is negative for received packets. */
  datatype Packet = Packet(deviceId: nat, signedLen: int, hash5tuple: nat, stamp: TimeSpec)

  const NANOS := 1_000_000_000

  const ZERO_STAMP := TimeSpec(0, 0)

  /** The normal form every captured timestamp has. */
  predicate Normal(t: TimeSpec) {
    0 <= t.nsec < NANOS
  }

  function Nanos(t: TimeSpec): int {
    t.sec * NANOS + t.nsec
  }

  /** Whole seconds from start to end, rounded down also when end is the earlier one. */
  function FloorDuration(end: TimeSpec, start: TimeSpec): (r: int)
    ensures Normal(end) && Normal(start) ==> r * NANOS <= Nanos(end) - Nanos(start) < (r + 1) * NANOS
  {
    var sec := end.sec - start.sec;
    var nsec := end.nsec - start.nsec;
    if nsec < 0 then sec - 1 else sec
  }

  /** Two hops of floor less than x and y make a hop of floor less than x + y. */
  lemma FloorChainsStrictly(a: TimeSpec, b: TimeSpec, c: TimeSpec, x: int, y: int)
    requires Normal(a) && Normal(b) && Normal(c)
    requires FloorDuration(b, a) < x && FloorDuration(c, b) < y
    ensures FloorDuration(c, a) < x + y
  {
    var r := FloorDuration(c, a);
    assert r * NANOS < (x + y) * NANOS;
  }
}
