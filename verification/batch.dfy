/** The distance-cull batch kernel: flag each of count points (stored as
    consecutive x, y, z triples) as visible when its squared distance to a
    reference point is within a bound, and return how many were flagged. */
module DistanceCull {

  /** Squared distance from point i of the packed buffer to (rx, ry, rz). */
  function DistSq(positions: seq<real>, i: int, rx: real, ry: real, rz: real): real
    requires 0 <= i && 3 * i + 3 <= |positions|
  {
    var dx := positions[3 * i] - rx;
    var dy := positions[3 * i + 1] - ry;
    var dz := positions[3 * i + 2] - rz;
    dx * dx + dy * dy + dz * dz
  }

  /** The flag value the loop writes for point i: 1 inside the bound. */
  function Flag(positions: seq<real>, i: int, rx: real, ry: real, rz: real, maxDistSq: real): (f: real)
    requires 0 <= i && 3 * i + 3 <= |positions|
    ensures f == 1.0 <==> DistSq(positions, i, rx, ry, rz) <= maxDistSq
    ensures f == 0.0 <==> DistSq(positions, i, rx, ry, rz) > maxDistSq
  {
    if DistSq(positions, i, rx, ry, rz) <= maxDistSq then 1.0 else 0.0
  }

  /** Number of entries of s equal to 1. */
  function Ones(s: seq<real>): nat
  {
    if |s| == 0 then 0 else Ones(s[..|s| - 1]) + (if s[|s| - 1] == 1.0 then 1 else 0)
  }

  /** batchDistanceCull_c: flags[i] is 1 exactly when point i is within the
      bound and 0 otherwise, for every i below count; the result is the
      number of ones among those flags, so it lies in [0, count]; flags past
      count keep their values. The positions are only read. */
  method BatchDistanceCull(positions: seq<real>, flags: seq<real>, count: int,
                           rx: real, ry: real, rz: real, maxDistSq: real)
    returns (flags': seq<real>, visible: int)
    requires 3 * count <= |positions| && count <= |flags|
    ensures |flags'| == |flags|
    ensures forall i :: 0 <= i < count ==>
      (flags'[i] == 1.0 <==> DistSq(positions, i, rx, ry, rz) <= maxDistSq) &&
      (flags'[i] == 0.0 <==> DistSq(positions, i, rx, ry, rz) > maxDistSq)
    ensures forall i :: 0 <= i < |flags| && i >= count ==> flags'[i] == flags[i]
    ensures count >= 0 ==> visible == Ones(flags'[..count])
    ensures 0 <= visible && (count >= 0 ==> visible <= count)
    ensures count <= 0 ==> visible == 0 && flags' == flags
  {
    flags' := flags;
    visible := 0;
    var i := 0;
    while i < count
      invariant 0 <= i && (count >= 0 ==> i <= count)
      invariant count < 0 ==> i == 0
      invariant |flags'| == |flags|
      invariant forall m :: 0 <= m < i ==> flags'[m] == Flag(positions, m, rx, ry, rz, maxDistSq)
      invariant forall m :: i <= m < |flags| ==> flags'[m] == flags[m]
      invariant visible == Ones(flags'[..i]) && visible <= i
    {
      var f := Flag(positions, i, rx, ry, rz, maxDistSq);
      assert flags'[..i + 1][..i] == flags'[..i];
      flags' := flags'[i := f];
      assert flags'[..i + 1][..i] == flags'[..i];
      if f == 1.0 {
        visible := visible + 1;
      }
      i := i + 1;
    }
  }
}
