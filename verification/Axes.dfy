/** Lists of axes, as a caller gives them: which axes they name, and which they leave. */
module Axes {
  /** `axis` is axis `x` of `rank` axes; a negative one is counted from the end, -1 being the
      last. */
  ghost predicate Names(axis: int, rank: nat, x: int) {
    0 <= x < rank && (x == axis || rank - x == -axis)
  }

  ghost predicate Named(axes: seq<int>, rank: nat, x: int) {
    exists i :: 0 <= i < |axes| && Names(axes[i], rank, x)
  }

  /** How many axes before `x` are not named. */
  ghost function FreeBelow(axes: seq<int>, rank: nat, x: nat): nat {
    if x == 0 then 0 else FreeBelow(axes, rank, x - 1) + if Named(axes, rank, x - 1) then 0 else 1
  }

  lemma {:induction false} FreeBelowGrows(axes: seq<int>, rank: nat, x: nat, y: nat)
    requires x <= y
    ensures FreeBelow(axes, rank, x) <= FreeBelow(axes, rank, y)
    ensures x < y && !Named(axes, rank, x) ==> FreeBelow(axes, rank, x) < FreeBelow(axes, rank, y)
  {
    if x < y {
      FreeBelowGrows(axes, rank, x, y - 1);
    }
  }

  /** Every number below the count is that of an axis. */
  lemma {:induction false} NthFree(axes: seq<int>, rank: nat, n: nat, d: nat) returns (x: nat)
    requires d < FreeBelow(axes, rank, n)
    ensures x < n && !Named(axes, rank, x) && FreeBelow(axes, rank, x) == d
  {
    if d < FreeBelow(axes, rank, n - 1) {
      x := NthFree(axes, rank, n - 1, d);
    } else {
      x := n - 1;
    }
  }

  /** The values of `s` at the axes that are not named, in ascending order of these. */
  ghost predicate Remaining(r: seq<int>, s: seq<int>, axes: seq<int>) {
    && |r| == FreeBelow(axes, |s|, |s|)
    && forall x :: 0 <= x < |s| && !Named(axes, |s|, x) ==>
         FreeBelow(axes, |s|, x) < |r| && r[FreeBelow(axes, |s|, x)] == s[x]
  }

  /** The coordinate with `k` at the named axes and `u`, in order, at the others. */
  ghost function Mixed(axes: seq<int>, rank: nat, u: seq<int>, k: seq<int>): (c: seq<int>)
    requires |k| == |axes| && |u| >= FreeBelow(axes, rank, rank)
    ensures |c| == rank
  {
    seq(rank, x requires 0 <= x < rank =>
      if Named(axes, rank, x) then
        var i :| 0 <= i < |axes| && Names(axes[i], rank, x);
        k[i]
      else
        FreeBelowGrows(axes, rank, x, rank);
        u[FreeBelow(axes, rank, x)])
  }

  /** The size of a named axis. */
  ghost function SizeAt(shape: seq<int>, axis: int): int
    requires -|shape| <= axis < |shape|
  {
    if axis >= 0 then shape[axis] else shape[|shape| - (-axis)]
  }
}
