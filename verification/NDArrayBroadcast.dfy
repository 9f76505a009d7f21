/** Combining two arrays of different shapes. */
module NDArrayBroadcast {
  import opened Shapes
  import opened NDArrays
  import opened NDArrayTile

  // ---------------------------------------------------------------- shapes

  /** The last `rank` entries. */
  function Tail(s: seq<int>, rank: nat): (r: seq<int>)
    requires rank <= |s|
    ensures |r| == rank
  {
    s[|s| - rank..]
  }

  /** Aligned at the last axis, sizes agree or one of them is 1. */
  predicate Broadcastable(a: seq<int>, b: seq<int>)
    requires |b| <= |a|
  {
    forall i :: 0 <= i < |b| ==> Tail(a, |b|)[i] == b[i] || Tail(a, |b|)[i] == 1 || b[i] == 1
  }

  /** The shape of the result: the larger size of each aligned pair. */
  function BroadcastShape(a: seq<int>, b: seq<int>): (r: seq<int>)
    requires |b| <= |a|
    ensures |r| == |a|
  {
    seq(|a|, d requires 0 <= d < |a| =>
      var i := d - (|a| - |b|);
      if i >= 0 && a[d] < b[i] then b[i] else a[d])
  }

  /** Stretching axes of size 1, and putting axes in front, makes `t` out of `s`. */
  ghost predicate Stretches(s: seq<int>, t: seq<int>) {
    |s| <= |t| && forall i :: 0 <= i < |s| ==> s[i] == t[|t| - |s| + i] || s[i] == 1
  }

  /** `t` is the least shape both can be stretched to: it can itself be stretched to every
      other one. Not all shapes have one. */
  ghost predicate LeastCommon(t: seq<int>, a: seq<int>, b: seq<int>) {
    && Stretches(a, t) && Stretches(b, t)
    && forall u :: Stretches(a, u) && Stretches(b, u) ==> Stretches(t, u)
  }

  /** If there is any common shape the least one is the shape of the result; and there is one
      exactly for shapes that broadcast. */
  lemma BroadcastIsLeast(a: seq<int>, b: seq<int>, t: seq<int>)
    requires |b| <= |a| && Positive(a) && Positive(b)
    ensures LeastCommon(t, a, b) <==> Broadcastable(a, b) && t == BroadcastShape(a, b)
    ensures (exists u :: Stretches(a, u) && Stretches(b, u)) <==> Broadcastable(a, b)
    ensures LeastCommon(t, a, b) <==> LeastCommon(t, b, a)
  {
    if Broadcastable(a, b) {
      var r := BroadcastShape(a, b);
      LeastIs(a, b);
      if LeastCommon(t, a, b) {
        StretchBoth(r, t);
      }
    }
    forall u | Stretches(a, u) && Stretches(b, u) ensures Broadcastable(a, b) {
      forall i | 0 <= i < |b| ensures Tail(a, |b|)[i] == b[i] || Tail(a, |b|)[i] == 1 || b[i] == 1 {
        assert a[|a| - |b| + i] == u[|u| - |b| + i] || a[|a| - |b| + i] == 1;
      }
    }
  }

  lemma LeastIs(a: seq<int>, b: seq<int>)
    requires |b| <= |a| && Positive(a) && Positive(b) && Broadcastable(a, b)
    ensures LeastCommon(BroadcastShape(a, b), a, b)
  {
    hide BroadcastShape, Broadcastable, Tail;
    var r := BroadcastShape(a, b);
    var gap := |a| - |b|;
    forall d | 0 <= d < |a|
      ensures (a[d] == r[d] || a[d] == 1) && (r[d] == a[d] || (d >= gap && r[d] == b[d - gap]))
    {
      LeastAxis(a, b, d);
    }
    forall i | 0 <= i < |b| ensures b[i] == r[gap + i] || b[i] == 1 {
      LeastAxis(a, b, gap + i);
    }
    forall u | Stretches(a, u) && Stretches(b, u) ensures Stretches(r, u) {
      StretchesToo(a, b, r, u);
    }
  }

  lemma LeastAxis(a: seq<int>, b: seq<int>, d: nat)
    requires |b| <= |a| && Positive(a) && Positive(b) && Broadcastable(a, b) && d < |a|
    ensures var (r, i) := (BroadcastShape(a, b)[d], d - (|a| - |b|));
            (a[d] == r || a[d] == 1) && (r == a[d] || (i >= 0 && r == b[i])) && (i >= 0 ==> b[i] == r || b[i] == 1)
  {
    BroadcastAxis(a, b, d);
  }

  lemma StretchesToo(a: seq<int>, b: seq<int>, r: seq<int>, u: seq<int>)
    requires |b| <= |a| == |r| && Stretches(a, u) && Stretches(b, u)
    requires forall d :: 0 <= d < |a| ==> r[d] == a[d] || (d >= |a| - |b| && r[d] == b[d - (|a| - |b|)])
    ensures Stretches(r, u)
  {
    forall d | 0 <= d < |r| ensures r[d] == u[|u| - |r| + d] || r[d] == 1 {
      if d >= |a| - |b| {
        var i := d - (|a| - |b|);
        assert b[i] == u[|u| - |b| + i] || b[i] == 1;
      }
    }
  }

  lemma StretchBoth(s: seq<int>, t: seq<int>)
    requires Stretches(s, t) && Stretches(t, s)
    ensures s == t
  {
  }

  /** How often each axis of `s` is repeated to reach the aligned axis of `t`. */
  function Repeats(t: seq<int>, s: seq<int>): (r: seq<int>)
    requires |s| <= |t| && Positive(s)
    ensures |r| == |s|
  {
    seq(|s|, i requires 0 <= i < |s| => Tail(t, |s|)[i] / s[i])
  }

  /** Every axis of `t` is a multiple of the aligned axis of `s`. */
  predicate MultipleOf(t: seq<int>, s: seq<int>)
    requires |s| <= |t| && Positive(s)
  {
    forall i :: 0 <= i < |s| ==> Tail(t, |s|)[i] % s[i] == 0
  }

  lemma RepeatOnce(t: int, s: int)
    requires s >= 1 && t >= 1
    ensures t / s >= 0 && (s * (t / s) == t <==> t % s == 0) && (t % s == 0 ==> t / s >= 1)
    ensures t / s >= 1 && t % s != 0 ==> s * (t / s) >= 2
  {
    assert t == s * (t / s) + t % s;
    if t / s >= 1 && t % s != 0 {
      assert s >= 2;
      MulMono(1, t / s, s);
    }
  }

  /** Repeating reaches a shape if and only if it is a multiple. */
  lemma RepeatsReach(t: seq<int>, s: seq<int>)
    requires |s| <= |t| && Positive(t) && Positive(s)
    ensures forall i :: 0 <= i < |s| ==> Repeats(t, s)[i] >= 0
    ensures |TileShape(s, Repeats(t, s))| == |s|
    ensures MultipleOf(t, s) <==> Positive(Repeats(t, s)) && TileShape(s, Repeats(t, s)) == Tail(t, |s|)
    ensures Positive(Repeats(t, s)) ==> forall i :: 0 <= i < |s| ==>
              TileShape(s, Repeats(t, s))[i] == Tail(t, |s|)[i] || TileShape(s, Repeats(t, s))[i] >= 2
  {
    var reps, tail := Repeats(t, s), Tail(t, |s|);
    assert Extend(s, |s|) == s && Extend(reps, |s|) == reps;
    forall i | 0 <= i < |s|
      ensures reps[i] >= 0 && TileShape(s, reps)[i] == s[i] * reps[i]
      ensures s[i] * reps[i] == tail[i] <==> tail[i] % s[i] == 0
      ensures tail[i] % s[i] == 0 ==> reps[i] >= 1
      ensures reps[i] >= 1 && tail[i] % s[i] != 0 ==> s[i] * reps[i] >= 2
    {
      RepeatOnce(tail[i], s[i]);
    }
  }

  /** For shapes that broadcast the result is a multiple of both. */
  lemma BroadcastMultiple(a: seq<int>, b: seq<int>)
    requires |b| <= |a| && Positive(a) && Positive(b) && Broadcastable(a, b)
    ensures var t := BroadcastShape(a, b); Positive(t) && MultipleOf(t, a) && MultipleOf(t, b)
  {
    var t := BroadcastShape(a, b);
    forall d | 0 <= d < |a| ensures t[d] >= 1 && Tail(t, |a|)[d] % a[d] == 0 {
      BroadcastAxis(a, b, d);
      OneOrSame(t[d], a[d]);
    }
    forall i | 0 <= i < |b| ensures Tail(t, |b|)[i] % b[i] == 0 {
      BroadcastAxis(a, b, |a| - |b| + i);
      OneOrSame(Tail(t, |b|)[i], b[i]);
    }
  }

  lemma OneOrSame(t: int, s: int)
    requires s >= 1 && (t == s || s == 1)
    ensures t % s == 0
  {
  }

  lemma BroadcastAxis(a: seq<int>, b: seq<int>, d: nat)
    requires |b| <= |a| && Positive(a) && Positive(b) && Broadcastable(a, b) && d < |a|
    ensures var (x, i) := (BroadcastShape(a, b)[d], d - (|a| - |b|));
            x >= 1 && (x == a[d] || a[d] == 1) && (i >= 0 ==> x == b[i] || b[i] == 1)
  {
    var i := d - (|a| - |b|);
    assert i >= 0 ==> Tail(a, |b|)[i] == b[i] || Tail(a, |b|)[i] == 1 || b[i] == 1;
  }

  // ---------------------------------------------------------------- axes of equal size

  /** The axes of `t`, ascending, that have the size of the aligned one of the first `n`
      axes of `y`. */
  function SameUpTo(t: seq<int>, y: seq<int>, n: nat): (axes: seq<int>)
    requires n <= |y| <= |t|
    ensures Inside(axes, |t|)
  {
    if n == 0 then []
    else SameUpTo(t, y, n - 1) + if Tail(t, |y|)[n - 1] == y[n - 1] then [|t| - |y| + n - 1] else []
  }

  function SameAxes(t: seq<int>, y: seq<int>): (axes: seq<int>)
    requires |y| <= |t|
    ensures Inside(axes, |t|)
  {
    SameUpTo(t, y, |y|)
  }

  method GetDimsWithSameShape(t: seq<int>, y: seq<int>) returns (axes: seq<int>)
    requires |y| <= |t|
    ensures axes == SameAxes(t, y)
  {
    axes := [];
    for i := 0 to |y|
      invariant axes == SameUpTo(t, y, i)
    {
      if y[i] == t[|t| - |y| + i] {
        axes := axes + [|t| - |y| + i];
      }
    }
  }

  lemma {:induction false} SameAll(t: seq<int>, y: seq<int>, n: nat)
    requires n <= |y| <= |t| && forall i :: 0 <= i < n ==> Tail(t, |y|)[i] == y[i]
    ensures |SameUpTo(t, y, n)| == n && forall i :: 0 <= i < n ==> SameUpTo(t, y, n)[i] == |t| - |y| + i
  {
    if n > 0 {
      SameAll(t, y, n - 1);
    }
  }

  /** If all aligned sizes agree, picking those axes is taking the tail. */
  lemma SameIsTail(t: seq<int>, y: seq<int>, c: seq<int>)
    requires |y| <= |t| == |c| && Tail(t, |y|) == y
    ensures Gather(SameAxes(t, y), c) == Tail(c, |y|)
  {
    SameAll(t, y, |y|);
  }

  lemma GatherGrows(p: seq<int>, x: int, s: seq<int>)
    requires Inside(p + [x], |s|)
    ensures Inside(p, |s|) && 0 <= x < |s| && Prod(Gather(p + [x], s)) == Prod(Gather(p, s)) * s[x]
  {
    assert 0 <= (p + [x])[|p|] < |s|;
    forall d | 0 <= d < |p| ensures 0 <= p[d] < |s| {
      assert (p + [x])[d] == p[d];
    }
    assert Gather(p + [x], s) == Gather(p, s) + [s[x]];
    ProdSplit(Gather(p, s), [s[x]]);
    ProdOne(s[x]);
  }

  lemma ProdOne(x: int)
    ensures Prod([x]) == x
  {
    assert [x][1..] == [] && Prod([x]) == x * Prod([]);
  }

  /** Sizes that differ make the aligned part longer than the part of equal sizes. */
  lemma {:induction false} SameLengthUpTo(t: seq<int>, y: seq<int>, n: nat)
    requires n <= |y| <= |t| && Positive(t) && Positive(y)
    requires forall i :: 0 <= i < |y| ==> Tail(t, |y|)[i] == y[i] || y[i] >= 2
    ensures Prod(y[..n]) >= Prod(Gather(SameUpTo(t, y, n), t)) >= 1
    ensures Prod(y[..n]) == Prod(Gather(SameUpTo(t, y, n), t)) <==> forall i :: 0 <= i < n ==> Tail(t, |y|)[i] == y[i]
  {
    hide Prod, Gather, SameUpTo;
    if n == 0 {
      NoAxes(t, y);
    } else {
      SameLengthUpTo(t, y, n - 1);
      SameStep(t, y, n);
      StepCompares(Prod(y[..n - 1]), Prod(Gather(SameUpTo(t, y, n - 1), t)), y[n - 1]);
    }
  }

  lemma SameStep(t: seq<int>, y: seq<int>, n: nat)
    requires 0 < n <= |y| <= |t|
    ensures Prod(y[..n]) == Prod(y[..n - 1]) * y[n - 1]
    ensures Prod(Gather(SameUpTo(t, y, n), t)) == Prod(Gather(SameUpTo(t, y, n - 1), t))
                                                 * if Tail(t, |y|)[n - 1] == y[n - 1] then y[n - 1] else 1
  {
    hide Prod, Gather;
    assert y[..n] == y[..n - 1] + [y[n - 1]];
    ProdSplit(y[..n - 1], [y[n - 1]]);
    ProdOne(y[n - 1]);
    if Tail(t, |y|)[n - 1] == y[n - 1] {
      GatherGrows(SameUpTo(t, y, n - 1), |t| - |y| + n - 1, t);
    } else {
      assert SameUpTo(t, y, n) == SameUpTo(t, y, n - 1);
    }
  }

  lemma StepCompares(p: int, q: int, x: int)
    requires p >= q >= 1 && x >= 1
    ensures p * x >= q * x >= 1 && (p * x == q * x <==> p == q)
    ensures x >= 2 ==> p * x > q
  {
    MulMono(q, p, x);
    MulMono(1, q, x);
    if p > q {
      MulMono(q + 1, p, x);
    }
    if x >= 2 {
      MulMono(2, x, p);
    }
  }

  lemma NoAxes(t: seq<int>, y: seq<int>)
    requires |y| <= |t|
    ensures Prod(y[..0]) == 1 && Prod(Gather(SameUpTo(t, y, 0), t)) == 1
  {
    assert y[..0] == [] && Gather(SameUpTo(t, y, 0), t) == [];
  }

  /** So they make the lengths differ. */
  lemma SameLength(t: seq<int>, y: seq<int>)
    requires |y| <= |t| && Positive(t) && Positive(y)
    requires forall i :: 0 <= i < |y| ==> Tail(t, |y|)[i] == y[i] || y[i] >= 2
    ensures Prod(y) == Prod(Gather(SameAxes(t, y), t)) <==> y == Tail(t, |y|)
    ensures y == Tail(t, |y|) ==> y == Gather(SameAxes(t, y), t)
  {
    SameLengthUpTo(t, y, |y|);
    assert y[..|y|] == y;
    if y == Tail(t, |y|) {
      SameIsTail(t, y, t);
    }
  }

  // ---------------------------------------------------------------- applyBroadcast

  /** The axes in ascending order. */
  function Sorted(dims: seq<int>, n: nat): (axes: seq<int>)
    ensures Inside(axes, n)
  {
    if n == 0 then [] else Sorted(dims, n - 1) + if n - 1 in dims then [n - 1] else []
  }

  /** They are the axes given, ascending; and no other list is. */
  lemma {:induction false} SortedAscends(dims: seq<int>, n: nat)
    ensures Ascending(Sorted(dims, n), n)
    ensures forall x :: x in Sorted(dims, n) <==> x in dims && 0 <= x < n
  {
    if n > 0 {
      SortedAscends(dims, n - 1);
    }
  }

  /** One element of a broadcast. */
  method BroadcastElement(target: NDArray, axes: seq<int>, y: NDArray, op: (real, real) -> real, i: int)
    requires target.Valid() && target.Distinct() && y.Valid() && y.buffer != target.buffer
    requires Inside(axes, |target.shape|) && y.shape == Gather(axes, target.shape) && 0 <= i < target.Length()
    modifies target.buffer
    ensures forall c :: InBox(target.shape, c) ==>
              InBox(y.shape, Gather(axes, c))
              && target.At(c) == if CIndex(target.shape, c) == i then op(old(target.At(c)), y.At(Gather(axes, c)))
                                 else old(target.At(c))
  {
    hide Prod, Dot, CUnravel, CIndex, NDArray.Cell;
    CIndexUnravel(target.shape, i);
    var c := Ind2subC(target.shape, i);
    var at := GetOffset(y.offset, y.shape, y.strides, Gather(axes, c));
    CellIs(y, Gather(axes, c), at);
    var v := target.Get(i);
    target.Put(i, op(v, y.buffer[at]));
    forall d | InBox(target.shape, d) ensures CIndex(target.shape, d) == i <==> d == c {
      CUnravelIndex(target.shape, d);
    }
  }

  lemma CellIs(y: NDArray, c: seq<int>, at: int)
    requires y.Valid() && InBox(y.shape, c) && at == y.offset + Dot(c, y.strides)
    ensures at == y.Cell(c)
  {
  }

  /** applyBroadcast along some axes of the target, in any order: nothing happens for none,
      and another length is refused. */
  method ApplyBroadcast(target: NDArray, dims: seq<int>, y: NDArray, op: (real, real) -> real) returns (ok: bool)
    requires target.Valid() && target.Distinct() && y.Valid() && y.buffer != target.buffer
    requires Inside(dims, |target.shape|) && forall d, e :: 0 <= d < e < |dims| ==> dims[d] != dims[e]
    requires var sizes := Gather(Sorted(dims, |target.shape|), target.shape); y.Length() == Prod(sizes) ==>
             y.shape == sizes
    modifies target.buffer
    ensures var axes := Sorted(dims, |target.shape|);
            && (ok <==> dims == [] || y.Length() == Prod(Gather(axes, target.shape)))
            && (ok && dims != [] ==> forall c :: InBox(target.shape, c) ==>
                  InBox(y.shape, Gather(axes, c)) && target.At(c) == op(old(target.At(c)), y.At(Gather(axes, c))))
    ensures !ok || dims == [] ==> target.buffer[..] == old(target.buffer[..])
    ensures !ok || dims == [] ==> forall c :: InBox(target.shape, c) ==> target.At(c) == old(target.At(c))
  {
    if dims == [] {
      return true;
    }
    var axes := SortedAxes(dims, |target.shape|);
    ProdPositive(target.shape);
    if Prod(Gather(axes, target.shape)) != y.Length() {
      return false;
    }
    hide Prod, Dot, CIndex, NDArray.Cell, NDArray.Distinct, Gather;
    for i := 0 to Prod(target.shape)
      invariant forall c :: InBox(target.shape, c) ==>
                  InBox(y.shape, Gather(axes, c))
                  && target.At(c) == if 0 <= CIndex(target.shape, c) < i then op(old(target.At(c)), y.At(Gather(axes, c)))
                                     else old(target.At(c))
    {
      BroadcastElement(target, axes, y, op, i);
    }
    forall c | InBox(target.shape, c) ensures 0 <= CIndex(target.shape, c) < Prod(target.shape) {
      CIndexRange(target.shape, c);
    }
    return true;
  }

  method SortedAxes(dims: seq<int>, n: nat) returns (axes: seq<int>)
    ensures axes == Sorted(dims, n)
  {
    axes := [];
    for i := 0 to n
      invariant axes == Sorted(dims, i)
    {
      if i in dims {
        axes := axes + [i];
      }
    }
  }

  predicate Ascending(axes: seq<int>, n: nat) {
    Inside(axes, n) && forall d, e :: 0 <= d < e < |axes| ==> axes[d] < axes[e]
  }

  lemma {:induction false} SameAscend(t: seq<int>, y: seq<int>, n: nat)
    requires n <= |y| <= |t|
    ensures Ascending(SameUpTo(t, y, n), |t| - |y| + n)
  {
    if n > 0 {
      SameAscend(t, y, n - 1);
    }
  }

  /** They are the axes whose size is that of the aligned one, and no others. */
  lemma {:induction false} SameAreAligned(t: seq<int>, y: seq<int>, n: nat)
    requires n <= |y| <= |t|
    ensures forall x :: x in SameUpTo(t, y, n) <==>
              |t| - |y| <= x < |t| - |y| + n && t[x] == y[x - (|t| - |y|)]
  {
    if n > 0 {
      SameAreAligned(t, y, n - 1);
    }
  }

  lemma {:induction false} AscendingCount(axes: seq<int>, n: nat)
    requires Ascending(axes, n)
    ensures |axes| <= n
    decreases |axes|
  {
    if axes != [] {
      var m := |axes| - 1;
      AscendingCount(axes[..m], axes[m]);
    }
  }

  lemma {:induction false} SortedSame(axes: seq<int>, n: nat)
    requires Ascending(axes, n)
    ensures Sorted(axes, n) == axes
  {
    hide Ascending;
    AscendingCount(axes, n);
    if n > 0 {
      var m := |axes| - 1;
      AscendingEnd(axes, n);
      if axes != [] && axes[m] == n - 1 {
        SortedSame(axes[..m], n - 1);
        LastSorted(axes[..m], n - 1);
      } else {
        SortedSame(axes, n - 1);
      }
    }
  }

  lemma AscendingEnd(axes: seq<int>, n: nat)
    requires Ascending(axes, n) && n > 0
    ensures var m := |axes| - 1;
            if axes != [] && axes[m] == n - 1 then Ascending(axes[..m], n - 1) && axes == axes[..m] + [n - 1]
            else Ascending(axes, n - 1) && n - 1 !in axes
  {
    var m := |axes| - 1;
    forall d | 0 <= d < m ensures axes[d] < n - 1 {
      assert axes[d] < axes[m];
    }
  }

  lemma LastSorted(front: seq<int>, x: nat)
    ensures x in front + [x] && Sorted(front + [x], x) == Sorted(front, x)
  {
    assert (front + [x])[|front|] == x;
    forall z | 0 <= z < x ensures z in front + [x] <==> z in front {
    }
    SameSorted(front + [x], front, x);
  }

  lemma {:induction false} SameSorted(a: seq<int>, b: seq<int>, n: nat)
    requires forall x :: 0 <= x < n ==> (x in a <==> x in b)
    ensures Sorted(a, n) == Sorted(b, n)
  {
    if n > 0 {
      SameSorted(a, b, n - 1);
    }
  }

  // ---------------------------------------------------------------- reading operands

  lemma WrapTail(shape: seq<int>, c: seq<int>)
    requires Positive(shape) && |shape| <= |c|
    ensures Wrap(shape, Tail(c, |shape|)) == Wrap(shape, c)
  {
  }

  lemma WrapSame(shape: seq<int>, c: seq<int>)
    requires Positive(shape) && InBox(shape, c)
    ensures Wrap(shape, c) == c
  {
  }

  lemma TailInBox(shape: seq<int>, c: seq<int>, rank: nat)
    requires InBox(shape, c) && rank <= |shape|
    ensures |c| == |shape| && InBox(Tail(shape, rank), Tail(c, rank))
  {
  }

  /** The coordinate of an operand that is read for `c`: the wrapped one, or, when the
      operand is tiled, the one at the linear index tiling takes. */
  function From(shape: seq<int>, strides: seq<int>, tiled: bool, c: seq<int>): (r: seq<int>)
    requires Positive(shape) && |strides| == |shape| <= |c|
    ensures |r| == |shape|
  {
    if tiled then CUnravel(shape, Dot(Wrap(shape, c), strides)) else Wrap(shape, c)
  }

  /** The operand has to be tiled to reach the last axes of `t`. */
  predicate IsTiled(t: seq<int>, shape: seq<int>)
    requires |shape| <= |t|
  {
    shape != Tail(t, |shape|)
  }

  lemma {:induction false} UnravelBack(shape: seq<int>, k: int)
    requires Positive(shape) && shape != []
    ensures CIndex(shape, CUnravel(shape, k)) == k
  {
    var rest := shape[1..];
    ProdPositive(rest);
    assert k == k / Prod(rest) * Prod(rest) + k % Prod(rest);
    if rest == [] {
      assert Prod(rest) == 1;
    } else {
      UnravelBack(rest, k % Prod(rest));
    }
  }

  /** An operand that is tiled is read right for every coordinate if and only if it is
      row-major; one that is not tiled always is. */
  lemma FromIsWrapIff(shape: seq<int>, strides: seq<int>, t: seq<int>)
    requires Positive(shape) && Positive(t) && |strides| == |shape| <= |t| && MultipleOf(t, shape)
    ensures (forall c :: InBox(t, c) ==> From(shape, strides, IsTiled(t, shape), c) == Wrap(shape, c))
            <==> (IsTiled(t, shape) ==> RowMajor(shape, strides))
  {
    hide Prod, Dot, CUnravel, CIndex, Wrap, RowMajor;
    var tiled := IsTiled(t, shape);
    if tiled ==> RowMajor(shape, strides) {
      forall c | InBox(t, c) ensures From(shape, strides, tiled, c) == Wrap(shape, c) {
        FromIsWrap(shape, strides, tiled, c);
      }
    }
    if tiled && forall c :: InBox(t, c) ==> From(shape, strides, tiled, c) == Wrap(shape, c) {
      forall m | InBox(shape, m) ensures Dot(m, strides) == CIndex(shape, m) {
        var c := seq(|t| - |shape|, _ => 0) + m;
        InsideMultiple(t, shape, m);
        assert From(shape, strides, tiled, c) == m;
        UnravelBack(shape, Dot(m, strides));
      }
      RowMajorIf(shape, strides);
    }
  }

  lemma RowMajorIf(shape: seq<int>, strides: seq<int>)
    requires |strides| == |shape| && forall c :: InBox(shape, c) ==> Dot(c, strides) == CIndex(shape, c)
    ensures RowMajor(shape, strides)
  {
  }

  lemma InsideMultiple(t: seq<int>, shape: seq<int>, m: seq<int>)
    requires Positive(shape) && Positive(t) && |shape| <= |t| && MultipleOf(t, shape) && InBox(shape, m)
    ensures var c := seq(|t| - |shape|, _ => 0) + m; InBox(t, c) && Wrap(shape, c) == m
  {
    var z := seq(|t| - |shape|, _ => 0);
    forall d | 0 <= d < |t| ensures 0 <= (z + m)[d] < t[d] {
      var i := d - |z|;
      if i >= 0 {
        RepeatOnce(Tail(t, |shape|)[i], shape[i]);
        MulMono(1, Tail(t, |shape|)[i] / shape[i], shape[i]);
      }
    }
    WrapBehind(shape, z, m);
  }

  lemma FromIsWrap(shape: seq<int>, strides: seq<int>, tiled: bool, c: seq<int>)
    requires Positive(shape) && |strides| == |shape| <= |c| && (tiled ==> RowMajor(shape, strides))
    ensures InBox(shape, Wrap(shape, c)) && From(shape, strides, tiled, c) == Wrap(shape, c)
  {
    hide Prod, Dot, CUnravel, CIndex, Wrap;
    WrapInside(shape, c);
    CIndexRange(shape, Wrap(shape, c));
    CUnravelIndex(shape, Wrap(shape, c));
  }

  // ---------------------------------------------------------------- applyTrueBroadcast

  /** The operand of higher or equal rank spread over the target. */
  method SpreadMax(max: NDArray, target: NDArray) returns (ok: bool)
    requires max.Valid() && target.Valid() && target.Distinct() && target.buffer != max.buffer
    requires |max.shape| == |target.shape|
    modifies target.buffer
    ensures !IsTiled(target.shape, max.shape) || RowMajor(max.shape, max.strides) ==> ok
    ensures ok ==> forall c :: InBox(target.shape, c) ==>
              var x := From(max.shape, max.strides, IsTiled(target.shape, max.shape), c);
              InBox(max.shape, x) && target.At(c) == max.At(x)
  {
    hide Prod, Dot, CUnravel, NDArray.Cell, NDArray.Distinct, RowMajor, Wrap, Copied;
    assert Tail(target.shape, |max.shape|) == target.shape;
    if max.shape != target.shape {
      ok := FillTiled(max, target);
    } else {
      ok := Assign(target, max);
      forall c | InBox(target.shape, c)
        ensures var x := From(max.shape, max.strides, false, c); InBox(max.shape, x) && target.At(c) == max.At(x)
      {
        WrapSame(max.shape, c);
      }
    }
  }

  /** The operand of lower rank repeated towards the last axes of the target; null if a
      repetition count is zero or tiling runs out of it. */
  method SpreadMin(min: NDArray, t: seq<int>) returns (y: NDArray?)
    requires min.Valid() && Positive(t) && |min.shape| <= |t|
    ensures !Positive(Repeats(t, min.shape)) ==> y == null
    ensures Positive(Repeats(t, min.shape)) && (RowMajor(min.shape, min.strides) || !IsTiled(t, min.shape)) ==>
            y != null
    ensures y != null ==> (y == min || fresh(y.buffer)) && y.Valid()
                          && y.shape == TileShape(min.shape, Repeats(t, min.shape))
    ensures y != null && MultipleOf(t, min.shape) ==>
              && y.shape == Tail(t, |min.shape|)
              && forall c :: InBox(y.shape, c) ==>
                   var from := From(min.shape, min.strides, IsTiled(t, min.shape), c);
                   InBox(min.shape, from) && y.At(c) == min.At(from)
  {
    RepeatsReach(t, min.shape);
    var repeatMin := Repeats(t, min.shape);
    var product := Product(repeatMin);
    NoTiling(t, min.shape);
    hide Prod, Dot, CUnravel, NDArray.Cell, NDArray.Distinct, RowMajor, Wrap, TileShape, Repeats, MultipleOf, TileRead;
    if product != 1 {
      y := Tile(min, repeatMin);
      if y != null && MultipleOf(t, min.shape) {
        forall c | InBox(y.shape, c)
          ensures var from := From(min.shape, min.strides, true, c); InBox(min.shape, from) && y.At(c) == min.At(from)
        {
          TiledFrom(min, y, c);
        }
      }
    } else {
      y := min;
      forall c | InBox(min.shape, c) ensures Wrap(min.shape, c) == c {
        WrapSame(min.shape, c);
      }
    }
  }

  lemma TiledFrom(min: NDArray, y: NDArray, c: seq<int>)
    requires min.Valid() && y.Valid() && InBox(y.shape, c) && |min.shape| <= |c| && TileRead(min, y, c)
    ensures var from := From(min.shape, min.strides, true, c); InBox(min.shape, from) && y.At(c) == min.At(from)
  {
    hide Prod, Dot, CUnravel, Wrap;
  }

  /** Counts of one leave the shape alone, and only they do for a multiple. */
  lemma NoTiling(t: seq<int>, shape: seq<int>)
    requires |shape| <= |t| && Positive(t) && Positive(shape)
    ensures !IsTiled(t, shape) ==> MultipleOf(t, shape) && Positive(Repeats(t, shape)) && Prod(Repeats(t, shape)) == 1
    ensures Positive(Repeats(t, shape)) && Prod(Repeats(t, shape)) == 1 ==>
              TileShape(shape, Repeats(t, shape)) == shape && (MultipleOf(t, shape) ==> !IsTiled(t, shape))
    ensures (forall i :: 0 <= i < |shape| ==> Repeats(t, shape)[i] >= 0) && Prod(Repeats(t, shape)) == 1 ==>
              Positive(Repeats(t, shape))
  {
    hide Prod;
    var reps := Repeats(t, shape);
    ProdZero(reps);
    if !IsTiled(t, shape) {
      OnesProd(reps);
    }
    if Positive(reps) && Prod(reps) == 1 {
      ProdOnes(reps);
      OnesShape(shape, reps);
      assert Extend(shape, |shape|) == shape;
      if MultipleOf(t, shape) {
        RepeatsReach(t, shape);
      }
    }
  }

  /** How a broadcast ends: refused before anything is written; stopped after the target has
      been filled from the first operand, because the second does not fit it; stopped by an
      index outside an operand that had to be tiled; or done. */
  datatype Broadcast = Refused | Stopped | RanOut | Done

  /** No operand has to be tiled unless it is row-major. */
  ghost predicate ReadsPlainly(a: NDArray, b: NDArray, t: seq<int>)
    requires |a.strides| == |a.shape| <= |t| && |b.strides| == |b.shape| <= |t|
  {
    && (IsTiled(t, a.shape) ==> RowMajor(a.shape, a.strides))
    && (IsTiled(t, b.shape) ==> RowMajor(b.shape, b.strides))
  }

  /** Repeating the operand as often as it fits leaves no axis of the target's size. */
  predicate NoAxisFits(t: seq<int>, s: seq<int>)
    requires |s| <= |t| && Positive(s)
  {
    Positive(Repeats(t, s)) && forall i :: 0 <= i < |s| ==> Tail(t, |s|)[i] % s[i] != 0
  }

  /** Every element of the target is the op of the elements read from the operand of higher
      rank and the other one, in this order - or the former alone, if the latter has no axes
      or none that fits. */
  ghost predicate Combined(max: NDArray, min: NDArray, target: NDArray, op: (real, real) -> real)
    requires max.Valid() && min.Valid() && target.Valid() && |min.shape| <= |max.shape| == |target.shape|
    reads max.buffer, min.buffer, target.buffer
  {
    forall c :: InBox(target.shape, c) ==>
      var x := From(max.shape, max.strides, IsTiled(target.shape, max.shape), c);
      var y := From(min.shape, min.strides, IsTiled(target.shape, min.shape), c);
      && InBox(max.shape, x)
      && (MultipleOf(target.shape, min.shape) ==> InBox(min.shape, y))
      && target.At(c) == if min.shape == [] || !MultipleOf(target.shape, min.shape) then max.At(x)
                         else op(max.At(x), min.At(y))
  }

  /** The coordinate of an array that stands for `c` after stretching: 0 on axes of size 1. */
  ghost function Under(s: seq<int>, c: seq<int>): (r: seq<int>)
    requires |s| <= |c|
    ensures |r| == |s|
  {
    seq(|s|, i requires 0 <= i < |s| => if s[i] == 1 then 0 else c[|c| - |s| + i])
  }

  /** `this` has the higher rank, `other` has axes, and an array with an axis that has to be
      stretched is row-major. */
  ghost predicate PlainlyUnder(a: NDArray, other: NDArray, t: seq<int>)
    requires |a.strides| == |a.shape| && |other.strides| == |other.shape|
  {
    && other.shape != [] && |other.shape| <= |a.shape| == |t|
    && ((exists i :: 0 <= i < |a.shape| && a.shape[i] != t[i]) ==> RowMajor(a.shape, a.strides))
    && ((exists i :: 0 <= i < |other.shape| && other.shape[i] != t[|t| - |other.shape| + i]) ==>
          RowMajor(other.shape, other.strides))
  }

  /** this[c] op other[c], at the coordinates that stand for `c`. */
  ghost predicate CombinedUnder(a: NDArray, other: NDArray, target: NDArray, op: (real, real) -> real)
    requires a.Valid() && other.Valid() && target.Valid() && |other.shape| <= |a.shape| <= |target.shape|
    reads a.buffer, other.buffer, target.buffer
  {
    forall c :: InBox(target.shape, c) ==>
      && InBox(a.shape, Under(a.shape, c)) && InBox(other.shape, Under(other.shape, c))
      && target.At(c) == op(a.At(Under(a.shape, c)), other.At(Under(other.shape, c)))
  }

  lemma UnderIsWrap(s: seq<int>, t: seq<int>, c: seq<int>)
    requires Positive(s) && Stretches(s, t) && InBox(t, c)
    ensures Under(s, c) == Wrap(s, c) && InBox(s, Under(s, c))
  {
    forall i | 0 <= i < |s| ensures Under(s, c)[i] == c[|c| - |s| + i] % s[i] && 0 <= Under(s, c)[i] < s[i] {
    }
  }

  lemma StretchMultiple(s: seq<int>, t: seq<int>)
    requires Positive(s) && Stretches(s, t)
    ensures MultipleOf(t, s)
    ensures IsTiled(t, s) <==> exists i :: 0 <= i < |s| && s[i] != t[|t| - |s| + i]
  {
    forall i | 0 <= i < |s| ensures Tail(t, |s|)[i] % s[i] == 0 {
    }
  }

  /** The condition of `BroadcastRightIff`, said of the axes. */
  lemma UnderPlainly(a: NDArray, other: NDArray, t: seq<int>)
    requires a.Valid() && other.Valid() && Stretches(a.shape, t) && Stretches(other.shape, t) && |a.shape| == |t|
    ensures MultipleOf(t, a.shape) && MultipleOf(t, other.shape)
    ensures PlainlyUnder(a, other, t) <==>
              other.shape != [] && |other.shape| <= |a.shape| && ReadsPlainly(a, other, t)
  {
    hide RowMajor, MultipleOf, IsTiled, Stretches;
    ShapesOf(a);
    ShapesOf(other);
    StretchMultiple(a.shape, t);
    StretchMultiple(other.shape, t);
    hide NDArray.Valid;
  }

  lemma UnderCombined(a: NDArray, other: NDArray, target: NDArray, op: (real, real) -> real)
    requires a.Valid() && other.Valid() && target.Valid() && PlainlyUnder(a, other, target.shape)
    requires Stretches(a.shape, target.shape) && Stretches(other.shape, target.shape)
    requires Combined(a, other, target, op)
    ensures CombinedUnder(a, other, target, op)
  {
    hide RowMajor, Dot, CUnravel, Wrap, NDArray.Cell, NDArray.At, Under, IsTiled;
    var t := target.shape;
    UnderPlainly(a, other, t);
    forall c | InBox(t, c)
      ensures InBox(a.shape, Under(a.shape, c)) && InBox(other.shape, Under(other.shape, c))
      ensures target.At(c) == op(a.At(Under(a.shape, c)), other.At(Under(other.shape, c)))
    {
      UnderIsWrap(a.shape, t, c);
      UnderIsWrap(other.shape, t, c);
      FromIsWrap(a.shape, a.strides, IsTiled(t, a.shape), c);
      FromIsWrap(other.shape, other.strides, IsTiled(t, other.shape), c);
    }
  }

  /** applyTrueBroadcast. With the check it is refused exactly when the target's shape is not
      the least one that both arrays can be stretched to, without it when the target is no
      multiple of the operand of higher rank. */
  method ApplyTrueBroadcast(a: NDArray, other: NDArray, target: NDArray, op: (real, real) -> real,
                            checkTargetShape: bool)
    returns (r: Broadcast)
    requires a.Valid() && other.Valid() && target.Valid() && target.Distinct()
    requires target.buffer != a.buffer && target.buffer != other.buffer
    modifies target.buffer
    ensures var (max, min) := if |a.shape| >= |other.shape| then (a, other) else (other, a);
            && (checkTargetShape ==>
                  (r.Refused? <==> !LeastCommon(target.shape, a.shape, other.shape)))
            && (!checkTargetShape ==>
                  (r.Refused? <==> |target.shape| != |max.shape| || !MultipleOf(target.shape, max.shape)))
            && (!r.Refused? ==> |min.shape| <= |max.shape| == |target.shape|)
            && (!r.Refused? && ReadsPlainly(max, min, target.shape) ==>
                  (r.Done? <==> MultipleOf(target.shape, min.shape) || NoAxisFits(target.shape, min.shape)))
            && (checkTargetShape && !r.Refused? ==> MultipleOf(target.shape, min.shape) && !r.Stopped?)
            && (r.Done? ==> Combined(max, min, target, op))
    ensures checkTargetShape && LeastCommon(target.shape, a.shape, other.shape)
            && PlainlyUnder(a, other, target.shape) ==>
              r.Done? && CombinedUnder(a, other, target, op)
    ensures r.Refused? ==> target.buffer[..] == old(target.buffer[..])
  {
    var max, min := a, other;
    if |a.shape| < |other.shape| {
      max, min := other, a;
    }
    BroadcastIsLeast(max.shape, min.shape, target.shape);
    if checkTargetShape {
      if !Broadcastable(max.shape, min.shape) || target.shape != BroadcastShape(max.shape, min.shape) {
        return Broadcast.Refused;
      }
      BroadcastMultiple(max.shape, min.shape);
    }
    if |target.shape| != |max.shape| {
      return Broadcast.Refused;
    }
    RepeatsReach(target.shape, max.shape);
    if !Fits(target.shape, max.shape) {
      return Broadcast.Refused;
    }
    r := Combine(max, min, target, op);
    if checkTargetShape && PlainlyUnder(a, other, target.shape) {
      UnderPlainly(a, other, target.shape);
      UnderCombined(a, other, target, op);
    }
  }

  /** What the tile into the target demands: no count of zero, and the right shape. */
  predicate Fits(t: seq<int>, s: seq<int>)
    requires |s| == |t| && Positive(s)
  {
    Positive(Repeats(t, s)) && TileShape(s, Repeats(t, s)) == Tail(t, |s|)
  }

  /** The sizes the repeated operand has. */
  lemma FitCases(t: seq<int>, s: seq<int>)
    requires |s| <= |t| && Positive(t) && Positive(s)
    ensures |TileShape(s, Repeats(t, s))| == |s| && (NoAxisFits(t, s) ==> Positive(Repeats(t, s)))
    ensures MultipleOf(t, s) ==> Positive(Repeats(t, s))
    ensures Positive(Repeats(t, s)) ==>
              var y := TileShape(s, Repeats(t, s));
              && Positive(y) && (forall i :: 0 <= i < |y| ==> Tail(t, |y|)[i] == y[i] || y[i] >= 2)
              && (MultipleOf(t, s) <==> y == Tail(t, |y|))
              && (NoAxisFits(t, s) <==> forall i :: 0 <= i < |y| ==> Tail(t, |y|)[i] != y[i])
  {
    hide TileShape, Repeats, Tail;
    RepeatsReach(t, s);
    if Positive(Repeats(t, s)) {
      TilePositive(s, Repeats(t, s));
      forall i | 0 <= i < |s| ensures Tail(t, |s|)[i] == TileShape(s, Repeats(t, s))[i] <==>
          Tail(t, |s|)[i] % s[i] == 0 {
        AxisFits(t, s, i);
      }
    }
  }

  lemma AxisFits(t: seq<int>, s: seq<int>, i: nat)
    requires |s| <= |t| && Positive(t) && Positive(s) && i < |s|
    ensures |TileShape(s, Repeats(t, s))| == |s|
    ensures Tail(t, |s|)[i] == TileShape(s, Repeats(t, s))[i] <==> Tail(t, |s|)[i] % s[i] == 0
  {
    var reps := Repeats(t, s);
    assert Extend(s, |s|) == s && Extend(reps, |s|) == reps;
    RepeatOnce(Tail(t, |s|)[i], s[i]);
  }

  lemma {:induction false} NoneSame(t: seq<int>, y: seq<int>, n: nat)
    requires n <= |y| <= |t|
    ensures SameUpTo(t, y, n) == [] <==> forall i :: 0 <= i < n ==> Tail(t, |y|)[i] != y[i]
  {
    hide SameUpTo, Tail;
    SameUnfold(t, y, n);
    if n > 0 {
      NoneSame(t, y, n - 1);
    }
  }

  lemma SameUnfold(t: seq<int>, y: seq<int>, n: nat)
    requires n <= |y| <= |t|
    ensures SameUpTo(t, y, n) == if n == 0 then []
                                 else SameUpTo(t, y, n - 1) + if Tail(t, |y|)[n - 1] == y[n - 1] then [|t| - |y| + n - 1] else []
  {
  }

  /** What the broadcast needs to know of the axes it is called with. */
  lemma AxesReady(t: seq<int>, y: seq<int>)
    requires |y| <= |t| && Positive(t) && Positive(y)
    requires forall i :: 0 <= i < |y| ==> Tail(t, |y|)[i] == y[i] || y[i] >= 2
    ensures var dims := SameAxes(t, y);
            && (forall d, e :: 0 <= d < e < |dims| ==> dims[d] != dims[e]) && Sorted(dims, |t|) == dims
            && (Prod(y) == Prod(Gather(dims, t)) <==> y == Tail(t, |y|))
            && (y == Tail(t, |y|) ==> y == Gather(dims, t))
            && (dims == [] <==> forall i :: 0 <= i < |y| ==> Tail(t, |y|)[i] != y[i])
  {
    hide Prod;
    SameLength(t, y);
    SameAscend(t, y, |y|);
    SortedSame(SameAxes(t, y), |t|);
    NoneSame(t, y, |y|);
  }

  /** The three steps. */
  method Combine(max: NDArray, min: NDArray, target: NDArray, op: (real, real) -> real) returns (r: Broadcast)
    requires max.Valid() && min.Valid() && target.Valid() && target.Distinct()
    requires target.buffer != max.buffer && target.buffer != min.buffer
    requires |min.shape| <= |max.shape| == |target.shape|
    modifies target.buffer
    ensures !r.Refused?
    ensures ReadsPlainly(max, min, target.shape) ==>
              (r.Done? <==> MultipleOf(target.shape, min.shape) || NoAxisFits(target.shape, min.shape))
    ensures MultipleOf(target.shape, min.shape) ==> !r.Stopped?
    ensures r.Done? ==> Combined(max, min, target, op)
  {
    hide Prod, Dot, CUnravel, NDArray.Cell, NDArray.Distinct, NDArray.At, RowMajor, Wrap, TileShape, Repeats, InBox,
      From, MultipleOf, Combined;
    FitCases(target.shape, min.shape);
    NoTiling(target.shape, min.shape);
    var ok := SpreadMax(max, target);
    if !ok {
      return RanOut;
    }
    var y := SpreadMin(min, target.shape);
    if y == null {
      return if Positive(Repeats(target.shape, min.shape)) then RanOut else Stopped;
    }
    ok := OpOnto(max, min, target, y, op);
    return if ok then Done else Stopped;
  }

  method OpOnto(max: NDArray, min: NDArray, target: NDArray, y: NDArray, op: (real, real) -> real) returns (ok: bool)
    requires max.Valid() && min.Valid() && y.Valid() && target.Valid() && target.Distinct()
    requires target.buffer != max.buffer && target.buffer != min.buffer && target.buffer != y.buffer
    requires |min.shape| <= |max.shape| == |target.shape|
    requires Positive(Repeats(target.shape, min.shape))
             && y.shape == TileShape(min.shape, Repeats(target.shape, min.shape))
    requires forall c :: InBox(target.shape, c) ==>
               var x := From(max.shape, max.strides, IsTiled(target.shape, max.shape), c);
               InBox(max.shape, x) && target.At(c) == max.At(x)
    requires MultipleOf(target.shape, min.shape) ==> forall c :: InBox(y.shape, c) && |min.shape| <= |c| ==>
               var from := From(min.shape, min.strides, IsTiled(target.shape, min.shape), c);
               InBox(min.shape, from) && y.At(c) == min.At(from)
    modifies target.buffer
    ensures ok <==> MultipleOf(target.shape, min.shape) || NoAxisFits(target.shape, min.shape)
    ensures ok ==> Combined(max, min, target, op)
  {
    hide Prod, Dot, CUnravel, NDArray.Cell, NDArray.Distinct, NDArray.At, RowMajor, Wrap, TileShape, Repeats,
      From, MultipleOf, Gather, SameAxes, NoAxisFits, Tail, IsTiled;
    FitCases(target.shape, min.shape);
    AxesReady(target.shape, y.shape);
    var dims := GetDimsWithSameShape(target.shape, y.shape);
    if MultipleOf(target.shape, min.shape) {
      AlignedReads(min, y, target.shape);
    }
    ok := ApplyBroadcast(target, dims, y, op);
    NoneIsAll(target.shape, y.shape);
  }

  lemma NoneIsAll(t: seq<int>, y: seq<int>)
    requires |y| <= |t|
    ensures y == Tail(t, |y|) ==> ((forall i :: 0 <= i < |y| ==> Tail(t, |y|)[i] != y[i]) <==> y == [])
  {
    if y != [] && y == Tail(t, |y|) {
      assert Tail(t, |y|)[0] == y[0];
    }
  }

  /** For every coordinate the repeated operand holds, at the picked axes, what is read. */
  lemma AlignedReads(min: NDArray, y: NDArray, t: seq<int>)
    requires min.Valid() && y.Valid() && |min.shape| == |y.shape| <= |t| && y.shape == Tail(t, |y.shape|)
    requires forall c :: InBox(y.shape, c) && |min.shape| <= |c| ==>
               var from := From(min.shape, min.strides, IsTiled(t, min.shape), c);
               InBox(min.shape, from) && y.At(c) == min.At(from)
    ensures forall c :: InBox(t, c) && |c| == |t| ==>
              var from := From(min.shape, min.strides, IsTiled(t, min.shape), c);
              && InBox(min.shape, from) && InBox(y.shape, Gather(SameAxes(t, y.shape), c))
              && y.At(Gather(SameAxes(t, y.shape), c)) == min.At(from)
  {
    hide Prod, Dot, CUnravel, NDArray.Cell, NDArray.At, From, Gather, SameAxes;
    forall c | InBox(t, c)
      ensures var from := From(min.shape, min.strides, IsTiled(t, min.shape), c);
              && InBox(min.shape, from) && InBox(y.shape, Gather(SameAxes(t, y.shape), c))
              && y.At(Gather(SameAxes(t, y.shape), c)) == min.At(from)
    {
      SameIsTail(t, y.shape, c);
      TailInBox(t, c, |y.shape|);
      FromTail(min.shape, min.strides, IsTiled(t, min.shape), c);
    }
  }

  lemma FromTail(shape: seq<int>, strides: seq<int>, tiled: bool, c: seq<int>)
    requires Positive(shape) && |strides| == |shape| <= |c|
    ensures From(shape, strides, tiled, Tail(c, |shape|)) == From(shape, strides, tiled, c)
  {
    hide Prod, Dot, CUnravel, Wrap;
    WrapTail(shape, c);
  }

  // ---------------------------------------------------------------- when the broadcast is right

  /** Any contents of the two arrays, as functions of the coordinate. */
  type Contents = seq<int> -> real

  /** What ApplyTrueBroadcast leaves at `c` for shapes that pass its check. */
  function Outcome(a: NDArray, other: NDArray, t: seq<int>, va: Contents, vb: Contents, op: (real, real) -> real,
      c: seq<int>): real
    requires Positive(a.shape) && |a.strides| == |a.shape| <= |c| == |t|
    requires Positive(other.shape) && |other.strides| == |other.shape| <= |c|
  {
    var x := va(From(a.shape, a.strides, IsTiled(t, a.shape), c));
    var y := vb(From(other.shape, other.strides, IsTiled(t, other.shape), c));
    if |a.shape| >= |other.shape| then if other.shape == [] then x else op(x, y)
    else if a.shape == [] then y else op(y, x)
  }

  /** That is the outcome of the method. */
  lemma CombinedIsOutcome(a: NDArray, other: NDArray, target: NDArray, op: (real, real) -> real,
                          va: Contents, vb: Contents, c: seq<int>)
    requires a.Valid() && other.Valid() && target.Valid() && InBox(target.shape, c)
    requires |a.shape| <= |c| && |other.shape| <= |c|
    requires forall x :: InBox(a.shape, x) ==> va(x) == a.At(x)
    requires forall y :: InBox(other.shape, y) ==> vb(y) == other.At(y)
    ensures var (max, min) := if |a.shape| >= |other.shape| then (a, other) else (other, a);
            |max.shape| == |target.shape| && MultipleOf(target.shape, min.shape) && Combined(max, min, target, op) ==>
              target.At(c) == Outcome(a, other, target.shape, va, vb, op, c)
  {
    hide Prod, Dot, CUnravel, Wrap, From, MultipleOf, NDArray.Cell, NDArray.At;
  }

  /** The contents of an array whose buffer holds `s`. */
  function HeldBy(x: NDArray, s: seq<real>): Contents {
    c => if |c| == |x.strides| && 0 <= x.Cell(c) < |s| then s[x.Cell(c)] else 0.0
  }

  /** Whatever the two buffers hold and the op is, each element is the op of the broadcast
      ones. */
  ghost predicate RightEverywhere(a: NDArray, other: NDArray, t: seq<int>)
    requires a.Valid() && other.Valid() && |a.shape| <= |t| && |other.shape| <= |t|
  {
    forall sA: seq<real>, sB: seq<real>, op: (real, real) -> real, c: seq<int> |
      |sA| == a.buffer.Length && |sB| == other.buffer.Length && InBox(t, c) ::
      RightAt(a, other, t, HeldBy(a, sA), HeldBy(other, sB), op, c)
  }

  /** No operand is read outside its elements, and the element at `c` is the op of the
      broadcast ones. */
  ghost predicate RightAt(a: NDArray, other: NDArray, t: seq<int>, va: Contents, vb: Contents,
      op: (real, real) -> real, c: seq<int>)
    requires a.Valid() && other.Valid() && |a.shape| <= |c| == |t| && |other.shape| <= |c|
  {
    && InBox(a.shape, From(a.shape, a.strides, IsTiled(t, a.shape), c))
    && InBox(other.shape, From(other.shape, other.strides, IsTiled(t, other.shape), c))
    && Outcome(a, other, t, va, vb, op, c) == op(va(Wrap(a.shape, c)), vb(Wrap(other.shape, c)))
  }

  /** For arrays with distinct cells in buffers of their own, every element is the op of the
      broadcast elements, whatever the buffers hold and the op is, if and only if `other` has
      axes but no more than `this`, and no operand has to be tiled without being row-major. */
  lemma BroadcastRightIff(a: NDArray, other: NDArray, t: seq<int>)
    requires a.Valid() && other.Valid() && Positive(t) && |a.shape| <= |t| && |other.shape| <= |t|
    requires a.Distinct() && other.Distinct() && MultipleOf(t, a.shape) && MultipleOf(t, other.shape)
    ensures |a.shape| >= |other.shape| && other.shape != [] && ReadsPlainly(a, other, t) ==>
            RightEverywhere(a, other, t)
    ensures a.buffer != other.buffer ==>
              (RightEverywhere(a, other, t) <==> |a.shape| >= |other.shape| && other.shape != [] && ReadsPlainly(a, other, t))
  {
    hide Prod, Dot, CUnravel, Wrap, From, MultipleOf, RowMajor, NDArray.Valid, NDArray.Distinct, RightEverywhere, Outcome,
      IsTiled;
    ShapesOf(a);
    ShapesOf(other);
    FromIsWrapIff(a.shape, a.strides, t);
    FromIsWrapIff(other.shape, other.strides, t);
    if |a.shape| >= |other.shape| && other.shape != [] {
      if ReadsPlainly(a, other, t) {
        RightIfPlain(a, other, t);
      } else if RightEverywhere(a, other, t) {
        PlainIfRight(a, other, t);
      }
    } else if |a.shape| < |other.shape| {
      OperandsSwappedWrong(a, other, t);
      Applied(a, other, t, Minus, Zeros(|t|));
    } else {
      OtherIgnoredWrong(a, other, t);
      Applied(a, other, t, Plus, Zeros(|t|));
    }
  }

  /** The same from the shapes alone, for a target of the least common shape: every element is
      this[c] op other[c], whatever the two hold and the op is, if and only if `this` has the
      higher rank, `other` has axes, and no array is stretched without being row-major. */
  lemma StretchedRightIff(a: NDArray, other: NDArray, t: seq<int>)
    requires a.Valid() && other.Valid() && a.Distinct() && other.Distinct() && a.buffer != other.buffer
    requires |a.shape| >= |other.shape| && LeastCommon(t, a.shape, other.shape)
    ensures AlwaysUnder(a, other, t) <==> PlainlyUnder(a, other, t)
  {
    hide RowMajor, Dot, CUnravel, Wrap, NDArray.Cell, NDArray.Distinct, Under, Outcome, From, HeldBy, AlwaysUnder, RightEverywhere;
    BroadcastIsLeast(a.shape, other.shape, t);
    BroadcastMultiple(a.shape, other.shape);
    UnderPlainly(a, other, t);
    BroadcastRightIff(a, other, t);
    UnderEverywhere(a, other, t);
  }

  lemma UnderEverywhere(a: NDArray, other: NDArray, t: seq<int>)
    requires a.Valid() && other.Valid() && Stretches(a.shape, t) && Stretches(other.shape, t)
    ensures AlwaysUnder(a, other, t) <==> RightEverywhere(a, other, t)
  {
    hide RowMajor, Dot, CUnravel, Wrap, NDArray.Cell, NDArray.Distinct, Under, Outcome, From, HeldBy, IsTiled;
    forall c | InBox(t, c)
      ensures Under(a.shape, c) == Wrap(a.shape, c) && Under(other.shape, c) == Wrap(other.shape, c)
    {
      UnderIsWrap(a.shape, t, c);
      UnderIsWrap(other.shape, t, c);
    }
    forall sA: seq<real>, sB: seq<real>, op: (real, real) -> real, c: seq<int> |
      |sA| == a.buffer.Length && |sB| == other.buffer.Length && InBox(t, c)
      ensures RightUnder(a, other, t, HeldBy(a, sA), HeldBy(other, sB), op, c)
              <==> RightAt(a, other, t, HeldBy(a, sA), HeldBy(other, sB), op, c)
    {
    }
  }

  ghost predicate AlwaysUnder(a: NDArray, other: NDArray, t: seq<int>)
    requires a.Valid() && other.Valid() && |a.shape| <= |t| && |other.shape| <= |t|
  {
    forall sA: seq<real>, sB: seq<real>, op: (real, real) -> real, c: seq<int> |
      |sA| == a.buffer.Length && |sB| == other.buffer.Length && InBox(t, c) ::
      RightUnder(a, other, t, HeldBy(a, sA), HeldBy(other, sB), op, c)
  }

  ghost predicate RightUnder(a: NDArray, other: NDArray, t: seq<int>, va: Contents, vb: Contents,
      op: (real, real) -> real,
      c: seq<int>)
    requires a.Valid() && other.Valid() && |a.shape| <= |c| == |t| && |other.shape| <= |c|
  {
    && InBox(a.shape, From(a.shape, a.strides, IsTiled(t, a.shape), c))
    && InBox(other.shape, From(other.shape, other.strides, IsTiled(t, other.shape), c))
    && Outcome(a, other, t, va, vb, op, c) == op(va(Under(a.shape, c)), vb(Under(other.shape, c)))
  }

  lemma ShapesOf(a: NDArray)
    requires a.Valid()
    ensures Positive(a.shape) && |a.strides| == |a.shape|
  {
  }

  lemma RightIfPlain(a: NDArray, other: NDArray, t: seq<int>)
    requires a.Valid() && other.Valid() && other.shape != [] && |other.shape| <= |a.shape| <= |t|
    requires forall c :: InBox(t, c) ==> From(a.shape, a.strides, IsTiled(t, a.shape), c) == Wrap(a.shape, c)
    requires forall c :: InBox(t, c) ==>
               From(other.shape, other.strides, IsTiled(t, other.shape), c) == Wrap(other.shape, c)
    ensures RightEverywhere(a, other, t)
  {
    hide Prod, Dot, CUnravel, Wrap, From, NDArray.Cell, HeldBy, IsTiled;
    forall c | InBox(t, c) ensures InBox(a.shape, Wrap(a.shape, c)) && InBox(other.shape, Wrap(other.shape, c)) {
      WrapInside(a.shape, c);
      WrapInside(other.shape, c);
    }
  }

  /** A buffer with a single one in it, and what it makes of an array with distinct cells. */
  function OneAt(n: nat, at: int): (s: seq<real>)
    ensures |s| == n && forall i :: 0 <= i < n ==> s[i] == if i == at then 1.0 else 0.0
  {
    seq(n, i => if i == at then 1.0 else 0.0)
  }

  lemma OneHeld(x: NDArray, right: seq<int>, c: seq<int>)
    requires x.Valid() && x.Distinct() && InBox(x.shape, right)
    ensures HeldBy(x, OneAt(x.buffer.Length, x.Cell(right)))(right) == 1.0
    ensures InBox(x.shape, c) && HeldBy(x, OneAt(x.buffer.Length, x.Cell(right)))(c) == 1.0 ==> c == right
  {
    hide NDArray.Cell;
  }

  lemma PlainIfRight(a: NDArray, other: NDArray, t: seq<int>)
    requires a.Valid() && other.Valid() && other.shape != [] && |other.shape| <= |a.shape| <= |t|
    requires a.Distinct() && other.Distinct() && Positive(t) && MultipleOf(t, a.shape) && MultipleOf(t, other.shape)
    requires RightEverywhere(a, other, t)
    ensures forall c :: InBox(t, c) ==> From(a.shape, a.strides, IsTiled(t, a.shape), c) == Wrap(a.shape, c)
    ensures forall c :: InBox(t, c) ==>
               From(other.shape, other.strides, IsTiled(t, other.shape), c) == Wrap(other.shape, c)
  {
    hide Prod, Dot, CUnravel, Wrap, From, NDArray.Cell, NDArray.Valid, NDArray.Distinct, Outcome, MultipleOf, IsTiled;
    ShapesOf(a);
    ShapesOf(other);
    forall c | InBox(t, c)
      ensures From(a.shape, a.strides, IsTiled(t, a.shape), c) == Wrap(a.shape, c)
      ensures From(other.shape, other.strides, IsTiled(t, other.shape), c) == Wrap(other.shape, c)
    {
      FirstRead(a, other, t, c);
      SecondRead(a, other, t, c);
    }
  }

  lemma FirstRead(a: NDArray, other: NDArray, t: seq<int>, c: seq<int>)
    requires a.Valid() && other.Valid() && other.shape != [] && |other.shape| <= |a.shape| <= |t| && a.Distinct()
    requires RightEverywhere(a, other, t) && InBox(t, c)
    ensures From(a.shape, a.strides, IsTiled(t, a.shape), c) == Wrap(a.shape, c)
  {
    hide Prod, Dot, CUnravel, Wrap, From, NDArray.Cell, NDArray.Distinct, IsTiled, HeldBy;
    var right := Wrap(a.shape, c);
    WrapInside(a.shape, c);
    var (sA, sB) := (OneAt(a.buffer.Length, a.Cell(right)), OneAt(other.buffer.Length, -1));
    assert RightAt(a, other, t, HeldBy(a, sA), HeldBy(other, sB), First, c);
    OneHeld(a, right, From(a.shape, a.strides, IsTiled(t, a.shape), c));
  }

  lemma SecondRead(a: NDArray, other: NDArray, t: seq<int>, c: seq<int>)
    requires a.Valid() && other.Valid() && other.shape != [] && |other.shape| <= |a.shape| <= |t| && other.Distinct()
    requires RightEverywhere(a, other, t) && InBox(t, c)
    ensures From(other.shape, other.strides, IsTiled(t, other.shape), c) == Wrap(other.shape, c)
  {
    hide Prod, Dot, CUnravel, Wrap, From, NDArray.Cell, NDArray.Distinct, IsTiled, HeldBy;
    var right := Wrap(other.shape, c);
    WrapInside(other.shape, c);
    var (sA, sB) := (OneAt(a.buffer.Length, -1), OneAt(other.buffer.Length, other.Cell(right)));
    assert RightAt(a, other, t, HeldBy(a, sA), HeldBy(other, sB), Second, c);
    OneHeld(other, right, From(other.shape, other.strides, IsTiled(t, other.shape), c));
  }

  function First(x: real, y: real): real { x }

  function Second(x: real, y: real): real { y }

  function Everywhere(v: real): Contents { x => v }

  /** An `other` without axes is left out ... */
  lemma OtherIgnored(a: NDArray, other: NDArray, t: seq<int>, va: Contents, vb: Contents, op: (real, real) -> real,
      c: seq<int>)
    requires a.Valid() && other.Valid() && other.shape == [] && InBox(t, c) && |a.shape| <= |t|
    ensures Outcome(a, other, t, va, vb, op, c) == va(From(a.shape, a.strides, IsTiled(t, a.shape), c))
  {
    hide Prod, Dot, CUnravel, Wrap, From, NDArray.Cell;
  }

  /** ... so adding one to zero leaves zero. */
  lemma OtherIgnoredWrong(a: NDArray, other: NDArray, t: seq<int>)
    requires a.Valid() && other.Valid() && other.shape == [] && Positive(t) && |a.shape| <= |t|
    ensures InBox(t, Zeros(|t|))
    ensures Outcome(a, other, t, Everywhere(0.0), Everywhere(1.0), Plus, Zeros(|t|)) == 0.0
  {
    hide Prod, Dot, CUnravel, Wrap, From, NDArray.Cell, NDArray.Valid, Outcome;
    var c := Zeros(|t|);
    OtherIgnored(a, other, t, Everywhere(0.0), Everywhere(1.0), Plus, c);
  }

  /** An `other` of higher rank comes first ... */
  lemma OperandsSwapped(a: NDArray, other: NDArray, t: seq<int>, va: Contents, vb: Contents,
      op: (real, real) -> real, c: seq<int>)
    requires a.Valid() && other.Valid() && |a.shape| < |other.shape| <= |t| && InBox(t, c)
    ensures Outcome(a, other, t, va, vb, op, c) ==
            var (x, y) := (va(From(a.shape, a.strides, IsTiled(t, a.shape), c)),
                           vb(From(other.shape, other.strides, IsTiled(t, other.shape), c)));
            if a.shape == [] then y else op(y, x)
  {
    hide Prod, Dot, CUnravel, Wrap, From, NDArray.Cell;
  }

  /** ... so zero minus one comes out as one. */
  lemma OperandsSwappedWrong(a: NDArray, other: NDArray, t: seq<int>)
    requires a.Valid() && other.Valid() && |a.shape| < |other.shape| <= |t| && Positive(t)
    ensures InBox(t, Zeros(|t|))
    ensures Outcome(a, other, t, Everywhere(0.0), Everywhere(1.0), Minus, Zeros(|t|)) == 1.0
  {
    hide Prod, Dot, CUnravel, Wrap, From, NDArray.Cell, NDArray.Valid, Outcome;
    var c := Zeros(|t|);
    OperandsSwapped(a, other, t, Everywhere(0.0), Everywhere(1.0), Minus, c);
  }

  function Plus(x: real, y: real): real { x + y }

  function Minus(x: real, y: real): real { x - y }

  /** A buffer of one value, and what it makes of an array. */
  function Filled(n: nat, v: real): (s: seq<real>)
    ensures |s| == n && forall i :: 0 <= i < n ==> s[i] == v
  {
    seq(n, _ => v)
  }

  lemma FilledHeld(x: NDArray, v: real, c: seq<int>)
    requires x.Valid() && InBox(x.shape, c)
    ensures HeldBy(x, Filled(x.buffer.Length, v))(c) == v
  {
    hide NDArray.Cell;
  }

  /** What being right means for constant arrays of zeros and ones. */
  lemma Applied(a: NDArray, other: NDArray, t: seq<int>, op: (real, real) -> real, c: seq<int>)
    requires a.Valid() && other.Valid() && InBox(t, c) && |a.shape| <= |t| && |other.shape| <= |t|
    ensures RightEverywhere(a, other, t) ==>
              Outcome(a, other, t, Everywhere(0.0), Everywhere(1.0), op, c) == op(0.0, 1.0)
  {
    hide Prod, Dot, CUnravel, Wrap, From, NDArray.Cell, HeldBy, IsTiled;
    if RightEverywhere(a, other, t) {
      var (sA, sB) := (Filled(a.buffer.Length, 0.0), Filled(other.buffer.Length, 1.0));
      assert RightAt(a, other, t, HeldBy(a, sA), HeldBy(other, sB), op, c);
      WrapInside(a.shape, c);
      WrapInside(other.shape, c);
      FilledHeld(a, 0.0, Wrap(a.shape, c));
      FilledHeld(other, 1.0, Wrap(other.shape, c));
      FilledHeld(a, 0.0, From(a.shape, a.strides, IsTiled(t, a.shape), c));
      FilledHeld(other, 1.0, From(other.shape, other.strides, IsTiled(t, other.shape), c));
    }
  }
}
