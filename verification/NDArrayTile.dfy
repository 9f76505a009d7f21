/** Repeating an array along its axes. */
module NDArrayTile {
  import opened Shapes
  import opened NDArrays

  /** A shape read as one of rank `n` by putting ones in front. */
  function Extend(shape: seq<int>, n: nat): (r: seq<int>)
    requires |shape| <= n
    ensures |r| == n
  {
    seq(n - |shape|, _ => 1) + shape
  }

  function MaxRank(a: seq<int>, b: seq<int>): nat { if |a| < |b| then |b| else |a| }

  /** The shape after repeating: aligned at the last axis and multiplied. */
  function TileShape(shape: seq<int>, reps: seq<int>): (r: seq<int>)
    ensures |r| == MaxRank(shape, reps)
  {
    var n := MaxRank(shape, reps);
    seq(n, d requires 0 <= d < n => Extend(shape, n)[d] * Extend(reps, n)[d])
  }

  /** Aligned at the last axis: sizes times counts where both are given, and what is given where
      only one of them is. */
  lemma TileShapeIs(shape: seq<int>, reps: seq<int>)
    ensures var t := TileShape(shape, reps);
            && |t| >= |shape| && |t| >= |reps| && (|t| == |shape| || |t| == |reps|)
            && (forall i :: 0 <= i < |shape| ==>
                  t[|t| - |shape| + i] == shape[i] * if i >= |shape| - |reps| then reps[|reps| - |shape| + i] else 1)
            && (forall i :: 0 <= i < |reps| && i < |reps| - |shape| ==> t[|t| - |reps| + i] == reps[i])
  {
    var t, n := TileShape(shape, reps), MaxRank(shape, reps);
    forall i | 0 <= i < |shape|
      ensures t[|t| - |shape| + i] == shape[i] * if i >= |shape| - |reps| then reps[|reps| - |shape| + i] else 1
    {
      assert t[n - |shape| + i] == Extend(shape, n)[n - |shape| + i] * Extend(reps, n)[n - |shape| + i];
    }
    forall i | 0 <= i < |reps| && i < |reps| - |shape| ensures t[|t| - |reps| + i] == reps[i] {
      assert t[i] == Extend(shape, n)[i] * Extend(reps, n)[i];
    }
  }

  /** The source coordinate for a coordinate of the repeated array. */
  function Wrap(shape: seq<int>, c: seq<int>): (r: seq<int>)
    requires Positive(shape) && |shape| <= |c|
    ensures |r| == |shape|
  {
    seq(|shape|, i requires 0 <= i < |shape| => c[|c| - |shape| + i] % shape[i])
  }

  lemma WrapInside(shape: seq<int>, c: seq<int>)
    requires Positive(shape) && |shape| <= |c|
    ensures InBox(shape, Wrap(shape, c))
  {
  }

  lemma TilePositive(shape: seq<int>, reps: seq<int>)
    requires Positive(shape) && Positive(reps)
    ensures Positive(TileShape(shape, reps))
  {
    var n := MaxRank(shape, reps);
    forall d | 0 <= d < n ensures TileShape(shape, reps)[d] >= 1 {
      MulMono(1, Extend(reps, n)[d], Extend(shape, n)[d]);
    }
  }

  // ---------------------------------------------------------------- what tiling reads

  /** subArrayIndex: the address, by the strides of the source, of the wrapped coordinate. */
  method SubArrayIndex(maxShape: seq<int>, minShape: seq<int>, minStrides: seq<int>, maxIdx: int) returns (minIdx: int)
    requires Positive(maxShape) && Positive(minShape) && |minShape| == |minStrides| && |minShape| <= |maxShape|
    requires 0 <= maxIdx < Prod(maxShape)
    ensures minIdx == Dot(Wrap(minShape, CUnravel(maxShape, maxIdx)), minStrides)
  {
    hide Prod, CUnravel, Dot, Wrap;
    CIndexUnravel(maxShape, maxIdx);
    NoDot(minStrides);
    var idx := Ind2subC(maxShape, maxIdx);
    ghost var w := Wrap(minShape, idx);
    var n, m := |minShape|, |maxShape|;
    minIdx := 0;
    assert w[n..] == [] && minStrides[n..] == [];
    for i := 0 to n
      invariant minIdx == Dot(w[n - i..], minStrides[n - i..])
    {
      DotFront(w, minStrides, n - i - 1);
      WrapAt(minShape, idx, n - i - 1);
      var dim, v := minShape[n - 1 - i], idx[m - i - 1];
      if dim == 1 || v == 0 {
        continue;
      }
      if v >= dim {
        v := v % dim;
      }
      minIdx := minIdx + v * minStrides[n - i - 1];
    }
    assert w[0..] == w && minStrides[0..] == minStrides;
  }

  lemma NoDot(s: seq<int>)
    ensures Dot([], s[|s|..]) == 0
  {
  }

  lemma WrapAt(shape: seq<int>, c: seq<int>, i: nat)
    requires Positive(shape) && i < |shape| <= |c|
    requires c[|c| - |shape| + i] >= 0
    ensures var (w, v) := (Wrap(shape, c)[i], c[|c| - |shape| + i]);
            && (shape[i] == 1 || v == 0 ==> w == 0)
            && w == if v >= shape[i] then v % shape[i] else v
  {
  }

  lemma DotFront(c: seq<int>, s: seq<int>, i: nat)
    requires |c| == |s| && i < |c|
    ensures Dot(c[i..], s[i..]) == c[i] * s[i] + Dot(c[i + 1..], s[i + 1..])
  {
    assert c[i..][1..] == c[i + 1..] && s[i..][1..] == s[i + 1..];
  }

  /** Tiling takes that address for a linear index. It is the index of the coordinate meant,
      for every coordinate of the result, if and only if the source is row-major. */
  lemma TileReadsIff(shape: seq<int>, strides: seq<int>, reps: seq<int>)
    requires Positive(shape) && Positive(reps) && |strides| == |shape|
    ensures (forall c :: InBox(TileShape(shape, reps), c) ==> ReadsRight(shape, strides, c)) <==> RowMajor(shape, strides)
  {
    hide Prod, CUnravel, Dot, CIndex;
    TilePositive(shape, reps);
    if RowMajor(shape, strides) {
      forall c | InBox(TileShape(shape, reps), c) ensures ReadsRight(shape, strides, c) {
        WrapInside(shape, c);
        CIndexRange(shape, Wrap(shape, c));
        CUnravelIndex(shape, Wrap(shape, c));
      }
    }
    if forall c :: InBox(TileShape(shape, reps), c) ==> ReadsRight(shape, strides, c) {
      forall m | InBox(shape, m) ensures Dot(m, strides) == CIndex(shape, m) {
        var c := seq(MaxRank(shape, reps) - |shape|, _ => 0) + m;
        InsideTile(shape, reps, m);
        assert ReadsRight(shape, strides, c);
        CIndexUnravel(shape, Dot(m, strides));
      }
    }
  }

  /** The linear index read for `c` is that of the wrapped coordinate. */
  ghost predicate ReadsRight(shape: seq<int>, strides: seq<int>, c: seq<int>)
    requires Positive(shape) && |strides| == |shape| <= |c|
  {
    var at := Dot(Wrap(shape, c), strides);
    0 <= at < Prod(shape) && CUnravel(shape, at) == Wrap(shape, c)
  }

  lemma InsideTile(shape: seq<int>, reps: seq<int>, m: seq<int>)
    requires Positive(shape) && Positive(reps) && InBox(shape, m)
    ensures var c := seq(MaxRank(shape, reps) - |shape|, _ => 0) + m;
            InBox(TileShape(shape, reps), c) && Wrap(shape, c) == m
  {
    hide TileShape, Wrap, Extend;
    var n := MaxRank(shape, reps);
    var z := seq(n - |shape|, _ => 0);
    forall d | 0 <= d < n ensures 0 <= (z + m)[d] < TileShape(shape, reps)[d] {
      TileReaches(shape, reps, d);
    }
    WrapBehind(shape, z, m);
  }

  lemma TileReaches(shape: seq<int>, reps: seq<int>, d: nat)
    requires Positive(shape) && Positive(reps) && d < MaxRank(shape, reps)
    ensures var front := MaxRank(shape, reps) - |shape|;
            TileShape(shape, reps)[d] >= if d < front then 1 else shape[d - front]
  {
    var n := MaxRank(shape, reps);
    MulMono(1, Extend(reps, n)[d], Extend(shape, n)[d]);
  }

  /** A column-major 2 x 2 source shows the difference: for coordinate (0, 1) of the result
      tiling reads element (1, 0). */
  lemma ColumnMajorMisread()
    ensures var at := Dot(Wrap([2, 2], [0, 1]), [1, 2]); at == 2 && CUnravel([2, 2], at) == [1, 0]
    ensures !ReadsRight([2, 2], [1, 2], [0, 1])
  {
    var w := Wrap([2, 2], [0, 1]);
    assert w == [0, 1];
    assert w[1..] == [1] && [1, 2][1..] == [2] && [1][1..] == [] && [2][1..] == [];
    assert Dot([1], [2]) == 2;
    assert [2, 2][1..] == [2];
    assert Prod([2]) == 2 * Prod([]) == 2;
    assert CUnravel([2], 0) == [0] + CUnravel([], 0) == [0];
  }

  // ---------------------------------------------------------------- tiling

  /** A fresh packed array of zeros. */
  method NewPacked(order: char, shape: seq<int>) returns (a: NDArray)
    requires Positive(shape) && (order == 'c' || order == 'f')
    ensures a.shape == shape && a.order == order && fresh(a.buffer) && a.Valid() && a.Distinct()
  {
    ProdPositive(shape);
    var buffer := new real[Prod(shape)](_ => 0.0);
    a := new NDArray(buffer, 0, shape, if order == 'c' then CStrides(shape) else FStrides(shape, 1), order, 1);
    PackedValid(a);
  }

  lemma PackedValid(a: NDArray)
    requires Positive(a.shape) && a.offset == 0 && a.buffer.Length == Prod(a.shape) && a.ews == 1
    requires (a.order == 'c' && a.strides == CStrides(a.shape)) || (a.order == 'f' && a.strides == FStrides(a.shape, 1))
    ensures a.Valid() && a.Distinct()
  {
    hide Prod, Dot, CIndex, FIndex, CStrides, FStrides;
    forall c | InBox(a.shape, c) ensures 0 <= a.Cell(c) < a.buffer.Length {
      PackedCell(a.shape, c);
    }
    forall d | 0 <= d < |a.shape|
      ensures CStrides(a.shape)[d] == 1 * Prod(a.shape[d + 1..]) && FStrides(a.shape, 1)[d] == 1 * Prod(a.shape[..d])
    {
      CStrideAt(a.shape, d);
      FStrideAt(a.shape, 1, d);
    }
    forall c, d | InBox(a.shape, c) && InBox(a.shape, d) && a.Cell(c) == a.Cell(d) ensures c == d {
      PackedCell(a.shape, c);
      PackedCell(a.shape, d);
    }
  }

  lemma PackedCell(shape: seq<int>, c: seq<int>)
    requires Positive(shape) && InBox(shape, c)
    ensures Dot(c, CStrides(shape)) == CIndex(shape, c) && Dot(c, FStrides(shape, 1)) == FIndex(shape, c)
    ensures 0 <= CIndex(shape, c) < Prod(shape) && 0 <= FIndex(shape, c) < Prod(shape)
    ensures CUnravel(shape, CIndex(shape, c)) == c && FUnravel(shape, FIndex(shape, c)) == c
  {
    hide Prod, Dot, CIndex, FIndex, CStrides, FStrides, CUnravel, FUnravel;
    CStridesDot(shape, c);
    FStridesDot(shape, 1, c);
    CIndexRange(shape, c);
    FIndexRange(shape, c);
    CUnravelIndex(shape, c);
    FUnravelIndex(shape, c);
  }

  /** The loop of tile: element `i` of the target is the element of the source at the linear
      index subArrayIndex gives. An index outside the source ends the loop early. */
  method FillTiled(a: NDArray, target: NDArray) returns (ok: bool)
    requires a.Valid() && target.Valid() && target.Distinct() && target.buffer != a.buffer && |a.shape| <= |target.shape|
    modifies target.buffer
    ensures ok ==> forall c :: InBox(target.shape, c) ==> TileRead(a, target, c)
    ensures RowMajor(a.shape, a.strides) ==> ok
    ensures ok && RowMajor(a.shape, a.strides) ==> forall c :: InBox(target.shape, c) ==>
              InBox(a.shape, Wrap(a.shape, c)) && target.At(c) == a.At(Wrap(a.shape, c))
  {
    ProdPositive(target.shape);
    hide Prod, Dot, CUnravel, NDArray.Cell, NDArray.Distinct, RowMajor;
    for i := 0 to Prod(target.shape)
      invariant forall k :: 0 <= k < i ==> TiledTo(a, target, k)
    {
      ok := TileElement(a, target, i);
      if !ok {
        return;
      }
    }
    forall c | InBox(target.shape, c) ensures TileRead(a, target, c) {
      CUnravelIndex(target.shape, c);
      CIndexRange(target.shape, c);
      assert TiledTo(a, target, CIndex(target.shape, c));
    }
    if RowMajor(a.shape, a.strides) {
      forall c | InBox(target.shape, c)
        ensures InBox(a.shape, Wrap(a.shape, c)) && target.At(c) == a.At(Wrap(a.shape, c))
      {
        RowMajorRead(a, c);
      }
    }
    return true;
  }

  /** The target holds at `c` what the source holds at the linear index read for `c`. */
  ghost predicate TileRead(a: NDArray, target: NDArray, c: seq<int>)
    requires a.Valid() && target.Valid() && InBox(target.shape, c) && |a.shape| <= |c|
    reads a.buffer, target.buffer
  {
    var at := Dot(Wrap(a.shape, c), a.strides);
    && 0 <= at < a.Length() && InBox(a.shape, CUnravel(a.shape, at))
    && target.At(c) == a.At(CUnravel(a.shape, at))
  }

  /** Element `k` of the target holds what tiling reads for it. */
  ghost predicate TiledTo(a: NDArray, target: NDArray, k: int)
    requires a.Valid() && target.Valid() && |a.shape| <= |target.shape|
    reads a.buffer, target.buffer
  {
    InBox(target.shape, CUnravel(target.shape, k)) && TileRead(a, target, CUnravel(target.shape, k))
  }

  /** One pass of the loop. */
  method TileElement(a: NDArray, target: NDArray, i: int) returns (ok: bool)
    requires a.Valid() && target.Valid() && target.Distinct() && target.buffer != a.buffer && |a.shape| <= |target.shape|
    requires 0 <= i < target.Length()
    requires forall k :: 0 <= k < i ==> TiledTo(a, target, k)
    modifies target.buffer
    ensures ok ==> forall k :: 0 <= k <= i ==> TiledTo(a, target, k)
    ensures RowMajor(a.shape, a.strides) ==> ok
  {
    hide Prod, Dot, CUnravel, NDArray.Cell, RowMajor;
    var at := SubArrayIndex(target.shape, a.shape, a.strides, i);
    CIndexUnravel(target.shape, i);
    if at < 0 {
      NeverOutside(a, CUnravel(target.shape, i), at);
      return false;
    }
    var v := a.Element(at);
    if v.None? {
      NeverOutside(a, CUnravel(target.shape, i), at);
      return false;
    }
    target.Put(i, v.value);
    forall k | 0 <= k < i ensures TiledTo(a, target, k) {
      assert old(TiledTo(a, target, k));
      UnravelOnce(target.shape, k, i);
    }
    return true;
  }

  lemma RowMajorRead(a: NDArray, c: seq<int>)
    requires a.Valid() && RowMajor(a.shape, a.strides) && |a.shape| <= |c|
    ensures InBox(a.shape, Wrap(a.shape, c)) && ReadsRight(a.shape, a.strides, c)
  {
    hide Prod, Dot, CUnravel, CIndex;
    WrapInside(a.shape, c);
    CIndexRange(a.shape, Wrap(a.shape, c));
    CUnravelIndex(a.shape, Wrap(a.shape, c));
  }

  lemma NeverOutside(a: NDArray, c: seq<int>, at: int)
    requires a.Valid() && |a.shape| <= |c| && at == Dot(Wrap(a.shape, c), a.strides) && (at < 0 || at >= a.Length())
    ensures !RowMajor(a.shape, a.strides)
  {
    hide Prod, Dot, RowMajor;
    if RowMajor(a.shape, a.strides) {
      RowMajorRead(a, c);
    }
  }

  lemma {:induction false} OnesProd(ones: seq<int>)
    requires forall d :: 0 <= d < |ones| ==> ones[d] == 1
    ensures Prod(ones) == 1
  {
    if ones != [] {
      OnesProd(ones[1..]);
    }
  }

  lemma {:induction false} ProdZero(s: seq<int>)
    ensures (exists d :: 0 <= d < |s| && s[d] == 0) <==> Prod(s) == 0
  {
    if s != [] {
      ProdZero(s[1..]);
      if exists d :: 0 <= d < |s| && s[d] == 0 {
        var d :| 0 <= d < |s| && s[d] == 0;
        assert d > 0 ==> s[1..][d - 1] == 0;
      }
      if Prod(s) == 0 && s[0] != 0 {
        var d :| 0 <= d < |s[1..]| && s[1..][d] == 0;
        assert s[d + 1] == 0;
      }
    }
  }

  lemma {:induction false} ProdOnes(s: seq<int>)
    requires Positive(s) && Prod(s) == 1
    ensures forall d :: 0 <= d < |s| ==> s[d] == 1
  {
    if s != [] {
      ProdPositive(s[1..]);
      MulMono(1, s[0], Prod(s[1..]));
      MulMono(1, Prod(s[1..]), s[0]);
      ProdOnes(s[1..]);
    }
  }

  lemma WrapBehind(shape: seq<int>, z: seq<int>, c: seq<int>)
    requires Positive(shape) && InBox(shape, c)
    ensures Wrap(shape, z + c) == c
  {
    forall d | 0 <= d < |shape| ensures Wrap(shape, z + c)[d] == c[d] {
      assert (z + c)[|z| + d] == c[d];
    }
  }

  lemma OnesInFront(shape: seq<int>, ones: seq<int>, zeros: seq<int>, i: int)
    requires Positive(shape) && 0 <= i < Prod(shape) && |ones| == |zeros|
    requires forall d :: 0 <= d < |ones| ==> ones[d] == 1 && zeros[d] == 0
    ensures Positive(ones + shape) && Prod(ones + shape) == Prod(shape)
    ensures InBox(shape, CUnravel(shape, i)) && CUnravel(ones + shape, i) == zeros + CUnravel(shape, i)
  {
    hide Prod, CUnravel, CIndex;
    var c := CUnravel(shape, i);
    OnesProd(ones);
    ProdSplit(ones, shape);
    CIndexUnravel(shape, i);
    CIndexSplit(ones, shape, zeros, c);
    ZeroCoord(ones, ones, zeros);
    CUnravelIndex(ones + shape, zeros + c);
  }

  /** Ones in front change neither the number of elements nor their row-major order. */
  lemma ExtendUnravel(shape: seq<int>, n: nat, i: int)
    requires Positive(shape) && |shape| <= n && 0 <= i < Prod(shape)
    ensures Positive(Extend(shape, n)) && Prod(Extend(shape, n)) == Prod(shape)
    ensures InBox(shape, CUnravel(shape, i)) && Wrap(shape, CUnravel(Extend(shape, n), i)) == CUnravel(shape, i)
  {
    hide Prod, CUnravel, CIndex, Wrap;
    var ones, zeros := seq(n - |shape|, _ => 1), seq(n - |shape|, _ => 0);
    OnesInFront(shape, ones, zeros, i);
    WrapBehind(shape, zeros, CUnravel(shape, i));
  }

  /** Copies the elements in row-major order into an array of higher rank. */
  method CopyExtended(a: NDArray, target: NDArray)
    requires a.Valid() && target.Valid() && target.Distinct() && target.buffer != a.buffer
    requires |a.shape| <= |target.shape| && target.shape == Extend(a.shape, |target.shape|)
    modifies target.buffer
    ensures forall c :: InBox(target.shape, c) ==>
              InBox(a.shape, Wrap(a.shape, c)) && target.At(c) == a.At(Wrap(a.shape, c))
  {
    ProdPositive(target.shape);
    ProdPositive(a.shape);
    ExtendUnravel(a.shape, |target.shape|, 0);
    hide Prod, Dot, CUnravel, NDArray.Cell;
    CopyElements(target, a);
    forall c | InBox(target.shape, c)
      ensures InBox(a.shape, Wrap(a.shape, c)) && target.At(c) == a.At(Wrap(a.shape, c))
    {
      CUnravelIndex(target.shape, c);
      CIndexRange(target.shape, c);
      ExtendUnravel(a.shape, |target.shape|, CIndex(target.shape, c));
      assert SameElement(a, target, CIndex(target.shape, c));
    }
  }

  method Product(s: seq<int>) returns (product: int)
    ensures product == Prod(s)
  {
    product := 1;
    for i := 0 to |s|
      invariant product == Prod(s[..i])
    {
      ProdSplit(s[..i], [s[i]]);
      assert s[..i + 1] == s[..i] + [s[i]];
      assert [s[i]][1..] == [] && Prod([s[i]]) == s[i] * Prod([]);
      product := product * s[i];
    }
    assert s[..|s|] == s;
  }

  /** What tile reads for coordinate `c` of the result: the wrapped coordinate if no count is
      above one, and else the element at the address of that coordinate taken for an index. */
  ghost predicate ReadFor(a: NDArray, reps: seq<int>, c: seq<int>, from: seq<int>)
    requires a.Valid() && |a.shape| <= |c|
  {
    if Prod(reps) == 1 then from == Wrap(a.shape, c)
    else
      var at := Dot(Wrap(a.shape, c), a.strides);
      0 <= at < a.Length() && from == CUnravel(a.shape, at)
  }

  /** The result holds at `c` what is read for it. */
  ghost predicate TookFor(a: NDArray, result: NDArray, reps: seq<int>, c: seq<int>)
    requires a.Valid() && result.Valid() && InBox(result.shape, c) && |a.shape| <= |c|
    reads a.buffer, result.buffer
  {
    exists from :: InBox(a.shape, from) && ReadFor(a, reps, c, from) && result.At(c) == a.At(from)
  }

  lemma TileReads(a: NDArray, reps: seq<int>, result: NDArray, c: seq<int>)
    requires a.Valid() && result.Valid() && |a.shape| <= |c| && InBox(result.shape, c)
    requires Prod(reps) == 1 ==> InBox(a.shape, Wrap(a.shape, c)) && result.At(c) == a.At(Wrap(a.shape, c))
    requires Prod(reps) != 1 ==> TileRead(a, result, c)
    ensures TookFor(a, result, reps, c)
  {
    hide Prod, Dot, CUnravel, NDArray.Cell, Wrap;
    var from := if Prod(reps) == 1 then Wrap(a.shape, c) else CUnravel(a.shape, Dot(Wrap(a.shape, c), a.strides));
    assert ReadFor(a, reps, c, from);
  }

  /** tile. Null when a repetition count is zero, or when tiling a source that is not
      row-major runs out of it. Otherwise a fresh array that repeats the source: always for
      counts of one, and for any counts if the source is row-major. */
  method Tile(a: NDArray, reps: seq<int>) returns (result: NDArray?)
    requires a.Valid() && forall d :: 0 <= d < |reps| ==> reps[d] >= 0
    ensures !Positive(reps) ==> result == null
    ensures result != null ==> fresh(result.buffer) && result.Valid() && result.Distinct()
                               && result.shape == TileShape(a.shape, reps) && |a.shape| <= |result.shape|
    ensures Positive(reps) && (Prod(reps) == 1 || RowMajor(a.shape, a.strides)) ==>
              result != null && forall c :: InBox(result.shape, c) ==>
                InBox(a.shape, Wrap(a.shape, c)) && result.At(c) == a.At(Wrap(a.shape, c))
    ensures result != null && Prod(reps) != 1 ==> forall c :: InBox(result.shape, c) ==> TileRead(a, result, c)
    ensures result != null ==> forall c :: InBox(result.shape, c) ==> TookFor(a, result, reps, c)
  {
    hide Prod, Dot, NDArray.Valid, NDArray.Distinct, TileShape, RowMajor, TileRead, Wrap, TookFor;
    var product := Product(reps);
    ProdZero(reps);
    if product == 0 {
      return null;
    }
    TilePositiveIf(a, reps);
    result := NewPacked(a.order, TileShape(a.shape, reps));
    if product == 1 {
      ProdOnes(reps);
      OnesShape(a.shape, reps);
      CopyExtended(a, result);
    } else {
      var ok := FillTiled(a, result);
      if !ok {
        return null;
      }
    }
    forall c | InBox(result.shape, c) ensures TookFor(a, result, reps, c) {
      TileReads(a, reps, result, c);
    }
  }

  /** Whatever the buffer of the source holds, tile does not run out of it and repeats it. */
  ghost predicate AlwaysRepeats(a: NDArray, reps: seq<int>)
    requires a.Valid()
  {
    forall s: seq<real>, c: seq<int> | |s| == a.buffer.Length && InBox(TileShape(a.shape, reps), c) :: RepeatsAt(a, reps, s, c)
  }

  ghost predicate RepeatsAt(a: NDArray, reps: seq<int>, s: seq<real>, c: seq<int>)
    requires a.Valid() && |s| == a.buffer.Length && |a.shape| <= |c|
  {
    exists from :: InBox(a.shape, from) && InBox(a.shape, Wrap(a.shape, c)) && ReadFor(a, reps, c, from)
                   && s[a.Cell(from)] == s[a.Cell(Wrap(a.shape, c))]
  }

  /** tile repeats a source with distinct cells, whatever it holds, if and only if no count is
      above one or the source is row-major. */
  lemma TileRightIff(a: NDArray, reps: seq<int>)
    requires a.Valid() && a.Distinct() && Positive(reps)
    ensures AlwaysRepeats(a, reps) <==> Prod(reps) == 1 || RowMajor(a.shape, a.strides)
  {
    hide Prod, Dot, CUnravel, NDArray.Cell, NDArray.Distinct, RowMajor, TileShape, Wrap, ReadsRight, AlwaysRepeats, RepeatsAt;
    TileReadsIff(a.shape, a.strides, reps);
    if Prod(reps) == 1 || RowMajor(a.shape, a.strides) {
      forall s: seq<real>, c: seq<int> | |s| == a.buffer.Length && InBox(TileShape(a.shape, reps), c)
        ensures RepeatsAt(a, reps, s, c)
      {
        RepeatsIfRight(a, reps, s, c);
      }
      assert AlwaysRepeats(a, reps) by { AlwaysIf(a, reps); }
    } else if AlwaysRepeats(a, reps) {
      forall c | InBox(TileShape(a.shape, reps), c) ensures ReadsRight(a.shape, a.strides, c) {
        RightIfRepeats(a, reps, c);
      }
    }
  }

  lemma AlwaysIf(a: NDArray, reps: seq<int>)
    requires a.Valid()
    requires forall s: seq<real>, c: seq<int> | |s| == a.buffer.Length && InBox(TileShape(a.shape, reps), c) :: RepeatsAt(a, reps, s, c)
    ensures AlwaysRepeats(a, reps)
  {
  }

  lemma RepeatsIfRight(a: NDArray, reps: seq<int>, s: seq<real>, c: seq<int>)
    requires a.Valid() && |s| == a.buffer.Length && |a.shape| <= |c|
    requires Prod(reps) == 1 || ReadsRight(a.shape, a.strides, c)
    ensures RepeatsAt(a, reps, s, c)
  {
    hide Prod, Dot, CUnravel, NDArray.Cell, Wrap;
    WrapInside(a.shape, c);
    assert ReadFor(a, reps, c, Wrap(a.shape, c));
  }

  lemma RightIfRepeats(a: NDArray, reps: seq<int>, c: seq<int>)
    requires a.Valid() && a.Distinct() && AlwaysRepeats(a, reps) && Prod(reps) != 1 && InBox(TileShape(a.shape, reps), c)
    ensures ReadsRight(a.shape, a.strides, c)
  {
    hide Prod, Dot, CUnravel, NDArray.Cell, Wrap, TileShape;
    var right := Wrap(a.shape, c);
    WrapInside(a.shape, c);
    var s := seq(a.buffer.Length, i => if i == a.Cell(right) then 1.0 else 0.0);
    assert RepeatsAt(a, reps, s, c);
  }

  lemma TilePositiveIf(a: NDArray, reps: seq<int>)
    requires a.Valid()
    ensures a.order == 'c' || a.order == 'f'
    ensures Positive(reps) ==> Positive(TileShape(a.shape, reps))
  {
    if Positive(reps) {
      TilePositive(a.shape, reps);
    }
  }

  lemma OnesShape(shape: seq<int>, reps: seq<int>)
    requires forall d :: 0 <= d < |reps| ==> reps[d] == 1
    ensures TileShape(shape, reps) == Extend(shape, MaxRank(shape, reps))
  {
    var n := MaxRank(shape, reps);
    forall d | 0 <= d < n ensures TileShape(shape, reps)[d] == Extend(shape, n)[d] {
      assert Extend(reps, n)[d] == 1;
    }
  }
}
