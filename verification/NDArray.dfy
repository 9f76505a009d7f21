/** Strided n-dimensional arrays: element access by linear index and by coordinates, views, and
    copying into a view. */
module NDArrays {
  import opened Shapes
  import opened Wrappers

  // ---------------------------------------------------------------- contiguity

  /** Addresses are row-major indices. */
  ghost predicate RowMajor(shape: seq<int>, strides: seq<int>)
    requires |strides| == |shape|
  {
    forall c :: InBox(shape, c) ==> Dot(c, strides) == CIndex(shape, c)
  }

  /** Every axis that is longer than one has the stride of row-major elements `unit` apart. */
  predicate Tight(shape: seq<int>, strides: seq<int>, unit: int)
    requires |strides| == |shape|
  {
    forall d :: 0 <= d < |shape| ==> shape[d] == 1 || strides[d] == unit * Prod(shape[d + 1..])
  }

  /** The same with the first axis fastest. */
  predicate TightF(shape: seq<int>, strides: seq<int>, unit: int)
    requires |strides| == |shape|
  {
    forall d :: 0 <= d < |shape| ==> shape[d] == 1 || strides[d] == unit * Prod(shape[..d])
  }

  lemma {:induction false} TightDot(shape: seq<int>, strides: seq<int>, unit: int, c: seq<int>)
    requires |strides| == |shape| && Tight(shape, strides, unit) && InBox(shape, c)
    ensures Dot(c, strides) == unit * CIndex(shape, c)
  {
    if shape != [] {
      forall d | 0 <= d < |shape[1..]|
        ensures shape[1..][d] == 1 || strides[1..][d] == unit * Prod(shape[1..][d + 1..])
      {
        assert shape[1..][d + 1..] == shape[d + 2..];
        assert shape[d + 1] == 1 || strides[d + 1] == unit * Prod(shape[d + 2..]);
      }
      TightDot(shape[1..], strides[1..], unit, c[1..]);
      assert shape[0] == 1 || strides[0] == unit * Prod(shape[1..]);
      Regroup(c[0], unit, Prod(shape[1..]), CIndex(shape[1..], c[1..]));
    }
  }

  lemma Regroup(x: int, unit: int, p: int, rest: int)
    ensures x * (unit * p) + unit * rest == unit * (x * p + rest)
  {
  }

  lemma {:induction false} TightDotF(shape: seq<int>, strides: seq<int>, unit: int, c: seq<int>)
    requires |strides| == |shape| && TightF(shape, strides, unit) && InBox(shape, c)
    ensures Dot(c, strides) == unit * FIndex(shape, c)
  {
    if shape != [] {
      forall d | 0 <= d < |shape[1..]|
        ensures shape[1..][d] == 1 || strides[1..][d] == (unit * shape[0]) * Prod(shape[1..][..d])
      {
        assert shape[..d + 1][1..] == shape[1..][..d];
        assert shape[d + 1] == 1 || strides[d + 1] == unit * Prod(shape[..d + 1]);
        Reassociate(unit, shape[0], Prod(shape[1..][..d]));
      }
      TightDotF(shape[1..], strides[1..], unit * shape[0], c[1..]);
      assert shape[..0] == [] && (shape[0] == 1 || strides[0] == unit * Prod(shape[..0]));
      Spread(c[0], unit, shape[0], FIndex(shape[1..], c[1..]));
    }
  }

  lemma Reassociate(x: int, y: int, z: int)
    ensures x * (y * z) == (x * y) * z
  {
  }

  /** The strides decide the addresses, and the other way round. */
  lemma TightIff(shape: seq<int>, strides: seq<int>, unit: int)
    requires |strides| == |shape| && Positive(shape)
    ensures Tight(shape, strides, unit) <==> forall c :: InBox(shape, c) ==> Dot(c, strides) == unit * CIndex(shape, c)
  {
    hide Prod, Dot, CIndex, CStrides;
    if Tight(shape, strides, unit) {
      forall c | InBox(shape, c) ensures Dot(c, strides) == unit * CIndex(shape, c) {
        TightDot(shape, strides, unit, c);
      }
    }
    if forall c :: InBox(shape, c) ==> Dot(c, strides) == unit * CIndex(shape, c) {
      forall d | 0 <= d < |shape| ensures shape[d] == 1 || strides[d] == unit * Prod(shape[d + 1..]) {
        if shape[d] != 1 {
          var c := Unit(|shape|, d);
          assert InBox(shape, c);
          UnitDot(strides, d);
          UnitDot(CStrides(shape), d);
          CStridesDot(shape, c);
          CStrideAt(shape, d);
        }
      }
    }
  }

  lemma RowMajorUnit(shape: seq<int>, strides: seq<int>)
    requires |strides| == |shape|
    ensures RowMajor(shape, strides) <==> forall c :: InBox(shape, c) ==> Dot(c, strides) == 1 * CIndex(shape, c)
  {
  }

  /** isContiguous: true if and only if addresses are row-major indices. */
  method IsContiguous(shape: seq<int>, strides: seq<int>) returns (r: bool)
    requires |strides| == |shape| && Positive(shape)
    ensures r <==> RowMajor(shape, strides)
  {
    hide RowMajor, Prod;
    TightIff(shape, strides, 1);
    RowMajorUnit(shape, strides);
    var z := 1;
    var d := |shape| - 1;
    ProdFrom(shape, |shape|);
    while d >= 0
      invariant -1 <= d < |shape| && z == Prod(shape[d + 1..])
      invariant forall e :: d < e < |shape| ==> shape[e] == 1 || strides[e] == Prod(shape[e + 1..])
    {
      ProdFrom(shape, d);
      if shape[d] != 1 {
        if strides[d] == z {
          z := z * shape[d];
        } else {
          return false;
        }
      }
      d := d - 1;
    }
    return true;
  }

  lemma ProdFrom(shape: seq<int>, d: nat)
    requires d <= |shape|
    ensures d == |shape| ==> Prod(shape[d..]) == 1
    ensures d < |shape| ==> Prod(shape[d..]) == shape[d] * Prod(shape[d + 1..]) == Prod(shape[d + 1..]) * shape[d]
  {
    if d < |shape| {
      assert shape[d..][1..] == shape[d + 1..];
    }
  }

  // ---------------------------------------------------------------- linear access

  /** ind2subC: from the linear index to the coordinate, dividing by ever shorter products. */
  method Ind2subC(shape: seq<int>, index: int) returns (coord: seq<int>)
    requires Positive(shape) && 0 <= index < Prod(shape)
    ensures coord == CUnravel(shape, index)
  {
    hide Prod;
    var denom, idx := Prod(shape), index;
    coord := [];
    assert shape[0..] == shape;
    for i := 0 to |shape|
      invariant |coord| == i && denom == Prod(shape[i..]) && 0 <= idx < denom
      invariant coord + CUnravel(shape[i..], idx) == CUnravel(shape, index)
    {
      ProdFrom(shape, i);
      ProdPositive(shape[i + 1..]);
      UnravelNext(shape, i, idx);
      QuotientExact(denom, shape[i], Prod(shape[i + 1..]));
      denom := denom / shape[i];
      if denom > 0 {
        coord := coord + [idx / denom];
        idx := idx % denom;
      } else {
        coord := coord + [0];
      }
    }
    assert CUnravel(shape[|shape|..], idx) == [];
  }

  lemma QuotientExact(n: int, d: int, q: int)
    requires d >= 1 && n == d * q
    ensures n / d == q
  {
    DivModUnique(n, d, q, 0);
  }

  lemma UnravelNext(shape: seq<int>, i: nat, idx: int)
    requires Positive(shape) && i < |shape|
    ensures Prod(shape[i + 1..]) >= 1
    ensures CUnravel(shape[i..], idx) == [idx / Prod(shape[i + 1..])] + CUnravel(shape[i + 1..], idx % Prod(shape[i + 1..]))
  {
    ProdPositive(shape[i + 1..]);
    assert shape[i..][1..] == shape[i + 1..];
  }

  /** The coordinate with the axes of size 1 left out. */
  function Squeezed(shape: seq<int>, c: seq<int>): (r: seq<int>)
    requires |c| == |shape|
    ensures |r| == |c|
  {
    seq(|c|, i requires 0 <= i < |c| => if shape[i] == 1 then 0 else c[i])
  }

  predicate TooLarge(shape: seq<int>, c: seq<int>)
    requires |c| == |shape|
  {
    exists i :: 0 <= i < |shape| && c[i] >= shape[i] != 1
  }

  /** getOffset: the address of a coordinate, skipping axes of size 1; -1 when a coordinate is
      too large for its axis. */
  method GetOffset(baseOffset: int, shape: seq<int>, strides: seq<int>, indices: seq<int>) returns (offset: int)
    requires |strides| == |shape| == |indices|
    ensures offset == if TooLarge(shape, indices) then -1 else baseOffset + Dot(Squeezed(shape, indices), strides)
    ensures InBox(shape, indices) ==> offset == baseOffset + Dot(indices, strides)
  {
    offset := baseOffset;
    var kept := Squeezed(shape, indices);
    assert InBox(shape, indices) ==> kept == indices;
    assert kept[..0] == [] && strides[..0] == [];
    for i := 0 to |shape|
      invariant forall j :: 0 <= j < i ==> !(indices[j] >= shape[j] != 1)
      invariant offset == baseOffset + Dot(kept[..i], strides[..i])
    {
      DotNext(kept, strides, i);
      if indices[i] >= shape[i] && shape[i] != 1 {
        return -1;
      }
      if shape[i] != 1 {
        offset := offset + indices[i] * strides[i];
      }
    }
    assert kept[..|shape|] == kept && strides[..|shape|] == strides;
  }

  lemma {:induction false} DotNext(c: seq<int>, s: seq<int>, i: nat)
    requires |c| == |s| && i < |c|
    ensures Dot(c[..i + 1], s[..i + 1]) == Dot(c[..i], s[..i]) + c[i] * s[i]
  {
    if i > 0 {
      DotNext(c[1..], s[1..], i - 1);
      assert c[..i + 1][1..] == c[1..][..i] && s[..i + 1][1..] == s[1..][..i];
      assert c[..i][1..] == c[1..][..i - 1] && s[..i][1..] == s[1..][..i - 1];
    } else {
      assert c[..1][1..] == [] && s[..1][1..] == [];
    }
  }

  /** What the accessor with three indices does: throw, leave the array, or read. */
  datatype Access = Refused | Outside | Held(value: real)

  predicate PassesCheck3(shape: seq<int>, i: nat, j: nat) {
    |shape| == 3 && i < shape[0] && j < shape[1] && j < shape[2]
  }

  /** The check lets every valid coordinate pass if and only if the middle axis is no longer
      than the last, and in every array it lets one pass that is not valid. */
  lemma Check3Iff(shape: seq<int>)
    requires |shape| == 3 && Positive(shape)
    ensures (forall i: nat, j: nat, k: nat :: InBox(shape, [i, j, k]) ==> PassesCheck3(shape, i, j)) <==> shape[1] <= shape[2]
    ensures PassesCheck3(shape, 0, 0) && !InBox(shape, [0, 0, shape[2]])
  {
    if shape[1] > shape[2] {
      assert InBox(shape, [0, shape[2], 0]) && !PassesCheck3(shape, 0, shape[2]);
    }
  }

  /** A window on a buffer. */
  class NDArray {
    const buffer: array<real>
    const offset: int
    const shape: seq<int>
    const strides: seq<int>
    const order: char
    const ews: int

    constructor (buffer: array<real>, offset: int, shape: seq<int>, strides: seq<int>, order: char, ews: int)
      ensures this.buffer == buffer && this.offset == offset && this.shape == shape && this.strides == strides
      ensures this.order == order && this.ews == ews
    {
      this.buffer, this.offset, this.shape, this.strides, this.order, this.ews :=
        buffer, offset, shape, strides, order, ews;
    }

    function Cell(c: seq<int>): int
      requires |c| == |strides|
    {
      offset + Dot(c, strides)
    }

    /** All cells lie in the buffer, and an array that claims an element-wise stride has the
        strides of its order, scaled by it. */
    ghost predicate Valid() {
      && |strides| == |shape| && Positive(shape) && (order == 'c' || order == 'f')
      && (forall c :: InBox(shape, c) ==> 0 <= Cell(c) < buffer.Length)
      && (order == 'c' && ews >= 1 ==> Tight(shape, strides, ews))
      && (order == 'f' && ews >= 1 ==> TightF(shape, strides, ews))
    }

    /** The address of an element by its linear index in the order of the array. */
    lemma ByElementWiseStride(i: int)
      requires Valid() && ews >= 1 && 0 <= i < Length()
      ensures order == 'c' ==> InBox(shape, CUnravel(shape, i)) && Cell(CUnravel(shape, i)) == offset + i * ews
      ensures order == 'f' ==> InBox(shape, FUnravel(shape, i)) && Cell(FUnravel(shape, i)) == offset + i * ews
    {
      hide Prod, Dot, CUnravel, FUnravel, CIndex, FIndex, Tight, TightF;
      if order == 'c' {
        CIndexUnravel(shape, i);
        TightDot(shape, strides, ews, CUnravel(shape, i));
      } else {
        FIndexUnravel(shape, i);
        TightDotF(shape, strides, ews, FUnravel(shape, i));
      }
    }

    /** Different coordinates lie in different cells. */
    ghost predicate Distinct()
      requires |strides| == |shape|
    {
      forall c, d :: InBox(shape, c) && InBox(shape, d) && Cell(c) == Cell(d) ==> c == d
    }

    ghost function At(c: seq<int>): real
      requires Valid() && InBox(shape, c)
      reads buffer
    {
      buffer[Cell(c)]
    }

    function Length(): int { Prod(shape) }

    /** The cell operator()(i) uses: directly by the element-wise stride if the array is
        row-major and has one, else through the coordinate. */
    method Locate(i: int) returns (at: int)
      requires Valid() && 0 <= i < Length()
      ensures InBox(shape, CUnravel(shape, i)) && at == Cell(CUnravel(shape, i)) && 0 <= at < buffer.Length
    {
      hide Dot, CUnravel, Tight, TightF;
      CIndexUnravel(shape, i);
      if ews >= 1 {
        ByElementWiseStride(i);
      }
      if ews == 1 && order == 'c' {
        at := offset + i;
      } else if ews > 1 && order == 'c' {
        at := offset + i * ews;
      } else {
        var idx := Ind2subC(shape, i);
        at := GetOffset(offset, shape, strides, idx);
      }
    }

    /** operator()(i) read, with its check of the index. */
    method Element(i: int) returns (r: Option<real>)
      requires Valid() && i >= 0
      ensures r.Some? <==> i < Length()
      ensures r.Some? ==> InBox(shape, CUnravel(shape, i)) && r.value == At(CUnravel(shape, i))
    {
      if i >= Length() {
        return None;
      }
      var v := Get(i);
      return Some(v);
    }

    /** operator()(i) written, with its check of the index. */
    method SetElement(i: int, v: real) returns (ok: bool)
      requires Valid() && i >= 0
      modifies buffer
      ensures ok <==> i < Length()
      ensures buffer[..] ==
              if ok && InBox(shape, CUnravel(shape, i)) && 0 <= Cell(CUnravel(shape, i)) < buffer.Length
              then old(buffer[..])[Cell(CUnravel(shape, i)) := v] else old(buffer[..])
      ensures ok ==> InBox(shape, CUnravel(shape, i)) && At(CUnravel(shape, i)) == v
    {
      ok := i < Length();
      if ok {
        Put(i, v);
      }
    }

    /** operator()(i, j), with its check of the indices. */
    method Element2(i: nat, j: nat) returns (r: Option<real>)
      requires Valid()
      ensures r.Some? <==> InBox(shape, [i, j])
      ensures r.Some? ==> r.value == At([i, j])
    {
      if |shape| != 2 || i >= shape[0] || j >= shape[1] {
        return None;
      }
      var at := GetOffset(offset, shape, strides, [i, j]);
      return Some(buffer[at]);
    }

    /** operator()(i, j, k). The check compares `j`, not `k`, with the last size, so valid
        coordinates can be refused, and a `k` that is too large leads to cell -1. */
    method Element3(i: nat, j: nat, k: nat) returns (r: Access)
      requires Valid()
      ensures r.Refused? <==> !PassesCheck3(shape, i, j)
      ensures PassesCheck3(shape, i, j) && InBox(shape, [i, j, k]) ==> r == Held(At([i, j, k]))
      ensures PassesCheck3(shape, i, j) && k >= shape[2] ==>
                r == if shape[2] == 1 && InBox(shape, [i, j, 0]) then Held(At([i, j, 0])) else Outside
    {
      if |shape| != 3 || i >= shape[0] || j >= shape[1] || j >= shape[2] {
        return Refused;
      }
      var at := GetOffset(0, shape, strides, [i, j, k]);
      if at == -1 && k >= shape[2] != 1 {
        return Outside;
      }
      ghost var c := [i, j, if shape[2] == 1 then 0 else k];
      assert InBox(shape, c) && Squeezed(shape, [i, j, k]) == c && offset + at == Cell(c);
      return Held(buffer[offset + at]);
    }

    /** operator()(i), read. */
    method Get(i: int) returns (v: real)
      requires Valid() && 0 <= i < Length()
      ensures InBox(shape, CUnravel(shape, i)) && v == At(CUnravel(shape, i))
    {
      var at := Locate(i);
      v := buffer[at];
    }

    /** operator()(i), written: one cell changes. */
    method Put(i: int, v: real)
      requires Valid() && 0 <= i < Length()
      modifies buffer
      ensures InBox(shape, CUnravel(shape, i)) && 0 <= Cell(CUnravel(shape, i)) < buffer.Length
      ensures buffer[..] == old(buffer[..])[Cell(CUnravel(shape, i)) := v]
    {
      var at := Locate(i);
      buffer[at] := v;
    }

    /** subarray: a window on the same buffer, or null if the intervals do not fit the rank or
        one of them is not a pair. */
    method Subarray(idx: seq<seq<int>>) returns (view: NDArray?)
      requires |strides| == |shape|
      ensures view != null <==> Intervals(idx, |shape|)
      ensures view != null ==>
                view.buffer == buffer && view.strides == strides && view.order == order && view.ews == -1
                && view.shape == BoxShape(shape, idx) && view.offset == offset + Dot(Firsts(idx, |shape|), strides)
    {
      if |idx| != |shape| {
        return null;
      }
      var newShape, start := shape, 0;
      assert Firsts(idx, |shape|)[..0] == [] && strides[..0] == [];
      for d := 0 to |idx|
        invariant |newShape| == |shape|
        invariant forall e :: 0 <= e < d ==> |idx[e]| == 0 || |idx[e]| == 2
        invariant forall e :: 0 <= e < |shape| ==>
                    newShape[e] == if e < d && |idx[e]| == 2 then idx[e][1] - idx[e][0] else shape[e]
        invariant start == Dot(Firsts(idx, |shape|)[..d], strides[..d])
      {
        DotNext(Firsts(idx, |shape|), strides, d);
        if |idx[d]| != 0 {
          if |idx[d]| != 2 {
            return null;
          }
          newShape := newShape[d := idx[d][1] - idx[d][0]];
          start := start + idx[d][0] * strides[d];
        }
      }
      assert Firsts(idx, |shape|)[..|shape|] == Firsts(idx, |shape|) && strides[..|shape|] == strides;
      assert newShape == BoxShape(shape, idx);
      view := new NDArray(buffer, offset + start, newShape, strides, order, -1);
    }
  }

  // ---------------------------------------------------------------- views

  /** One entry per axis: empty for the whole axis, or first and one past the last. */
  predicate Intervals(idx: seq<seq<int>>, rank: nat) {
    |idx| == rank && forall d :: 0 <= d < |idx| ==> |idx[d]| == 0 || |idx[d]| == 2
  }

  function BoxShape(shape: seq<int>, idx: seq<seq<int>>): (r: seq<int>)
    requires Intervals(idx, |shape|)
    ensures |r| == |shape|
  {
    seq(|shape|, d requires 0 <= d < |shape| => if |idx[d]| == 2 then idx[d][1] - idx[d][0] else shape[d])
  }

  function Firsts(idx: seq<seq<int>>, rank: nat): (r: seq<int>)
    ensures |r| == rank
  {
    seq(rank, d requires 0 <= d < rank => if d < |idx| && |idx[d]| > 0 then idx[d][0] else 0)
  }

  function Plus(c: seq<int>, d: seq<int>): (r: seq<int>)
    requires |c| == |d|
    ensures |r| == |c|
  {
    seq(|c|, i requires 0 <= i < |c| => c[i] + d[i])
  }

  /** The intervals lie inside the shape and none is empty. */
  ghost predicate Boxed(shape: seq<int>, idx: seq<seq<int>>) {
    && Intervals(idx, |shape|)
    && forall d :: 0 <= d < |idx| && |idx[d]| == 2 ==> 0 <= idx[d][0] < idx[d][1] <= shape[d]
  }

  lemma BoxInside(shape: seq<int>, idx: seq<seq<int>>, c: seq<int>)
    requires Boxed(shape, idx) && InBox(BoxShape(shape, idx), c)
    ensures InBox(shape, Plus(Firsts(idx, |shape|), c))
  {
  }

  /** A view addresses its parent at the start of the box plus the coordinate. */
  lemma ViewCell(a: NDArray, idx: seq<seq<int>>, view: NDArray, c: seq<int>)
    requires |a.strides| == |a.shape| == |c| && Intervals(idx, |a.shape|)
    requires view.strides == a.strides && view.offset == a.offset + Dot(Firsts(idx, |a.shape|), a.strides)
    ensures view.Cell(c) == a.Cell(Plus(Firsts(idx, |a.shape|), c))
  {
    DotAdd(Firsts(idx, |a.shape|), c, Plus(Firsts(idx, |a.shape|), c), a.strides);
  }

  /** A box taken out of a valid array is a valid array. */
  lemma ViewValid(a: NDArray, idx: seq<seq<int>>, view: NDArray)
    requires a.Valid() && a.Distinct() && Boxed(a.shape, idx)
    requires view.buffer == a.buffer && view.strides == a.strides && view.order == a.order && view.ews == -1
    requires view.shape == BoxShape(a.shape, idx) && view.offset == a.offset + Dot(Firsts(idx, |a.shape|), a.strides)
    ensures view.Valid() && view.Distinct()
  {
    hide Dot;
    var firsts := Firsts(idx, |a.shape|);
    assert Positive(view.shape);
    forall c | InBox(view.shape, c) ensures 0 <= view.Cell(c) < view.buffer.Length {
      ViewCell(a, idx, view, c);
      BoxInside(a.shape, idx, c);
    }
    forall c, d | InBox(view.shape, c) && InBox(view.shape, d) && view.Cell(c) == view.Cell(d) ensures c == d {
      ViewCell(a, idx, view, c);
      ViewCell(a, idx, view, d);
      BoxInside(a.shape, idx, c);
      BoxInside(a.shape, idx, d);
      assert Plus(firsts, c) == Plus(firsts, d);
      forall i | 0 <= i < |c| ensures c[i] == d[i] {
        assert Plus(firsts, c)[i] == Plus(firsts, d)[i];
      }
    }
  }

  /** A view of a view addresses the first array at the sum of the two starts. */
  lemma ViewOfView(a: NDArray, idx1: seq<seq<int>>, v1: NDArray, idx2: seq<seq<int>>, v2: NDArray, c: seq<int>)
    requires |a.strides| == |a.shape| == |c| && Intervals(idx1, |a.shape|)
    requires v1.strides == a.strides && v1.shape == BoxShape(a.shape, idx1)
    requires v1.offset == a.offset + Dot(Firsts(idx1, |a.shape|), a.strides)
    requires Intervals(idx2, |v1.shape|) && v2.strides == v1.strides
    requires v2.offset == v1.offset + Dot(Firsts(idx2, |v1.shape|), v1.strides)
    ensures v2.Cell(c) == a.Cell(Plus(Plus(Firsts(idx1, |a.shape|), Firsts(idx2, |a.shape|)), c))
  {
    hide Dot;
    var f1, f2 := Firsts(idx1, |a.shape|), Firsts(idx2, |a.shape|);
    ViewCell(v1, idx2, v2, c);
    ViewCell(a, idx1, v1, Plus(f2, c));
    assert Plus(Plus(f1, f2), c) == Plus(f1, Plus(f2, c));
  }

  // ---------------------------------------------------------------- copying

  /** Rank 0, or rank 1 or 2 with one element. */
  predicate IsScalar(shape: seq<int>) {
    |shape| <= 2 && forall d :: 0 <= d < |shape| ==> shape[d] == 1
  }

  /** A single number, up to rank 2. */
  ghost predicate OneElement(shape: seq<int>) { shape == [] || shape == [1] || shape == [1, 1] }

  lemma ScalarIs(shape: seq<int>)
    ensures IsScalar(shape) <==> OneElement(shape)
  {
    if IsScalar(shape) && |shape| > 0 {
      assert shape == if |shape| == 1 then [1] else [1, 1];
    }
  }

  lemma ScalarCoord(shape: seq<int>, c: seq<int>)
    requires IsScalar(shape) && InBox(shape, c)
    ensures c == Zeros(|shape|)
  {
  }

  /** The cells of an array. */
  ghost predicate Owns(a: NDArray, at: int)
    requires |a.strides| == |a.shape|
  {
    exists c :: InBox(a.shape, c) && a.Cell(c) == at
  }

  /** What copying leaves alone. */
  twostate predicate OthersKept(a: NDArray)
    requires |a.strides| == |a.shape|
    reads a.buffer
  {
    forall at :: 0 <= at < a.buffer.Length && !Owns(a, at) ==> a.buffer[at] == old(a.buffer[at])
  }

  /** Writes one value to every element. */
  method Fill(a: NDArray, v: real)
    requires a.Valid() && a.Distinct()
    modifies a.buffer
    ensures forall c :: InBox(a.shape, c) ==> a.At(c) == v
    ensures OthersKept(a)
  {
    ProdPositive(a.shape);
    hide Prod, Dot, CUnravel, NDArray.Cell;
    for i := 0 to Prod(a.shape)
      invariant forall k :: 0 <= k < i ==> InBox(a.shape, CUnravel(a.shape, k)) && a.At(CUnravel(a.shape, k)) == v
      invariant OthersKept(a)
    {
      a.Put(i, v);
    }
    forall c | InBox(a.shape, c) ensures a.At(c) == v {
      CUnravelIndex(a.shape, c);
      CIndexRange(a.shape, c);
    }
  }

  /** Different indices unravel to different coordinates. */
  lemma UnravelOnce(shape: seq<int>, j: int, k: int)
    requires Positive(shape) && 0 <= j < Prod(shape) && 0 <= k < Prod(shape) && j != k
    ensures CUnravel(shape, j) != CUnravel(shape, k)
  {
    CIndexUnravel(shape, j);
    CIndexUnravel(shape, k);
  }

  /** Element `k` in row-major order is the same in both arrays. */
  ghost predicate SameElement(a: NDArray, target: NDArray, k: int)
    requires a.Valid() && target.Valid()
    reads a.buffer, target.buffer
  {
    && InBox(target.shape, CUnravel(target.shape, k)) && InBox(a.shape, CUnravel(a.shape, k))
    && target.At(CUnravel(target.shape, k)) == a.At(CUnravel(a.shape, k))
  }

  /** The same with the first axis fastest. */
  ghost predicate SameElementF(a: NDArray, target: NDArray, k: int)
    requires a.Valid() && target.Valid()
    reads a.buffer, target.buffer
  {
    && InBox(target.shape, FUnravel(target.shape, k)) && InBox(a.shape, FUnravel(a.shape, k))
    && target.At(FUnravel(target.shape, k)) == a.At(FUnravel(a.shape, k))
  }

  method CopyElement(a: NDArray, target: NDArray, i: int)
    requires a.Valid() && target.Valid() && target.Distinct() && target.buffer != a.buffer
    requires 0 <= i < target.Length() == a.Length()
    requires forall k :: 0 <= k < i ==> SameElement(a, target, k)
    modifies target.buffer
    ensures forall k :: 0 <= k <= i ==> SameElement(a, target, k)
    ensures OthersKept(target)
  {
    hide Prod, Dot, CUnravel, NDArray.Cell;
    var v := a.Get(i);
    target.Put(i, v);
    forall k | 0 <= k < i ensures SameElement(a, target, k) {
      assert old(SameElement(a, target, k));
      UnravelOnce(target.shape, k, i);
    }
  }

  /** Copies element by element in row-major order, whatever the two shapes are. */
  method CopyElements(target: NDArray, a: NDArray)
    requires a.Valid() && target.Valid() && target.Distinct() && target.buffer != a.buffer && target.Length() == a.Length()
    modifies target.buffer
    ensures forall k :: 0 <= k < a.Length() ==> SameElement(a, target, k)
    ensures OthersKept(target)
  {
    ProdPositive(a.shape);
    hide Prod, Dot, CUnravel, NDArray.Cell, NDArray.Distinct, SameElement;
    for i := 0 to Prod(a.shape)
      invariant forall k :: 0 <= k < i ==> SameElement(a, target, k)
      invariant OthersKept(target)
    {
      CopyElement(a, target, i);
    }
  }

  method CopyCell(a: NDArray, target: NDArray, i: int)
    requires a.Valid() && target.Valid() && target.Distinct() && target.buffer != a.buffer
    requires a.order == target.order == 'f' && a.ews == target.ews >= 1 && 0 <= i < target.Length() == a.Length()
    requires forall k :: 0 <= k < i ==> SameElementF(a, target, k)
    modifies target.buffer
    ensures forall k :: 0 <= k <= i ==> SameElementF(a, target, k)
    ensures OthersKept(target)
  {
    hide Prod, Dot, FUnravel, NDArray.Cell, Tight, TightF;
    a.ByElementWiseStride(i);
    target.ByElementWiseStride(i);
    target.buffer[target.offset + i * target.ews] := a.buffer[a.offset + i * a.ews];
    forall k | 0 <= k < i ensures SameElementF(a, target, k) {
      assert old(SameElementF(a, target, k));
      FIndexUnravel(target.shape, k);
      FIndexUnravel(target.shape, i);
    }
  }

  /** Copies the buffers cell by cell: column-major order for column-major arrays. */
  method CopyCells(target: NDArray, a: NDArray)
    requires a.Valid() && target.Valid() && target.Distinct() && target.buffer != a.buffer && target.Length() == a.Length()
    requires a.order == target.order == 'f' && a.ews == target.ews >= 1
    modifies target.buffer
    ensures forall k :: 0 <= k < a.Length() ==> SameElementF(a, target, k)
    ensures OthersKept(target)
  {
    ProdPositive(a.shape);
    hide Prod, Dot, FUnravel, NDArray.Cell, NDArray.Distinct, SameElementF;
    for i := 0 to Prod(a.shape)
      invariant forall k :: 0 <= k < i ==> SameElementF(a, target, k)
      invariant OthersKept(target)
    {
      CopyCell(a, target, i);
    }
  }

  /** With equal shapes every coordinate is copied, in either order. */
  lemma SameShapeCopied(a: NDArray, target: NDArray, c: seq<int>)
    requires a.Valid() && target.Valid() && a.shape == target.shape && InBox(a.shape, c)
    requires (forall k :: 0 <= k < a.Length() ==> SameElement(a, target, k))
             || (forall k :: 0 <= k < a.Length() ==> SameElementF(a, target, k))
    ensures target.At(c) == a.At(c)
  {
    hide Prod, Dot, CUnravel, FUnravel, CIndex, FIndex, NDArray.Cell, NDArray.At;
    CUnravelIndex(a.shape, c);
    CIndexRange(a.shape, c);
    FUnravelIndex(a.shape, c);
    FIndexRange(a.shape, c);
    assert SameElement(a, target, CIndex(a.shape, c)) || SameElementF(a, target, FIndex(a.shape, c));
  }

  lemma FirstCoord(shape: seq<int>)
    requires Positive(shape)
    ensures Prod(shape) >= 1 && CUnravel(shape, 0) == Zeros(|shape|) && InBox(shape, Zeros(|shape|))
  {
    ProdPositive(shape);
    ZeroCoord(shape, shape, Zeros(|shape|));
    CUnravelIndex(shape, Zeros(|shape|));
  }

  /** Two column-major arrays of the same element-wise stride are copied in their own order,
      all others in row-major order. */
  predicate ByColumns(a: NDArray, other: NDArray) {
    a.order == other.order == 'f' && a.ews == other.ews >= 1
  }

  /** Element by element, `a` holds what `other` holds. */
  ghost predicate Copied(a: NDArray, other: NDArray)
    requires a.Valid() && other.Valid()
    reads a.buffer, other.buffer
  {
    if a.order == 'f' && other.order == 'f' && a.ews >= 1 && a.ews == other.ews
    then forall k :: 0 <= k < other.Length() ==> SameElementF(other, a, k)
    else forall k :: 0 <= k < other.Length() ==> SameElement(other, a, k)
  }

  /** assign: a scalar fills the array, an array of another length is refused. Shapes of the
      same length may differ. */
  method Assign(a: NDArray, other: NDArray) returns (ok: bool)
    requires a.Valid() && a.Distinct() && other.Valid() && other.buffer != a.buffer
    modifies a.buffer
    ensures ok <==> OneElement(other.shape) || other.Length() == a.Length()
    ensures InBox(other.shape, Zeros(|other.shape|))
    ensures ok && OneElement(other.shape) ==> forall c :: InBox(a.shape, c) ==> a.At(c) == other.At(Zeros(|other.shape|))
    ensures ok && !OneElement(other.shape) ==> Copied(a, other)
    ensures ok && a.shape == other.shape ==> forall c :: InBox(a.shape, c) ==> a.At(c) == other.At(c)
    ensures OthersKept(a)
    ensures !ok ==> a.buffer[..] == old(a.buffer[..])
  {
    FirstCoord(other.shape);
    ScalarIs(other.shape);
    hide Prod, Dot, CUnravel, NDArray.Cell, NDArray.At, NDArray.Distinct, OneElement, SameElement, SameElementF, IsScalar, OthersKept;
    if IsScalar(other.shape) {
      var v := other.Get(0);
      Fill(a, v);
      forall c | InBox(other.shape, c) ensures c == Zeros(|other.shape|) {
        ScalarCoord(other.shape, c);
      }
      return true;
    }
    if other.Length() != a.Length() {
      return false;
    }
    if ByColumns(a, other) {
      CopyCells(a, other);
    } else {
      CopyElements(a, other);
    }
    if a.shape == other.shape {
      forall c | InBox(a.shape, c) ensures a.At(c) == other.At(c) {
        SameShapeCopied(other, a, c);
      }
    }
    return true;
  }

  /** The coordinate lies in the box of the intervals. */
  predicate InBoxOf(idx: seq<seq<int>>, d: seq<int>)
    requires Intervals(idx, |d|)
  {
    forall i :: 0 <= i < |idx| && |idx[i]| == 2 ==> idx[i][0] <= d[i] < idx[i][1]
  }

  lemma BoxCoord(shape: seq<int>, idx: seq<seq<int>>, c: seq<int>)
    requires Boxed(shape, idx) && InBox(BoxShape(shape, idx), c)
    ensures InBox(shape, Plus(Firsts(idx, |shape|), c)) && InBoxOf(idx, Plus(Firsts(idx, |shape|), c))
  {
  }

  /** A cell of the view is a cell of the array, and of no element outside the box. */
  lemma ViewOwns(a: NDArray, idx: seq<seq<int>>, view: NDArray, d: seq<int>)
    requires a.Valid() && a.Distinct() && Boxed(a.shape, idx) && InBox(a.shape, d) && !InBoxOf(idx, d)
    requires view.strides == a.strides && view.shape == BoxShape(a.shape, idx)
    requires view.offset == a.offset + Dot(Firsts(idx, |a.shape|), a.strides)
    ensures !Owns(view, a.Cell(d))
  {
    hide Dot;
    forall c | InBox(view.shape, c) ensures view.Cell(c) != a.Cell(d) {
      ViewCell(a, idx, view, c);
      BoxCoord(a.shape, idx, c);
    }
  }

  lemma ViewOwnsInside(a: NDArray, idx: seq<seq<int>>, view: NDArray, at: int)
    requires |a.strides| == |a.shape| && Boxed(a.shape, idx)
    requires view.strides == a.strides && view.shape == BoxShape(a.shape, idx) && Owns(view, at)
    requires view.offset == a.offset + Dot(Firsts(idx, |a.shape|), a.strides)
    ensures Owns(a, at)
  {
    hide Dot;
    var c :| InBox(view.shape, c) && view.Cell(c) == at;
    ViewCell(a, idx, view, c);
    BoxCoord(a.shape, idx, c);
  }

  /** What the box of `idx` in `a` holds at box coordinate `c`. */
  ghost function BoxCell(a: NDArray, idx: seq<seq<int>>, c: seq<int>): real
    requires a.Valid() && Boxed(a.shape, idx) && InBox(BoxShape(a.shape, idx), c)
    reads a.buffer
  {
    BoxCoord(a.shape, idx, c);
    a.At(Plus(Firsts(idx, |a.shape|), c))
  }

  /** Element `k` of `other`, in row-major order, is element `k` of the box. */
  ghost predicate BoxElement(a: NDArray, idx: seq<seq<int>>, other: NDArray, k: int)
    requires a.Valid() && Boxed(a.shape, idx) && other.Valid()
    reads a.buffer, other.buffer
  {
    var box := BoxShape(a.shape, idx);
    && Positive(box) && InBox(box, CUnravel(box, k)) && InBox(other.shape, CUnravel(other.shape, k))
    && BoxCell(a, idx, CUnravel(box, k)) == other.At(CUnravel(other.shape, k))
  }

  /** assign(other, idx): copies into the box. The box gets the elements of `other` in
      row-major order - for equal shapes box cell first + c gets other[c] - or the scalar;
      every other element and every cell outside the array is untouched. */
  method AssignBox(a: NDArray, other: NDArray, idx: seq<seq<int>>) returns (ok: bool)
    requires a.Valid() && a.Distinct() && other.Valid() && other.buffer != a.buffer
    requires Intervals(idx, |a.shape|) ==> Boxed(a.shape, idx)
    modifies a.buffer
    ensures ok <==> Intervals(idx, |a.shape|) && (OneElement(other.shape) || other.Length() == Prod(BoxShape(a.shape, idx)))
    ensures InBox(other.shape, Zeros(|other.shape|))
    ensures ok && OneElement(other.shape) ==>
              forall c :: InBox(BoxShape(a.shape, idx), c) ==> BoxCell(a, idx, c) == other.At(Zeros(|other.shape|))
    ensures ok && !OneElement(other.shape) ==> forall k :: 0 <= k < other.Length() ==> BoxElement(a, idx, other, k)
    ensures ok && !OneElement(other.shape) && other.shape == BoxShape(a.shape, idx) ==>
              forall c :: InBox(other.shape, c) ==> BoxCell(a, idx, c) == other.At(c)
    ensures ok ==> forall d :: InBox(a.shape, d) && !InBoxOf(idx, d) ==> a.At(d) == old(a.At(d))
    ensures OthersKept(a)
    ensures !ok ==> a.buffer[..] == old(a.buffer[..])
  {
    hide Prod, Dot, CUnravel, Boxed, InBoxOf, Owns, OneElement, SameElement;
    FirstCoord(other.shape);
    ScalarIs(other.shape);
    var sub := a.Subarray(idx);
    if sub == null {
      return false;
    }
    ViewValid(a, idx, sub);
    ok := Assign(sub, other);
    if ok {
      forall c | InBox(sub.shape, c) ensures BoxCell(a, idx, c) == sub.At(c) {
        ViewCell(a, idx, sub, c);
        BoxCoord(a.shape, idx, c);
      }
      if !IsScalar(other.shape) {
        forall k | 0 <= k < other.Length() ensures BoxElement(a, idx, other, k) {
          BoxHolds(a, idx, sub, other, k);
        }
      }
      forall d | InBox(a.shape, d) && !InBoxOf(idx, d) ensures a.At(d) == old(a.At(d)) {
        ViewOwns(a, idx, sub, d);
      }
    }
    forall at | 0 <= at < a.buffer.Length && !Owns(a, at) ensures a.buffer[at] == old(a.buffer[at]) {
      if Owns(sub, at) {
        ViewOwnsInside(a, idx, sub, at);
      }
    }
  }

  lemma BoxHolds(a: NDArray, idx: seq<seq<int>>, view: NDArray, other: NDArray, k: int)
    requires a.Valid() && Boxed(a.shape, idx) && view.Valid() && other.Valid() && view.shape == BoxShape(a.shape, idx)
    requires view.ews == -1 && Copied(view, other) && 0 <= k < other.Length()
    requires forall c :: InBox(view.shape, c) ==> BoxCell(a, idx, c) == view.At(c)
    ensures BoxElement(a, idx, other, k)
  {
    hide Prod, CUnravel, BoxCell, NDArray.At, NDArray.Cell;
    assert SameElement(other, view, k);
  }
}
