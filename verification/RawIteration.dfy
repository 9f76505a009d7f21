/** Raw n-dimensional iteration: the odometer that steps one data pointer per operand, and
    the preparation that turns negative strides of the first operand around. Pointers are
    element offsets; one to four operands share one shape. */
module RawIteration {
  import opened Shapes

  ghost predicate Operands(shape: seq<int>, strides: seq<seq<int>>, base: seq<int>) {
    |strides| == |base| && forall j :: 0 <= j < |strides| ==> |strides[j]| == |shape|
  }

  /** The cell of every operand at coordinate `c`. */
  ghost function Addresses(strides: seq<seq<int>>, base: seq<int>, c: seq<int>): (a: seq<int>)
    requires Operands(c, strides, base)
    ensures |a| == |base|
  {
    seq(|base|, j requires 0 <= j < |base| => base[j] + Dot(c, strides[j]))
  }

  /** The cells visited, in order, with the first axis fastest; none if some axis is empty. */
  ghost function Visits(shape: seq<int>, strides: seq<seq<int>>, base: seq<int>): seq<seq<int>>
    requires Operands(shape, strides, base)
  {
    if !Positive(shape) then []
    else
      ProdPositive(shape);
      seq(Prod(shape), k requires 0 <= k < Prod(shape) => Addresses(strides, base, FUnravel(shape, k)))
  }

  // ---------------------------------------------------------------- the odometer

  /** Every pointer moves `steps` entries along axis `i`. */
  function Moved(data: seq<int>, strides: seq<seq<int>>, i: nat, steps: int): (r: seq<int>)
    requires |strides| == |data| && forall j :: 0 <= j < |strides| ==> i < |strides[j]|
    ensures |r| == |data|
  {
    seq(|data|, j requires 0 <= j < |data| => data[j] + steps * strides[j][i])
  }

  lemma AddressesUpdate(strides: seq<seq<int>>, base: seq<int>, c: seq<int>, i: nat, v: int)
    requires Operands(c, strides, base) && i < |c|
    ensures Moved(Addresses(strides, base, c), strides, i, v - c[i]) == Addresses(strides, base, c[i := v])
  {
    var data := Moved(Addresses(strides, base, c), strides, i, v - c[i]);
    forall j | 0 <= j < |data| ensures data[j] == Addresses(strides, base, c[i := v])[j] {
      DotUpdate(c, strides[j], i, v);
    }
  }

  lemma AddressesAtZero(shape: seq<int>, strides: seq<seq<int>>, base: seq<int>, c: seq<int>)
    requires |c| == |shape| && Operands(c, strides, base) && forall i :: 0 <= i < |c| ==> c[i] == 0
    ensures Addresses(strides, base, c) == base
  {
    forall j | 0 <= j < |base| ensures Addresses(strides, base, c)[j] == base[j] {
      ZeroCoord(shape, strides[j], c);
    }
  }

  /** One NEXT step, first axis fastest. `more` is false once every axis has wrapped. */
  method NextCoord(shape: seq<int>, strides: seq<seq<int>>, coord: array<int>, data: seq<int>, ghost base: seq<int>)
    returns (newData: seq<int>, more: bool)
    requires Positive(shape) && Operands(shape, strides, base)
    requires coord.Length == |shape| && InBox(shape, coord[..]) && data == Addresses(strides, base, coord[..])
    modifies coord
    ensures InBox(shape, coord[..]) && newData == Addresses(strides, base, coord[..])
    ensures more ==> FIndex(shape, coord[..]) == old(FIndex(shape, coord[..])) + 1
    ensures !more ==> old(FIndex(shape, coord[..])) == Prod(shape) - 1 && newData == base
  {
    hide Addresses, Moved, FIndex, Prod;
    var ndim := |shape|;
    newData, more := data, false;
    var idim := 0;
    ghost var c0 := coord[..];
    while idim < ndim
      invariant 0 <= idim <= ndim && !more
      invariant forall j :: 0 <= j < idim ==> coord[j] == 0 && c0[j] == shape[j] - 1
      invariant forall j :: idim <= j < ndim ==> coord[j] == c0[j]
      invariant newData == Addresses(strides, base, coord[..])
    {
      ghost var c := coord[..];
      coord[idim] := coord[idim] + 1;
      if coord[idim] == shape[idim] {
        coord[idim] := 0;
        newData := Moved(newData, strides, idim, -(shape[idim] - 1));
        assert coord[..] == c[idim := 0];
        AddressesUpdate(strides, base, c, idim, 0);
      } else {
        newData := Moved(newData, strides, idim, 1);
        assert coord[..] == c[idim := c[idim] + 1];
        AddressesUpdate(strides, base, c, idim, c[idim] + 1);
        FCarry(shape, c0, coord[..], idim);
        more := true;
        break;
      }
      idim := idim + 1;
    }
    if !more {
      LastCoord(shape, c0);
      AddressesAtZero(shape, strides, base, coord[..]);
    }
  }

  /** One NEXT step of the variant whose last axis is fastest. */
  method NextCoordF(shape: seq<int>, strides: seq<seq<int>>, coord: array<int>, data: seq<int>, ghost base: seq<int>)
    returns (newData: seq<int>, more: bool)
    requires Positive(shape) && Operands(shape, strides, base)
    requires coord.Length == |shape| && InBox(shape, coord[..]) && data == Addresses(strides, base, coord[..])
    modifies coord
    ensures InBox(shape, coord[..]) && newData == Addresses(strides, base, coord[..])
    ensures more ==> CIndex(shape, coord[..]) == old(CIndex(shape, coord[..])) + 1
    ensures !more ==> old(CIndex(shape, coord[..])) == Prod(shape) - 1 && newData == base
  {
    hide Addresses, Moved, CIndex, Prod;
    var ndim := |shape|;
    newData, more := data, false;
    var idim := ndim - 1;
    ghost var c0 := coord[..];
    while idim >= 0
      invariant -1 <= idim < ndim && !more
      invariant forall j :: idim < j < ndim ==> coord[j] == 0 && c0[j] == shape[j] - 1
      invariant forall j :: 0 <= j <= idim ==> coord[j] == c0[j]
      invariant newData == Addresses(strides, base, coord[..])
    {
      ghost var c := coord[..];
      coord[idim] := coord[idim] + 1;
      if coord[idim] == shape[idim] {
        coord[idim] := 0;
        newData := Moved(newData, strides, idim, -(shape[idim] - 1));
        assert coord[..] == c[idim := 0];
        AddressesUpdate(strides, base, c, idim, 0);
      } else {
        newData := Moved(newData, strides, idim, 1);
        assert coord[..] == c[idim := c[idim] + 1];
        AddressesUpdate(strides, base, c, idim, c[idim] + 1);
        CCarry(shape, c0, coord[..], idim);
        more := true;
        break;
      }
      idim := idim - 1;
    }
    if !more {
      LastCoord(shape, c0);
      AddressesAtZero(shape, strides, base, coord[..]);
    }
  }

  /** START ... NEXT: the body runs once for every coordinate, in index order, with every
      pointer at its operand's cell, and the pointers end where they began. */
  method RawIter(shape: seq<int>, strides: seq<seq<int>>, base: seq<int>)
    returns (coords: seq<seq<int>>, cells: seq<seq<int>>, data: seq<int>)
    requires Positive(shape) && Operands(shape, strides, base)
    ensures |coords| == Prod(shape)
    ensures forall k :: 0 <= k < |coords| ==> coords[k] == FUnravel(shape, k)
    ensures cells == Visits(shape, strides, base)
    ensures data == base
  {
    var coord := new int[|shape|](i => 0);
    data := base;
    AddressesAtZero(shape, strides, base, coord[..]);
    ZeroCoord(shape, shape, coord[..]);
    ProdPositive(shape);
    coords, cells := [], [];
    var more := true;
    while more
      invariant |coords| == |cells| <= Prod(shape)
      invariant InBox(shape, coord[..]) && data == Addresses(strides, base, coord[..])
      invariant more ==> FIndex(shape, coord[..]) == |coords|
      invariant !more ==> |coords| == Prod(shape) && data == base
      invariant forall k :: 0 <= k < |coords| ==>
                  coords[k] == FUnravel(shape, k) && cells[k] == Addresses(strides, base, FUnravel(shape, k))
      decreases Prod(shape) - |coords|, more
    {
      FUnravelIndex(shape, coord[..]);
      FIndexRange(shape, coord[..]);
      coords, cells := coords + [coord[..]], cells + [data];
      data, more := NextCoord(shape, strides, coord, data, base);
    }
  }

  /** The same with the last axis fastest: row-major order. */
  method RawIterF(shape: seq<int>, strides: seq<seq<int>>, base: seq<int>)
    returns (coords: seq<seq<int>>, cells: seq<seq<int>>, data: seq<int>)
    requires Positive(shape) && Operands(shape, strides, base)
    ensures |coords| == |cells| == Prod(shape)
    ensures forall k :: 0 <= k < |coords| ==> coords[k] == CUnravel(shape, k)
    ensures forall k :: 0 <= k < |cells| ==> cells[k] == Addresses(strides, base, CUnravel(shape, k))
    ensures data == base
  {
    var coord := new int[|shape|](i => 0);
    data := base;
    AddressesAtZero(shape, strides, base, coord[..]);
    ZeroCoord(shape, shape, coord[..]);
    ProdPositive(shape);
    coords, cells := [], [];
    var more := true;
    while more
      invariant |coords| == |cells| <= Prod(shape)
      invariant InBox(shape, coord[..]) && data == Addresses(strides, base, coord[..])
      invariant more ==> CIndex(shape, coord[..]) == |coords|
      invariant !more ==> |coords| == Prod(shape) && data == base
      invariant forall k :: 0 <= k < |coords| ==>
                  coords[k] == CUnravel(shape, k) && cells[k] == Addresses(strides, base, CUnravel(shape, k))
      decreases Prod(shape) - |coords|, more
    {
      CUnravelIndex(shape, coord[..]);
      CIndexRange(shape, coord[..]);
      coords, cells := coords + [coord[..]], cells + [data];
      data, more := NextCoordF(shape, strides, coord, data, base);
    }
  }

  // ---------------------------------------------------------------- turning axes around

  /** Strides of one operand after every axis with a negative stride in `a` is reversed. */
  function FlipStrides(a: seq<int>, s: seq<int>): (r: seq<int>)
    requires |a| == |s|
    ensures |r| == |s|
  {
    seq(|s|, i requires 0 <= i < |s| => if a[i] < 0 then -s[i] else s[i])
  }

  /** How far reversing those axes moves the first cell of the operand. */
  function FlipOffset(shape: seq<int>, a: seq<int>, s: seq<int>): int
    requires |shape| == |a| == |s|
  {
    if shape == [] then 0
    else (if a[0] < 0 then s[0] * (shape[0] - 1) else 0) + FlipOffset(shape[1..], a[1..], s[1..])
  }

  /** The coordinate that addresses the same cell before the reversal. */
  function Flip(shape: seq<int>, a: seq<int>, c: seq<int>): (d: seq<int>)
    requires |shape| == |a| == |c|
    ensures |d| == |c|
  {
    seq(|c|, i requires 0 <= i < |c| => if a[i] < 0 then shape[i] - 1 - c[i] else c[i])
  }

  lemma {:induction false} FlipAddress(shape: seq<int>, a: seq<int>, s: seq<int>, c: seq<int>)
    requires |shape| == |a| == |s| == |c|
    ensures FlipOffset(shape, a, s) + Dot(c, FlipStrides(a, s)) == Dot(Flip(shape, a, c), s)
  {
    if shape != [] {
      FlipAddress(shape[1..], a[1..], s[1..], c[1..]);
      assert FlipStrides(a, s)[1..] == FlipStrides(a[1..], s[1..]);
      assert Flip(shape, a, c)[1..] == Flip(shape[1..], a[1..], c[1..]);
      assert s[0] * (shape[0] - 1) + c[0] * -s[0] == (shape[0] - 1 - c[0]) * s[0];
    }
  }

  /** Rearranging a sequence by a one-to-one index map keeps its multiset. */
  lemma {:induction false} Rearranged<T>(s: seq<T>, t: seq<T>, m: seq<int>)
    requires |s| == |t| == |m|
    requires forall k :: 0 <= k < |m| ==> 0 <= m[k] < |s| && t[k] == s[m[k]]
    requires forall j, k :: 0 <= j < k < |m| ==> m[j] != m[k]
    ensures multiset(s) == multiset(t)
  {
    if |s| == 0 {
    } else {
      var last := |m| - 1;
      var x := m[last];
      var m' := seq(last, k requires 0 <= k < last => if m[k] < x then m[k] else m[k] - 1);
      forall k | 0 <= k < last ensures 0 <= m'[k] < |s| - 1 && t[..last][k] == Without(s, x)[m'[k]] {
        assert m[k] != x;
      }
      Rearranged(Without(s, x), t[..last], m');
      TakenOut(s, x);
      TakenOut(t, last);
      assert Without(t, last) == t[..last];
    }
  }

  function Without<T>(s: seq<T>, x: int): (r: seq<T>)
    requires 0 <= x < |s|
    ensures |r| == |s| - 1
  {
    s[..x] + s[x + 1..]
  }

  lemma TakenOut<T>(s: seq<T>, x: int)
    requires 0 <= x < |s|
    ensures multiset(s) == multiset(Without(s, x)) + multiset{s[x]}
  {
    assert s == s[..x] + [s[x]] + s[x + 1..];
  }

  ghost function FlipAll(a: seq<int>, strides: seq<seq<int>>): (r: seq<seq<int>>)
    requires forall j :: 0 <= j < |strides| ==> |strides[j]| == |a|
    ensures |r| == |strides| && forall j :: 0 <= j < |r| ==> |r[j]| == |a|
  {
    seq(|strides|, j requires 0 <= j < |strides| => FlipStrides(a, strides[j]))
  }

  ghost function MoveAll(shape: seq<int>, a: seq<int>, strides: seq<seq<int>>, base: seq<int>): (r: seq<int>)
    requires |a| == |shape| && Operands(shape, strides, base)
    ensures |r| == |base|
  {
    seq(|base|, j requires 0 <= j < |base| => base[j] + FlipOffset(shape, a, strides[j]))
  }

  lemma FlipCell(shape: seq<int>, a: seq<int>, strides: seq<seq<int>>, base: seq<int>, c: seq<int>)
    requires |a| == |shape| == |c| && Operands(shape, strides, base)
    ensures Addresses(FlipAll(a, strides), MoveAll(shape, a, strides, base), c)
         == Addresses(strides, base, Flip(shape, a, c))
  {
    var flipped, moved := FlipAll(a, strides), MoveAll(shape, a, strides, base);
    forall j | 0 <= j < |base|
      ensures Addresses(flipped, moved, c)[j] == Addresses(strides, base, Flip(shape, a, c))[j]
    {
      FlipAddress(shape, a, strides[j], c);
    }
  }

  /** Reversing axes visits the same cells of all operands together, as often as before. */
  lemma FlipVisits(shape: seq<int>, a: seq<int>, strides: seq<seq<int>>, base: seq<int>)
    requires |a| == |shape| && Operands(shape, strides, base)
    ensures multiset(Visits(shape, FlipAll(a, strides), MoveAll(shape, a, strides, base)))
         == multiset(Visits(shape, strides, base))
  {
    if Positive(shape) {
      ProdPositive(shape);
      var n := Prod(shape);
      var m := seq(n, k requires 0 <= k < n => FIndex(shape, Flip(shape, a, FUnravel(shape, k))));
      var before, after := Visits(shape, strides, base), Visits(shape, FlipAll(a, strides), MoveAll(shape, a, strides, base));
      forall k | 0 <= k < n ensures 0 <= m[k] < n && after[k] == before[m[k]] {
        FlipIndex(shape, a, k);
        FlipCell(shape, a, strides, base, FUnravel(shape, k));
      }
      forall j, k | 0 <= j < k < n ensures m[j] != m[k] {
        FlipIndex(shape, a, j);
        FlipIndex(shape, a, k);
      }
      Rearranged(before, after, m);
    }
  }

  lemma FlipIndex(shape: seq<int>, a: seq<int>, k: int)
    requires |a| == |shape| && Positive(shape) && 0 <= k < Prod(shape)
    ensures var m := FIndex(shape, Flip(shape, a, FUnravel(shape, k)));
            && 0 <= m < Prod(shape) && FUnravel(shape, m) == Flip(shape, a, FUnravel(shape, k))
            && FIndex(shape, Flip(shape, a, FUnravel(shape, m))) == k
  {
    hide Prod, FIndex, FUnravel;
    FIndexUnravel(shape, k);
    var c := FUnravel(shape, k);
    var d := Flip(shape, a, c);
    FIndexRange(shape, d);
    FUnravelIndex(shape, d);
    assert Flip(shape, a, d) == c;
  }

  // ---------------------------------------------------------------- preparation

  ghost predicate NonNegative(s: seq<int>) { forall i :: 0 <= i < |s| ==> s[i] >= 0 }

  lemma {:induction false} FlipOffsetNext(shape: seq<int>, a: seq<int>, s: seq<int>, i: nat)
    requires |shape| == |a| == |s| && i < |s|
    ensures FlipOffset(shape[..i + 1], a[..i + 1], s[..i + 1])
         == FlipOffset(shape[..i], a[..i], s[..i]) + if a[i] < 0 then s[i] * (shape[i] - 1) else 0
  {
    if i > 0 {
      FlipOffsetNext(shape[1..], a[1..], s[1..], i - 1);
      assert shape[1..][..i] == shape[..i + 1][1..] && shape[1..][..i - 1] == shape[..i][1..];
      assert a[1..][..i] == a[..i + 1][1..] && a[1..][..i - 1] == a[..i][1..];
      assert s[1..][..i] == s[..i + 1][1..] && s[1..][..i - 1] == s[..i][1..];
    }
  }

  lemma NoVisits(shape: seq<int>, strides: seq<seq<int>>, base: seq<int>, i: nat)
    requires Operands(shape, strides, base) && i < |shape| && shape[i] == 0
    ensures Visits(shape, strides, base) == []
  {
  }

  /** Reverses the axes copied into the outputs, in place. */
  method ReverseTwo(ndim: nat, dataA: int, dataB: int,
                    outShape: array<int>, outStridesA: array<int>, outStridesB: array<int>)
    returns (outNdim: nat, outDataA: int, outDataB: int)
    requires ndim <= outShape.Length && ndim <= outStridesA.Length && ndim <= outStridesB.Length
    requires NonNegative(outShape[..ndim])
    requires outShape != outStridesA && outShape != outStridesB && outStridesA != outStridesB
    modifies outShape, outStridesA, outStridesB
    ensures outNdim <= outShape.Length && outNdim <= outStridesA.Length && outNdim <= outStridesB.Length
    ensures NonNegative(outStridesA[..outNdim])
    ensures multiset(Visits(outShape[..outNdim], [outStridesA[..outNdim], outStridesB[..outNdim]], [outDataA, outDataB]))
         == multiset(Visits(old(outShape[..ndim]), [old(outStridesA[..ndim]), old(outStridesB[..ndim])], [dataA, dataB]))
  {
    hide Visits, FlipOffset, FlipStrides, Turned;
    ghost var sh, sA, sB := outShape[..ndim], outStridesA[..ndim], outStridesB[..ndim];
    assert sA == outStridesA[..][..ndim] && sB == outStridesB[..][..ndim];
    outDataA, outDataB := dataA, dataB;
    TurnStarts(sh, sA, sA, dataA, outStridesA[..]);
    TurnStarts(sh, sA, sB, dataB, outStridesB[..]);
    for i := 0 to ndim
      invariant outShape[..ndim] == sh
      invariant Turned(sh, sA, sA, dataA, i, outStridesA[..], outDataA)
      invariant Turned(sh, sA, sB, dataB, i, outStridesB[..], outDataB)
    {
      var strideEntryA, strideEntryB, shapeEntry := outStridesA[i], outStridesB[i], outShape[i];
      ghost var a0, b0 := outStridesA[..], outStridesB[..];
      TurnNext(sh, sA, sA, dataA, i, a0, outDataA);
      TurnNext(sh, sA, sB, dataB, i, b0, outDataB);
      assert shapeEntry == outShape[..ndim][i];
      if strideEntryA < 0 {
        outDataA := outDataA + strideEntryA * (shapeEntry - 1);
        outDataB := outDataB + strideEntryB * (shapeEntry - 1);
        outStridesA[i] := -strideEntryA;
        outStridesB[i] := -strideEntryB;
        assert outStridesA[..] == a0[i := -a0[i]] && outStridesB[..] == b0[i := -b0[i]];
      }
      if shapeEntry == 0 {
        outShape[0], outStridesA[0], outStridesB[0] := 0, 0, 0;
        outNdim := 1;
        NoVisits(sh, [sA, sB], [dataA, dataB], i);
        NoVisits(outShape[..1], [outStridesA[..1], outStridesB[..1]], [outDataA, outDataB], 0);
        return;
      }
    }
    outNdim := ndim;
    TurnDone(sh, sA, sA, dataA, outStridesA[..], outDataA);
    TurnDone(sh, sA, sB, dataB, outStridesB[..], outDataB);
    assert outStridesA[..ndim] == outStridesA[..][..ndim] && outStridesB[..ndim] == outStridesB[..][..ndim];
    PreparedTwo(sh, sA, sB, dataA, dataB);
  }

  /** Two operands: whatever the strides, the prepared iteration has non-negative strides
      for A and visits the same pairs of cells. */
  method PrepareTwoRawArrayIter(ndim: nat, shape: array<int>, dataA: int, stridesA: array<int>,
                                dataB: int, stridesB: array<int>,
                                outShape: array<int>, outStridesA: array<int>, outStridesB: array<int>)
    returns (outNdim: nat, outDataA: int, outDataB: int)
    requires ndim <= shape.Length && ndim <= stridesA.Length && ndim <= stridesB.Length
    requires ndim <= outShape.Length && ndim <= outStridesA.Length && ndim <= outStridesB.Length
    requires NonNegative(shape[..ndim])
    requires {outShape, outStridesA, outStridesB} !! {shape, stridesA, stridesB}
    requires outShape != outStridesA && outShape != outStridesB && outStridesA != outStridesB
    modifies outShape, outStridesA, outStridesB
    ensures outNdim <= outShape.Length && outNdim <= outStridesA.Length && outNdim <= outStridesB.Length
    ensures NonNegative(outStridesA[..outNdim])
    ensures multiset(Visits(outShape[..outNdim], [outStridesA[..outNdim], outStridesB[..outNdim]], [outDataA, outDataB]))
         == multiset(Visits(old(shape[..ndim]), [old(stridesA[..ndim]), old(stridesB[..ndim])], [dataA, dataB]))
  {
    hide Visits;
    for i := 0 to ndim
      invariant outShape[..i] == shape[..i] && outStridesA[..i] == stridesA[..i] && outStridesB[..i] == stridesB[..i]
    {
      outShape[i] := shape[i];
      outStridesA[i] := stridesA[i];
      outStridesB[i] := stridesB[i];
    }
    outNdim, outDataA, outDataB := ReverseTwo(ndim, dataA, dataB, outShape, outStridesA, outStridesB);
  }

  /** The first `i` axes of an operand have been turned around. */
  ghost predicate Turned(shape: seq<int>, a: seq<int>, s: seq<int>, start: int, i: nat, out: seq<int>, data: int)
    requires |shape| == |a| == |s| <= |out| && i <= |s|
  {
    && StridesTurned(a, s, i, out)
    && data == start + FlipOffset(shape[..i], a[..i], s[..i])
  }

  ghost predicate StridesTurned(a: seq<int>, s: seq<int>, i: nat, out: seq<int>)
    requires |a| == |s| <= |out|
  {
    && (forall j :: 0 <= j < i && j < |s| ==> out[j] == if a[j] < 0 then -s[j] else s[j])
    && (forall j :: i <= j < |s| ==> out[j] == s[j])
  }

  lemma TurnStarts(shape: seq<int>, a: seq<int>, s: seq<int>, start: int, out: seq<int>)
    requires |shape| == |a| == |s| <= |out| && out[..|s|] == s
    ensures Turned(shape, a, s, start, 0, out, start)
  {
    assert forall j :: 0 <= j < |s| ==> out[j] == out[..|s|][j];
  }

  lemma TurnNext(shape: seq<int>, a: seq<int>, s: seq<int>, start: int, i: nat, out: seq<int>, data: int)
    requires |shape| == |a| == |s| <= |out| && i < |s| && Turned(shape, a, s, start, i, out, data)
    ensures out[i] == s[i]
    ensures a[i] < 0 ==> Turned(shape, a, s, start, i + 1, out[i := -out[i]], data + out[i] * (shape[i] - 1))
    ensures a[i] >= 0 ==> Turned(shape, a, s, start, i + 1, out, data)
  {
    hide FlipOffset;
    FlipOffsetNext(shape, a, s, i);
  }

  lemma TurnDone(shape: seq<int>, a: seq<int>, s: seq<int>, start: int, out: seq<int>, data: int)
    requires |shape| == |a| == |s| <= |out| && Turned(shape, a, s, start, |s|, out, data)
    ensures out[..|s|] == FlipStrides(a, s) && data == start + FlipOffset(shape, a, s)
  {
    hide FlipOffset, StridesTurned, FlipStrides;
    StridesDone(a, s, out);
    assert shape[..|s|] == shape && a[..|s|] == a && s[..|s|] == s;
  }

  lemma StridesDone(a: seq<int>, s: seq<int>, out: seq<int>)
    requires |a| == |s| <= |out| && StridesTurned(a, s, |s|, out)
    ensures out[..|s|] == FlipStrides(a, s)
  {
  }

  lemma PreparedTwo(shape: seq<int>, sA: seq<int>, sB: seq<int>, a: int, b: int)
    requires |shape| == |sA| == |sB|
    ensures NonNegative(FlipStrides(sA, sA))
    ensures multiset(Visits(shape, [FlipStrides(sA, sA), FlipStrides(sA, sB)],
                            [a + FlipOffset(shape, sA, sA), b + FlipOffset(shape, sA, sB)]))
         == multiset(Visits(shape, [sA, sB], [a, b]))
  {
    assert [FlipStrides(sA, sA), FlipStrides(sA, sB)] == FlipAll(sA, [sA, sB]);
    assert [a + FlipOffset(shape, sA, sA), b + FlipOffset(shape, sA, sB)] == MoveAll(shape, sA, [sA, sB], [a, b]);
    FlipVisits(shape, sA, [sA, sB], [a, b]);
  }

  lemma PreparedThree(shape: seq<int>, sA: seq<int>, sB: seq<int>, sC: seq<int>, a: int, b: int, c: int)
    requires |shape| == |sA| == |sB| == |sC|
    ensures NonNegative(FlipStrides(sA, sA))
    ensures multiset(Visits(shape, [FlipStrides(sA, sA), FlipStrides(sA, sB), FlipStrides(sA, sC)],
                            [a + FlipOffset(shape, sA, sA), b + FlipOffset(shape, sA, sB), c + FlipOffset(shape, sA, sC)]))
         == multiset(Visits(shape, [sA, sB, sC], [a, b, c]))
  {
    assert [FlipStrides(sA, sA), FlipStrides(sA, sB), FlipStrides(sA, sC)] == FlipAll(sA, [sA, sB, sC]);
    assert [a + FlipOffset(shape, sA, sA), b + FlipOffset(shape, sA, sB), c + FlipOffset(shape, sA, sC)]
        == MoveAll(shape, sA, [sA, sB, sC], [a, b, c]);
    FlipVisits(shape, sA, [sA, sB, sC], [a, b, c]);
  }

  /** A rank-0 shape has one coordinate, and so has the rank-1 shape it is turned into. */
  lemma ScalarVisits(a: int, b: int, c: int)
    ensures Visits([1], [[0], [0], [0]], [a, b, c]) == Visits([], [[], [], []], [a, b, c]) == [[a, b, c]]
  {
    assert FUnravel([1], 0) == [0];
    assert Addresses([[0], [0], [0]], [a, b, c], [0]) == [a, b, c];
    assert Addresses([[], [], []], [a, b, c], []) == [a, b, c];
    assert Prod([1]) == 1 * Prod([]);
  }

  /** Ranks 0 and 1: always one axis, turned around if A's stride is negative. */
  method PrepareThreeSmall(ndim: nat, shape: array<int>, dataA: int, stridesA: array<int>,
      dataB: int, stridesB: array<int>, dataC: int, stridesC: array<int>,
      outShape: array<int>, outStridesA: array<int>, outStridesB: array<int>, outStridesC: array<int>)
    returns (outNdim: nat, outDataA: int, outDataB: int, outDataC: int)
    requires ndim <= 1 && ndim <= shape.Length
    requires ndim <= stridesA.Length && ndim <= stridesB.Length && ndim <= stridesC.Length
    requires 1 <= outShape.Length && 1 <= outStridesA.Length && 1 <= outStridesB.Length && 1 <= outStridesC.Length
    requires {outShape, outStridesA, outStridesB, outStridesC} !! {shape, stridesA, stridesB, stridesC}
    requires outShape != outStridesA && outShape != outStridesB && outShape != outStridesC
    requires outStridesA != outStridesB && outStridesA != outStridesC && outStridesB != outStridesC
    modifies outShape, outStridesA, outStridesB, outStridesC
    ensures outNdim <= outShape.Length && outNdim <= outStridesA.Length
    ensures outNdim <= outStridesB.Length && outNdim <= outStridesC.Length
    ensures NonNegative(outStridesA[..outNdim])
    ensures multiset(Visits(outShape[..outNdim], [outStridesA[..outNdim], outStridesB[..outNdim], outStridesC[..outNdim]],
                            [outDataA, outDataB, outDataC]))
         == multiset(Visits(old(shape[..ndim]), [old(stridesA[..ndim]), old(stridesB[..ndim]), old(stridesC[..ndim])],
                            [dataA, dataB, dataC]))
  {
    hide Visits, FlipOffset;
    outDataA, outDataB, outDataC := dataA, dataB, dataC;
    ghost var sh, sA, sB, sC := shape[..ndim], stridesA[..ndim], stridesB[..ndim], stridesC[..ndim];
    outNdim := 1;
    if ndim == 0 {
      outShape[0], outStridesA[0], outStridesB[0], outStridesC[0] := 1, 0, 0, 0;
      ScalarVisits(dataA, dataB, dataC);
      assert outShape[..1] == [1] && outStridesA[..1] == outStridesB[..1] == outStridesC[..1] == [0];
      assert sh == sA == sB == sC == [];
      return;
    }
    var strideEntryA, strideEntryB, strideEntryC, shapeEntry := stridesA[0], stridesB[0], stridesC[0], shape[0];
    outShape[0] := shape[0];
    if strideEntryA >= 0 {
      outStridesA[0], outStridesB[0], outStridesC[0] := strideEntryA, strideEntryB, strideEntryC;
    } else {
      outDataA := dataA + strideEntryA * (shapeEntry - 1);
      outDataB := dataB + strideEntryB * (shapeEntry - 1);
      outDataC := dataC + strideEntryC * (shapeEntry - 1);
      outStridesA[0], outStridesB[0], outStridesC[0] := -strideEntryA, -strideEntryB, -strideEntryC;
    }
    assert outShape[..1] == sh;
    assert outStridesA[..1] == FlipStrides(sA, sA) && outStridesB[..1] == FlipStrides(sA, sB);
    assert outStridesC[..1] == FlipStrides(sA, sC);
    OneAxisOffset(sh, sA, sA);
    OneAxisOffset(sh, sA, sB);
    OneAxisOffset(sh, sA, sC);
    PreparedThree(sh, sA, sB, sC, dataA, dataB, dataC);
  }

  /** Any rank: reverses the axes copied into the outputs, in place. */
  method ReverseThree(ndim: nat, dataA: int, dataB: int, dataC: int, outShape: array<int>,
                      outStridesA: array<int>, outStridesB: array<int>, outStridesC: array<int>)
    returns (outNdim: nat, outDataA: int, outDataB: int, outDataC: int)
    requires ndim <= outShape.Length && ndim <= outStridesA.Length
    requires ndim <= outStridesB.Length && ndim <= outStridesC.Length
    requires NonNegative(outShape[..ndim])
    requires outShape != outStridesA && outShape != outStridesB && outShape != outStridesC
    requires outStridesA != outStridesB && outStridesA != outStridesC && outStridesB != outStridesC
    modifies outShape, outStridesA, outStridesB, outStridesC
    ensures outNdim <= outShape.Length && outNdim <= outStridesA.Length
    ensures outNdim <= outStridesB.Length && outNdim <= outStridesC.Length
    ensures NonNegative(outStridesA[..outNdim])
    ensures multiset(Visits(outShape[..outNdim], [outStridesA[..outNdim], outStridesB[..outNdim], outStridesC[..outNdim]],
                            [outDataA, outDataB, outDataC]))
         == multiset(Visits(old(outShape[..ndim]), [old(outStridesA[..ndim]), old(outStridesB[..ndim]), old(outStridesC[..ndim])],
                            [dataA, dataB, dataC]))
  {
    hide Visits, FlipOffset, FlipStrides, Turned;
    outDataA, outDataB, outDataC := dataA, dataB, dataC;
    ghost var sh, sA, sB, sC := outShape[..ndim], outStridesA[..ndim], outStridesB[..ndim], outStridesC[..ndim];
    assert sA == outStridesA[..][..ndim] && sB == outStridesB[..][..ndim] && sC == outStridesC[..][..ndim];
    TurnStarts(sh, sA, sA, dataA, outStridesA[..]);
    TurnStarts(sh, sA, sB, dataB, outStridesB[..]);
    TurnStarts(sh, sA, sC, dataC, outStridesC[..]);
    for i := 0 to ndim
      invariant outShape[..ndim] == sh
      invariant Turned(sh, sA, sA, dataA, i, outStridesA[..], outDataA)
      invariant Turned(sh, sA, sB, dataB, i, outStridesB[..], outDataB)
      invariant Turned(sh, sA, sC, dataC, i, outStridesC[..], outDataC)
    {
      var strideEntryA, strideEntryB, strideEntryC := outStridesA[i], outStridesB[i], outStridesC[i];
      var shapeEntry := outShape[i];
      ghost var a0, b0, c0 := outStridesA[..], outStridesB[..], outStridesC[..];
      TurnNext(sh, sA, sA, dataA, i, a0, outDataA);
      TurnNext(sh, sA, sB, dataB, i, b0, outDataB);
      TurnNext(sh, sA, sC, dataC, i, c0, outDataC);
      assert shapeEntry == outShape[..ndim][i];
      if strideEntryA < 0 {
        outDataA := outDataA + strideEntryA * (shapeEntry - 1);
        outDataB := outDataB + strideEntryB * (shapeEntry - 1);
        outDataC := outDataC + strideEntryC * (shapeEntry - 1);
        outStridesA[i] := -strideEntryA;
        outStridesB[i] := -strideEntryB;
        outStridesC[i] := -strideEntryC;
        assert outStridesA[..] == a0[i := -a0[i]] && outStridesB[..] == b0[i := -b0[i]];
        assert outStridesC[..] == c0[i := -c0[i]];
      }
      if shapeEntry == 0 {
        outShape[0], outStridesA[0], outStridesB[0], outStridesC[0] := 0, 0, 0, 0;
        outNdim := 1;
        NoVisits(sh, [sA, sB, sC], [dataA, dataB, dataC], i);
        NoVisits(outShape[..1], [outStridesA[..1], outStridesB[..1], outStridesC[..1]], [outDataA, outDataB, outDataC], 0);
        return;
      }
    }
    outNdim := ndim;
    TurnDone(sh, sA, sA, dataA, outStridesA[..], outDataA);
    TurnDone(sh, sA, sB, dataB, outStridesB[..], outDataB);
    TurnDone(sh, sA, sC, dataC, outStridesC[..], outDataC);
    assert outStridesA[..ndim] == outStridesA[..][..ndim] && outStridesB[..ndim] == outStridesB[..][..ndim];
    assert outStridesC[..ndim] == outStridesC[..][..ndim];
    PreparedThree(sh, sA, sB, sC, dataA, dataB, dataC);
  }

  /** Three operands: whatever the rank and the strides, the prepared iteration has
      non-negative strides for A and visits the same triples of cells. */
  method PrepareThreeRawArrayIter(ndim: nat, shape: array<int>, dataA: int, stridesA: array<int>,
      dataB: int, stridesB: array<int>, dataC: int, stridesC: array<int>,
      outShape: array<int>, outStridesA: array<int>, outStridesB: array<int>, outStridesC: array<int>)
    returns (outNdim: nat, outDataA: int, outDataB: int, outDataC: int)
    requires ndim <= shape.Length && ndim <= stridesA.Length && ndim <= stridesB.Length && ndim <= stridesC.Length
    requires ndim <= outShape.Length && ndim <= outStridesA.Length
    requires ndim <= outStridesB.Length && ndim <= outStridesC.Length
    requires 1 <= outShape.Length && 1 <= outStridesA.Length && 1 <= outStridesB.Length && 1 <= outStridesC.Length
    requires NonNegative(shape[..ndim])
    requires {outShape, outStridesA, outStridesB, outStridesC} !! {shape, stridesA, stridesB, stridesC}
    requires outShape != outStridesA && outShape != outStridesB && outShape != outStridesC
    requires outStridesA != outStridesB && outStridesA != outStridesC && outStridesB != outStridesC
    modifies outShape, outStridesA, outStridesB, outStridesC
    ensures outNdim <= outShape.Length && outNdim <= outStridesA.Length
    ensures outNdim <= outStridesB.Length && outNdim <= outStridesC.Length
    ensures NonNegative(outStridesA[..outNdim])
    ensures multiset(Visits(outShape[..outNdim], [outStridesA[..outNdim], outStridesB[..outNdim], outStridesC[..outNdim]],
                            [outDataA, outDataB, outDataC]))
         == multiset(Visits(old(shape[..ndim]), [old(stridesA[..ndim]), old(stridesB[..ndim]), old(stridesC[..ndim])],
                            [dataA, dataB, dataC]))
  {
    hide Visits;
    if ndim <= 1 {
      outNdim, outDataA, outDataB, outDataC :=
        PrepareThreeSmall(ndim, shape, dataA, stridesA, dataB, stridesB, dataC, stridesC,
                          outShape, outStridesA, outStridesB, outStridesC);
      return;
    }
    for i := 0 to ndim
      invariant outShape[..i] == shape[..i] && outStridesA[..i] == stridesA[..i]
      invariant outStridesB[..i] == stridesB[..i] && outStridesC[..i] == stridesC[..i]
    {
      outShape[i] := shape[i];
      outStridesA[i] := stridesA[i];
      outStridesB[i] := stridesB[i];
      outStridesC[i] := stridesC[i];
    }
    outNdim, outDataA, outDataB, outDataC :=
      ReverseThree(ndim, dataA, dataB, dataC, outShape, outStridesA, outStridesB, outStridesC);
  }

  lemma OneAxisOffset(shape: seq<int>, a: seq<int>, s: seq<int>)
    requires |shape| == |a| == |s| == 1
    ensures FlipOffset(shape, a, s) == if a[0] < 0 then s[0] * (shape[0] - 1) else 0
  {
  }
}
