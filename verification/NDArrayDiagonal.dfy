/** The diagonal of an array: setting the identity and summing the trace. */
module NDArrayDiagonal {
  import opened Shapes
  import opened NDArrays

  /** Where the search for the shortest axis starts. It also caps the diagonal. */
  const MIN_DIM_START := 100000000

  function Diag(rank: nat, i: int): (c: seq<int>)
    ensures |c| == rank
  {
    seq(rank, _ => i)
  }

  /** All parts of the coordinate are equal. */
  predicate OnDiagonal(c: seq<int>) {
    forall d :: 0 <= d < |c| ==> c[d] == c[0]
  }

  function First(c: seq<int>): int { if c == [] then 0 else c[0] }

  /** The shortest axis, but at most the start value. */
  function MinDim(shape: seq<int>): (m: int)
    ensures m <= MIN_DIM_START && forall d :: 0 <= d < |shape| ==> m <= shape[d]
    ensures m == MIN_DIM_START || exists d :: 0 <= d < |shape| && m == shape[d]
  {
    if shape == [] then MIN_DIM_START
    else
      var n, m := |shape| - 1, MinDim(shape[..|shape| - 1]);
      if m > shape[n] then shape[n] else m
  }

  method ShortestAxis(shape: seq<int>) returns (minDim: int)
    ensures minDim == MinDim(shape)
  {
    minDim := MIN_DIM_START;
    for i := 0 to |shape|
      invariant minDim == MinDim(shape[..i])
    {
      assert shape[..i + 1][..i] == shape[..i];
      if minDim > shape[i] {
        minDim := shape[i];
      }
    }
    assert shape[..|shape|] == shape;
  }

  lemma {:induction false} DiagDot(strides: seq<int>, i: int)
    ensures Dot(Diag(|strides|, i), strides) == i * Dot(Diag(|strides|, 1), strides)
  {
    var n := |strides|;
    if n > 0 {
      assert Diag(n, i)[1..] == Diag(n - 1, i) && Diag(n, 1)[1..] == Diag(n - 1, 1);
      DiagDot(strides[1..], i);
      Distribute(i, strides[0], Dot(Diag(n - 1, 1), strides[1..]));
    } else {
      assert Diag(0, i) == Diag(0, 1) == [];
    }
  }

  lemma Distribute(i: int, x: int, y: int)
    ensures i * (x + y) == i * x + i * y
  {
  }

  lemma DiagInside(shape: seq<int>, i: int)
    requires 0 <= i < MinDim(shape)
    ensures InBox(shape, Diag(|shape|, i)) && OnDiagonal(Diag(|shape|, i))
  {
  }

  lemma DiagOnly(shape: seq<int>, c: seq<int>)
    requires InBox(shape, c) && OnDiagonal(c)
    ensures c == Diag(|shape|, First(c))
    ensures First(c) < MinDim(shape) <==> First(c) < MIN_DIM_START
  {
  }

  /** The distance between neighbours on the diagonal leads to the i-th of them. */
  method DiagonalStep(a: NDArray) returns (step: int)
    requires a.Valid()
    ensures forall i :: 0 <= i < MinDim(a.shape) ==>
              InBox(a.shape, Diag(|a.shape|, i)) && a.offset + i * step == a.Cell(Diag(|a.shape|, i))
  {
    hide Dot, MinDim;
    var rank := |a.shape|;
    step := GetOffset(0, a.shape, a.strides, Diag(rank, 1));
    forall i | 0 <= i < MinDim(a.shape)
      ensures InBox(a.shape, Diag(rank, i)) && a.offset + i * step == a.Cell(Diag(rank, i))
    {
      DiagInside(a.shape, i);
      DiagDot(a.strides, i);
      if MinDim(a.shape) > 1 {
        DiagInside(a.shape, 1);
      }
    }
  }

  method SetOne(a: NDArray, i: int, at: int)
    requires a.Valid() && a.Distinct() && 0 <= i < MinDim(a.shape) && at == a.Cell(Diag(|a.shape|, i))
    modifies a.buffer
    ensures forall c :: InBox(a.shape, c) ==>
              a.At(c) == if OnDiagonal(c) && First(c) == (if a.shape == [] then 0 else i) then 1.0 else old(a.At(c))
    ensures OthersKept(a)
  {
    hide Dot, MinDim, NDArray.Cell;
    DiagInside(a.shape, i);
    a.buffer[at] := 1.0;
    forall c | InBox(a.shape, c)
      ensures a.At(c) == if OnDiagonal(c) && First(c) == (if a.shape == [] then 0 else i) then 1.0 else old(a.At(c))
    {
      if OnDiagonal(c) {
        DiagOnly(a.shape, c);
      }
    }
  }

  /** setIdentity: ones on the diagonal, zeros elsewhere. */
  method SetIdentity(a: NDArray)
    requires a.Valid() && a.Distinct()
    modifies a.buffer
    ensures forall c :: InBox(a.shape, c) ==>
              a.At(c) == if OnDiagonal(c) && (c == [] || c[0] < 100000000) then 1.0 else 0.0
    ensures OthersKept(a)
  {
    hide Dot, MinDim, NDArray.Cell;
    Fill(a, 0.0);
    var step := DiagonalStep(a);
    var minDim := ShortestAxis(a.shape);
    for i := 0 to minDim
      invariant forall c :: InBox(a.shape, c) ==>
                  a.At(c) == if OnDiagonal(c) && First(c) < i then 1.0 else 0.0
      invariant OthersKept(a)
    {
      SetOne(a, i, a.offset + i * step);
    }
    forall c | InBox(a.shape, c)
      ensures a.At(c) == if OnDiagonal(c) && First(c) < MIN_DIM_START then 1.0 else 0.0
    {
      if OnDiagonal(c) {
        DiagOnly(a.shape, c);
      }
    }
  }

  /** The sum of the first `n` elements on the diagonal. */
  ghost function DiagonalSum(a: NDArray, n: int): real
    requires a.Valid() && 0 <= n <= MinDim(a.shape)
    reads a.buffer
  {
    if n == 0 then 0.0
    else
      DiagInside(a.shape, n - 1);
      DiagonalSum(a, n - 1) + a.At(Diag(|a.shape|, n - 1))
  }

  /** As long as the shortest axis, or 10^8 if that is less or there is no axis. */
  ghost predicate DiagonalLength(shape: seq<int>, n: int) {
    && n <= 100000000 && (forall d :: 0 <= d < |shape| ==> n <= shape[d])
    && (n == 100000000 || exists d :: 0 <= d < |shape| && n == shape[d])
  }

  /** getTrace: the sum of the diagonal. */
  method GetTrace(a: NDArray) returns (sum: real)
    requires a.Valid()
    ensures exists n :: 0 <= n <= MinDim(a.shape) && DiagonalLength(a.shape, n) && sum == DiagonalSum(a, n)
  {
    hide Dot, MinDim, NDArray.Cell;
    var step := DiagonalStep(a);
    var minDim := ShortestAxis(a.shape);
    assert minDim >= 0;
    sum := 0.0;
    for i := 0 to minDim
      invariant sum == DiagonalSum(a, i)
    {
      DiagInside(a.shape, i);
      sum := sum + a.buffer[a.offset + i * step];
    }
    assert DiagonalLength(a.shape, minDim);
  }

  lemma OnIt(shape: seq<int>, i: int)
    requires 0 <= i < MinDim(shape)
    ensures var c := Diag(|shape|, i); InBox(shape, c) && OnDiagonal(c) && (c == [] || c[0] < 100000000)
  {
    DiagInside(shape, i);
  }

  /** The trace of an identity is the length of the diagonal. */
  lemma {:induction false} TraceOfIdentity(a: NDArray, n: int)
    requires a.Valid() && 0 <= n <= MinDim(a.shape)
    requires forall c :: InBox(a.shape, c) ==>
               a.At(c) == if OnDiagonal(c) && (c == [] || c[0] < 100000000) then 1.0 else 0.0
    ensures DiagonalSum(a, n) == n as real
  {
    hide Prod, Dot, MinDim, OnDiagonal, First, NDArray.Cell, NDArray.At;
    if n > 0 {
      TraceOfIdentity(a, n - 1);
      OnIt(a.shape, n - 1);
    }
  }

  /** A rank-0 array has one element, but its trace adds it once per step of the start value. */
  lemma {:induction false} ScalarTrace(a: NDArray, n: int)
    requires a.Valid() && a.shape == [] && 0 <= n <= 100000000
    ensures InBox(a.shape, []) && MinDim(a.shape) == 100000000 && DiagonalSum(a, n) == n as real * a.At([])
  {
    if n > 0 {
      ScalarTrace(a, n - 1);
      assert Diag(0, n - 1) == [];
    }
  }

  /** So the trace of a rank-0 array is its element if and only if the element is zero. */
  lemma ScalarTraceIff(a: NDArray)
    requires a.Valid() && a.shape == []
    ensures InBox(a.shape, []) && MinDim(a.shape) == 100000000 && DiagonalLength(a.shape, 100000000)
    ensures DiagonalSum(a, 100000000) == a.At([]) <==> a.At([]) == 0.0
  {
    ScalarTrace(a, 100000000);
  }
}
