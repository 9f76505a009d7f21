/** The helper that picks a product routine for two matrices. */
module MatrixDispatch {
  import opened Gemm
  import opened MatrixProduct
  import opened ProductLayout
  import opened Readings

  /** Both sizes above one. */
  predicate IsMatrix(x: Matrix) { x.rows != 1 && x.cols != 1 }

  predicate IsScalar(x: Matrix) { x.rows == 1 && x.cols == 1 }

  predicate IsRowVector(x: Matrix) { !IsScalar(x) && x.rows == 1 }

  predicate IsColumnVector(x: Matrix) { !IsScalar(x) && x.cols == 1 && x.rows != 1 }

  /** Which routine: matrix times vector, dot product, or matrix times matrix. */
  datatype Routine = MxV | DotOfVectors | MxM

  function Choose(A: Matrix, B: Matrix): Routine {
    if (IsMatrix(A) && IsRowVector(B)) || (IsMatrix(A) && IsColumnVector(B)) then MxV
    else if (IsRowVector(A) && IsRowVector(B)) || (IsColumnVector(A) && IsColumnVector(B)) then DotOfVectors
    else MxM
  }

  /** For sizes that fit the dot product is never chosen, and the matrix-vector routine only
      for a single column. */
  lemma ChoiceOfFitting(A: Matrix, B: Matrix)
    requires A.cols == B.rows && A.rows > 0 && A.cols > 0 && B.cols > 0
    ensures Choose(A, B) != DotOfVectors
    ensures Choose(A, B) == MxV <==> B.cols == 1 && A.rows != 1 && A.cols != 1
  {
  }

  /** mmulHelperMxV without a result: the raw buffers of both operands, never a copy. */
  method MmulHelperMxV(A: Matrix, B: Matrix, alpha: real, beta: real) returns (result: Matrix)
    requires A.Valid() && B.Valid() && A.cols == B.rows && B.cols == 1
    requires A.offset + A.rows * A.cols <= A.buffer.Length && B.offset + B.rows * B.cols <= B.buffer.Length
    ensures fresh(result.buffer) && result.Valid() && result.rows == A.rows && result.cols == 1
    ensures result.order == 'f' && result.ews == 1
    ensures forall i: nat, j: nat :: i < A.rows && j < 1 ==>
              result.Rows()[i][j] == alpha * SumProd(A.RawRows(), B.RawRows(), i, j, A.cols)
  {
    hide SumProd, Result, Held, Matrix.Inside, Matrix.Distinct, Matrix.Packed, Matrix.Cell;
    result := new Matrix('f', A.rows, 1);
    result.PackedRows();
    RawAre(result);
    ghost var before := result.Rows();
    Gemv(A.order == 'f', A.rows, A.cols, alpha, A.buffer, A.offset, B.buffer, B.offset, beta, result.buffer, result.offset);
    result.PackedRows();
    RawAre(result);
    RawAre(A);
    RawVector(B);
    NothingAdded(alpha, A.RawRows(), B.RawRows(), beta, before, A.rows, 1, A.cols);
  }

  /** A single column reads the same in both orders. */
  lemma RawVector(x: Matrix)
    requires x.cols == 1 && x.offset + x.rows * x.cols <= x.buffer.Length
    ensures x.RawRows() == Held(x.buffer[..], x.offset, false, x.rows, 1)
  {
    SameMat(x.RawRows(), Held(x.buffer[..], x.offset, false, x.rows, 1), x.rows, 1);
  }

  /** The matrix-vector routine takes every buffer for packed elements, the other one only
      those with an element-wise stride. */
  predicate TakenRaw(A: Matrix, B: Matrix, x: Matrix) { Choose(A, B) == MxV || x.ews != -1 }

  /** The elements of an operand when its buffer holds `s`: raw, or where they lie. */
  ghost function ReadAs(x: Matrix, raw: bool, s: seq<real>): (m: Mat)
    requires x.Inside() && |s| == x.buffer.Length && (raw ==> x.offset + x.rows * x.cols <= x.buffer.Length)
    ensures IsMat(m, x.rows, x.cols)
  {
    if raw then Held(s, x.offset, x.order == 'c', x.rows, x.cols) else RowsIn(x, s)
  }

  /** Sizes that fit, and buffers as long as what is read of them. */
  ghost predicate Factors(A: Matrix, B: Matrix) {
    && A.Valid() && B.Valid() && A.cols == B.rows && A.rows > 0 && A.cols > 0 && B.cols > 0
    && (TakenRaw(A, B, A) ==> A.offset + A.rows * A.cols <= A.buffer.Length)
    && (TakenRaw(A, B, B) ==> B.offset + B.rows * B.cols <= B.buffer.Length)
  }

  /** mmulHelper for two matrices of fitting sizes and no result. */
  method MmulHelper(A: Matrix, B: Matrix, alpha: real, beta: real) returns (result: Matrix)
    requires Factors(A, B)
    ensures fresh(result.buffer) && result.Valid() && result.rows == A.rows && result.cols == B.cols
    ensures result.order == 'f' && result.ews == 1
    ensures forall i: nat, j: nat :: i < A.rows && j < B.cols ==>
              result.Rows()[i][j] == alpha * SumProd(ReadAs(A, TakenRaw(A, B, A), A.buffer[..]),
                                                     ReadAs(B, TakenRaw(A, B, B), B.buffer[..]), i, j, A.cols)
  {
    hide SumProd, Matrix.Inside, Matrix.Distinct, Matrix.Packed, Matrix.Cell, Held;
    ChoiceOfFitting(A, B);
    if Choose(A, B) == MxV {
      result := MmulHelperMxV(A, B, alpha, beta);
      RawAre(A);
      RawAre(B);
    } else {
      result := MmulHelperMxM(A, B, null, alpha, beta);
      ReadsAre(A);
      ReadsAre(B);
    }
  }

  // ---------------------------------------------------------------- when the helper is right

  /** Read like this, the two operands have their product, whatever they hold. */
  ghost predicate ProductsAgree(A: Matrix, B: Matrix, rawA: bool, rawB: bool)
    requires A.Inside() && B.Inside() && A.cols == B.rows
    requires rawA ==> A.offset + A.rows * A.cols <= A.buffer.Length
    requires rawB ==> B.offset + B.rows * B.cols <= B.buffer.Length
  {
    forall sA, sB, i: nat, j: nat | |sA| == A.buffer.Length && |sB| == B.buffer.Length && i < A.rows && j < B.cols ::
      SumProd(ReadAs(A, rawA, sA), ReadAs(B, rawB, sB), i, j, A.cols) == SumProd(RowsIn(A, sA), RowsIn(B, sB), i, j, A.cols)
  }

  /** Where the element of row `i` and column `k` is read. */
  function CellAs(x: Matrix, raw: bool, i: nat, k: nat): int {
    if raw then x.offset + i * RowUnit(x) + k * ColUnit(x) else x.Cell(i, k)
  }

  function OperandOf(x: Matrix, raw: bool): Operand {
    Operand(x.rows, x.cols, x.buffer.Length, (i: nat, k: nat) => x.Cell(i, k), (i: nat, k: nat) => CellAs(x, raw, i, k))
  }

  lemma OperandReads(x: Matrix, raw: bool, s: seq<real>)
    requires x.Inside() && |s| == x.buffer.Length && (raw ==> x.offset + x.rows * x.cols <= x.buffer.Length)
    ensures OperandOf(x, raw).Inside()
    ensures Elements(OperandOf(x, raw), s) == RowsIn(x, s) && Taken(OperandOf(x, raw), s) == ReadAs(x, raw, s)
  {
    hide Place, Matrix.Cell;
    forall i: nat, k: nat | i < x.rows && k < x.cols
      ensures 0 <= CellAs(x, raw, i, k) < |s| && ReadAs(x, raw, s)[i][k] == s[CellAs(x, raw, i, k)]
    {
      ElementAs(x, raw, s, i, k);
    }
    SameMat(Elements(OperandOf(x, raw), s), RowsIn(x, s), x.rows, x.cols);
    SameMat(Taken(OperandOf(x, raw), s), ReadAs(x, raw, s), x.rows, x.cols);
  }

  lemma ElementAs(x: Matrix, raw: bool, s: seq<real>, i: nat, k: nat)
    requires x.Inside() && |s| == x.buffer.Length && (raw ==> x.offset + x.rows * x.cols <= x.buffer.Length)
    requires i < x.rows && k < x.cols
    ensures 0 <= CellAs(x, raw, i, k) < |s| && ReadAs(x, raw, s)[i][k] == s[CellAs(x, raw, i, k)]
  {
    PlaceInside(x.order == 'c', x.rows, x.cols, i, k);
  }

  lemma AgreeIsAlike(A: Matrix, B: Matrix, rawA: bool, rawB: bool)
    requires A.Inside() && B.Inside() && A.cols == B.rows
    requires rawA ==> A.offset + A.rows * A.cols <= A.buffer.Length
    requires rawB ==> B.offset + B.rows * B.cols <= B.buffer.Length
    ensures OperandOf(A, rawA).Inside() && OperandOf(B, rawB).Inside()
    ensures ProductsAgree(A, B, rawA, rawB) <==> ReadAlike(OperandOf(A, rawA), OperandOf(B, rawB))
  {
    hide SumProd, ReadAs, RowsIn, Elements, Taken, Matrix.Inside, Operand.Inside;
    OperandReads(A, rawA, A.buffer[..]);
    OperandReads(B, rawB, B.buffer[..]);
    forall sA: seq<real>, sB: seq<real> | |sA| == A.buffer.Length && |sB| == B.buffer.Length
      ensures Elements(OperandOf(A, rawA), sA) == RowsIn(A, sA) && Taken(OperandOf(A, rawA), sA) == ReadAs(A, rawA, sA)
      ensures Elements(OperandOf(B, rawB), sB) == RowsIn(B, sB) && Taken(OperandOf(B, rawB), sB) == ReadAs(B, rawB, sB)
    {
      OperandReads(A, rawA, sA);
      OperandReads(B, rawB, sB);
    }
  }

  lemma OperandIs(x: Matrix, raw: bool)
    requires x.Distinct() && x.rows > 0 && x.cols > 0
    ensures OperandOf(x, raw).Distinct()
    ensures raw ==> Strided(OperandOf(x, raw), x.rowStride, x.colStride, RowUnit(x), ColUnit(x))
    ensures !raw ==> ReadInPlace(OperandOf(x, raw))
    ensures PackedUnits(x.rows, x.cols, RowUnit(x), ColUnit(x))
  {
  }

  /** The operands are read right by the routine chosen for them. */
  predicate PlainFor(A: Matrix, B: Matrix) {
    (TakenRaw(A, B, A) ==> HasPackedStrides(A)) && (TakenRaw(A, B, B) ==> HasPackedStrides(B))
  }

  /** mmulHelper gives the product for all contents if and only if every operand has packed
      strides that is not copied; and the matrix-vector routine copies none. */
  lemma HelperRightIff(A: Matrix, B: Matrix)
    requires Factors(A, B)
    ensures PlainFor(A, B) ==> ProductsAgree(A, B, TakenRaw(A, B, A), TakenRaw(A, B, B))
    ensures A.buffer != B.buffer ==> (ProductsAgree(A, B, TakenRaw(A, B, A), TakenRaw(A, B, B)) <==> PlainFor(A, B))
  {
    hide Matrix.Inside, Matrix.Distinct, ProductsAgree, ReadAlike, ReadInPlace, Strided, Operand.Inside, Operand.Distinct,
      OperandOf, TakenRaw;
    var (rawA, rawB) := (TakenRaw(A, B, A), TakenRaw(A, B, B));
    var (a, b) := (OperandOf(A, rawA), OperandOf(B, rawB));
    AgreeIsAlike(A, B, rawA, rawB);
    OperandIs(A, rawA);
    OperandIs(B, rawB);
    OperandSizes(A, rawA);
    OperandSizes(B, rawB);
    if PlainFor(A, B) {
      if rawA {
        PackedInPlace(a, A.rowStride, A.colStride, RowUnit(A), ColUnit(A));
      }
      if rawB {
        PackedInPlace(b, B.rowStride, B.colStride, RowUnit(B), ColUnit(B));
      }
      AlikeInPlace(a, b);
    }
    if ReadAlike(a, b) {
      if rawA {
        LeftForced(a, b, A.rowStride, A.colStride, RowUnit(A), ColUnit(A));
      }
      if rawB {
        RightForced(a, b, B.rowStride, B.colStride, RowUnit(B), ColUnit(B));
      }
    }
  }

  lemma OperandSizes(x: Matrix, raw: bool)
    ensures OperandOf(x, raw).rows == x.rows && OperandOf(x, raw).cols == x.cols
  {
  }

  /** The first two columns of 1 1 9; 1 1 9 have no element-wise stride. The matrix-matrix
      routine copies them, the matrix-vector one does not: times the column 1, 1 the second
      row comes out as 10, not 2. */
  method WindowMisread() returns (A: Matrix, B: Matrix, product: Matrix)
    ensures Factors(A, B) && A.ews == -1
    ensures A.Rows() == [[1.0, 1.0], [1.0, 1.0]] && B.Rows() == [[1.0], [1.0]]
    ensures product.Valid() && product.rows == 2 && product.cols == 1 && product.Rows()[1][0] == 10.0
  {
    hide Matrix.Rows, Matrix.RawRows, Matrix.Valid, SumProd, Held;
    var cells := new real[] [1.0, 1.0, 9.0, 1.0, 1.0, 9.0];
    A := new Matrix.View(cells, 0, 2, 2, 3, 1, 'c', -1);
    B := new Matrix('f', 2, 1);
    B.Put(0, 0, 1.0);
    B.Put(1, 0, 1.0);
    WindowRows(A);
    ColumnRows(B);
    product := MmulHelper(A, B, 1.0, 0.0);
    RawAre(A);
    RawAre(B);
    NineAndOne();
  }

  lemma WindowRows(x: Matrix)
    requires x.buffer[..] == [1.0, 1.0, 9.0, 1.0, 1.0, 9.0] && x.offset == 0 && x.rows == x.cols == 2
    requires x.rowStride == 3 && x.colStride == 1 && x.order == 'c' && x.ews == -1
    ensures x.Valid() && x.offset + x.rows * x.cols <= x.buffer.Length
    ensures x.Rows() == [[1.0, 1.0], [1.0, 1.0]] && x.RawRows() == [[1.0, 1.0], [9.0, 1.0]]
  {
    var s := [1.0, 1.0, 9.0, 1.0, 1.0, 9.0];
    assert forall i :: 0 <= i < 6 ==> x.buffer[i] == s[i];
    SameMat(x.Rows(), [[1.0, 1.0], [1.0, 1.0]], 2, 2);
    SameMat(x.RawRows(), [[1.0, 1.0], [9.0, 1.0]], 2, 2);
  }

  lemma ColumnRows(x: Matrix)
    requires x.Valid() && x.ews == 1 && x.rows == 2 && x.cols == 1 && x.Rows()[0][0] == x.Rows()[1][0] == 1.0
    ensures x.offset + x.rows * x.cols <= x.buffer.Length
    ensures x.Rows() == [[1.0], [1.0]] && x.RawRows() == [[1.0], [1.0]]
  {
    x.PackedRows();
    SameMat(x.Rows(), [[1.0], [1.0]], 2, 1);
  }

  lemma NineAndOne()
    ensures SumProd([[1.0, 1.0], [9.0, 1.0]], [[1.0], [1.0]], 1, 0, 2) == 10.0
  {
    var a, b := [[1.0, 1.0], [9.0, 1.0]], [[1.0], [1.0]];
    assert SumProd(a, b, 1, 0, 0) == 0.0;
    assert SumProd(a, b, 1, 0, 1) == a[1][0] * b[0][0];
    assert SumProd(a, b, 1, 0, 2) == SumProd(a, b, 1, 0, 1) + a[1][1] * b[1][0];
  }
}
