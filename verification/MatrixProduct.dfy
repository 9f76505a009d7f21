/** Matrices over shared buffers and the two ways NDArrayFactory multiplies them. */
module MatrixProduct {
  import opened Gemm

  /** A rank-2 array: a window on a buffer with a stride per axis, an order, and an
      element-wise stride that is 1 when the elements lie packed in that order and -1 when no
      single stride describes them. */
  class Matrix {
    const buffer: array<real>
    const offset: nat
    const rows: nat
    const cols: nat
    const rowStride: int
    const colStride: int
    const order: char
    const ews: int

    function Cell(i: nat, j: nat): int { offset + i * rowStride + j * colStride }

    ghost predicate Inside() {
      forall i: nat, j: nat :: i < rows && j < cols ==> 0 <= Cell(i, j) < buffer.Length
    }

    /** Different entries lie in different cells. */
    ghost predicate Distinct() {
      forall i: nat, j: nat, k: nat, l: nat ::
        i < rows && j < cols && k < rows && l < cols && Cell(i, j) == Cell(k, l) ==> i == k && j == l
    }

    ghost predicate Packed() {
      && offset + rows * cols <= buffer.Length
      && forall i: nat, j: nat :: i < rows && j < cols ==> Cell(i, j) == offset + Place(order == 'c', rows, cols, i, j)
    }

    ghost predicate Valid() {
      Inside() && Distinct() && (order == 'c' || order == 'f') && (ews == 1 ==> Packed())
    }

    /** The matrix the object stands for. */
    ghost function Rows(): (m: Mat)
      requires Inside()
      reads buffer
      ensures IsMat(m, rows, cols)
    {
      seq(rows, i requires 0 <= i < rows reads buffer =>
        seq(cols, j requires 0 <= j < cols reads buffer => buffer[Cell(i, j)]))
    }

    /** What a routine sees that takes the buffer for packed elements. */
    ghost function RawRows(): (m: Mat)
      requires offset + rows * cols <= buffer.Length
      reads buffer
      ensures IsMat(m, rows, cols)
    {
      Held(buffer[..], offset, order == 'c', rows, cols)
    }

    /** The cells of the matrix. */
    ghost predicate Owns(at: int) {
      exists i: nat, j: nat :: i < rows && j < cols && Cell(i, j) == at
    }

    lemma PackedRows()
      requires Packed() && Inside()
      ensures offset + rows * cols <= buffer.Length && RawRows() == Rows()
    {
      SameMat(RawRows(), Rows(), rows, cols);
    }

    /** A packed matrix of zeros. */
    constructor (order: char, rows: nat, cols: nat)
      requires order == 'c' || order == 'f'
      ensures this.order == order && this.rows == rows && this.cols == cols && ews == 1
      ensures Valid() && fresh(buffer)
      ensures forall i: nat, j: nat :: i < rows && j < cols ==> Rows()[i][j] == 0.0
    {
      this.order, this.rows, this.cols, offset, ews := order, rows, cols, 0, 1;
      this.rowStride, this.colStride := if order == 'c' then cols else 1, if order == 'c' then 1 else rows;
      buffer := new real[rows * cols](_ => 0.0);
      new;
      PackedStrides();
    }

    /** A window on an existing buffer. */
    constructor View(buffer: array<real>, offset: nat, rows: nat, cols: nat,
                     rowStride: int, colStride: int, order: char, ews: int)
      ensures this.buffer == buffer && this.offset == offset && this.rows == rows && this.cols == cols
      ensures this.rowStride == rowStride && this.colStride == colStride && this.order == order && this.ews == ews
    {
      this.buffer, this.offset, this.rows, this.cols := buffer, offset, rows, cols;
      this.rowStride, this.colStride, this.order, this.ews := rowStride, colStride, order, ews;
    }

    lemma PackedStrides()
      requires offset == 0 && buffer.Length == rows * cols
      requires rowStride == (if order == 'c' then cols else 1) && colStride == if order == 'c' then 1 else rows
      ensures Inside() && Distinct() && Packed()
    {
      forall i: nat, j: nat | i < rows && j < cols
        ensures Cell(i, j) == Place(order == 'c', rows, cols, i, j) < buffer.Length
      {
        PlaceInside(order == 'c', rows, cols, i, j);
      }
      forall i: nat, j: nat, k: nat, l: nat | i < rows && j < cols && k < rows && l < cols && Cell(i, j) == Cell(k, l)
        ensures i == k && j == l
      {
        PlaceOnce(order == 'c', rows, cols, i, j, k, l);
      }
    }

    method Put(i: nat, j: nat, v: real)
      requires Inside() && Distinct() && i < rows && j < cols
      modifies buffer
      ensures forall k: nat, l: nat :: k < rows && l < cols ==>
                Rows()[k][l] == if k == i && l == j then v else old(Rows()[k][l])
      ensures forall at :: 0 <= at < buffer.Length && !Owns(at) ==> buffer[at] == old(buffer[at])
    {
      buffer[Cell(i, j)] := v;
    }

    /** Element-wise copy; the layouts may differ. */
    method Assign(src: Matrix)
      requires Inside() && Distinct() && src.Inside() && src.rows == rows && src.cols == cols && src.buffer != buffer
      modifies buffer
      ensures Rows() == src.Rows()
      ensures forall at :: 0 <= at < buffer.Length && !Owns(at) ==> buffer[at] == old(buffer[at])
    {
      hide Cell, Distinct, Owns;
      for i := 0 to rows
        invariant forall k: nat, l: nat :: k < i && l < cols ==> Rows()[k][l] == src.Rows()[k][l]
        invariant forall at :: 0 <= at < buffer.Length && !Owns(at) ==> buffer[at] == old(buffer[at])
      {
        for j := 0 to cols
          invariant forall k: nat, l: nat :: k < rows && l < cols && (k < i || (k == i && l < j)) ==>
                      Rows()[k][l] == src.Rows()[k][l]
          invariant forall at :: 0 <= at < buffer.Length && !Owns(at) ==> buffer[at] == old(buffer[at])
        {
          Put(i, j, src.buffer[src.Cell(i, j)]);
        }
      }
      SameMat(Rows(), src.Rows(), rows, cols);
    }

    method Dup(newOrder: char) returns (copy: Matrix)
      requires Inside() && (newOrder == 'c' || newOrder == 'f')
      ensures copy.order == newOrder && copy.rows == rows && copy.cols == cols && copy.ews == 1
      ensures copy.Valid() && fresh(copy.buffer) && copy.Rows() == Rows()
    {
      copy := new Matrix(newOrder, rows, cols);
      copy.Assign(this);
    }
  }

  // ---------------------------------------------------------------- what is read and written

  /** The matrix `x` stands for when its buffer holds `s`. */
  ghost function RowsIn(x: Matrix, s: seq<real>): (m: Mat)
    requires x.Inside() && |s| == x.buffer.Length
    ensures IsMat(m, x.rows, x.cols)
  {
    seq(x.rows, i requires 0 <= i < x.rows => seq(x.cols, j requires 0 <= j < x.cols => s[x.Cell(i, j)]))
  }

  lemma RawAre(x: Matrix)
    requires x.offset + x.rows * x.cols <= x.buffer.Length
    ensures x.RawRows() == Held(x.buffer[..], x.offset, x.order == 'c', x.rows, x.cols)
  {
  }

  lemma RowsAre(x: Matrix)
    requires x.Inside()
    ensures x.Rows() == RowsIn(x, x.buffer[..])
  {
    SameMat(x.Rows(), RowsIn(x, x.buffer[..]), x.rows, x.cols);
  }

  /** The elements a product routine reads from an operand: a copy in packed form if there is
      no element-wise stride, the raw buffer otherwise. */
  ghost function ReadIn(x: Matrix, s: seq<real>): (m: Mat)
    requires x.Inside() && |s| == x.buffer.Length && (x.ews != -1 ==> x.offset + x.rows * x.cols <= x.buffer.Length)
    ensures IsMat(m, x.rows, x.cols)
  {
    if x.ews == -1 then RowsIn(x, s) else Held(s, x.offset, x.order == 'c', x.rows, x.cols)
  }

  ghost function Read(x: Matrix): (m: Mat)
    requires x.Inside() && (x.ews != -1 ==> x.offset + x.rows * x.cols <= x.buffer.Length)
    reads x.buffer
    ensures IsMat(m, x.rows, x.cols)
  {
    ReadIn(x, x.buffer[..])
  }

  /** The buffer of a column-major matrix with `r` written into it as if it were packed. */
  ghost function Overwritten(x: Matrix, s: seq<real>, r: Mat): (t: seq<real>)
    requires x.offset + x.rows * x.cols <= |s| && IsMat(r, x.rows, x.cols)
    ensures |t| == |s|
  {
    seq(|s|, at requires 0 <= at < |s| =>
      if x.offset <= at < x.offset + x.rows * x.cols then
        PlaceBack(x.rows, x.cols, at - x.offset);
        r[(at - x.offset) % x.rows][(at - x.offset) / x.rows]
      else s[at])
  }

  /** Every place of the packed column-major block is that of one entry. */
  lemma PlaceBack(rows: nat, cols: nat, at: int)
    requires 0 <= at < rows * cols
    ensures rows > 0 && 0 <= at % rows < rows && 0 <= at / rows < cols
    ensures Place(false, rows, cols, at % rows, at / rows) == at
  {
    assert rows != 0;
    var q := at / rows;
    assert at == q * rows + at % rows;
    if q >= cols {
      MulLe(cols, q, rows);
    }
  }

  lemma OverwrittenAt(x: Matrix, s: seq<real>, r: Mat, i: nat, j: nat)
    requires x.offset + x.rows * x.cols <= |s| && IsMat(r, x.rows, x.cols) && i < x.rows && j < x.cols
    ensures var at := x.offset + Place(false, x.rows, x.cols, i, j);
            0 <= at < |s| && Overwritten(x, s, r)[at] == r[i][j]
  {
    var place := Place(false, x.rows, x.cols, i, j);
    PlaceInside(false, x.rows, x.cols, i, j);
    PlaceBack(x.rows, x.cols, place);
    PlaceOnce(false, x.rows, x.cols, i, j, place % x.rows, place / x.rows);
  }

  /** A buffer that holds `r` as its packed block and is otherwise untouched is that one. */
  lemma OverwrittenIf(x: Matrix, s: seq<real>, t: seq<real>, r: Mat)
    requires |t| == |s| && x.offset + x.rows * x.cols <= |s| && IsMat(r, x.rows, x.cols)
    requires Held(t, x.offset, false, x.rows, x.cols) == r
    requires t[..x.offset] == s[..x.offset] && t[x.offset + x.rows * x.cols..] == s[x.offset + x.rows * x.cols..]
    ensures t == Overwritten(x, s, r)
  {
    var o, n := Overwritten(x, s, r), x.rows * x.cols;
    forall at | 0 <= at < |s| ensures t[at] == o[at] {
      if x.offset <= at < x.offset + n {
        var place := at - x.offset;
        PlaceBack(x.rows, x.cols, place);
        assert Held(t, x.offset, false, x.rows, x.cols)[place % x.rows][place / x.rows] == t[at];
      } else if at < x.offset {
        assert t[..x.offset][at] == s[..x.offset][at];
      } else {
        assert t[x.offset + n..][at - x.offset - n] == s[x.offset + n..][at - x.offset - n];
      }
    }
  }

  /** The strides of packed elements, on axes that are longer than one. */
  predicate HasPackedStrides(x: Matrix) {
    && (x.rows <= 1 || x.cols == 0 || x.rowStride == if x.order == 'c' then x.cols else 1)
    && (x.cols <= 1 || x.rows == 0 || x.colStride == if x.order == 'c' then 1 else x.rows)
  }

  /** The raw buffer reads as the operand, whatever it holds, if and only if the strides are
      those of packed elements. */
  lemma RawReadsIff(x: Matrix)
    requires x.Inside() && x.offset + x.rows * x.cols <= x.buffer.Length
    ensures HasPackedStrides(x) <==> forall s: seq<real> | |s| == x.buffer.Length ::
              RowsIn(x, s) == Held(s, x.offset, x.order == 'c', x.rows, x.cols)
  {
    hide Matrix.Cell, Place;
    if HasPackedStrides(x) {
      forall s: seq<real> | |s| == x.buffer.Length
        ensures RowsIn(x, s) == Held(s, x.offset, x.order == 'c', x.rows, x.cols)
      {
        PackedReads(x, s);
      }
    } else {
      var i, j := OtherPlace(x);
      PlaceInside(x.order == 'c', x.rows, x.cols, i, j);
      var s := seq(x.buffer.Length, k => if k == x.Cell(i, j) then 1.0 else 0.0);
      assert RowsIn(x, s)[i][j] != Held(s, x.offset, x.order == 'c', x.rows, x.cols)[i][j];
    }
  }

  lemma PackedReads(x: Matrix, s: seq<real>)
    requires x.Inside() && x.offset + x.rows * x.cols <= x.buffer.Length == |s| && HasPackedStrides(x)
    ensures RowsIn(x, s) == Held(s, x.offset, x.order == 'c', x.rows, x.cols)
  {
    hide Matrix.Cell, Place, HasPackedStrides;
    var (m, r) := (RowsIn(x, s), Held(s, x.offset, x.order == 'c', x.rows, x.cols));
    forall i: nat, j: nat | i < x.rows && j < x.cols ensures m[i][j] == r[i][j] {
      PackedStridesPlace(x, i, j);
    }
    SameMat(m, r, x.rows, x.cols);
  }

  lemma PackedStridesPlace(x: Matrix, i: nat, j: nat)
    requires HasPackedStrides(x) && i < x.rows && j < x.cols
    ensures x.Cell(i, j) == x.offset + Place(x.order == 'c', x.rows, x.cols, i, j)
  {
  }

  lemma OtherPlace(x: Matrix) returns (i: nat, j: nat)
    requires !HasPackedStrides(x)
    ensures i < x.rows && j < x.cols && x.Cell(i, j) != x.offset + Place(x.order == 'c', x.rows, x.cols, i, j)
  {
    if x.rows > 1 && x.cols > 0 && x.rowStride != if x.order == 'c' then x.cols else 1 {
      i, j := 1, 0;
    } else {
      i, j := 0, 1;
    }
  }

  /** An operand is read right if it is copied or packed. */
  predicate PlainOperand(x: Matrix) { x.ews == -1 || HasPackedStrides(x) }

  /** A result is written right if it goes through a copy or is packed. */
  predicate PlainTarget(x: Matrix) { x.order == 'c' || HasPackedStrides(x) }

  lemma ReadsOperand(x: Matrix, s: seq<real>)
    requires x.Inside() && PlainOperand(x) && |s| == x.buffer.Length
    requires x.ews != -1 ==> x.offset + x.rows * x.cols <= x.buffer.Length
    ensures ReadIn(x, s) == RowsIn(x, s)
  {
    if x.ews != -1 {
      PackedReads(x, s);
    }
  }

  /** Otherwise it may not be: a row of every second element of 1, 9, 2 is 1, 2, but 1, 9 is
      what is read. */
  method StridedOperandMisread() returns (x: Matrix)
    ensures x.Valid() && x.ews == 2 && x.offset + x.rows * x.cols <= x.buffer.Length
    ensures x.Rows() == [[1.0, 2.0]] && Read(x) == [[1.0, 9.0]]
  {
    var buffer := new real[] [1.0, 9.0, 2.0];
    x := new Matrix.View(buffer, 0, 1, 2, 4, 2, 'c', 2);
    SameMat(x.Rows(), [[1.0, 2.0]], 1, 2);
    SameMat(Read(x), [[1.0, 9.0]], 1, 2);
  }

  // ---------------------------------------------------------------- mmulHelperMxM

  /** The operand as it is handed to GEMM: itself, or a packed copy. */
  method Prepare(x: Matrix, order: char) returns (p: Matrix)
    requires x.Valid() && (x.ews != -1 ==> x.offset + x.rows * x.cols <= x.buffer.Length)
    requires order == 'c' || order == 'f'
    ensures p.rows == x.rows && p.cols == x.cols && (p == x || fresh(p.buffer))
    ensures p.offset + p.rows * p.cols <= p.buffer.Length && p.RawRows() == Read(x)
  {
    if x.ews == -1 {
      p := x.Dup(order);
      p.PackedRows();
      RowsAre(x);
    } else {
      p := x;
    }
  }

  /** What C stands for afterwards, from the contents of the three buffers: a row-major C
      gets the product of what is read, a column-major one gets it as packed elements. */
  ghost function Delivered(A: Matrix, B: Matrix, C: Matrix, alpha: real, beta: real,
                           sA: seq<real>, sB: seq<real>, sC: seq<real>): (m: Mat)
    requires Operands(A, B, C) && |sA| == A.buffer.Length && |sB| == B.buffer.Length && |sC| == C.buffer.Length
    ensures IsMat(m, A.rows, B.cols)
  {
    if C.order == 'c' then
      Result(alpha, ReadIn(A, sA), ReadIn(B, sB), beta, RowsIn(C, sC), A.rows, B.cols, A.cols)
    else
      RowsIn(C, Overwritten(C, sC, Result(alpha, ReadIn(A, sA), ReadIn(B, sB), beta,
                                          Held(sC, C.offset, false, C.rows, C.cols), A.rows, B.cols, A.cols)))
  }

  /** Shapes that fit, and buffers as long as what is read and written of them. */
  ghost predicate Operands(A: Matrix, B: Matrix, C: Matrix) {
    && A.Valid() && B.Valid() && C.Valid() && A.cols == B.rows && C.rows == A.rows && C.cols == B.cols
    && (A.ews != -1 ==> A.offset + A.rows * A.cols <= A.buffer.Length)
    && (B.ews != -1 ==> B.offset + B.rows * B.cols <= B.buffer.Length)
    && (C.order == 'f' ==> C.offset + C.rows * C.cols <= C.buffer.Length)
  }

  /** alpha * A * B + beta * C, for these contents. */
  ghost function Wanted(A: Matrix, B: Matrix, C: Matrix, alpha: real, beta: real,
                        sA: seq<real>, sB: seq<real>, sC: seq<real>): (m: Mat)
    requires Operands(A, B, C) && |sA| == A.buffer.Length && |sB| == B.buffer.Length && |sC| == C.buffer.Length
    ensures IsMat(m, A.rows, B.cols)
  {
    Result(alpha, RowsIn(A, sA), RowsIn(B, sB), beta, RowsIn(C, sC), A.rows, B.cols, A.cols)
  }

  /** mmulHelperMxM. A fresh result is column-major and packed. */
  method MmulHelperMxM(A: Matrix, B: Matrix, C: Matrix?, alpha: real, beta: real) returns (result: Matrix)
    requires A.Valid() && B.Valid() && A.cols == B.rows
    requires A.ews != -1 ==> A.offset + A.rows * A.cols <= A.buffer.Length
    requires B.ews != -1 ==> B.offset + B.rows * B.cols <= B.buffer.Length
    requires C != null ==> Operands(A, B, C) && C.buffer != A.buffer && C.buffer != B.buffer
    modifies if C != null then {C.buffer} else {}
    ensures result.Valid() && result.rows == A.rows && result.cols == B.cols
    ensures C == null ==>
              fresh(result.buffer) && result.order == 'f' && result.ews == 1
              && forall i: nat, j: nat :: i < A.rows && j < B.cols ==>
                   result.Rows()[i][j] == alpha * SumProd(Read(A), Read(B), i, j, A.cols)
    ensures C != null ==>
              && result == C
              && C.Rows() == Delivered(A, B, C, alpha, beta, A.buffer[..], B.buffer[..], old(C.buffer[..]))
              && Untouched(C, old(C.buffer[..]), C.buffer[..])
  {
    if C == null {
      result := MultiplyFresh(A, B, alpha, beta);
    } else {
      result := C;
      MultiplyInto(A, B, result, alpha, beta);
    }
  }

  method MultiplyFresh(A: Matrix, B: Matrix, alpha: real, beta: real) returns (result: Matrix)
    requires A.Valid() && B.Valid() && A.cols == B.rows
    requires A.ews != -1 ==> A.offset + A.rows * A.cols <= A.buffer.Length
    requires B.ews != -1 ==> B.offset + B.rows * B.cols <= B.buffer.Length
    ensures fresh(result.buffer) && result.Valid() && result.rows == A.rows && result.cols == B.cols
    ensures result.order == 'f' && result.ews == 1
    ensures forall i: nat, j: nat :: i < A.rows && j < B.cols ==>
              result.Rows()[i][j] == alpha * SumProd(Read(A), Read(B), i, j, A.cols)
  {
    hide SumProd, Result, Delivered, Matrix.Inside, Matrix.Distinct, Matrix.Packed, Read, Matrix.Cell;
    result := new Matrix('f', A.rows, B.cols);
    result.PackedRows();
    RowsAre(result);
    ghost var before := result.buffer[..];
    MultiplyInto(A, B, result, alpha, beta);
    DeliveredPacked(A, B, result, alpha, beta, A.buffer[..], B.buffer[..], before);
    ReadsAre(A);
    ReadsAre(B);
    NothingAdded(alpha, Read(A), Read(B), beta, RowsIn(result, before), A.rows, B.cols, A.cols);
  }

  lemma NothingAdded(alpha: real, a: Mat, b: Mat, beta: real, c: Mat, m: nat, n: nat, k: nat)
    requires IsMat(a, m, k) && IsMat(b, k, n) && IsMat(c, m, n)
    requires forall i: nat, j: nat :: i < m && j < n ==> c[i][j] == 0.0
    ensures forall i: nat, j: nat :: i < m && j < n ==> Result(alpha, a, b, beta, c, m, n, k)[i][j] == alpha * SumProd(a, b, i, j, k)
  {
    hide SumProd;
  }

  lemma ReadsAre(x: Matrix)
    requires x.Inside() && (x.ews != -1 ==> x.offset + x.rows * x.cols <= x.buffer.Length)
    ensures Read(x) == ReadIn(x, x.buffer[..])
  {
  }

  /** Cells outside a row-major C, or outside the packed block of a column-major one, stay. */
  ghost predicate Untouched(C: Matrix, s: seq<real>, t: seq<real>) {
    && |t| == |s|
    && forall at :: 0 <= at < |s| ==>
         (if C.order == 'c' then !C.Owns(at) else !(C.offset <= at < C.offset + C.rows * C.cols)) ==> t[at] == s[at]
  }

  /** The part that works on the matrix for the result: directly, or by way of a
      column-major copy. */
  method MultiplyInto(A: Matrix, B: Matrix, tC: Matrix, alpha: real, beta: real)
    requires Operands(A, B, tC) && tC.buffer != A.buffer && tC.buffer != B.buffer
    modifies tC.buffer
    ensures tC.Rows() == Delivered(A, B, tC, alpha, beta, A.buffer[..], B.buffer[..], old(tC.buffer[..]))
    ensures Untouched(tC, old(tC.buffer[..]), tC.buffer[..])
  {
    hide SumProd, Result, Matrix.Inside, Matrix.Distinct, Matrix.Packed, Held, Overwritten;
    ghost var before := tC.buffer[..];
    if tC.order != 'f' {
      RowsAre(tC);
      var pC := tC.Dup('f');
      pC.PackedRows();
      Multiply(A, B, pC, alpha, beta);
      pC.PackedRows();
      tC.Assign(pC);
    } else {
      Multiply(A, B, tC, alpha, beta);
      OverwrittenIf(tC, before, tC.buffer[..],
                    Result(alpha, Read(A), Read(B), beta, Held(before, tC.offset, false, tC.rows, tC.cols), A.rows, B.cols, A.cols));
      BlockOnly(tC, before, tC.buffer[..]);
      RowsAre(tC);
    }
  }

  lemma BlockOnly(C: Matrix, s: seq<real>, t: seq<real>)
    requires C.order == 'f' && |t| == |s| && C.offset + C.rows * C.cols <= |s|
    requires t[..C.offset] == s[..C.offset] && t[C.offset + C.rows * C.cols..] == s[C.offset + C.rows * C.cols..]
    ensures Untouched(C, s, t)
  {
    var o, e := C.offset, C.offset + C.rows * C.cols;
    forall at | 0 <= at < |s| && !(o <= at < e) ensures t[at] == s[at] {
      if at < o {
        assert t[..o][at] == s[..o][at];
      } else {
        assert t[e..][at - e] == s[e..][at - e];
      }
    }
  }

  /** The call of GEMM on the raw buffers. */
  method Multiply(A: Matrix, B: Matrix, pC: Matrix, alpha: real, beta: real)
    requires A.Valid() && B.Valid() && A.cols == B.rows && pC.rows == A.rows && pC.cols == B.cols
    requires A.ews != -1 ==> A.offset + A.rows * A.cols <= A.buffer.Length
    requires B.ews != -1 ==> B.offset + B.rows * B.cols <= B.buffer.Length
    requires pC.order == 'f' && pC.offset + pC.rows * pC.cols <= pC.buffer.Length
    requires pC.buffer != A.buffer && pC.buffer != B.buffer
    modifies pC.buffer
    ensures pC.RawRows() == Result(alpha, Read(A), Read(B), beta, old(pC.RawRows()), A.rows, B.cols, A.cols)
    ensures pC.buffer[..pC.offset] == old(pC.buffer[..pC.offset])
    ensures pC.buffer[pC.offset + pC.rows * pC.cols..] == old(pC.buffer[pC.offset + pC.rows * pC.cols..])
  {
    var pB := Prepare(B, 'f');
    var pA := Prepare(A, 'c');
    Op(pA.order == 'c', pB.order == 'c', pC.rows, pC.cols, pA.cols, alpha,
       pA.buffer, pA.offset, pB.buffer, pB.offset, beta, pC.buffer, pC.offset);
  }

  /** A plain result gets the product of what is read. */
  lemma DeliveredPacked(A: Matrix, B: Matrix, C: Matrix, alpha: real, beta: real, sA: seq<real>, sB: seq<real>, sC: seq<real>)
    requires Operands(A, B, C) && |sA| == A.buffer.Length && |sB| == B.buffer.Length && |sC| == C.buffer.Length
    requires PlainTarget(C) || C.ews == 1
    ensures Delivered(A, B, C, alpha, beta, sA, sB, sC)
         == Result(alpha, ReadIn(A, sA), ReadIn(B, sB), beta, RowsIn(C, sC), A.rows, B.cols, A.cols)
  {
    hide Result, Matrix.Cell, Matrix.Inside, Matrix.Distinct, Place, ReadIn, HasPackedStrides, Overwritten;
    if C.order == 'f' {
      if C.ews == 1 {
        UnitStridePacked(C);
      }
      PackedReads(C, sC);
      var r := Result(alpha, ReadIn(A, sA), ReadIn(B, sB), beta, Held(sC, C.offset, false, C.rows, C.cols), A.rows, B.cols, A.cols);
      var m := RowsIn(C, Overwritten(C, sC, r));
      forall i: nat, j: nat | i < C.rows && j < C.cols ensures m[i][j] == r[i][j] {
        PackedStridesPlace(C, i, j);
        OverwrittenAt(C, sC, r, i, j);
      }
      SameMat(m, r, C.rows, C.cols);
    }
  }

  lemma UnitStridePacked(x: Matrix)
    requires x.Valid() && x.ews == 1
    ensures HasPackedStrides(x)
  {
    if !HasPackedStrides(x) {
      var i, j := OtherPlace(x);
    }
  }

  // ---------------------------------------------------------------- the triple loop

  /** What simpleMMul leaves in C: without beta it adds onto the old C and scales both. */
  function SimpleResult(alpha: real, a: Mat, b: Mat, beta: real, c: Mat, m: nat, n: nat, k: nat): (r: Mat)
    requires IsMat(a, m, k) && IsMat(b, k, n) && IsMat(c, m, n)
    ensures IsMat(r, m, n)
  {
    if beta != 0.0 then Result(alpha, a, b, beta, c, m, n, k)
    else seq(m, i requires 0 <= i < m => seq(n, j requires 0 <= j < n => alpha * (c[i][j] + SumProd(a, b, i, j, k))))
  }

  /** It is the product both helpers stand for if and only if there is a beta, or alpha is
      zero, or C was zero to begin with. */
  lemma SimpleAgreesIff(alpha: real, a: Mat, b: Mat, beta: real, c: Mat, m: nat, n: nat, k: nat)
    requires IsMat(a, m, k) && IsMat(b, k, n) && IsMat(c, m, n)
    ensures SimpleResult(alpha, a, b, beta, c, m, n, k) == Result(alpha, a, b, beta, c, m, n, k)
       <==> beta != 0.0 || alpha == 0.0 || forall i: nat, j: nat :: i < m && j < n ==> c[i][j] == 0.0
  {
    hide SumProd;
    var simple, result := SimpleResult(alpha, a, b, beta, c, m, n, k), Result(alpha, a, b, beta, c, m, n, k);
    if beta == 0.0 {
      forall i: nat, j: nat | i < m && j < n
        ensures simple[i][j] == result[i][j] <==> alpha == 0.0 || c[i][j] == 0.0
      {
        SimpleEntry(alpha, c[i][j], SumProd(a, b, i, j, k));
      }
      if alpha == 0.0 || forall i: nat, j: nat :: i < m && j < n ==> c[i][j] == 0.0 {
        SameMat(simple, result, m, n);
      }
    }
  }

  lemma SimpleEntry(alpha: real, c: real, s: real)
    ensures alpha * (c + s) == alpha * s + 0.0 * c <==> alpha == 0.0 || c == 0.0
  {
    assert alpha * (c + s) == alpha * c + alpha * s;
  }

  /** Multiplies every element by a scalar, unless it is one. */
  method ApplyMultiply(x: Matrix, scalar: real)
    requires x.Inside() && x.Distinct()
    modifies x.buffer
    ensures forall i: nat, j: nat :: i < x.rows && j < x.cols ==> x.Rows()[i][j] == scalar * old(x.Rows()[i][j])
  {
    hide Matrix.Cell, Matrix.Distinct, Matrix.Owns;
    if scalar == 1.0 {
      return;
    }
    for i := 0 to x.rows
      invariant forall k: nat, l: nat :: k < x.rows && l < x.cols ==>
                  x.Rows()[k][l] == if k < i then scalar * old(x.Rows()[k][l]) else old(x.Rows()[k][l])
    {
      for j := 0 to x.cols
        invariant forall k: nat, l: nat :: k < x.rows && l < x.cols ==>
                    x.Rows()[k][l] == if k < i || (k == i && l < j) then scalar * old(x.Rows()[k][l])
                                      else old(x.Rows()[k][l])
      {
        x.Put(i, j, scalar * x.buffer[x.Cell(i, j)]);
      }
    }
  }

  /** Adds `y` onto `x`, element by element. */
  method ApplyAdd(x: Matrix, y: Matrix)
    requires x.Inside() && x.Distinct() && y.Inside() && y.rows == x.rows && y.cols == x.cols && y.buffer != x.buffer
    modifies x.buffer
    ensures forall i: nat, j: nat :: i < x.rows && j < x.cols ==> x.Rows()[i][j] == old(x.Rows()[i][j]) + y.Rows()[i][j]
  {
    hide Matrix.Cell, Matrix.Distinct, Matrix.Owns;
    for i := 0 to x.rows
      invariant forall k: nat, l: nat :: k < x.rows && l < x.cols ==>
                  x.Rows()[k][l] == old(x.Rows()[k][l]) + if k < i then y.Rows()[k][l] else 0.0
    {
      for j := 0 to x.cols
        invariant forall k: nat, l: nat :: k < x.rows && l < x.cols ==>
                    x.Rows()[k][l] == old(x.Rows()[k][l]) + if k < i || (k == i && l < j) then y.Rows()[k][l] else 0.0
      {
        x.Put(i, j, x.buffer[x.Cell(i, j)] + y.buffer[y.Cell(i, j)]);
      }
    }
  }

  /** The triple loop: the product accumulated onto `dot`. */
  method Accumulate(dot: Matrix, a: Matrix, b: Matrix)
    requires dot.Inside() && dot.Distinct() && a.Inside() && b.Inside()
    requires a.cols == b.rows && dot.rows == a.rows && dot.cols == b.cols
    requires dot.buffer != a.buffer && dot.buffer != b.buffer
    modifies dot.buffer
    ensures forall i: nat, j: nat :: i < a.rows && j < b.cols ==>
              dot.Rows()[i][j] == old(dot.Rows()[i][j]) + SumProd(a.Rows(), b.Rows(), i, j, a.cols)
  {
    hide Matrix.Cell, Matrix.Distinct, Matrix.Owns;
    ghost var ra, rb := a.Rows(), b.Rows();
    for row := 0 to a.rows
      invariant forall k: nat, l: nat :: k < a.rows && l < b.cols ==>
                  dot.Rows()[k][l] == old(dot.Rows()[k][l]) + if k < row then SumProd(ra, rb, k, l, a.cols) else 0.0
    {
      for col := 0 to b.cols
        invariant forall k: nat, l: nat :: k < a.rows && l < b.cols ==>
                    dot.Rows()[k][l] == old(dot.Rows()[k][l])
                                        + if k < row || (k == row && l < col) then SumProd(ra, rb, k, l, a.cols) else 0.0
      {
        AccumulateEntry(dot, a, b, row, col);
      }
    }
  }

  /** The innermost of the three loops. */
  method AccumulateEntry(dot: Matrix, a: Matrix, b: Matrix, row: nat, col: nat)
    requires dot.Inside() && dot.Distinct() && a.Inside() && b.Inside()
    requires a.cols == b.rows && dot.rows == a.rows && dot.cols == b.cols && row < a.rows && col < b.cols
    requires dot.buffer != a.buffer && dot.buffer != b.buffer
    modifies dot.buffer
    ensures forall k: nat, l: nat :: k < a.rows && l < b.cols ==>
              dot.Rows()[k][l] == old(dot.Rows()[k][l])
                                  + if k == row && l == col then SumProd(a.Rows(), b.Rows(), row, col, a.cols) else 0.0
  {
    hide Matrix.Cell, Matrix.Distinct, Matrix.Owns, SumProd;
    ghost var ra, rb, before := a.Rows(), b.Rows(), dot.Rows();
    NoTerms(ra, rb, row, col);
    for j := 0 to a.cols
      invariant forall k: nat, l: nat :: k < a.rows && l < b.cols ==>
                  dot.Rows()[k][l] == if k == row && l == col then before[row][col] + SumProd(ra, rb, row, col, j) else before[k][l]
    {
      NextTerm(1.0, ra, rb, row, col, j);
      AddOnto(dot, row, col, a.buffer[a.Cell(row, j)] * b.buffer[b.Cell(j, col)]);
    }
  }

  method AddOnto(dot: Matrix, row: nat, col: nat, term: real)
    requires dot.Inside() && dot.Distinct() && row < dot.rows && col < dot.cols
    modifies dot.buffer
    ensures forall k: nat, l: nat :: k < dot.rows && l < dot.cols ==>
              dot.Rows()[k][l] == if k == row && l == col then old(dot.Rows()[row][col]) + term else old(dot.Rows()[k][l])
  {
    hide Matrix.Cell, Matrix.Distinct, Matrix.Owns;
    dot.Put(row, col, dot.buffer[dot.Cell(row, col)] + term);
  }

  /** simpleMMul with a C of its own. The shape errors leave everything as it was. */
  method SimpleMMul(a: Matrix, b: Matrix, c: Matrix, alpha: real, beta: real) returns (ok: bool)
    requires a.Valid() && b.Valid() && c.Valid() && c.buffer != a.buffer && c.buffer != b.buffer
    modifies c.buffer
    ensures ok <==> a.cols == b.rows && c.rows == a.rows && c.cols == b.cols
    ensures ok ==> c.Rows() == SimpleResult(alpha, a.Rows(), b.Rows(), beta, old(c.Rows()), a.rows, b.cols, a.cols)
    ensures !ok ==> c.Rows() == old(c.Rows())
  {
    hide SumProd, Matrix.Inside, Matrix.Distinct, Matrix.Packed;
    if a.cols != b.rows || c.rows != a.rows || c.cols != b.cols {
      return false;
    }
    if beta != 0.0 {
      WithBeta(a, b, c, alpha, beta);
    } else {
      ghost var c0 := c.Rows();
      Accumulate(c, a, b);
      ApplyMultiply(c, alpha);
      SameMat(c.Rows(), SimpleResult(alpha, a.Rows(), b.Rows(), beta, c0, a.rows, b.cols, a.cols), a.rows, b.cols);
    }
    return true;
  }

  /** The product in a matrix of its own, added onto the scaled C. */
  method WithBeta(a: Matrix, b: Matrix, c: Matrix, alpha: real, beta: real)
    requires a.Valid() && b.Valid() && c.Valid() && c.buffer != a.buffer && c.buffer != b.buffer
    requires a.cols == b.rows && c.rows == a.rows && c.cols == b.cols && beta != 0.0
    modifies c.buffer
    ensures c.Rows() == Result(alpha, a.Rows(), b.Rows(), beta, old(c.Rows()), a.rows, b.cols, a.cols)
  {
    hide SumProd, Matrix.Inside, Matrix.Distinct, Matrix.Packed, Matrix.Rows, Matrix.Cell, Matrix.Owns;
    ghost var c0 := c.Rows();
    var dot := new Matrix(c.order, a.rows, b.cols);
    ApplyMultiply(c, beta);
    Accumulate(dot, a, b);
    ApplyMultiply(dot, alpha);
    ApplyAdd(c, dot);
    SameMat(c.Rows(), Result(alpha, a.Rows(), b.Rows(), beta, c0, a.rows, b.cols, a.cols), a.rows, b.cols);
  }
}
