/** When mmulHelperMxM gives the product: exactly for which layouts of its three matrices. */
module ProductLayout {
  import opened Gemm
  import opened MatrixProduct

  /** For these buffers the result is alpha * A * B + beta * C. */
  ghost predicate RightFor(A: Matrix, B: Matrix, C: Matrix, alpha: real, beta: real, sA: seq<real>, sB: seq<real>, sC: seq<real>)
    requires Operands(A, B, C)
  {
    |sA| == A.buffer.Length && |sB| == B.buffer.Length && |sC| == C.buffer.Length ==>
      Delivered(A, B, C, alpha, beta, sA, sB, sC) == Wanted(A, B, C, alpha, beta, sA, sB, sC)
  }

  ghost predicate AlwaysRight(A: Matrix, B: Matrix, C: Matrix)
    requires Operands(A, B, C)
  {
    forall alpha, beta, sA, sB, sC :: RightFor(A, B, C, alpha, beta, sA, sB, sC)
  }

  lemma RightIfPlain(A: Matrix, B: Matrix, C: Matrix)
    requires Operands(A, B, C) && PlainOperand(A) && PlainOperand(B) && PlainTarget(C)
    ensures AlwaysRight(A, B, C)
  {
    hide Result, Delivered, ReadIn, RowsIn, PlainOperand, PlainTarget;
    forall alpha, beta, sA, sB, sC ensures RightFor(A, B, C, alpha, beta, sA, sB, sC) {
      if |sA| == A.buffer.Length && |sB| == B.buffer.Length && |sC| == C.buffer.Length {
        ReadsOperand(A, sA);
        ReadsOperand(B, sB);
        DeliveredPacked(A, B, C, alpha, beta, sA, sB, sC);
      }
    }
  }

  /** Where the element of row `i` and column `k` is read. */
  function ReadCell(x: Matrix, i: nat, k: nat): int {
    if x.ews == -1 then x.Cell(i, k) else x.offset + Place(x.order == 'c', x.rows, x.cols, i, k)
  }

  lemma ReadAt(x: Matrix, s: seq<real>, i: nat, k: nat)
    requires x.Inside() && |s| == x.buffer.Length && (x.ews != -1 ==> x.offset + x.rows * x.cols <= x.buffer.Length)
    requires i < x.rows && k < x.cols
    ensures 0 <= ReadCell(x, i, k) < |s| && ReadIn(x, s)[i][k] == s[ReadCell(x, i, k)]
  {
    hide Matrix.Cell, Place;
    PlaceInside(x.order == 'c', x.rows, x.cols, i, k);
  }

  /** A row with a single one in it, or none, against a column of ones. */
  lemma {:induction false} SumOne(a: Mat, b: Mat, i: nat, j: nat, n: nat, p: nat)
    requires i < |a| && n <= |a[i]| && n <= |b| && forall q :: 0 <= q < n ==> j < |b[q]|
    requires forall q :: 0 <= q < n ==> a[i][q] * b[q][j] == if q == p then 1.0 else 0.0
    ensures SumProd(a, b, i, j, n) == if p < n then 1.0 else 0.0
  {
    if n > 0 {
      SumOne(a, b, i, j, n - 1, p);
    }
  }

  function Ones(n: nat): (s: seq<real>)
    ensures |s| == n && forall i :: 0 <= i < n ==> s[i] == 1.0
  {
    seq(n, _ => 1.0)
  }

  function Nulls(n: nat): (s: seq<real>)
    ensures |s| == n && forall i :: 0 <= i < n ==> s[i] == 0.0
  {
    seq(n, _ => 0.0)
  }

  function OneAt(n: nat, at: int): (s: seq<real>)
    ensures |s| == n && forall i :: 0 <= i < n ==> s[i] == if i == at then 1.0 else 0.0
  {
    seq(n, i => if i == at then 1.0 else 0.0)
  }

  /** Sizes of arrays are positive. */
  ghost predicate Sized(A: Matrix, B: Matrix, C: Matrix) {
    Operands(A, B, C) && A.rows > 0 && A.cols > 0 && B.cols > 0
  }

  /** The entry of C the routine computes where C's entry (i, j) lies. */
  ghost predicate Moves(C: Matrix, i: nat, j: nat, i': nat, j': nat) {
    && i' < C.rows && j' < C.cols
    && if C.order == 'c' then i' == i && j' == j
       else C.Cell(i, j) == C.offset + Place(false, C.rows, C.cols, i', j')
  }

  /** If C is always right, each of its cells is one the routine writes ... */
  lemma EntryMoves(A: Matrix, B: Matrix, C: Matrix, i: nat, j: nat) returns (i': nat, j': nat)
    requires Sized(A, B, C) && AlwaysRight(A, B, C) && i < C.rows && j < C.cols
    ensures Moves(C, i, j, i', j') && (i == 0 && j == 0 ==> i' == 0 && j' == 0)
  {
    hide SumProd, Matrix.Distinct, Matrix.Packed, ReadIn, RowsIn, AlwaysRight;
    if C.order == 'c' || (i == 0 && j == 0) {
      i', j' := i, j;
    } else {
      var at := C.Cell(i, j);
      InBlock(A, B, C, i, j);
      PlaceBack(C.rows, C.cols, at - C.offset);
      i', j' := (at - C.offset) % C.rows, (at - C.offset) / C.rows;
    }
  }

  lemma InBlock(A: Matrix, B: Matrix, C: Matrix, i: nat, j: nat)
    requires Sized(A, B, C) && AlwaysRight(A, B, C) && i < C.rows && j < C.cols && C.order == 'f'
    ensures C.offset <= C.Cell(i, j) < C.offset + C.rows * C.cols
  {
    hide SumProd, Matrix.Cell, Matrix.Distinct, Matrix.Packed, ReadIn, Place;
    var (sA, sB, sC) := (Nulls(A.buffer.Length), Nulls(B.buffer.Length), Ones(C.buffer.Length));
    assert RightFor(A, B, C, 0.0, 0.0, sA, sB, sC);
    assert Wanted(A, B, C, 0.0, 0.0, sA, sB, sC)[i][j] == 0.0;
  }

  /** ... and the two sums agree. */
  lemma SumsAgree(A: Matrix, B: Matrix, C: Matrix, i: nat, j: nat, i': nat, j': nat, sA: seq<real>, sB: seq<real>)
    requires Sized(A, B, C) && AlwaysRight(A, B, C) && i < C.rows && j < C.cols && Moves(C, i, j, i', j')
    requires |sA| == A.buffer.Length && |sB| == B.buffer.Length
    ensures SumProd(RowsIn(A, sA), RowsIn(B, sB), i, j, A.cols) == SumProd(ReadIn(A, sA), ReadIn(B, sB), i', j', A.cols)
  {
    hide SumProd, Matrix.Cell, Matrix.Distinct, Matrix.Packed, Place, ReadIn, Overwritten;
    var sC := Nulls(C.buffer.Length);
    assert RightFor(A, B, C, 1.0, 0.0, sA, sB, sC);
    assert Wanted(A, B, C, 1.0, 0.0, sA, sB, sC)[i][j] == SumProd(RowsIn(A, sA), RowsIn(B, sB), i, j, A.cols);
    if C.order == 'f' {
      OverwrittenAt(C, sC, Result(1.0, ReadIn(A, sA), ReadIn(B, sB), 0.0, Held(sC, C.offset, false, C.rows, C.cols),
                                  A.rows, B.cols, A.cols), i', j');
    }
    assert Delivered(A, B, C, 1.0, 0.0, sA, sB, sC)[i][j] == SumProd(ReadIn(A, sA), ReadIn(B, sB), i', j', A.cols);
  }

  /** So every cell of row i of A is read in row i' ... */
  lemma RowRead(A: Matrix, B: Matrix, C: Matrix, i: nat, j: nat, i': nat, j': nat, k: nat) returns (k': nat)
    requires Sized(A, B, C) && AlwaysRight(A, B, C) && i < C.rows && j < C.cols && Moves(C, i, j, i', j') && k < A.cols
    ensures k' < A.cols && A.Cell(i, k) == ReadCell(A, i', k')
  {
    hide SumProd, Matrix.Cell, Matrix.Packed, Place, ReadCell, ReadIn, AlwaysRight;
    var (sA, sB) := (OneAt(A.buffer.Length, A.Cell(i, k)), Ones(B.buffer.Length));
    SumsAgree(A, B, C, i, j, i', j', sA, sB);
    forall q | 0 <= q < A.cols
      ensures RowsIn(A, sA)[i][q] * RowsIn(B, sB)[q][j] == if q == k then 1.0 else 0.0
      ensures ReadIn(A, sA)[i'][q] * ReadIn(B, sB)[q][j'] == if ReadCell(A, i', q) == A.Cell(i, k) then 1.0 else 0.0
    {
      assert A.Cell(i, q) == A.Cell(i, k) ==> q == k;
      ReadAt(A, sA, i', q);
      ReadAt(B, sB, q, j');
    }
    SumOne(RowsIn(A, sA), RowsIn(B, sB), i, j, A.cols, k);
    if forall q :: 0 <= q < A.cols ==> ReadCell(A, i', q) != A.Cell(i, k) {
      SumOne(ReadIn(A, sA), ReadIn(B, sB), i', j', A.cols, A.cols);
    }
    k' :| k' < A.cols && ReadCell(A, i', k') == A.Cell(i, k);
  }

  /** ... and every cell of column j of B in column j'. */
  lemma ColumnRead(A: Matrix, B: Matrix, C: Matrix, i: nat, j: nat, i': nat, j': nat, k: nat) returns (k': nat)
    requires Sized(A, B, C) && AlwaysRight(A, B, C) && i < C.rows && j < C.cols && Moves(C, i, j, i', j') && k < A.cols
    ensures k' < A.cols && B.Cell(k, j) == ReadCell(B, k', j')
  {
    hide SumProd, Matrix.Cell, Matrix.Packed, Place, ReadCell, ReadIn, AlwaysRight;
    var (sA, sB) := (Ones(A.buffer.Length), OneAt(B.buffer.Length, B.Cell(k, j)));
    SumsAgree(A, B, C, i, j, i', j', sA, sB);
    forall q | 0 <= q < A.cols
      ensures RowsIn(A, sA)[i][q] * RowsIn(B, sB)[q][j] == if q == k then 1.0 else 0.0
      ensures ReadIn(A, sA)[i'][q] * ReadIn(B, sB)[q][j'] == if ReadCell(B, q, j') == B.Cell(k, j) then 1.0 else 0.0
    {
      assert B.Cell(q, j) == B.Cell(k, j) ==> q == k;
      ReadAt(A, sA, i', q);
      ReadAt(B, sB, q, j');
    }
    SumOne(RowsIn(A, sA), RowsIn(B, sB), i, j, A.cols, k);
    if forall q :: 0 <= q < A.cols ==> ReadCell(B, q, j') != B.Cell(k, j) {
      SumOne(ReadIn(A, sA), ReadIn(B, sB), i', j', A.cols, A.cols);
    }
    k' :| k' < A.cols && ReadCell(B, k', j') == B.Cell(k, j);
  }

  /** Steps that land on multiples up to the last one are single ones. */
  lemma InnerForced(inner: nat, si: int, wi: int, k1: nat, k2: nat)
    requires inner >= 2 && si != 0 && wi >= 1 && k2 < inner
    requires si == k1 * wi && (inner - 1) * si == k2 * wi
    ensures si == wi
  {
    assert k1 != 0;
    LastMultiple(inner - 1, k1, k2, wi);
  }

  lemma LastMultiple(m: nat, p: nat, q: nat, w: int)
    requires m >= 1 && p >= 1 && w >= 1 && q <= m && m * (p * w) == q * w
    ensures p == 1
  {
    Assoc(m, p, w);
    if p >= 2 {
      MulLe(2, p, m);
      MulLess(q, p * m, w);
    }
  }

  lemma MulLess(a: int, b: int, c: int)
    requires a < b && c >= 1
    ensures a * c < b * c
  {
    MulLe(a + 1, b, c);
    assert (a + 1) * c == a * c + c;
  }

  lemma Assoc(m: int, p: int, w: int)
    ensures m * (p * w) == (p * m) * w
  {
  }

  /** A line is read from the start of another one. */
  lemma StartForced(start: int, start': int, inner: nat, si: int, wi: int, k0: nat, k1: nat)
    requires wi >= 1 && k0 < inner && k1 < inner && (inner >= 2 ==> si == wi)
    requires start == start' + k0 * wi && start + (inner - 1) * si == start' + k1 * wi
    ensures start == start'
  {
    if inner >= 2 && k0 >= 1 {
      Diff(k1, k0, wi);
      MulLess(k1 - k0, inner - 1, wi);
    }
  }

  lemma Diff(a: int, b: int, w: int)
    ensures (a - b) * w == a * w - b * w
  {
  }

  lemma OuterForced(outer: nat, so: int, wo: int, p: nat, q: nat)
    requires outer >= 2 && so != 0 && wo >= 1 && q < outer && 1 * so == p * wo && (outer - 1) * so == q * wo
    ensures so == wo
  {
    assert p != 0;
    LastMultiple(outer - 1, p, q, wo);
  }

  lemma SameLine(o: nat, o2: nat, outer: nat, so: int, wo: int)
    requires o < outer && o2 < outer && wo >= 1 && (outer >= 2 ==> so == wo) && o * so == o2 * wo
    ensures o == o2
  {
    if o > o2 {
      MulLess(o2, o, wo);
    } else if o < o2 {
      MulLess(o, o2, wo);
    }
  }

  /** The distances of rows and of columns where a raw operand is read. */
  function RowUnit(x: Matrix): int { if x.order == 'c' then x.cols else 1 }

  function ColUnit(x: Matrix): int { if x.order == 'c' then 1 else x.rows }

  lemma ReadUnits(x: Matrix, i: nat, k: nat)
    requires x.ews != -1
    ensures ReadCell(x, i, k) == x.offset + i * RowUnit(x) + k * ColUnit(x)
  {
  }

  lemma DistinctStrides(x: Matrix)
    requires x.Distinct() && x.rows > 0 && x.cols > 0
    ensures (x.rows >= 2 ==> x.rowStride != 0) && (x.cols >= 2 ==> x.colStride != 0)
  {
    NoStride(x);
  }

  lemma NoStride(x: Matrix)
    ensures x.rowStride == 0 ==> x.Cell(0, 0) == x.Cell(1, 0)
    ensures x.colStride == 0 ==> x.Cell(0, 0) == x.Cell(0, 1)
  {
  }

  /** The columns of A are packed ... */
  lemma ColStrideForced(A: Matrix, B: Matrix, C: Matrix)
    requires Sized(A, B, C) && AlwaysRight(A, B, C) && A.ews != -1 && A.cols >= 2
    ensures A.colStride == ColUnit(A)
  {
    hide Matrix.Inside, AlwaysRight, Operands, ReadCell;
    Facts(A, B, C);
    DistinctStrides(A);
    var k1 := RowRead(A, B, C, 0, 0, 0, 0, 1);
    var k2 := RowRead(A, B, C, 0, 0, 0, 0, A.cols - 1);
    ReadUnits(A, 0, k1);
    ReadUnits(A, 0, k2);
    InnerForced(A.cols, A.colStride, ColUnit(A), k1, k2);
  }

  lemma Facts(A: Matrix, B: Matrix, C: Matrix)
    requires Sized(A, B, C)
    ensures A.Distinct() && B.Distinct() && C.rows == A.rows && C.cols == B.cols && A.cols == B.rows
    ensures A.rows > 0 && A.cols > 0 && B.cols > 0 && Moves(C, 0, 0, 0, 0)
    ensures (A.order == 'c' || A.order == 'f') && (B.order == 'c' || B.order == 'f')
  {
  }

  /** ... and each row of A is read where row i' starts ... */
  lemma RowStarts(A: Matrix, B: Matrix, C: Matrix, i: nat, j: nat, i': nat, j': nat)
    requires Sized(A, B, C) && AlwaysRight(A, B, C) && A.ews != -1 && i < C.rows && j < C.cols && Moves(C, i, j, i', j')
    ensures i * A.rowStride == i' * RowUnit(A)
  {
    hide Matrix.Inside, Matrix.Distinct, AlwaysRight, Operands, ReadCell;
    Facts(A, B, C);
    if A.cols >= 2 {
      ColStrideForced(A, B, C);
    }
    var k0 := RowRead(A, B, C, i, j, i', j', 0);
    var k1 := RowRead(A, B, C, i, j, i', j', A.cols - 1);
    ReadUnits(A, i', k0);
    ReadUnits(A, i', k1);
    StartForced(i * A.rowStride, i' * RowUnit(A), A.cols, A.colStride, ColUnit(A), k0, k1);
  }

  /** ... so its rows are packed too. */
  lemma RowStrideForced(A: Matrix, B: Matrix, C: Matrix)
    requires Sized(A, B, C) && AlwaysRight(A, B, C) && A.ews != -1 && A.rows >= 2
    ensures A.rowStride == RowUnit(A)
  {
    hide Matrix.Inside, AlwaysRight, Operands;
    Facts(A, B, C);
    DistinctStrides(A);
    var p, p' := EntryMoves(A, B, C, 1, 0);
    RowStarts(A, B, C, 1, 0, p, p');
    var q, q' := EntryMoves(A, B, C, A.rows - 1, 0);
    RowStarts(A, B, C, A.rows - 1, 0, q, q');
    OuterForced(A.rows, A.rowStride, RowUnit(A), p, q);
  }

  /** The same for B, with rows and columns exchanged. */
  lemma RowStrideForcedB(A: Matrix, B: Matrix, C: Matrix)
    requires Sized(A, B, C) && AlwaysRight(A, B, C) && B.ews != -1 && B.rows >= 2
    ensures B.rowStride == RowUnit(B)
  {
    hide Matrix.Inside, AlwaysRight, Operands, ReadCell;
    Facts(A, B, C);
    DistinctStrides(B);
    var k1 := ColumnRead(A, B, C, 0, 0, 0, 0, 1);
    var k2 := ColumnRead(A, B, C, 0, 0, 0, 0, A.cols - 1);
    ReadUnits(B, k1, 0);
    ReadUnits(B, k2, 0);
    InnerForced(B.rows, B.rowStride, RowUnit(B), k1, k2);
  }

  lemma ColumnStarts(A: Matrix, B: Matrix, C: Matrix, i: nat, j: nat, i': nat, j': nat)
    requires Sized(A, B, C) && AlwaysRight(A, B, C) && B.ews != -1 && i < C.rows && j < C.cols && Moves(C, i, j, i', j')
    ensures j * B.colStride == j' * ColUnit(B)
  {
    hide Matrix.Inside, Matrix.Distinct, AlwaysRight, Operands, ReadCell;
    Facts(A, B, C);
    if B.rows >= 2 {
      RowStrideForcedB(A, B, C);
    }
    var k0 := ColumnRead(A, B, C, i, j, i', j', 0);
    var k1 := ColumnRead(A, B, C, i, j, i', j', A.cols - 1);
    ReadUnits(B, k0, j');
    ReadUnits(B, k1, j');
    StartForced(j * B.colStride, j' * ColUnit(B), B.rows, B.rowStride, RowUnit(B), k0, k1);
  }

  lemma ColStrideForcedB(A: Matrix, B: Matrix, C: Matrix)
    requires Sized(A, B, C) && AlwaysRight(A, B, C) && B.ews != -1 && B.cols >= 2
    ensures B.colStride == ColUnit(B)
  {
    hide Matrix.Inside, AlwaysRight, Operands;
    Facts(A, B, C);
    DistinctStrides(B);
    var p', p := EntryMoves(A, B, C, 0, 1);
    ColumnStarts(A, B, C, 0, 1, p', p);
    var q', q := EntryMoves(A, B, C, 0, B.cols - 1);
    ColumnStarts(A, B, C, 0, B.cols - 1, q', q);
    OuterForced(B.cols, B.colStride, ColUnit(B), p, q);
  }

  /** So the routine computes each entry where it belongs. */
  lemma EntryStays(A: Matrix, B: Matrix, C: Matrix, i: nat, j: nat, i': nat, j': nat)
    requires Sized(A, B, C) && AlwaysRight(A, B, C) && i < C.rows && j < C.cols && Moves(C, i, j, i', j')
    ensures i' == i && j' == j
  {
    hide Matrix.Inside, AlwaysRight, Operands;
    Facts(A, B, C);
    if A.ews == -1 {
      var k := RowRead(A, B, C, i, j, i', j', 0);
    } else {
      RowStarts(A, B, C, i, j, i', j');
      if A.rows >= 2 {
        RowStrideForced(A, B, C);
      }
      SameLine(i, i', A.rows, A.rowStride, RowUnit(A));
    }
    if B.ews == -1 {
      var k := ColumnRead(A, B, C, i, j, i', j', 0);
    } else {
      ColumnStarts(A, B, C, i, j, i', j');
      if B.cols >= 2 {
        ColStrideForcedB(A, B, C);
      }
      SameLine(j, j', B.cols, B.colStride, ColUnit(B));
    }
  }

  lemma PlainIfRight(A: Matrix, B: Matrix, C: Matrix)
    requires Sized(A, B, C) && AlwaysRight(A, B, C)
    ensures PlainOperand(A) && PlainOperand(B) && PlainTarget(C)
  {
    hide Matrix.Inside, Matrix.Distinct, AlwaysRight, Operands;
    Facts(A, B, C);
    if A.ews != -1 {
      if A.cols >= 2 {
        ColStrideForced(A, B, C);
      }
      if A.rows >= 2 {
        RowStrideForced(A, B, C);
      }
    }
    if B.ews != -1 {
      if B.rows >= 2 {
        RowStrideForcedB(A, B, C);
      }
      if B.cols >= 2 {
        ColStrideForcedB(A, B, C);
      }
    }
    if C.order != 'c' && !HasPackedStrides(C) {
      var i, j := OtherPlace(C);
      var i', j' := EntryMoves(A, B, C, i, j);
      EntryStays(A, B, C, i, j, i', j');
    }
  }

  /** mmulHelperMxM gives alpha * A * B + beta * C for all contents of the three arrays and
      all factors if and only if every operand is copied or has packed strides, and C goes
      through a copy (row-major) or has packed strides. Only if A and B share a buffer might
      it be right for other layouts too, as their contents depend on each other then. */
  lemma ProductRightIff(A: Matrix, B: Matrix, C: Matrix)
    requires Sized(A, B, C)
    ensures PlainOperand(A) && PlainOperand(B) && PlainTarget(C) ==> AlwaysRight(A, B, C)
    ensures A.buffer != B.buffer ==>
              (AlwaysRight(A, B, C) <==> PlainOperand(A) && PlainOperand(B) && PlainTarget(C))
  {
    hide AlwaysRight, PlainOperand, PlainTarget, Operands;
    if AlwaysRight(A, B, C) {
      PlainIfRight(A, B, C);
    }
    if PlainOperand(A) && PlainOperand(B) && PlainTarget(C) {
      RightIfPlain(A, B, C);
    }
  }

  /** A valid column-major result with strides 1 and 3 is miswritten: the product of the
      column 1, 2 and the row 5, 7 has 7 in its first row, but 14 comes out. */
  method StridedTargetMiswritten() returns (C: Matrix)
    ensures C.Valid() && C.order == 'f' && C.ews == -1 && C.rows == C.cols == 2
    ensures C.Inside() && C.Rows()[0][1] == 14.0
    ensures SumProd([[1.0], [2.0]], [[5.0, 7.0]], 0, 1, 1) == 7.0
  {
    hide Delivered, Untouched, Operands, Matrix.Rows, Matrix.Valid, Matrix.Inside, SumProd;
    var A := ColumnOf(1.0, 2.0);
    var B := RowOf(5.0, 7.0);
    var cells := new real[5](_ => 0.0);
    C := new Matrix.View(cells, 0, 2, 2, 1, 3, 'f', -1);
    MiswrittenEntry(A, B, C, C.buffer[..]);
    var result := MmulHelperMxM(A, B, C, 1.0, 0.0);
  }

  method ColumnOf(x: real, y: real) returns (m: Matrix)
    ensures fresh(m) && fresh(m.buffer) && m.Valid() && m.order == 'c' && m.ews == 1 && m.rows == 2 && m.cols == 1
    ensures m.Rows() == [[x], [y]]
  {
    hide Matrix.Inside, Matrix.Distinct, Matrix.Packed, Matrix.Cell, Matrix.Owns;
    m := new Matrix('c', 2, 1);
    m.Put(0, 0, x);
    m.Put(1, 0, y);
    SameMat(m.Rows(), [[x], [y]], 2, 1);
  }

  method RowOf(x: real, y: real) returns (m: Matrix)
    ensures fresh(m) && fresh(m.buffer) && m.Valid() && m.order == 'c' && m.ews == 1 && m.rows == 1 && m.cols == 2
    ensures m.Rows() == [[x, y]]
  {
    hide Matrix.Inside, Matrix.Distinct, Matrix.Packed, Matrix.Cell, Matrix.Owns;
    m := new Matrix('c', 1, 2);
    m.Put(0, 0, x);
    m.Put(0, 1, y);
    SameMat(m.Rows(), [[x, y]], 1, 2);
  }

  lemma MiswrittenEntry(A: Matrix, B: Matrix, C: Matrix, sC: seq<real>)
    requires A.Valid() && B.Valid() && A.order == B.order == 'c' && A.ews == B.ews == 1 && |sC| == C.buffer.Length == 5
    requires A.rows == 2 && A.cols == 1 && B.rows == 1 && B.cols == 2 && A.Rows() == [[1.0], [2.0]] && B.Rows() == [[5.0, 7.0]]
    requires C.offset == 0 && C.rows == C.cols == 2 && C.rowStride == 1 && C.colStride == 3 && C.order == 'f' && C.ews == -1
    ensures A.Inside() && B.Inside() && C.Inside() && C.Valid()
    ensures A.offset + A.rows * A.cols <= A.buffer.Length && B.offset + B.rows * B.cols <= B.buffer.Length
    ensures Operands(A, B, C) && Delivered(A, B, C, 1.0, 0.0, A.buffer[..], B.buffer[..], sC)[0][1] == 14.0
    ensures SumProd([[1.0], [2.0]], [[5.0, 7.0]], 0, 1, 1) == 7.0
  {
    hide SumProd, Matrix.RawRows, Held;
    A.PackedRows();
    B.PackedRows();
    TwoTerms();
    assert C.Cell(0, 1) == 3;
    RawAre(A);
    RawAre(B);
  }

  lemma TwoTerms()
    ensures SumProd([[1.0], [2.0]], [[5.0, 7.0]], 0, 1, 1) == 7.0
    ensures SumProd([[1.0], [2.0]], [[5.0, 7.0]], 1, 1, 1) == 14.0
  {
    var a, b := [[1.0], [2.0]], [[5.0, 7.0]];
    assert SumProd(a, b, 0, 1, 0) == 0.0 && SumProd(a, b, 1, 1, 0) == 0.0;
    assert SumProd(a, b, 0, 1, 1) == 0.0 + a[0][0] * b[0][1];
    assert SumProd(a, b, 1, 1, 1) == 0.0 + a[1][0] * b[0][1];
  }
}
