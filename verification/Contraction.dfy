/** Tensor contraction as the code does it: both operands as matrices with the strides that
    permuting and reshaping leave, the product helper on them, and the result reshaped back.
    When that is the sum over the contracted axes, and an input for which it is not. */
module Contraction {
  import opened Axes
  import opened Gemm
  import opened MatrixProduct
  import opened MatrixDispatch
  import opened Reshaping
  import opened Shapes
  import opened TensorDot
  import opened Wrappers
  import NDArrays
  import R = Readings

  // ---------------------------------------------------------------- what the helper computes

  ghost predicate IsPair(x: Tensor) { |x.shape| == |x.strides| == 2 && Positive(x.shape) }

  /** The distances of rows and columns where a raw buffer is read. */
  function RowStep(x: Tensor): int
    requires |x.shape| == 2
  {
    if x.order == 'f' then 1 else x.shape[1]
  }

  function ColStep(x: Tensor): int
    requires |x.shape| == 2
  {
    if x.order == 'f' then x.shape[0] else 1
  }

  /** The helper sends the product to the matrix-vector routine. */
  predicate VectorStep(left: Tensor, right: Tensor)
    requires |left.shape| == |right.shape| == 2
  {
    right.shape[1] == 1 && left.shape[0] != 1 && left.shape[1] != 1
  }

  predicate Raw(left: Tensor, right: Tensor, x: Tensor)
    requires |left.shape| == |right.shape| == 2
  {
    VectorStep(left, right) || x.ews != -1
  }

  /** What the routine takes the operand for. */
  ghost function ReadSide(x: Tensor, raw: bool): (m: Mat)
    requires IsPair(x)
    ensures IsMat(m, x.shape[0], x.shape[1])
  {
    if raw then
      seq(x.shape[0], i requires 0 <= i < x.shape[0] => seq(x.shape[1], k requires 0 <= k < x.shape[1] =>
        x.Read(x.offset + i * RowStep(x) + k * ColStep(x))))
    else AsMat(x)
  }

  /** Axes longer than one have packed strides. */
  predicate PackedSide(x: Tensor)
    requires |x.shape| == |x.strides| == 2
  {
    && (x.shape[0] <= 1 || x.strides[0] == RowStep(x))
    && (x.shape[1] <= 1 || x.strides[1] == ColStep(x))
  }

  ghost function Multiplied(left: Tensor, right: Tensor): (m: Mat)
    requires IsPair(left) && IsPair(right) && left.shape[1] == right.shape[0]
    ensures IsMat(m, left.shape[0], right.shape[1])
  {
    var (a, b) := (ReadSide(left, Raw(left, right, left)), ReadSide(right, Raw(left, right, right)));
    seq(left.shape[0], i requires 0 <= i < left.shape[0] => seq(right.shape[1], j requires 0 <= j < right.shape[1] =>
      1.0 * SumProd(a, b, i, j, left.shape[1])))
  }

  /** The helper's result, column-major and packed. */
  ghost function ProductOf(left: Tensor, right: Tensor): (t: Tensor)
    requires IsPair(left) && IsPair(right) && left.shape[1] == right.shape[0]
    ensures t.Valid() && t.shape == [left.shape[0], right.shape[1]]
  {
    ColumnMajor(Multiplied(left, right), left.shape[0], right.shape[1])
  }

  /** The shape of the result, which has one axis of size 1 for a side without free axes. */
  ghost function ResultShape(a: Tensor, b: Tensor, plan: Plan): (shape: seq<int>)
    requires plan.Fits(a, b)
    ensures Positive(shape)
  {
    FreePositive(a, b, plan);
    OrOne(Gather(plan.freeA, a.shape)) + OrOne(Gather(plan.freeB, b.shape))
  }

  /** tensorDot: the operands as matrices, the product the helper gives, and that in the
      result's shape. */
  ghost function Contract(a: Tensor, b: Tensor, plan: Plan): Tensor
    requires plan.Fits(a, b)
  {
    Reshape(ProductOf(Left(a, b, plan), Right(a, b, plan)), ResultShape(a, b, plan))
  }

  lemma FreePositive(a: Tensor, b: Tensor, plan: Plan)
    requires plan.Fits(a, b)
    ensures Positive(OrOne(Gather(plan.freeA, a.shape))) && Positive(OrOne(Gather(plan.freeB, b.shape)))
    ensures Prod(Gather(plan.freeA, a.shape)) >= 1 && Prod(Gather(plan.freeB, b.shape)) >= 1
  {
    hide IsPermutation, Prod;
    GatherPositive(plan.freeA, a.shape);
    GatherPositive(plan.freeB, b.shape);
  }

  /** A column-major matrix reshaped to two groups of axes. */
  lemma BackInShape(m: Mat, sA: seq<int>, sB: seq<int>, u: seq<int>, v: seq<int>)
    requires Positive(sA) && Positive(sB) && InBox(sA, u) && InBox(sB, v)
    requires Prod(sA) >= 1 && Prod(sB) >= 1 && IsMat(m, Prod(sA), Prod(sB))
    ensures var c := Reshape(ColumnMajor(m, Prod(sA), Prod(sB)), sA + sB);
            && c.shape == sA + sB && |c.strides| == |u + v|
            && 0 <= CIndex(sA, u) < Prod(sA) && 0 <= CIndex(sB, v) < Prod(sB)
            && c.At(u + v) == m[CIndex(sA, u)][CIndex(sB, v)]
  {
    hide Prod, CIndex, CUnravel, Tensor.At, Tensor.Cell, Reshape;
    var t := ColumnMajor(m, Prod(sA), Prod(sB));
    CIndexRange(sA, u);
    CIndexRange(sB, v);
    PairOfGroups(sA, sB, u, v);
    ReshapeRank(t, sA + sB);
    ReshapeAt(t, sA + sB, u + v);
    ColumnMajorAt(m, Prod(sA), Prod(sB), CIndex(sA, u), CIndex(sB, v));
  }

  /** An element of the result is an entry of the product. */
  lemma ContractAt(a: Tensor, b: Tensor, plan: Plan, u: seq<int>, v: seq<int>)
    requires plan.Fits(a, b)
    requires InBox(OrOne(Gather(plan.freeA, a.shape)), u) && InBox(OrOne(Gather(plan.freeB, b.shape)), v)
    ensures var (sA, sB, c) := (OrOne(Gather(plan.freeA, a.shape)), OrOne(Gather(plan.freeB, b.shape)), Contract(a, b, plan));
            && c.shape == sA + sB && |c.strides| == |u + v|
            && 0 <= CIndex(sA, u) < Left(a, b, plan).shape[0] && 0 <= CIndex(sB, v) < Right(a, b, plan).shape[1]
            && c.At(u + v) == Multiplied(Left(a, b, plan), Right(a, b, plan))[CIndex(sA, u)][CIndex(sB, v)]
  {
    hide Prod, CIndex, Tensor.At, IsPermutation, ColumnMajor, Multiplied, Gather, Reshape, InBox, OrOne, Left, Right;
    var (sA, sB) := (Gather(plan.freeA, a.shape), Gather(plan.freeB, b.shape));
    FreePositive(a, b, plan);
    OrOneProd(sA);
    OrOneProd(sB);
    BackInShape(Multiplied(Left(a, b, plan), Right(a, b, plan)), OrOne(sA), OrOne(sB), u, v);
  }

  lemma OrOneProd(shape: seq<int>)
    ensures Prod(OrOne(shape)) == Prod(shape)
  {
    if shape == [] {
      assert [1][1..] == [];
      assert Prod([1]) == 1 * Prod([]);
    }
  }

  /** The sum over the contracted axes at free coordinates `u` and `v`. */
  ghost function DirectSum(a: Tensor, b: Tensor, plan: Plan, u: seq<int>, v: seq<int>): real
    requires plan.Fits(a, b)
    requires InBox(OrOne(Gather(plan.freeA, a.shape)), u) && InBox(OrOne(Gather(plan.freeB, b.shape)), v)
  {
    var (sA, sB) := (Gather(plan.freeA, a.shape), Gather(plan.freeB, b.shape));
    SumBox(Pair(a, b, plan, FreePart(sA, u), FreePart(sB, v)), [], Gather(plan.sumA, a.shape))
  }

  /** It is an entry of the mathematical product. */
  lemma DirectSumAt(a: Tensor, b: Tensor, plan: Plan, u: seq<int>, v: seq<int>)
    requires plan.Fits(a, b)
    requires InBox(OrOne(Gather(plan.freeA, a.shape)), u) && InBox(OrOne(Gather(plan.freeB, b.shape)), v)
    ensures var (sA, sB) := (OrOne(Gather(plan.freeA, a.shape)), OrOne(Gather(plan.freeB, b.shape)));
            && 0 <= CIndex(sA, u) < Left(a, b, plan).shape[0] && 0 <= CIndex(sB, v) < Right(a, b, plan).shape[1]
            && DirectSum(a, b, plan, u, v) == Product(Left(a, b, plan), Right(a, b, plan))[CIndex(sA, u)][CIndex(sB, v)]
  {
    hide Prod, CIndex, Tensor.At, SumBox, IsPermutation, Product, Gather, Pair, InBox, FreePart, OrOne, Left, Right;
    var (sA, sB) := (Gather(plan.freeA, a.shape), Gather(plan.freeB, b.shape));
    OrOneIndex(sA, u);
    OrOneIndex(sB, v);
    EntryIsSum(a, b, plan, FreePart(sA, u), FreePart(sB, v));
  }

  // ---------------------------------------------------------------- sides that are read right

  lemma PairCell(x: Tensor, i: int, k: int)
    requires |x.strides| == 2
    ensures x.Cell([i, k]) == x.offset + i * x.strides[0] + k * x.strides[1]
  {
    assert [i, k][1..] == [k] && x.strides[1..] == [x.strides[1]];
    assert Dot([k], [x.strides[1]]) == k * x.strides[1] + Dot([], []);
  }

  lemma PackedRead(x: Tensor)
    requires IsPair(x) && PackedSide(x)
    ensures ReadSide(x, true) == AsMat(x)
  {
    hide Tensor.Cell;
    var (rows, cols) := (x.shape[0], x.shape[1]);
    forall i: nat, k: nat | i < rows && k < cols ensures ReadSide(x, true)[i][k] == AsMat(x)[i][k] {
      PairCell(x, i, k);
    }
    SameMat(ReadSide(x, true), AsMat(x), rows, cols);
  }

  /** Both sides are read right: they are copied, or have packed strides. */
  predicate PlainSides(left: Tensor, right: Tensor)
    requires |left.shape| == |left.strides| == |right.shape| == |right.strides| == 2
  {
    (Raw(left, right, left) ==> PackedSide(left)) && (Raw(left, right, right) ==> PackedSide(right))
  }

  /** Then the result at free coordinates `u` of A and `v` of B is the sum, over all
      coordinates of the contracted axes, of the products of the elements there. */
  lemma TensorDotIsDirectSum(a: Tensor, b: Tensor, plan: Plan, u: seq<int>, v: seq<int>)
    requires plan.Fits(a, b) && PlainSides(Left(a, b, plan), Right(a, b, plan))
    requires InBox(OrOne(Gather(plan.freeA, a.shape)), u) && InBox(OrOne(Gather(plan.freeB, b.shape)), v)
    ensures |Contract(a, b, plan).strides| == |u + v|
    ensures Contract(a, b, plan).At(u + v) == DirectSum(a, b, plan, u, v)
  {
    hide Prod, CIndex, Tensor.At, SumProd, IsPermutation, Gather, InBox, OrOne, Left, Right, Contract, DirectSum,
      ReadSide, AsMat, PackedSide;
    ContractAt(a, b, plan, u, v);
    DirectSumAt(a, b, plan, u, v);
    var (left, right) := (Left(a, b, plan), Right(a, b, plan));
    if Raw(left, right, left) {
      PackedRead(left);
    }
    if Raw(left, right, right) {
      PackedRead(right);
    }
    SidesRead(left);
    SidesRead(right);
  }

  lemma SidesRead(x: Tensor)
    requires IsPair(x)
    ensures ReadSide(x, false) == AsMat(x)
  {
  }

  // ---------------------------------------------------------------- exactly when it is right

  /** All cells lie in the buffer, different elements in different ones, and an element-wise
      stride of 1 means packed elements in the array's order. */
  ghost predicate Proper(t: Tensor) {
    && t.Valid() && (t.order == 'c' || t.order == 'f')
    && (forall c :: InBox(t.shape, c) ==> 0 <= t.Cell(c) < |t.cells|)
    && (forall c, d :: InBox(t.shape, c) && InBox(t.shape, d) && t.Cell(c) == t.Cell(d) ==> c == d)
    && (t.ews == 1 && t.order == 'c' ==> NDArrays.Tight(t.shape, t.strides, 1))
    && (t.ews == 1 && t.order == 'f' ==> NDArrays.TightF(t.shape, t.strides, 1))
  }

  /** The coordinate of the element in row `i` and column `k` of the operand's matrix. */
  ghost function Spot(t: Tensor, first: seq<int>, second: seq<int>, i: int, k: int): (c: seq<int>)
    requires Grouped(t, first, second)
    ensures |c| == |t.shape|
  {
    GroupSizes(t, first, second);
    Scatter(first + second, CUnravel(Gather(first, t.shape), i) + CUnravel(Gather(second, t.shape), k))
  }

  /** How many coordinates a group of axes has. */
  ghost function Rows(t: Tensor, group: seq<int>): (n: nat)
    requires t.Valid() && Inside(group, |t.shape|)
    ensures n >= 1
  {
    GatherPositive(group, t.shape);
    Prod(Gather(group, t.shape))
  }

  lemma SpotAt(t: Tensor, first: seq<int>, second: seq<int>, i: int, k: int)
    requires Grouped(t, first, second) && 0 <= i < Rows(t, first) && 0 <= k < Rows(t, second)
    ensures InBox(t.shape, Spot(t, first, second, i, k))
    ensures MatrixOf(t, first, second).At([i, k]) == t.At(Spot(t, first, second, i, k))
    ensures StaysInPlace(t, first, second) ==>
              var m := MatrixOf(t, first, second);
              m.cells == t.cells && m.offset == t.offset && m.Cell([i, k]) == t.Cell(Spot(t, first, second, i, k))
  {
    hide Prod, CIndex, CUnravel, Tensor.At, Tensor.Cell, Gather, MatrixOf, StaysInPlace, Scatter, IsPermutation;
    GroupSizes(t, first, second);
    var (sF, sS) := (Gather(first, t.shape), Gather(second, t.shape));
    CIndexUnravel(sF, i);
    CIndexUnravel(sS, k);
    SideAt(t, first, second, CUnravel(sF, i), CUnravel(sS, k));
    GatherConcat(first, second, t.shape);
    ScatterInside(first + second, t.shape, CUnravel(sF, i) + CUnravel(sS, k));
  }

  lemma ScatterInside(p: seq<int>, shape: seq<int>, z: seq<int>)
    requires IsPermutation(p) && |p| == |shape| && InBox(Gather(p, shape), z)
    ensures InBox(shape, Scatter(p, z))
  {
  }

  lemma SpotOnce(t: Tensor, first: seq<int>, second: seq<int>, i: int, k: int, i': int, k': int)
    requires Grouped(t, first, second) && 0 <= i < Rows(t, first) && 0 <= k < Rows(t, second)
    requires 0 <= i' < Rows(t, first) && 0 <= k' < Rows(t, second)
    requires Spot(t, first, second, i, k) == Spot(t, first, second, i', k')
    ensures i == i' && k == k'
  {
    hide Prod, CIndex, CUnravel, Gather, Scatter, IsPermutation;
    GroupSizes(t, first, second);
    var (sF, sS) := (Gather(first, t.shape), Gather(second, t.shape));
    GatherScatter(first + second, CUnravel(sF, i) + CUnravel(sS, k));
    GatherScatter(first + second, CUnravel(sF, i') + CUnravel(sS, k'));
    SameParts(CUnravel(sF, i), CUnravel(sS, k), CUnravel(sF, i'), CUnravel(sS, k'));
    CIndexUnravel(sF, i);
    CIndexUnravel(sF, i');
    CIndexUnravel(sS, k);
    CIndexUnravel(sS, k');
  }

  lemma SameParts(a: seq<int>, b: seq<int>, c: seq<int>, d: seq<int>)
    requires |a| == |c| && a + b == c + d
    ensures a == c && b == d
  {
    assert a == (a + b)[..|a|] && c == (c + d)[..|a|] && b == (a + b)[|a|..] && d == (c + d)[|a|..];
  }

  /** Other contents of the same array. */
  lemma SameLayout(t: Tensor, first: seq<int>, second: seq<int>, s: seq<real>)
    requires Grouped(t, first, second)
    ensures var u := t.(cells := s);
            && Grouped(u, first, second) && (StaysInPlace(u, first, second) <==> StaysInPlace(t, first, second))
            && var (m, n) := (MatrixOf(u, first, second), MatrixOf(t, first, second));
               m.shape == n.shape && m.strides == n.strides && m.order == n.order && m.ews == n.ews
                   && m.offset == n.offset
    ensures forall c :: |c| == |t.strides| ==> t.(cells := s).Cell(c) == t.Cell(c)
  {
    hide IsPermutation, Prod, NoCopy, Gather, OrderOf, CStrides;
    GroupSizes(t, first, second);
    GroupSizes(t.(cells := s), first, second);
  }

  /** An operand that is copied is packed. */
  lemma CopiedPacked(t: Tensor, first: seq<int>, second: seq<int>)
    requires Grouped(t, first, second) && !StaysInPlace(t, first, second)
    ensures var m := MatrixOf(t, first, second);
            && PackedSide(m) && m.order == 'c' && m.ews == 1 && m.offset == 0
            && |m.cells| == m.shape[0] * m.shape[1] && m.strides == CStrides(m.shape)
  {
    hide IsPermutation, NoCopy, Gather, OrderOf, Permuted;
    GroupSizes(t, first, second);
    var (sF, sS) := (Gather(first, t.shape), Gather(second, t.shape));
    ProdSplit(sF, sS);
    PairStrides(Prod(sF), Prod(sS));
  }

  lemma PairStrides(m: int, n: int)
    ensures CStrides([m, n]) == [n, 1]
  {
    assert [m, n][1..] == [n] && [n][1..] == [];
    assert CStrides([n]) == [Prod([])] + CStrides([]);
    assert Prod([n]) == n * Prod([]);
  }

  /** Where the elements of the operand's matrix lie in its own buffer, and where they are
      read: elsewhere only if the matrix is a view that is taken raw. */
  ghost function SideOperand(t: Tensor, first: seq<int>, second: seq<int>, raw: bool): R.Operand
    requires Grouped(t, first, second)
  {
    var (rows, cols, m) := (Rows(t, first), Rows(t, second), MatrixOf(t, first, second));
    var lies: R.Cells := (i, k) => t.Cell(Spot(t, first, second, i, k));
    R.Operand(rows, cols, |t.cells|, lies,
              if raw && StaysInPlace(t, first, second) then (i, k) => t.offset + i * RowStep(m) + k * ColStep(m) else lies)
  }

  /** What the source demands of a buffer that is read raw. */
  ghost predicate BlockInside(x: Tensor)
    requires |x.shape| == 2
  {
    0 <= x.offset && x.offset + x.shape[0] * x.shape[1] <= |x.cells|
  }

  lemma OperandInside(t: Tensor, first: seq<int>, second: seq<int>, raw: bool)
    requires Proper(t) && Grouped(t, first, second) && (raw ==> BlockInside(MatrixOf(t, first, second)))
    ensures SideOperand(t, first, second, raw).Inside() && SideOperand(t, first, second, raw).Distinct()
  {
    hide IsPermutation, Spot, MatrixOf, Tensor.Cell, Rows, StaysInPlace;
    var (x, m) := (SideOperand(t, first, second, raw), MatrixOf(t, first, second));
    forall i: nat, k: nat | i < x.rows && k < x.cols
      ensures 0 <= x.lies(i, k) < x.size && 0 <= x.read(i, k) < x.size
    {
      SpotAt(t, first, second, i, k);
      SizesAre(t, first, second);
      StepInside(m.shape[0], m.shape[1], i, k);
    }
    forall i: nat, k: nat, i': nat, k': nat |
      i < x.rows && k < x.cols && i' < x.rows && k' < x.cols && x.lies(i, k) == x.lies(i', k')
      ensures i == i' && k == k'
    {
      SpotAt(t, first, second, i, k);
      SpotAt(t, first, second, i', k');
      SpotOnce(t, first, second, i, k, i', k');
    }
  }

  lemma SizesAre(t: Tensor, first: seq<int>, second: seq<int>)
    requires Grouped(t, first, second)
    ensures MatrixOf(t, first, second).shape == [Rows(t, first), Rows(t, second)]
    ensures Rows(t, first) >= 1 && Rows(t, second) >= 1
  {
    GroupSizes(t, first, second);
  }

  lemma StepInside(rows: int, cols: int, i: int, k: int)
    requires 0 <= i < rows && 0 <= k < cols
    ensures 0 <= i * cols + k * 1 < rows * cols && 0 <= i * 1 + k * rows < rows * cols
  {
    BlockInside2(i, rows, cols, k);
    BlockInside2(k, cols, rows, i);
  }

  lemma BlockInside2(q: int, n: int, p: int, r: int)
    requires 0 <= q < n && 0 <= r < p
    ensures 0 <= q * p + r < n * p
  {
    Shapes.BlockInside(q, n, p, r);
  }

  /** What the routine takes the matrix for, and what it is, from the contents of the buffer. */
  lemma OperandReads(t: Tensor, first: seq<int>, second: seq<int>, raw: bool, s: seq<real>)
    requires Proper(t) && Grouped(t, first, second) && (raw ==> BlockInside(MatrixOf(t, first, second)))
    requires |s| == |t.cells|
    ensures Grouped(t.(cells := s), first, second) && SideOperand(t, first, second, raw).Inside()
    ensures ReadSide(MatrixOf(t.(cells := s), first, second), raw) == R.Taken(SideOperand(t, first, second, raw), s)
    ensures AsMat(MatrixOf(t.(cells := s), first, second)) == R.Elements(SideOperand(t, first, second, raw), s)
  {
    hide IsPermutation, MatrixOf, Tensor.Cell, Tensor.At, Rows, StaysInPlace, Spot, ReadSide, AsMat, R.Taken, R.Elements,
      SideOperand, R.Operand.Inside;
    OperandInside(t, first, second, raw);
    SameLayout(t, first, second, s);
    SizesAre(t, first, second);
    SizesAre(t.(cells := s), first, second);
    OperandShape(t, first, second, raw);
    var (x, m) := (SideOperand(t, first, second, raw), MatrixOf(t.(cells := s), first, second));
    forall i: nat, k: nat | i < x.rows && k < x.cols
      ensures AsMat(m)[i][k] == R.Elements(x, s)[i][k] && ReadSide(m, raw)[i][k] == R.Taken(x, s)[i][k]
    {
      ElementReads(t, first, second, raw, s, i, k);
    }
    SameMat(AsMat(m), R.Elements(x, s), x.rows, x.cols);
    SameMat(ReadSide(m, raw), R.Taken(x, s), x.rows, x.cols);
  }

  lemma OperandShape(t: Tensor, first: seq<int>, second: seq<int>, raw: bool)
    requires Grouped(t, first, second)
    ensures SideOperand(t, first, second, raw).rows == Rows(t, first)
    ensures SideOperand(t, first, second, raw).cols == Rows(t, second)
    ensures SideOperand(t, first, second, raw).size == |t.cells|
  {
    SizesAre(t, first, second);
  }

  lemma ElementReads(t: Tensor, first: seq<int>, second: seq<int>, raw: bool, s: seq<real>, i: nat, k: nat)
    requires Proper(t) && Grouped(t, first, second) && (raw ==> BlockInside(MatrixOf(t, first, second)))
    requires |s| == |t.cells| && i < Rows(t, first) && k < Rows(t, second)
    requires SideOperand(t, first, second, raw).Inside()
    ensures var u := t.(cells := s);
            && Grouped(u, first, second) && MatrixOf(u, first, second).shape == [Rows(t, first), Rows(t, second)]
            && AsMat(MatrixOf(u, first, second))[i][k] == R.Elements(SideOperand(t, first, second, raw), s)[i][k]
            && ReadSide(MatrixOf(u, first, second), raw)[i][k] == R.Taken(SideOperand(t, first, second, raw), s)[i][k]
  {
    hide IsPermutation, MatrixOf, Tensor.Cell, Tensor.At, Rows, StaysInPlace, PackedSide, SideOperand, Spot, ReadSide, AsMat,
      R.Operand.Inside, R.Elements, R.Taken;
    var (u, x) := (t.(cells := s), SideOperand(t, first, second, raw));
    SameLayout(t, first, second, s);
    SizesAre(t, first, second);
    SizesAre(u, first, second);
    OperandShape(t, first, second, raw);
    R.At(x, s, i, k);
    ElementIs(t, first, second, raw, s, i, k);
    if !raw {
      SidesRead(MatrixOf(u, first, second));
      ReadIsElement(t, first, second, raw, i, k);
    } else if !StaysInPlace(t, first, second) {
      CopiedPacked(u, first, second);
      PackedRead(MatrixOf(u, first, second));
      ReadIsElement(t, first, second, raw, i, k);
    } else {
      RawElement(t, first, second, s, i, k);
    }
  }

  lemma ElementIs(t: Tensor, first: seq<int>, second: seq<int>, raw: bool, s: seq<real>, i: nat, k: nat)
    requires Proper(t) && Grouped(t, first, second) && |s| == |t.cells| && i < Rows(t, first) && k < Rows(t, second)
    ensures var (u, at) := (t.(cells := s), SideOperand(t, first, second, raw).lies(i, k));
            && Grouped(u, first, second) && MatrixOf(u, first, second).shape == [Rows(t, first), Rows(t, second)]
            && 0 <= at < |s| && AsMat(MatrixOf(u, first, second))[i][k] == s[at]
  {
    hide IsPermutation, MatrixOf, Tensor.Cell, Rows, StaysInPlace, Spot;
    var u := t.(cells := s);
    SameLayout(t, first, second, s);
    SizesAre(t, first, second);
    SizesAre(u, first, second);
    SpotAt(u, first, second, i, k);
    SameSpot(t, first, second, s, i, k);
  }

  lemma ReadIsElement(t: Tensor, first: seq<int>, second: seq<int>, raw: bool, i: nat, k: nat)
    requires Grouped(t, first, second) && (!raw || !StaysInPlace(t, first, second))
    ensures SideOperand(t, first, second, raw).read(i, k) == SideOperand(t, first, second, raw).lies(i, k)
  {
    hide StaysInPlace, MatrixOf, Spot, IsPermutation;
  }

  lemma RawElement(t: Tensor, first: seq<int>, second: seq<int>, s: seq<real>, i: nat, k: nat)
    requires Proper(t) && Grouped(t, first, second) && BlockInside(MatrixOf(t, first, second)) && |s| == |t.cells|
    requires StaysInPlace(t, first, second) && i < Rows(t, first) && k < Rows(t, second)
    ensures var (u, at) := (t.(cells := s), SideOperand(t, first, second, true).read(i, k));
            && Grouped(u, first, second) && MatrixOf(u, first, second).shape == [Rows(t, first), Rows(t, second)]
            && 0 <= at < |s| && ReadSide(MatrixOf(u, first, second), true)[i][k] == s[at]
  {
    hide IsPermutation, MatrixOf, Tensor.Cell, Rows, StaysInPlace, Spot, AsMat;
    var (u, m) := (t.(cells := s), MatrixOf(t, first, second));
    SameLayout(t, first, second, s);
    SizesAre(t, first, second);
    SizesAre(u, first, second);
    SpotAt(t, first, second, i, k);
    SpotAt(u, first, second, i, k);
    StepInside(m.shape[0], m.shape[1], i, k);
  }

  lemma SameSpot(t: Tensor, first: seq<int>, second: seq<int>, s: seq<real>, i: int, k: int)
    requires Grouped(t, first, second)
    ensures Grouped(t.(cells := s), first, second)
    ensures Spot(t.(cells := s), first, second, i, k) == Spot(t, first, second, i, k)
  {
  }

  /** A view taken raw is read in straight lines. */
  lemma OperandStrides(t: Tensor, first: seq<int>, second: seq<int>, raw: bool)
    requires Grouped(t, first, second)
    ensures var (x, m) := (SideOperand(t, first, second, raw), MatrixOf(t, first, second));
            && (raw && StaysInPlace(t, first, second) ==>
                  R.Strided(x, m.strides[0], m.strides[1], RowStep(m), ColStep(m)))
            && (!raw || !StaysInPlace(t, first, second) ==> R.ReadInPlace(x))
            && R.PackedUnits(x.rows, x.cols, RowStep(m), ColStep(m))
  {
    hide IsPermutation, MatrixOf, Spot, Rows, StaysInPlace, Tensor.At;
    var (x, m) := (SideOperand(t, first, second, raw), MatrixOf(t, first, second));
    SizesAre(t, first, second);
    if raw && StaysInPlace(t, first, second) {
      forall i: nat, k: nat | i < x.rows && k < x.cols
        ensures x.lies(i, k) == t.offset + i * m.strides[0] + k * m.strides[1]
      {
        SpotAt(t, first, second, i, k);
        PairCell(m, i, k);
      }
    }
  }

  /** With these contents of the two buffers the result at `u` and `v` is the direct sum. */
  ghost predicate SumsDirectly(a: Tensor, b: Tensor, plan: Plan, sA: seq<real>, sB: seq<real>, u: seq<int>,
      v: seq<int>)
    requires plan.Fits(a, b)
    requires InBox(OrOne(Gather(plan.freeA, a.shape)), u) && InBox(OrOne(Gather(plan.freeB, b.shape)), v)
  {
    var (x, y) := (a.(cells := sA), b.(cells := sB));
    && plan.Fits(x, y) && |Contract(x, y, plan).strides| == |u + v|
    && Contract(x, y, plan).At(u + v) == DirectSum(x, y, plan, u, v)
  }

  ghost predicate AlwaysDirectSum(a: Tensor, b: Tensor, plan: Plan)
    requires plan.Fits(a, b)
  {
    forall sA, sB, u, v | |sA| == |a.cells| && |sB| == |b.cells|
                          && InBox(OrOne(Gather(plan.freeA, a.shape)), u)
                          && InBox(OrOne(Gather(plan.freeB, b.shape)), v) ::
      SumsDirectly(a, b, plan, sA, sB, u, v)
  }

  lemma OtherContents(a: Tensor, b: Tensor, plan: Plan, sA: seq<real>, sB: seq<real>)
    requires plan.Fits(a, b)
    ensures var (x, y) := (a.(cells := sA), b.(cells := sB));
            && plan.Fits(x, y)
            && (PlainSides(Left(x, y, plan), Right(x, y, plan)) <==> PlainSides(Left(a, b, plan), Right(a, b, plan)))
            && (Raw(Left(x, y, plan), Right(x, y, plan), Left(x, y, plan))
                <==> Raw(Left(a, b, plan), Right(a, b, plan), Left(a, b, plan)))
            && (Raw(Left(x, y, plan), Right(x, y, plan), Right(x, y, plan))
                <==> Raw(Left(a, b, plan), Right(a, b, plan), Right(a, b, plan)))
  {
    hide IsPermutation, MatrixOf, StaysInPlace, Gather;
    assert Grouped(a, plan.freeA, plan.sumA) && Grouped(b, plan.sumB, plan.freeB);
    SameLayout(a, plan.freeA, plan.sumA, sA);
    SameLayout(b, plan.sumB, plan.freeB, sB);
  }

  lemma RightIfPlain(a: Tensor, b: Tensor, plan: Plan)
    requires plan.Fits(a, b) && PlainSides(Left(a, b, plan), Right(a, b, plan))
    ensures AlwaysDirectSum(a, b, plan)
  {
    hide IsPermutation, PlainSides, Left, Right, Contract, DirectSum, OrOne, Gather, InBox, Raw;
    forall sA, sB, u, v | |sA| == |a.cells| && |sB| == |b.cells|
                          && InBox(OrOne(Gather(plan.freeA, a.shape)), u)
                          && InBox(OrOne(Gather(plan.freeB, b.shape)), v)
      ensures SumsDirectly(a, b, plan, sA, sB, u, v)
    {
      OtherContents(a, b, plan, sA, sB);
      TensorDotIsDirectSum(a.(cells := sA), b.(cells := sB), plan, u, v);
    }
  }

  /** The free coordinate with index `i`. */
  lemma FreeCoord(shape: seq<int>, i: int)
    requires Positive(OrOne(shape)) && 0 <= i < Prod(shape)
    ensures InBox(OrOne(shape), CUnravel(OrOne(shape), i)) && CIndex(OrOne(shape), CUnravel(OrOne(shape), i)) == i
  {
    hide Prod, CIndex, CUnravel, OrOne;
    OrOneProd(shape);
    CIndexUnravel(OrOne(shape), i);
  }

  ghost function LeftOperand(a: Tensor, b: Tensor, plan: Plan): R.Operand
    requires plan.Fits(a, b)
  {
    SideOperand(a, plan.freeA, plan.sumA, Raw(Left(a, b, plan), Right(a, b, plan), Left(a, b, plan)))
  }

  ghost function RightOperand(a: Tensor, b: Tensor, plan: Plan): R.Operand
    requires plan.Fits(a, b)
  {
    SideOperand(b, plan.sumB, plan.freeB, Raw(Left(a, b, plan), Right(a, b, plan), Right(a, b, plan)))
  }

  /** The buffers are as long as what is read of them. */
  ghost predicate BlocksInside(a: Tensor, b: Tensor, plan: Plan)
    requires plan.Fits(a, b)
  {
    var (left, right) := (Left(a, b, plan), Right(a, b, plan));
    (Raw(left, right, left) ==> BlockInside(left)) && (Raw(left, right, right) ==> BlockInside(right))
  }

  lemma OperandsFit(a: Tensor, b: Tensor, plan: Plan)
    requires plan.Fits(a, b) && Proper(a) && Proper(b) && BlocksInside(a, b, plan)
    ensures var (x, y) := (LeftOperand(a, b, plan), RightOperand(a, b, plan));
            && x.Inside() && y.Inside() && x.Distinct() && y.Distinct() && x.cols == y.rows
            && x.rows == Left(a, b, plan).shape[0] >= 1 && x.cols == Left(a, b, plan).shape[1] >= 1
            && y.cols == Right(a, b, plan).shape[1] >= 1 && x.size == |a.cells| && y.size == |b.cells|
  {
    hide IsPermutation, MatrixOf, SideOperand, Raw, Gather, Proper, R.Operand.Inside, R.Operand.Distinct;
    var (left, right) := (Left(a, b, plan), Right(a, b, plan));
    OperandInside(a, plan.freeA, plan.sumA, Raw(left, right, left));
    OperandInside(b, plan.sumB, plan.freeB, Raw(left, right, right));
    OperandShape(a, plan.freeA, plan.sumA, Raw(left, right, left));
    OperandShape(b, plan.sumB, plan.freeB, Raw(left, right, right));
  }

  /** The entry that is computed ... */
  ghost function Computed(a: Tensor, b: Tensor, plan: Plan, i: nat, j: nat): real
    requires plan.Fits(a, b) && i < Left(a, b, plan).shape[0] && j < Right(a, b, plan).shape[1]
  {
    Multiplied(Left(a, b, plan), Right(a, b, plan))[i][j]
  }

  /** ... and the one that is wanted. */
  ghost function Exact(a: Tensor, b: Tensor, plan: Plan, i: nat, j: nat): real
    requires plan.Fits(a, b) && i < Left(a, b, plan).shape[0] && j < Right(a, b, plan).shape[1]
  {
    Product(Left(a, b, plan), Right(a, b, plan))[i][j]
  }

  lemma SameSizes(a: Tensor, b: Tensor, plan: Plan, sA: seq<real>, sB: seq<real>)
    requires plan.Fits(a, b)
    ensures var (x, y) := (a.(cells := sA), b.(cells := sB));
            plan.Fits(x, y) && Left(x, y, plan).shape == Left(a, b, plan).shape
                && Right(x, y, plan).shape == Right(a, b, plan).shape
  {
    hide IsPermutation, MatrixOf, Gather;
  }

  /** Two operands the product of whose elements at `i` and `j` makes sense. */
  ghost predicate Entry(x: R.Operand, y: R.Operand, sA: seq<real>, sB: seq<real>, i: nat, j: nat) {
    x.Inside() && y.Inside() && x.cols == y.rows && x.size == |sA| && y.size == |sB| && i < x.rows && j < y.cols
  }

  ghost function TakenSum(x: R.Operand, y: R.Operand, sA: seq<real>, sB: seq<real>, i: nat, j: nat): real
    requires Entry(x, y, sA, sB, i, j)
  {
    SumProd(R.Taken(x, sA), R.Taken(y, sB), i, j, x.cols)
  }

  ghost function ElementSum(x: R.Operand, y: R.Operand, sA: seq<real>, sB: seq<real>, i: nat, j: nat): real
    requires Entry(x, y, sA, sB, i, j)
  {
    SumProd(R.Elements(x, sA), R.Elements(y, sB), i, j, x.cols)
  }

  lemma Entries(a: Tensor, b: Tensor, plan: Plan, sA: seq<real>, sB: seq<real>, i: nat, j: nat)
    requires plan.Fits(a, b) && Proper(a) && Proper(b) && BlocksInside(a, b, plan)
    requires Entry(LeftOperand(a, b, plan), RightOperand(a, b, plan), sA, sB, i, j)
    ensures var (c, d) := (a.(cells := sA), b.(cells := sB));
            var (x, y) := (LeftOperand(a, b, plan), RightOperand(a, b, plan));
            && plan.Fits(c, d) && i < Left(c, d, plan).shape[0] && j < Right(c, d, plan).shape[1]
            && Computed(c, d, plan, i, j) == TakenSum(x, y, sA, sB, i, j)
            && Exact(c, d, plan, i, j) == ElementSum(x, y, sA, sB, i, j)
  {
    hide IsPermutation, MatrixOf, SideOperand, Raw, Gather, Proper, R.Operand.Inside, R.Operand.Distinct, SumProd,
      ReadSide, AsMat, R.Taken, R.Elements;
    OtherContents(a, b, plan, sA, sB);
    SameSizes(a, b, plan, sA, sB);
    OperandsFit(a, b, plan);
    var (left, right) := (Left(a, b, plan), Right(a, b, plan));
    OperandReads(a, plan.freeA, plan.sumA, Raw(left, right, left), sA);
    OperandReads(b, plan.sumB, plan.freeB, Raw(left, right, right), sB);
  }

  lemma AlikeIfDirect(a: Tensor, b: Tensor, plan: Plan)
    requires plan.Fits(a, b) && Proper(a) && Proper(b) && BlocksInside(a, b, plan) && AlwaysDirectSum(a, b, plan)
    ensures var (x, y) := (LeftOperand(a, b, plan), RightOperand(a, b, plan));
            x.Inside() && y.Inside() && x.cols == y.rows && R.ReadAlike(x, y)
  {
    hide IsPermutation, Proper, R.Operand.Inside, R.Operand.Distinct, SumProd, R.Taken, R.Elements, LeftOperand, RightOperand,
      BlocksInside, Plan.Fits, Left, Right, AlwaysDirectSum, Prod, CIndex, CUnravel, Gather, OrOne, Computed, Exact;
    OperandsFit(a, b, plan);
    var (x, y) := (LeftOperand(a, b, plan), RightOperand(a, b, plan));
    forall sA, sB, i: nat, j: nat | |sA| == x.size && |sB| == y.size && i < x.rows && j < y.cols
      ensures SumProd(R.Taken(x, sA), R.Taken(y, sB), i, j, x.cols)
              == SumProd(R.Elements(x, sA), R.Elements(y, sB), i, j, x.cols)
    {
      Entries(a, b, plan, sA, sB, i, j);
      EntryDirect(a, b, plan, sA, sB, i, j);
    }
  }

  lemma EntryDirect(a: Tensor, b: Tensor, plan: Plan, sA: seq<real>, sB: seq<real>, i: nat, j: nat)
    requires plan.Fits(a, b) && AlwaysDirectSum(a, b, plan) && |sA| == |a.cells| && |sB| == |b.cells|
    requires plan.Fits(a.(cells := sA), b.(cells := sB))
    requires i < Left(a.(cells := sA), b.(cells := sB), plan).shape[0]
             && j < Right(a.(cells := sA), b.(cells := sB), plan).shape[1]
    ensures Computed(a.(cells := sA), b.(cells := sB), plan, i, j)
            == Exact(a.(cells := sA), b.(cells := sB), plan, i, j)
  {
    hide IsPermutation, SumProd, Multiplied, Product, Contract, DirectSum, Prod, CIndex, CUnravel, Gather, OrOne, Raw, PlainSides,
      MatrixOf;
    var (sF, sS) := (Gather(plan.freeA, a.shape), Gather(plan.freeB, b.shape));
    FreePositive(a, b, plan);
    FreeCoord(sF, i);
    FreeCoord(sS, j);
    var (u, v) := (CUnravel(OrOne(sF), i), CUnravel(OrOne(sS), j));
    assert SumsDirectly(a, b, plan, sA, sB, u, v);
    ContractAt(a.(cells := sA), b.(cells := sB), plan, u, v);
    DirectSumAt(a.(cells := sA), b.(cells := sB), plan, u, v);
  }

  /** tensorDot gives the sum over the contracted axes, whatever the two arrays hold, if and
      only if each of its two matrices is copied by the product helper or has packed strides
      on its axes longer than one. For a proper matrix times a single column the helper copies
      neither. */
  lemma TensorDotRightIff(a: Tensor, b: Tensor, plan: Plan)
    requires plan.Fits(a, b) && Proper(a) && Proper(b) && BlocksInside(a, b, plan)
    ensures AlwaysDirectSum(a, b, plan) <==> PlainSides(Left(a, b, plan), Right(a, b, plan))
  {
    hide IsPermutation, Proper, R.Operand.Inside, R.Operand.Distinct, R.ReadAlike, R.Strided, LeftOperand, RightOperand,
      BlocksInside, Plan.Fits, Left, Right, AlwaysDirectSum, PackedSide, Raw;
    if PlainSides(Left(a, b, plan), Right(a, b, plan)) {
      RightIfPlain(a, b, plan);
    }
    if AlwaysDirectSum(a, b, plan) {
      AlikeIfDirect(a, b, plan);
      LeftIsPacked(a, b, plan);
      RightIsPacked(a, b, plan);
    }
  }

  lemma LeftIsPacked(a: Tensor, b: Tensor, plan: Plan)
    requires plan.Fits(a, b) && Proper(a) && Proper(b) && BlocksInside(a, b, plan)
    requires var (x, y) := (LeftOperand(a, b, plan), RightOperand(a, b, plan));
             x.Inside() && y.Inside() && x.cols == y.rows && R.ReadAlike(x, y)
    ensures var (left, right) := (Left(a, b, plan), Right(a, b, plan)); Raw(left, right, left) ==> PackedSide(left)
  {
    hide IsPermutation, Proper, R.Operand.Inside, R.Operand.Distinct, R.ReadAlike, R.Strided, SideOperand, MatrixOf,
      BlocksInside, Raw, StaysInPlace, R.ReadInPlace;
    var (left, right) := (Left(a, b, plan), Right(a, b, plan));
    OperandsFit(a, b, plan);
    if Raw(left, right, left) {
      if StaysInPlace(a, plan.freeA, plan.sumA) {
        OperandStrides(a, plan.freeA, plan.sumA, true);
        R.LeftForced(LeftOperand(a, b, plan), RightOperand(a, b, plan), left.strides[0], left.strides[1], RowStep(left), ColStep(left));
      } else {
        CopiedPacked(a, plan.freeA, plan.sumA);
      }
    }
  }

  lemma RightIsPacked(a: Tensor, b: Tensor, plan: Plan)
    requires plan.Fits(a, b) && Proper(a) && Proper(b) && BlocksInside(a, b, plan)
    requires var (x, y) := (LeftOperand(a, b, plan), RightOperand(a, b, plan));
             x.Inside() && y.Inside() && x.cols == y.rows && R.ReadAlike(x, y)
    ensures var (left, right) := (Left(a, b, plan), Right(a, b, plan)); Raw(left, right, right) ==> PackedSide(right)
  {
    hide IsPermutation, Proper, R.Operand.Inside, R.Operand.Distinct, R.ReadAlike, R.Strided, SideOperand, MatrixOf,
      BlocksInside, Raw, StaysInPlace, R.ReadInPlace;
    var (left, right) := (Left(a, b, plan), Right(a, b, plan));
    OperandsFit(a, b, plan);
    if Raw(left, right, right) {
      if StaysInPlace(b, plan.sumB, plan.freeB) {
        OperandStrides(b, plan.sumB, plan.freeB, true);
        R.RightForced(LeftOperand(a, b, plan), RightOperand(a, b, plan), right.strides[0], right.strides[1], RowStep(right), ColStep(right));
      } else {
        CopiedPacked(b, plan.sumB, plan.freeB);
      }
    }
  }

  /** The matrix of an operand that has to be reshaped, both groups having several elements: a
      view with the steps of the two groups if each is a run, and else a packed copy. */
  lemma MatrixStrides(t: Tensor, first: seq<int>, second: seq<int>)
    requires Grouped(t, first, second) && Rows(t, first) >= 2 && Rows(t, second) >= 2
    requires Gather(first, t.shape) + Gather(second, t.shape) != [Rows(t, first), Rows(t, second)]
    ensures StaysInPlace(t, first, second)
            <==> Run(Gather(first, t.shape), Gather(first, t.strides))
                 && Run(Gather(second, t.shape), Gather(second, t.strides))
    ensures var m := MatrixOf(t, first, second);
            && m.order == 'c'
            && (StaysInPlace(t, first, second) ==>
                  m.strides == [Step(Gather(first, t.shape), Gather(first, t.strides)), Step(Gather(second, t.shape), Gather(second, t.strides))])
  {
    hide IsPermutation, Prod, NoCopy, Gather, OrderOf, Run, Step;
    var (sF, sS, tF, tS) := (Gather(first, t.shape), Gather(second, t.shape), Gather(first, t.strides), Gather(second, t.strides));
    GroupSizes(t, first, second);
    PermutedStrides(t, first, second);
    MatrixView(sF, tF, sS, tS, Permuted(t, first + second).ews);
  }

  lemma PermutedStrides(t: Tensor, first: seq<int>, second: seq<int>)
    requires Grouped(t, first, second)
    ensures Permuted(t, first + second).strides == Gather(first, t.strides) + Gather(second, t.strides)
  {
    GatherConcat(first, second, t.strides);
    if IsIdentity(first + second) {
      assert Gather(first + second, t.strides) == t.strides;
    }
  }

  /** With several free and several contracted elements in A and a single free one in B, and
      A's axes to be reshaped, A is read right if and only if one group is no run - it is
      copied then - or the two steps are those of packed rows. */
  lemma ColumnReadIff(a: Tensor, b: Tensor, plan: Plan)
    requires plan.Fits(a, b) && Rows(a, plan.freeA) >= 2 && Rows(a, plan.sumA) >= 2 && Rows(b, plan.freeB) == 1
    requires Gather(plan.freeA, a.shape) + Gather(plan.sumA, a.shape) != [Rows(a, plan.freeA), Rows(a, plan.sumA)]
    ensures VectorStep(Left(a, b, plan), Right(a, b, plan))
    ensures PackedSide(Left(a, b, plan)) <==>
            var (sF, sS, tF, tS) := (Gather(plan.freeA, a.shape), Gather(plan.sumA, a.shape), Gather(plan.freeA, a.strides), Gather(plan.sumA, a.strides));
            Run(sF, tF) && Run(sS, tS) ==> Step(sF, tF) == Prod(sS) && Step(sS, tS) == 1
  {
    hide IsPermutation, Prod, MatrixOf, StaysInPlace, Gather, Run, Step;
    MatrixStrides(a, plan.freeA, plan.sumA);
    SizesAre(a, plan.freeA, plan.sumA);
    SizesAre(b, plan.sumB, plan.freeB);
    if !StaysInPlace(a, plan.freeA, plan.sumA) {
      CopiedPacked(a, plan.freeA, plan.sumA);
    }
  }

  /** A packed array that is a matrix already has packed strides. */
  lemma OwnPacked(t: Tensor)
    requires Proper(t) && |t.shape| == 2 && t.ews == 1
    ensures PackedSide(t)
  {
    var (m, n) := (t.shape[0], t.shape[1]);
    assert t.shape[1..] == [n] && t.shape[2..] == [] && t.shape[..0] == [] && t.shape[..1] == [m];
    PairStrides(m, n);
    assert Prod([n]) == n && Prod([m]) == m by { OneAxis(n); OneAxis(m); }
    assert t.order == 'c' ==> t.shape[0] == 1 || t.strides[0] == 1 * Prod(t.shape[0 + 1..]);
    assert t.order == 'c' ==> t.shape[1] == 1 || t.strides[1] == 1 * Prod(t.shape[1 + 1..]);
    assert t.order == 'f' ==> t.shape[0] == 1 || t.strides[0] == 1 * Prod(t.shape[..0]);
    assert t.order == 'f' ==> t.shape[1] == 1 || t.strides[1] == 1 * Prod(t.shape[..1]);
  }

  lemma OneAxis(n: int)
    ensures Prod([n]) == n
  {
    assert [n][1..] == [];
  }

  /** Permuting and reshaping a packed array, or one without an element-wise stride, leaves one
      without or a packed one. */
  lemma SideMarked(t: Tensor, first: seq<int>, second: seq<int>)
    requires Grouped(t, first, second) && Proper(t) && (t.ews == 1 || t.ews == -1)
    ensures var m := MatrixOf(t, first, second); m.ews == -1 || PackedSide(m)
  {
    hide IsPermutation, Prod, Gather, OrderOf, NoCopy, PackedSide;
    GroupSizes(t, first, second);
    var p := first + second;
    if !StaysInPlace(t, first, second) {
      CopiedPacked(t, first, second);
    } else if IsIdentity(p) && MatrixOf(t, first, second) == t && t.ews == 1 {
      OwnPacked(t);
    }
  }

  /** For such arrays tensorDot is wrong, if at all, for a proper matrix times a single column:
      with several free elements of B, or a single row or column of A, it always is the sum. */
  lemma OnlyColumnsGoWrong(a: Tensor, b: Tensor, plan: Plan)
    requires plan.Fits(a, b) && Proper(a) && Proper(b) && (a.ews == 1 || a.ews == -1) && (b.ews == 1 || b.ews == -1)
    requires Rows(b, plan.freeB) > 1 || Rows(a, plan.freeA) == 1 || Rows(a, plan.sumA) == 1
    ensures AlwaysDirectSum(a, b, plan)
  {
    hide IsPermutation, Prod, Gather, MatrixOf, Rows, PackedSide, Proper, AlwaysDirectSum;
    SizesAre(a, plan.freeA, plan.sumA);
    SizesAre(b, plan.sumB, plan.freeB);
    SideMarked(a, plan.freeA, plan.sumA);
    SideMarked(b, plan.sumB, plan.freeB);
    RightIfPlain(a, b, plan);
  }

  /** A matrix contracted on its first axis is transposed, not reshaped; taken raw it is read
      right exactly if its columns or its rows are packed. */
  lemma TransposedReadIff(t: Tensor)
    requires t.Valid() && |t.shape| == 2 && t.shape[0] >= 2 && t.shape[1] >= 2 && Grouped(t, [1], [0])
    ensures var m := MatrixOf(t, [1], [0]);
            && m.shape == [t.shape[1], t.shape[0]] && m.strides == [t.strides[1], t.strides[0]] && m.ews == -1
            && (PackedSide(m) <==> (t.strides[1] == 1 && t.strides[0] == t.shape[1]) || (t.strides[1] == t.shape[0] && t.strides[0] == 1))
  {
    var (r, c) := (t.shape[0], t.shape[1]);
    var (shape, strides) := ([c, r], [t.strides[1], t.strides[0]]);
    assert [1] + [0] == [1, 0] && [1, 0][0] == 1;
    assert Gather([1, 0], t.shape) == shape && Gather([1, 0], t.strides) == strides;
    assert Gather([1], t.shape) == [c] && Gather([0], t.shape) == [r];
    OneAxis(c);
    OneAxis(r);
    PairStrides(c, r);
    assert FStrides(shape, 1) == [1, c] by {
      assert shape[1..] == [r] && [r][1..] == [];
      assert FStrides([r], c) == [c] + FStrides([], c * r);
    }
  }

  // ---------------------------------------------------------------- the code

  /** permute if necessary, and reshape unless the sizes are right already. */
  method MakeSide(t: Tensor, p: seq<int>, rows: int, cols: int) returns (side: Tensor)
    requires t.Valid() && |p| == |t.shape| && Inside(p, |p|) && rows >= 1 && cols >= 1
    ensures side == Side(t, p, rows, cols)
  {
    hide OrderOf, Gather, Reshape;
    side := t;
    var necessary := IsPermutNecessary(p);
    if necessary {
      var order := GetOrder(Gather(p, t.shape), Gather(p, t.strides));
      side := t.(shape := Gather(p, t.shape), strides := Gather(p, t.strides), order := order, ews := -1);
      PermutedPositive(t, p);
    }
    if side.shape != [rows, cols] {
      side := Reshapei(side, [rows, cols]);
    }
  }

  lemma PermutedPositive(t: Tensor, p: seq<int>)
    requires t.Valid() && |p| == |t.shape| && Inside(p, |p|)
    ensures Positive(Gather(p, t.shape))
  {
  }

  method IsPermutNecessary(p: seq<int>) returns (r: bool)
    ensures r <==> !IsIdentity(p)
  {
    for d := 0 to |p|
      invariant forall e :: 0 <= e < d ==> p[e] == e
    {
      if p[d] != d {
        return true;
      }
    }
    return false;
  }

  /** A matrix whose cells lie in its buffer, apart from each other. */
  ghost predicate SideOk(x: Tensor) {
    && IsPair(x)
    && (forall i, k :: 0 <= i < x.shape[0] && 0 <= k < x.shape[1] ==> 0 <= x.Cell([i, k]) < |x.cells|)
    && (forall i, k, i', k' | 0 <= i < x.shape[0] && 0 <= k < x.shape[1] && 0 <= i' < x.shape[0]
          && 0 <= k' < x.shape[1] ::
          x.Cell([i, k]) == x.Cell([i', k']) ==> i == i' && k == k')
    && (x.ews == 1 ==> PackedSide(x))
  }

  lemma SideIsOk(t: Tensor, first: seq<int>, second: seq<int>)
    requires Proper(t) && Grouped(t, first, second)
    ensures SideOk(MatrixOf(t, first, second))
  {
    hide IsPermutation, Spot, MatrixOf, Tensor.Cell, Rows, StaysInPlace, PackedSide;
    var x := MatrixOf(t, first, second);
    SizesAre(t, first, second);
    if StaysInPlace(t, first, second) {
      forall i, k | 0 <= i < x.shape[0] && 0 <= k < x.shape[1] ensures 0 <= x.Cell([i, k]) < |x.cells| {
        SpotAt(t, first, second, i, k);
      }
      forall i, k, i', k' |
        0 <= i < x.shape[0] && 0 <= k < x.shape[1] && 0 <= i' < x.shape[0] && 0 <= k' < x.shape[1]
        && x.Cell([i, k]) == x.Cell([i', k'])
        ensures i == i' && k == k'
      {
        SpotAt(t, first, second, i, k);
        SpotAt(t, first, second, i', k');
        SpotOnce(t, first, second, i, k, i', k');
      }
      UnitPacked(t, first, second);
    } else {
      CopiedPacked(t, first, second);
      CopiedOk(x);
    }
  }

  lemma CopiedOk(x: Tensor)
    requires IsPair(x) && x.order == 'c' && x.offset == 0 && |x.cells| == x.shape[0] * x.shape[1]
             && x.strides == CStrides(x.shape)
    ensures forall i, k :: 0 <= i < x.shape[0] && 0 <= k < x.shape[1] ==> 0 <= x.Cell([i, k]) < |x.cells|
    ensures forall i, k, i', k' | 0 <= i < x.shape[0] && 0 <= k < x.shape[1] && 0 <= i' < x.shape[0]
            && 0 <= k' < x.shape[1] ::
              x.Cell([i, k]) == x.Cell([i', k']) ==> i == i' && k == k'
  {
    hide Tensor.Cell;
    var (m, n) := (x.shape[0], x.shape[1]);
    assert x.shape == [m, n];
    PairStrides(m, n);
    forall i, k | 0 <= i < m && 0 <= k < n ensures x.Cell([i, k]) == i * n + k && 0 <= i * n + k < m * n {
      PairCell(x, i, k);
      BlockInside2(i, m, n, k);
    }
    forall i, k, i', k' | 0 <= i < m && 0 <= k < n && 0 <= i' < m && 0 <= k' < n && x.Cell([i, k]) == x.Cell([i', k'])
      ensures i == i' && k == k'
    {
      DivModUnique(i * n + k, n, i, k);
      DivModUnique(i' * n + k', n, i', k');
    }
  }

  /** Only an operand that is neither permuted nor reshaped keeps an element-wise stride. */
  lemma UnitPacked(t: Tensor, first: seq<int>, second: seq<int>)
    requires Proper(t) && Grouped(t, first, second) && StaysInPlace(t, first, second)
    ensures MatrixOf(t, first, second).ews == 1 ==> PackedSide(MatrixOf(t, first, second))
  {
    hide IsPermutation, NoCopy, Gather, OrderOf, Prod, PackedSide;
    GroupSizes(t, first, second);
    if MatrixOf(t, first, second).ews == 1 {
      assert MatrixOf(t, first, second) == t;
      OwnPacked(t);
    }
  }

  /** The operand as the product helper sees it; only whether its order is 'f' matters. */
  method AsMatrix(x: Tensor) returns (m: Matrix)
    requires SideOk(x)
    ensures fresh(m) && fresh(m.buffer) && m.Valid() && m.buffer[..] == x.cells
    ensures m.rows == x.shape[0] && m.cols == x.shape[1] && m.offset == x.offset && m.ews == x.ews
    ensures m.rowStride == x.strides[0] && m.colStride == x.strides[1]
            && m.order == if x.order == 'f' then 'f' else 'c'
  {
    hide Tensor.Cell, PackedSide, Matrix.Valid;
    PairCell(x, 0, 0);
    var buffer := new real[|x.cells|](i requires 0 <= i < |x.cells| => x.cells[i]);
    m := new Matrix.View(buffer, x.offset, x.shape[0], x.shape[1], x.strides[0], x.strides[1],
                         if x.order == 'f' then 'f' else 'c', x.ews);
    ViewValid(x, m);
  }

  lemma ViewValid(x: Tensor, m: Matrix)
    requires SideOk(x) && m.buffer.Length == |x.cells|
    requires m.rows == x.shape[0] && m.cols == x.shape[1] && m.offset == x.offset && m.ews == x.ews
    requires m.rowStride == x.strides[0] && m.colStride == x.strides[1]
             && m.order == if x.order == 'f' then 'f' else 'c'
    ensures m.Valid()
  {
    hide Tensor.Cell, PackedSide, Matrix.Cell, Place;
    forall i: nat, j: nat | i < m.rows && j < m.cols ensures m.Cell(i, j) == x.Cell([i, j]) {
      SameCell(x, m, i, j);
    }
    if x.ews == 1 {
      forall i: nat, j: nat | i < m.rows && j < m.cols
        ensures m.Cell(i, j) == m.offset + Place(m.order == 'c', m.rows, m.cols, i, j)
      {
        PackedCell(x, m, i, j);
      }
      LastPlace(m.order == 'c', m.rows, m.cols);
      assert 0 <= m.Cell(m.rows - 1, m.cols - 1) < m.buffer.Length;
    }
  }

  lemma SameCell(x: Tensor, m: Matrix, i: nat, j: nat)
    requires IsPair(x) && m.offset == x.offset && m.rowStride == x.strides[0] && m.colStride == x.strides[1]
    ensures m.Cell(i, j) == x.Cell([i, j])
  {
    hide Tensor.Cell;
    PairCell(x, i, j);
  }

  lemma PackedCell(x: Tensor, m: Matrix, i: nat, j: nat)
    requires IsPair(x) && PackedSide(x) && m.rows == x.shape[0] && m.cols == x.shape[1] && i < m.rows && j < m.cols
    requires m.rowStride == x.strides[0] && m.colStride == x.strides[1]
             && m.order == if x.order == 'f' then 'f' else 'c'
    ensures m.Cell(i, j) == m.offset + Place(m.order == 'c', m.rows, m.cols, i, j)
  {
  }

  lemma LastPlace(trans: bool, rows: nat, cols: nat)
    requires rows > 0 && cols > 0
    ensures Place(trans, rows, cols, rows - 1, cols - 1) == rows * cols - 1
  {
  }

  /** The product step of tensorDot gives the product of the sides as they are read. */
  method ContractSides(left: Tensor, right: Tensor) returns (c: Matrix)
    requires SideOk(left) && SideOk(right) && left.shape[1] == right.shape[0]
    requires Raw(left, right, left) ==> BlockInside(left)
    requires Raw(left, right, right) ==> BlockInside(right)
    ensures c.Valid() && c.order == 'f' && c.ews == 1 && c.rows == left.shape[0] && c.cols == right.shape[1]
    ensures c.Rows() == Multiplied(left, right)
  {
    hide SumProd, Matrix.Inside, Matrix.Distinct, Matrix.Packed, Matrix.Cell, ReadSide, ReadAs, SideOk, Choose, Multiplied,
      Matrix.Rows;
    SideSizes(left);
    SideSizes(right);
    var A := AsMatrix(left);
    var B := AsMatrix(right);
    ChoiceOfFitting(A, B);
    SameReading(left, A, TakenRaw(A, B, A));
    SameReading(right, B, TakenRaw(A, B, B));
    c := MmulHelper(A, B, 1.0, 0.0);
    SameProduct(left, right, c.Rows());
  }

  lemma SideSizes(x: Tensor)
    requires SideOk(x)
    ensures IsPair(x) && x.shape[0] >= 1 && x.shape[1] >= 1
  {
  }

  lemma SameReading(x: Tensor, m: Matrix, raw: bool)
    requires SideOk(x) && m.Valid() && m.buffer[..] == x.cells && (raw ==> BlockInside(x))
    requires m.rows == x.shape[0] && m.cols == x.shape[1] && m.offset == x.offset
    requires m.rowStride == x.strides[0] && m.colStride == x.strides[1]
             && m.order == if x.order == 'f' then 'f' else 'c'
    ensures raw ==> m.offset + m.rows * m.cols <= m.buffer.Length
    ensures ReadAs(m, raw, m.buffer[..]) == ReadSide(x, raw)
  {
    hide Tensor.Cell, Matrix.Cell, Matrix.Distinct, Matrix.Packed, ReadAs, ReadSide;
    forall i: nat, k: nat | i < m.rows && k < m.cols
      ensures ReadAs(m, raw, m.buffer[..])[i][k] == ReadSide(x, raw)[i][k]
    {
      ElementAs(m, raw, m.buffer[..], i, k);
      SameElement(x, m, raw, i, k);
    }
    SameMat(ReadAs(m, raw, m.buffer[..]), ReadSide(x, raw), m.rows, m.cols);
  }

  lemma SameElement(x: Tensor, m: Matrix, raw: bool, i: nat, k: nat)
    requires SideOk(x) && m.buffer.Length == |x.cells| && (raw ==> BlockInside(x)) && i < m.rows && k < m.cols
    requires m.rows == x.shape[0] && m.cols == x.shape[1] && m.offset == x.offset
    requires m.rowStride == x.strides[0] && m.colStride == x.strides[1]
             && m.order == if x.order == 'f' then 'f' else 'c'
    ensures 0 <= CellAs(m, raw, i, k) < |x.cells| && ReadSide(x, raw)[i][k] == x.cells[CellAs(m, raw, i, k)]
  {
    hide Tensor.Cell, Matrix.Cell;
    SameCell(x, m, i, k);
    StepInside(m.rows, m.cols, i, k);
  }

  lemma SameProduct(left: Tensor, right: Tensor, m: Mat)
    requires IsPair(left) && IsPair(right) && left.shape[1] == right.shape[0]
             && IsMat(m, left.shape[0], right.shape[1])
    requires forall i: nat, j: nat :: i < left.shape[0] && j < right.shape[1] ==>
               m[i][j] == 1.0 * SumProd(ReadSide(left, Raw(left, right, left)), ReadSide(right, Raw(left, right, right)), i, j, left.shape[1])
    ensures m == Multiplied(left, right)
  {
    hide SumProd, ReadSide, Raw;
    SameMat(m, Multiplied(left, right), left.shape[0], right.shape[1]);
  }

  /** The helper's result as an array. */
  method AsTensor(c: Matrix) returns (t: Tensor)
    requires c.Valid() && c.order == 'f' && c.ews == 1
    ensures t == ColumnMajor(c.Rows(), c.rows, c.cols)
  {
    t := Tensor(c.buffer[c.offset..c.offset + c.rows * c.cols], 0, [c.rows, c.cols], [1, c.rows], 'f', 1);
    ghost var want := ColumnMajor(c.Rows(), c.rows, c.cols);
    forall k | 0 <= k < c.rows * c.cols ensures t.cells[k] == want.cells[k] {
      PlaceBack(c.rows, c.cols, k);
    }
  }

  /** The product of the sides in the shape of the result. */
  method ReshapeProduct(left: Tensor, right: Tensor, outShape: seq<int>) returns (c: Tensor)
    requires SideOk(left) && SideOk(right) && left.shape[1] == right.shape[0] && Positive(outShape)
    requires Raw(left, right, left) ==> BlockInside(left)
    requires Raw(left, right, right) ==> BlockInside(right)
    ensures c == Reshape(ProductOf(left, right), outShape)
  {
    hide Reshape, Multiplied, ColumnMajor, SideOk, Raw, Matrix.Valid, Matrix.Rows;
    SideSizes(left);
    SideSizes(right);
    var product := ContractSides(left, right);
    var t := AsTensor(product);
    assert t == ProductOf(left, right);
    c := Reshapei(t, outShape);
  }

  /** tensorDot along the given axes. None if they do not match. */
  method ContractAlong(a: Tensor, b: Tensor, axesA: seq<int>, axesB: seq<int>) returns (c: Option<Tensor>)
    requires Proper(a) && Proper(b) && AxesFit(a.shape, axesA) && AxesFit(b.shape, axesB)
    requires var plan := PlanFor(a.shape, b.shape, axesA, axesB); plan.Fits(a, b) ==> BlocksInside(a, b, plan)
    ensures c.Some? <==> Matching(a.shape, b.shape, axesA, axesB)
    ensures c.Some? ==> HasShape(c.value, a, b, axesA, axesB)
    ensures c.Some? && ReadPlainly(a, b, axesA, axesB) ==> HasSums(c.value, a, b, axesA, axesB)
    ensures c.Some? ==> var plan := PlanFor(a.shape, b.shape, axesA, axesB);
                        plan.Fits(a, b) && c.value == Contract(a, b, plan)
  {
    hide Proper, IsPermutation, Gather, PlanFor, Side, ProductOf, Reshape, Matching, OrOne, Left, Right, SideOk, Raw;
    hide AxesFit, PlanOf, HasShape, HasSums, ReadPlainly;
    var r := EvalShapeForTensorDot(a.shape, b.shape, axesA, axesB);
    if r.None? {
      return None;
    }
    ProperIsValid(a);
    ProperIsValid(b);
    PlanFits(a, b, axesA, axesB);
    var (plan, outShape) := r.value;
    SidesFit(a, b, plan);
    var n2 := Length(Gather(plan.sumA, a.shape));
    var rowsA := Length(Gather(plan.freeA, a.shape));
    var colsB := Length(Gather(plan.freeB, b.shape));
    var left := MakeSide(a, plan.freeA + plan.sumA, rowsA, n2);
    var right := MakeSide(b, plan.sumB + plan.freeB, n2, colsB);
    assert outShape == ResultShape(a, b, plan);
    var result := ReshapeProduct(left, right, outShape);
    MatchingNormal(a.shape, b.shape, axesA, axesB);
    ContractLaw(a, b, axesA, axesB, plan);
    return Some(result);
  }

  lemma ProperIsValid(t: Tensor)
    requires Proper(t)
    ensures t.Valid()
  {
  }

  lemma SidesFit(a: Tensor, b: Tensor, plan: Plan)
    requires plan.Fits(a, b) && Proper(a) && Proper(b)
    ensures SideOk(Left(a, b, plan)) && SideOk(Right(a, b, plan))
    ensures |plan.freeA + plan.sumA| == |a.shape| && Inside(plan.freeA + plan.sumA, |a.shape|)
    ensures |plan.sumB + plan.freeB| == |b.shape| && Inside(plan.sumB + plan.freeB, |b.shape|)
    ensures var (m, k, n) := (Prod(Gather(plan.freeA, a.shape)), Prod(Gather(plan.sumA, a.shape)), Prod(Gather(plan.freeB, b.shape)));
            && m >= 1 && k >= 1 && n >= 1
            && Left(a, b, plan) == Side(a, plan.freeA + plan.sumA, m, k)
               && Right(a, b, plan) == Side(b, plan.sumB + plan.freeB, k, n)
  {
    hide IsPermutation, Side, SideOk, Proper, Gather;
    SideIsOk(a, plan.freeA, plan.sumA);
    SideIsOk(b, plan.sumB, plan.freeB);
    GroupSizes(a, plan.freeA, plan.sumA);
    GroupSizes(b, plan.sumB, plan.freeB);
  }

  // ---------------------------------------------------------------- said of the axes alone

  /** A side without free axes gives the result one axis of size 1. */
  ghost predicate SideSizesAre(r: seq<int>, shape: seq<int>, axes: seq<int>) {
    exists s :: Remaining(s, shape, axes) && r == if s == [] then [1] else s
  }

  ghost function Factor(a: Tensor, b: Tensor, axesA: seq<int>, axesB: seq<int>, u: seq<int>, v: seq<int>)
    : seq<int> -> real
    requires a.Valid() && b.Valid() && |axesA| == |axesB|
    requires |u| >= FreeBelow(axesA, |a.shape|, |a.shape|) && |v| >= FreeBelow(axesB, |b.shape|, |b.shape|)
  {
    k => if |k| == |axesA| then a.At(Mixed(axesA, |a.shape|, u, k)) * b.At(Mixed(axesB, |b.shape|, v, k)) else 0.0
  }

  /** The sum, over all coordinates `k` of the contracted axes, of the element of A with `k` at
      these and `u` at the others, times that of B with `k` and `v`. */
  ghost function SumOver(a: Tensor, b: Tensor, axesA: seq<int>, axesB: seq<int>, u: seq<int>, v: seq<int>): real
    requires a.Valid() && b.Valid() && |axesA| == |axesB| && AxesFit(a.shape, axesA)
    requires |u| >= FreeBelow(axesA, |a.shape|, |a.shape|) && |v| >= FreeBelow(axesB, |b.shape|, |b.shape|)
  {
    SumBox(Factor(a, b, axesA, axesB, u, v), [], seq(|axesA|, i requires 0 <= i < |axesA| => SizeAt(a.shape, axesA[i])))
  }

  /** The shape is the sizes of A's remaining axes, ascending, and then those of B. */
  ghost predicate HasShape(c: Tensor, a: Tensor, b: Tensor, axesA: seq<int>, axesB: seq<int>) {
    exists sA, sB :: SideSizesAre(sA, a.shape, axesA) && SideSizesAre(sB, b.shape, axesB) && c.shape == sA + sB
  }

  /** Every element is the sum over the contracted axes. */
  ghost predicate HasSums(c: Tensor, a: Tensor, b: Tensor, axesA: seq<int>, axesB: seq<int>)
    requires a.Valid() && b.Valid() && |axesA| == |axesB| && AxesFit(a.shape, axesA)
  {
    forall sA, sB, u, v |
      SideSizesAre(sA, a.shape, axesA) && SideSizesAre(sB, b.shape, axesB) && InBox(sA, u) && InBox(sB, v) ::
      IsSumAt(c, a, b, axesA, axesB, u, v)
  }

  ghost predicate IsSumAt(c: Tensor, a: Tensor, b: Tensor, axesA: seq<int>, axesB: seq<int>, u: seq<int>, v: seq<int>)
    requires a.Valid() && b.Valid() && |axesA| == |axesB| && AxesFit(a.shape, axesA)
  {
    && |u| >= FreeBelow(axesA, |a.shape|, |a.shape|) && |v| >= FreeBelow(axesB, |b.shape|, |b.shape|)
    && |c.strides| == |u + v| && c.At(u + v) == SumOver(a, b, axesA, axesB, u, v)
  }

  /** No side is read raw with other than packed strides. */
  ghost predicate ReadPlainly(a: Tensor, b: Tensor, axesA: seq<int>, axesB: seq<int>) {
    forall plan: Plan :: PlanOf(plan, a.shape, b.shape, axesA, axesB) && plan.Fits(a, b) ==>
      PlainSides(Left(a, b, plan), Right(a, b, plan))
  }

  lemma RemainingIs(shape: seq<int>, axes: seq<int>, free: seq<int>, s: seq<int>)
    requires Remaining(free, seq(|shape|, i => i), axes) && Inside(free, |shape|)
    ensures Remaining(s, shape, axes) <==> s == Gather(free, shape)
  {
    hide Named, FreeBelow;
    forall d: nat | d < |free| ensures exists x: nat ::
      x < |shape| && !Named(axes, |shape|, x) && FreeBelow(axes, |shape|, x) == d && free[d] == x
    {
      var x := NthFree(axes, |shape|, |shape|, d);
      assert seq(|shape|, i => i)[x] == x;
    }
    forall x | 0 <= x < |shape| && !Named(axes, |shape|, x)
      ensures FreeBelow(axes, |shape|, x) < |free| && free[FreeBelow(axes, |shape|, x)] == x
    {
      assert seq(|shape|, i => i)[x] == x;
    }
    if Remaining(s, shape, axes) {
      forall d: nat | d < |free| ensures s[d] == shape[free[d]] {
      }
    }
  }

  lemma SideSizesIs(shape: seq<int>, axes: seq<int>, free: seq<int>, s: seq<int>)
    requires Remaining(free, seq(|shape|, i => i), axes) && Inside(free, |shape|)
    ensures SideSizesAre(s, shape, axes) <==> s == OrOne(Gather(free, shape))
  {
    hide Remaining, Gather;
    RemainingIs(shape, axes, free, Gather(free, shape));
    forall r ensures Remaining(r, shape, axes) <==> r == Gather(free, shape) {
      RemainingIs(shape, axes, free, r);
    }
  }

  lemma ScatterParts(first: seq<int>, second: seq<int>, x: seq<int>, y: seq<int>)
    requires IsPermutation(first + second) && |x| == |first| && |y| == |second|
    ensures var r := Scatter(first + second, x + y);
            && (forall d :: 0 <= d < |first| ==> 0 <= first[d] < |r| && r[first[d]] == x[d])
            && (forall d :: 0 <= d < |second| ==> 0 <= second[d] < |r| && r[second[d]] == y[d])
  {
    hide Scatter;
    var (p, c) := (first + second, x + y);
    GatherScatter(p, c);
    var r := Scatter(p, c);
    forall d | 0 <= d < |first| ensures 0 <= first[d] < |r| && r[first[d]] == x[d] {
      assert p[d] == first[d] && Gather(p, r)[d] == c[d];
    }
    forall d | 0 <= d < |second| ensures 0 <= second[d] < |r| && r[second[d]] == y[d] {
      assert p[|first| + d] == second[d] && Gather(p, r)[|first| + d] == c[|first| + d];
    }
  }

  /** A coordinate with `k` at the named axes and `u` at the others is the mixed one. */
  lemma MixedIs(rank: nat, axes: seq<int>, free: seq<int>, sum: seq<int>, u: seq<int>, k: seq<int>, r: seq<int>)
    requires Remaining(free, seq(rank, i => i), axes) && |u| >= |free| && |sum| == |axes| == |k| && |r| == rank
    requires forall i :: 0 <= i < |axes| ==> Names(axes[i], rank, sum[i])
    requires forall d :: 0 <= d < |free| ==> 0 <= free[d] < |r| && r[free[d]] == u[d]
    requires forall i :: 0 <= i < |sum| ==> 0 <= sum[i] < |r| && r[sum[i]] == k[i]
    ensures |u| >= FreeBelow(axes, rank, rank) && Mixed(axes, rank, u, k) == r
  {
    hide FreeBelow;
    forall x | 0 <= x < rank ensures Mixed(axes, rank, u, k)[x] == r[x] {
      assert seq(rank, i => i)[x] == x;
      if Named(axes, rank, x) {
        var i :| 0 <= i < |axes| && Names(axes[i], rank, x) && Mixed(axes, rank, u, k)[x] == k[i];
        assert sum[i] == x;
      } else {
        FreeBelowGrows(axes, rank, x, rank);
        assert Mixed(axes, rank, u, k)[x] == u[FreeBelow(axes, rank, x)];
      }
    }
  }

  /** The elements of A and B that are multiplied. */
  lemma FactorIs(a: Tensor, b: Tensor, axesA: seq<int>, axesB: seq<int>, plan: Plan, u: seq<int>, v: seq<int>,
      k: seq<int>)
    requires plan.Fits(a, b) && PlanOf(plan, a.shape, b.shape, axesA, axesB) && |axesA| == |axesB|
    requires |u| >= |plan.freeA| && |v| >= |plan.freeB|
    ensures |u| >= FreeBelow(axesA, |a.shape|, |a.shape|) && |v| >= FreeBelow(axesB, |b.shape|, |b.shape|)
    ensures Factor(a, b, axesA, axesB, u, v)(k) == Pair(a, b, plan, u[..|plan.freeA|], v[..|plan.freeB|])(k)
  {
    hide IsPermutation, Scatter, Remaining, Mixed, FreeBelow, Tensor.At, Names, Factor, Pair;
    RemainingRank(plan.freeA, seq(|a.shape|, i => i), axesA);
    RemainingRank(plan.freeB, seq(|b.shape|, i => i), axesB);
    FactorAt(a, b, axesA, axesB, u, v, k);
    TermAt(a, b, plan, u[..|plan.freeA|], v[..|plan.freeB|], k);
    if |k| == |axesA| {
      MixesLeft(|a.shape|, axesA, plan.freeA, plan.sumA, u, k);
      MixesRight(|b.shape|, axesB, plan.freeB, plan.sumB, v, k);
    }
  }

  lemma FactorAt(a: Tensor, b: Tensor, axesA: seq<int>, axesB: seq<int>, u: seq<int>, v: seq<int>, k: seq<int>)
    requires a.Valid() && b.Valid() && |axesA| == |axesB|
    requires |u| >= FreeBelow(axesA, |a.shape|, |a.shape|) && |v| >= FreeBelow(axesB, |b.shape|, |b.shape|)
    ensures Factor(a, b, axesA, axesB, u, v)(k)
            == if |k| == |axesA| then a.At(Mixed(axesA, |a.shape|, u, k)) * b.At(Mixed(axesB, |b.shape|, v, k)) else 0.0
  {
    hide Mixed, FreeBelow, Tensor.At;
  }

  lemma TermAt(a: Tensor, b: Tensor, plan: Plan, x: seq<int>, y: seq<int>, k: seq<int>)
    requires plan.Fits(a, b) && |x| == |plan.freeA| && |y| == |plan.freeB|
    ensures Pair(a, b, plan, x, y)(k)
            == if |k| == |plan.sumA| then
                 a.At(Scatter(plan.freeA + plan.sumA, x + k)) * b.At(Scatter(plan.sumB + plan.freeB, k + y))
               else 0.0
  {
    hide Scatter, Tensor.At;
  }

  lemma MixesLeft(rank: nat, axes: seq<int>, free: seq<int>, sum: seq<int>, u: seq<int>, k: seq<int>)
    requires Remaining(free, seq(rank, i => i), axes) && |u| >= |free| && |sum| == |axes| == |k|
    requires forall i :: 0 <= i < |axes| ==> Names(axes[i], rank, sum[i])
    requires IsPermutation(free + sum) && |free + sum| == rank
    ensures |u| >= FreeBelow(axes, rank, rank) && Mixed(axes, rank, u, k) == Scatter(free + sum, u[..|free|] + k)
  {
    hide Scatter, Remaining, Mixed, FreeBelow, Names;
    ScatterParts(free, sum, u[..|free|], k);
    MixedIs(rank, axes, free, sum, u, k, Scatter(free + sum, u[..|free|] + k));
  }

  lemma MixesRight(rank: nat, axes: seq<int>, free: seq<int>, sum: seq<int>, v: seq<int>, k: seq<int>)
    requires Remaining(free, seq(rank, i => i), axes) && |v| >= |free| && |sum| == |axes| == |k|
    requires forall i :: 0 <= i < |axes| ==> Names(axes[i], rank, sum[i])
    requires IsPermutation(sum + free) && |sum + free| == rank
    ensures |v| >= FreeBelow(axes, rank, rank) && Mixed(axes, rank, v, k) == Scatter(sum + free, k + v[..|free|])
  {
    hide Scatter, Remaining, Mixed, FreeBelow, Names;
    ScatterParts(sum, free, k, v[..|free|]);
    MixedIs(rank, axes, free, sum, v, k, Scatter(sum + free, k + v[..|free|]));
  }

  lemma RemainingRank(r: seq<int>, s: seq<int>, axes: seq<int>)
    requires Remaining(r, s, axes)
    ensures |r| == FreeBelow(axes, |s|, |s|)
  {
  }

  lemma {:induction false} SumBoxSame(f: seq<int> -> real, g: seq<int> -> real, prefix: seq<int>, shape: seq<int>)
    requires forall k :: f(k) == g(k)
    ensures SumBox(f, prefix, shape) == SumBox(g, prefix, shape)
    decreases |shape|, 0, 0
  {
    if shape != [] {
      SumAxisSame(f, g, prefix, shape, if shape[0] < 0 then 0 else shape[0]);
    }
  }

  lemma {:induction false} SumAxisSame(f: seq<int> -> real, g: seq<int> -> real, prefix: seq<int>, shape: seq<int>,
      n: nat)
    requires shape != [] && forall k :: f(k) == g(k)
    ensures SumAxis(f, prefix, shape, n) == SumAxis(g, prefix, shape, n)
    decreases |shape| - 1, 1, n
  {
    if n > 0 {
      SumAxisSame(f, g, prefix, shape, n - 1);
      SumBoxSame(f, g, prefix + [n - 1], shape[1..]);
    }
  }

  /** The sum over the axes a plan names is the direct sum. */
  lemma SumOverIs(a: Tensor, b: Tensor, axesA: seq<int>, axesB: seq<int>, plan: Plan, u: seq<int>, v: seq<int>)
    requires plan.Fits(a, b) && PlanOf(plan, a.shape, b.shape, axesA, axesB) && |axesA| == |axesB|
             && AxesFit(a.shape, axesA)
    requires InBox(OrOne(Gather(plan.freeA, a.shape)), u) && InBox(OrOne(Gather(plan.freeB, b.shape)), v)
    ensures |u| >= FreeBelow(axesA, |a.shape|, |a.shape|) && |v| >= FreeBelow(axesB, |b.shape|, |b.shape|)
    ensures SumOver(a, b, axesA, axesB, u, v) == DirectSum(a, b, plan, u, v)
  {
    hide Prod, IsPermutation, SumBox, FreeBelow, Named, InBox, Factor, Pair, PlanOf, SizeAt, Normal;
    BoxRank(OrOne(Gather(plan.freeA, a.shape)), u);
    BoxRank(OrOne(Gather(plan.freeB, b.shape)), v);
    var (x, y) := (FreePart(Gather(plan.freeA, a.shape), u), FreePart(Gather(plan.freeB, b.shape), v));
    assert x == u[..|plan.freeA|] && y == v[..|plan.freeB|];
    forall k
      ensures |u| >= FreeBelow(axesA, |a.shape|, |a.shape|) && |v| >= FreeBelow(axesB, |b.shape|, |b.shape|)
      ensures Factor(a, b, axesA, axesB, u, v)(k) == Pair(a, b, plan, x, y)(k)
    {
      FactorIs(a, b, axesA, axesB, plan, u, v, k);
    }
    FactorIs(a, b, axesA, axesB, plan, u, v, []);
    PlanSizes(a, b, axesA, axesB, plan);
    SumBoxSame(Factor(a, b, axesA, axesB, u, v), Pair(a, b, plan, x, y), [], Gather(plan.sumA, a.shape));
  }

  lemma PlanSizes(a: Tensor, b: Tensor, axesA: seq<int>, axesB: seq<int>, plan: Plan)
    requires plan.Fits(a, b) && PlanOf(plan, a.shape, b.shape, axesA, axesB) && AxesFit(a.shape, axesA)
    ensures seq(|axesA|, i requires 0 <= i < |axesA| => SizeAt(a.shape, axesA[i])) == Gather(plan.sumA, a.shape)
  {
    hide IsPermutation, Remaining;
    NamesNormal(a.shape, axesA);
  }

  lemma BoxRank(shape: seq<int>, c: seq<int>)
    requires InBox(shape, c)
    ensures |c| == |shape|
  {
  }

  /** The plan is the only one. */
  lemma PlanUnique(a: seq<int>, b: seq<int>, axesA: seq<int>, axesB: seq<int>, p: Plan, q: Plan)
    requires PlanOf(p, a, b, axesA, axesB) && PlanOf(q, a, b, axesA, axesB)
    ensures p == q
  {
    hide Named, FreeBelow;
    SameRemaining(seq(|a|, i => i), axesA, p.freeA, q.freeA);
    SameRemaining(seq(|b|, i => i), axesB, p.freeB, q.freeB);
  }

  lemma SameRemaining(s: seq<int>, axes: seq<int>, p: seq<int>, q: seq<int>)
    requires Remaining(p, s, axes) && Remaining(q, s, axes)
    ensures p == q
  {
    hide Named, FreeBelow;
    forall d: nat | d < |p| ensures p[d] == q[d] {
      var x := NthFree(axes, |s|, |s|, d);
    }
  }

  /** The condition under which tensorDot sums over the axes is also needed for that, for all
      contents of the two buffers. */
  lemma ReadPlainlyIff(a: Tensor, b: Tensor, axesA: seq<int>, axesB: seq<int>, plan: Plan)
    requires plan.Fits(a, b) && Proper(a) && Proper(b) && BlocksInside(a, b, plan)
    requires PlanOf(plan, a.shape, b.shape, axesA, axesB)
    ensures AlwaysDirectSum(a, b, plan) <==> ReadPlainly(a, b, axesA, axesB)
  {
    hide Plan.Fits, Proper, BlocksInside, AlwaysDirectSum, PlanOf, PlainSides, Left, Right;
    TensorDotRightIff(a, b, plan);
    forall p: Plan | PlanOf(p, a.shape, b.shape, axesA, axesB) ensures p == plan {
      PlanUnique(a.shape, b.shape, axesA, axesB, p, plan);
    }
  }

  /** What tensorDot promises, without the plan. */
  lemma ContractLaw(a: Tensor, b: Tensor, axesA: seq<int>, axesB: seq<int>, plan: Plan)
    requires plan.Fits(a, b) && PlanOf(plan, a.shape, b.shape, axesA, axesB) && |axesA| == |axesB|
             && AxesFit(a.shape, axesA)
    ensures HasShape(Contract(a, b, plan), a, b, axesA, axesB)
    ensures ReadPlainly(a, b, axesA, axesB) ==> HasSums(Contract(a, b, plan), a, b, axesA, axesB)
  {
    hide Prod, IsPermutation, FreeBelow, Named, Tensor.At, InBox, Remaining, Contract, SumOver, DirectSum, SideSizesAre,
      PlainSides, Left, Right, OrOne, Gather;
    var (sA, sB) := (OrOne(Gather(plan.freeA, a.shape)), OrOne(Gather(plan.freeB, b.shape)));
    forall s ensures SideSizesAre(s, a.shape, axesA) <==> s == sA {
      SideSizesIs(a.shape, axesA, plan.freeA, s);
    }
    forall s ensures SideSizesAre(s, b.shape, axesB) <==> s == sB {
      SideSizesIs(b.shape, axesB, plan.freeB, s);
    }
    ContractShape(a, b, plan);
    if ReadPlainly(a, b, axesA, axesB) {
      forall u, v | InBox(sA, u) && InBox(sB, v) ensures IsSumAt(Contract(a, b, plan), a, b, axesA, axesB, u, v) {
        SumOverIs(a, b, axesA, axesB, plan, u, v);
        TensorDotIsDirectSum(a, b, plan, u, v);
      }
    }
  }

  lemma ContractShape(a: Tensor, b: Tensor, plan: Plan)
    requires plan.Fits(a, b)
    ensures Contract(a, b, plan).shape == OrOne(Gather(plan.freeA, a.shape)) + OrOne(Gather(plan.freeB, b.shape))
  {
    hide Prod, IsPermutation, ColumnMajor, Multiplied, Gather, OrOne, Left, Right;
  }

  // ---------------------------------------------------------------- an input that goes wrong

  /** The numbers 0 to 7 as a packed row-major 2 x 2 x 2 array, and the vector 0, 1. */
  function Cube(): Tensor {
    Tensor([0.0, 1.0, 2.0, 3.0, 4.0, 5.0, 6.0, 7.0], 0, [2, 2, 2], [4, 2, 1], 'c', 1)
  }

  function Pick(): Tensor { Tensor([0.0, 1.0], 0, [2], [1], 'c', 1) }

  lemma PackedProper(t: Tensor)
    requires Positive(t.shape) && t.strides == CStrides(t.shape) && t.offset == 0 && |t.cells| == Prod(t.shape)
    requires t.order == 'c' && t.ews == 1
    ensures Proper(t)
  {
    hide Prod, CStrides, CIndex, CUnravel, Dot;
    forall c | InBox(t.shape, c) ensures t.Cell(c) == CIndex(t.shape, c) && 0 <= CIndex(t.shape, c) < Prod(t.shape) {
      CStridesDot(t.shape, c);
      CIndexRange(t.shape, c);
    }
    forall c, d | InBox(t.shape, c) && InBox(t.shape, d) && t.Cell(c) == t.Cell(d) ensures c == d {
      CUnravelIndex(t.shape, c);
      CUnravelIndex(t.shape, d);
    }
    forall d | 0 <= d < |t.shape| ensures t.strides[d] == 1 * Prod(t.shape[d + 1..]) {
      CStrideAt(t.shape, d);
    }
  }

  /** The plan for axis 0 of both. */
  function CubePlan(): Plan { Plan([1, 2], [0], [0], []) }

  lemma CubePlanned()
    ensures PlanFor([2, 2, 2], [2], [0], [0]) == CubePlan()
  {
    assert Others([0], 1) == [] && Others([0], 2) == [1] && Others([0], 3) == [1, 2];
    assert NormalAxes([0], 3) == [0] && NormalAxes([0], 1) == [0];
  }

  lemma CubeProper()
    ensures Proper(Cube()) && Proper(Pick()) && CubePlan().Fits(Cube(), Pick())
    ensures Matching([2, 2, 2], [2], [0], [0]) && AxesFit([2, 2, 2], [0]) && AxesFit([2], [0])
  {
    hide Proper, Plan.Fits;
    assert [2, 2, 2][1..] == [2, 2] && [2, 2][1..] == [2] && [2][1..] == [];
    assert Prod([2]) == 2 * Prod([]) && Prod([2, 2]) == 2 * Prod([2]) && Prod([2, 2, 2]) == 2 * Prod([2, 2]);
    assert CStrides([2]) == [1] && CStrides([2, 2]) == [2, 1] && CStrides([2, 2, 2]) == [4, 2, 1];
    PackedProper(Cube());
    PackedProper(Pick());
    ProperIsValid(Cube());
    ProperIsValid(Pick());
    PlanFits(Cube(), Pick(), [0], [0]);
    CubePlanned();
  }

  /** A with axis 0 last is a 4 x 2 matrix without a copy, its rows 1 and its columns 4 apart. */
  lemma CubeLeft()
    requires CubePlan().Fits(Cube(), Pick())
    ensures Left(Cube(), Pick(), CubePlan()) == Tensor(Cube().cells, 0, [4, 2], [1, 4], 'c', -1)
  {
    hide IsPermutation, NoCopy, OrderOf;
    assert Gather([1, 2], [2, 2, 2]) == [2, 2] && Gather([0], [2, 2, 2]) == [2];
    assert [1, 2] + [0] == [1, 2, 0] && [1, 2, 0][0] == 1;
    assert Gather([1, 2, 0], [2, 2, 2]) == [2, 2, 2] && Gather([1, 2, 0], [4, 2, 1]) == [2, 1, 4];
    assert Prod([2]) == 2 && Prod([2, 2]) == 4 by { SmallProducts(); }
    assert [2, 2, 2] != [4, 2];
    CubeView();
  }

  lemma SmallProducts()
    ensures Prod([1]) == 1 && Prod([2]) == 2 && Prod([4]) == 4 && Prod([2, 2]) == 4 && Prod([4, 2]) == 8
            && Prod([2, 2, 2]) == 8
    ensures Prod([2, 1]) == 2
  {
    NoProduct();
    assert [1] == [1] + [] && [2] == [2] + [] && [4] == [4] + [] && [2, 2] == [2] + [2] && [4, 2] == [4] + [2];
    assert [2, 2, 2] == [2] + [2, 2] && [2, 1] == [2] + [1];
    ProdFirst(1, []);
    ProdFirst(2, []);
    ProdFirst(4, []);
    ProdFirst(2, [2]);
    ProdFirst(4, [2]);
    ProdFirst(2, [2, 2]);
    ProdFirst(2, [1]);
  }

  lemma CubeView()
    ensures NoCopy([2, 2, 2], [2, 1, 4], -1, [4, 2]) == Some([1, 4])
  {
    hide Prod, ViewStrides;
    SmallProducts();
    var (d, s) := ([2, 2, 2], [2, 1, 4]);
    assert d[1..] == [2, 2] && d[1..][1..] == [2] && [2][1..] == [] && s[1..] == [1, 4] && [1, 4][1..] == [4]
        && [4][1..] == [];
    assert LongShape([2]) == [2] && LongShape([2, 2]) == [2, 2] && LongShape(d) == d;
    assert LongStrides([2], [4]) == [4] && LongStrides([2, 2], [1, 4]) == [1, 4] && LongStrides(d, s) == s;
    CubeGroups();
  }

  lemma CubeGroups()
    ensures Prod([2, 2, 2]) == Prod([4, 2])
    ensures ViewStrides([2, 2, 2], [2, 1, 4], [4, 2], -1) == Some([1, 4])
  {
    hide Prod, Spaced;
    SmallProducts();
    var (d, s, w) := ([2, 2, 2], [2, 1, 4], [4, 2]);
    assert d[..1] == [2] && d[..2] == [2, 2] && d[2..] == [2] && w[..1] == [4] && w[1..] == [2];
    assert s[..2] == [2, 1] && s[2..] == [4];
    assert Match(d, w, 1, 1) == Match(d, w, 2, 1) == (2, 1);
    assert [2][..1] == [2] && [4][..1] == [4] && [2][1..] == [] && [4][1..] == [];
    assert Match([2], [2], 1, 1) == (1, 1);
    OneLast(2, 4);
    OneLast(4, 1);
    var none := ViewStrides([], [], [], 4);
    assert none.Some? && none.value == [];
    var rest := ViewStrides([2], [4], [2], 1);
    assert rest == Some([4] + none.value) && [4] + [] == [4];
    assert Chain([2, 2], [2, 1]);
    assert ViewStrides(d, s, w, -1) == Some([1] + rest.value);
    assert [1] + [4] == [1, 4];
  }

  lemma PickRight()
    requires CubePlan().Fits(Cube(), Pick())
    ensures Right(Cube(), Pick(), CubePlan()) == Tensor(Pick().cells, 0, [2, 1], [1, 1], 'c', -1)
  {
    hide IsPermutation, NoCopy, OrderOf;
    assert Gather([0], [2]) == [2] && Gather([], [2]) == [];
    assert [0] + [] == [0] && IsIdentity([0]);
    assert Prod([2]) == 2 by { SmallProducts(); }
    NoProduct();
    PickView();
  }

  lemma PickView()
    ensures NoCopy([2], [1], 1, [2, 1]) == Some([1, 1])
  {
    hide Prod, Spaced;
    SmallProducts();
    NoProduct();
    assert [2][1..] == [] && [1][1..] == [] && LongShape([2]) == [2] && LongStrides([2], [1]) == [1];
    var w := [2, 1];
    assert w[..1] == [2] && w[1..] == [1] && [2][..1] == [2] && [1][..1] == [1];
    assert Match([2], w, 1, 1) == (1, 1);
    OneLast(2, 1);
    var rest := ViewStrides([], [], [1], 1);
    assert rest.Some? && rest.value == [1];
    assert ViewStrides([2], [1], w, 1) == Some([1] + rest.value);
    assert [1] + [1] == [1, 1];
  }

  /** Contracting axis 0 with the vector picks the second half, 4 to 7. What comes out begins
      with 1. */
  method CubeMiscontracted() returns (c: Tensor)
    ensures Proper(Cube()) && Proper(Pick()) && CubePlan().Fits(Cube(), Pick())
    ensures c.shape == [2, 2, 1] && |c.strides| == 3 && c.At([0, 0, 0]) == 1.0
    ensures InBox(OrOne(Gather([1, 2], [2, 2, 2])), [0, 0]) && InBox(OrOne(Gather([], [2])), [0])
    ensures DirectSum(Cube(), Pick(), CubePlan(), [0, 0], [0]) == 4.0
  {
    hide Proper, Plan.Fits, Left, Right, Contract, DirectSum, Multiplied, Product, PlanFor, Matching, AxesFit, Raw;
    CubeProper();
    CubePlanned();
    CubeLeft();
    PickRight();
    CubeBlocks();
    var r := ContractAlong(Cube(), Pick(), [0], [0]);
    c := r.value;
    CubeShapes();
    ContractAt(Cube(), Pick(), CubePlan(), [0, 0], [0]);
    DirectSumAt(Cube(), Pick(), CubePlan(), [0, 0], [0]);
    assert [0, 0] + [0] == [0, 0, 0] && [2, 2] + [1] == [2, 2, 1];
    CubeEntries();
  }

  lemma CubeBlocks()
    requires CubePlan().Fits(Cube(), Pick())
    requires Left(Cube(), Pick(), CubePlan()) == Tensor(Cube().cells, 0, [4, 2], [1, 4], 'c', -1)
    requires Right(Cube(), Pick(), CubePlan()) == Tensor(Pick().cells, 0, [2, 1], [1, 1], 'c', -1)
    ensures BlocksInside(Cube(), Pick(), CubePlan())
  {
    hide Plan.Fits, Left, Right;
  }

  lemma CubeShapes()
    ensures OrOne(Gather([1, 2], [2, 2, 2])) == [2, 2] && OrOne(Gather([], [2])) == [1]
    ensures CIndex([2, 2], [0, 0]) == 0 && CIndex([1], [0]) == 0
  {
    assert Gather([1, 2], [2, 2, 2]) == [2, 2] && Gather([], [2]) == [];
    assert Zeros(0) == [] && Zeros(1) == [0] && Zeros(2) == [0, 0];
    ZeroCoord([2, 2], [2, 2], [0, 0]);
    ZeroCoord([1], [1], [0]);
  }

  lemma CubeEntries()
    ensures var (left, right) := (Tensor(Cube().cells, 0, [4, 2], [1, 4], 'c', -1), Tensor(Pick().cells, 0, [2, 1], [1, 1], 'c', -1));
            Multiplied(left, right)[0][0] == 1.0 && Product(left, right)[0][0] == 4.0
  {
    hide SumProd, Tensor.Cell;
    var (left, right) := (Tensor(Cube().cells, 0, [4, 2], [1, 4], 'c', -1), Tensor(Pick().cells, 0, [2, 1], [1, 1], 'c', -1));
    PairCell(left, 0, 0);
    PairCell(left, 0, 1);
    PairCell(right, 0, 0);
    PairCell(right, 1, 0);
    TwoTermSum(ReadSide(left, true), ReadSide(right, true));
    TwoTermSum(AsMat(left), AsMat(right));
  }

  lemma TwoTermSum(a: Mat, b: Mat)
    requires |a| > 0 && |a[0]| >= 2 && |b| >= 2 && |b[0]| > 0 && |b[1]| > 0
    requires forall q :: 0 <= q < |b| ==> |b[q]| > 0
    ensures SumProd(a, b, 0, 0, 2) == a[0][0] * b[0][0] + a[0][1] * b[1][0]
  {
    assert SumProd(a, b, 0, 0, 0) == 0.0;
    assert SumProd(a, b, 0, 0, 1) == SumProd(a, b, 0, 0, 0) + a[0][0] * b[0][0];
    assert SumProd(a, b, 0, 0, 2) == SumProd(a, b, 0, 0, 1) + a[0][1] * b[1][0];
  }
}
