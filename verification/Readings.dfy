/** Products of two matrices of which a routine reads other cells than those of their elements:
    when that makes no difference, whatever the buffers hold. */
module Readings {
  import opened Gemm
  import opened ProductLayout

  type Cells = (nat, nat) -> int

  /** A matrix in a buffer of `size` cells: where its elements lie and where they are read. */
  datatype Operand = Operand(rows: nat, cols: nat, size: nat, lies: Cells, read: Cells) {
    ghost predicate Inside() {
      forall i: nat, k: nat :: i < rows && k < cols ==> 0 <= lies(i, k) < size && 0 <= read(i, k) < size
    }

    ghost predicate Distinct() {
      forall i: nat, k: nat, i': nat, k': nat ::
        i < rows && k < cols && i' < rows && k' < cols && lies(i, k) == lies(i', k') ==> i == i' && k == k'
    }
  }

  ghost function Elements(x: Operand, s: seq<real>): (m: Mat)
    requires x.Inside() && |s| == x.size
    ensures IsMat(m, x.rows, x.cols)
  {
    seq(x.rows, i requires 0 <= i < x.rows => seq(x.cols, k requires 0 <= k < x.cols => s[x.lies(i, k)]))
  }

  ghost function Taken(x: Operand, s: seq<real>): (m: Mat)
    requires x.Inside() && |s| == x.size
    ensures IsMat(m, x.rows, x.cols)
  {
    seq(x.rows, i requires 0 <= i < x.rows => seq(x.cols, k requires 0 <= k < x.cols => s[x.read(i, k)]))
  }

  /** The product of what is read is the product of the elements. */
  ghost predicate ReadAlike(a: Operand, b: Operand)
    requires a.Inside() && b.Inside() && a.cols == b.rows
  {
    forall sA, sB, i: nat, j: nat | |sA| == a.size && |sB| == b.size && i < a.rows && j < b.cols ::
      SumProd(Taken(a, sA), Taken(b, sB), i, j, a.cols) == SumProd(Elements(a, sA), Elements(b, sB), i, j, a.cols)
  }

  lemma At(x: Operand, s: seq<real>, i: nat, k: nat)
    requires x.Inside() && |s| == x.size && i < x.rows && k < x.cols
    ensures 0 <= x.lies(i, k) < |s| && Elements(x, s)[i][k] == s[x.lies(i, k)]
    ensures 0 <= x.read(i, k) < |s| && Taken(x, s)[i][k] == s[x.read(i, k)]
  {
  }

  /** Then each term is read somewhere in the same sum. */
  lemma TermRead(a: Operand, b: Operand, i: nat, j: nat, k: nat) returns (k': nat)
    requires a.Inside() && b.Inside() && a.Distinct() && b.Distinct() && a.cols == b.rows && ReadAlike(a, b)
    requires i < a.rows && j < b.cols && k < a.cols
    ensures k' < a.cols && a.read(i, k') == a.lies(i, k) && b.read(k', j) == b.lies(k, j)
  {
    hide SumProd, Operand.Inside, Operand.Distinct, Elements, Taken;
    At(a, Nulls(a.size), i, k);
    At(b, Nulls(b.size), k, j);
    var (sA, sB) := (OneAt(a.size, a.lies(i, k)), OneAt(b.size, b.lies(k, j)));
    forall q: nat | q < a.cols
      ensures Elements(a, sA)[i][q] * Elements(b, sB)[q][j] == if q == k then 1.0 else 0.0
      ensures Taken(a, sA)[i][q] * Taken(b, sB)[q][j] ==
              if a.read(i, q) == a.lies(i, k) && b.read(q, j) == b.lies(k, j) then 1.0 else 0.0
    {
      TermAt(a, b, sA, sB, i, j, k, q);
    }
    SumOne(Elements(a, sA), Elements(b, sB), i, j, a.cols, k);
    if forall q: nat :: q < a.cols ==> a.read(i, q) != a.lies(i, k) || b.read(q, j) != b.lies(k, j) {
      SumOne(Taken(a, sA), Taken(b, sB), i, j, a.cols, a.cols);
    }
    k' :| k' < a.cols && a.read(i, k') == a.lies(i, k) && b.read(k', j) == b.lies(k, j);
  }

  lemma TermAt(a: Operand, b: Operand, sA: seq<real>, sB: seq<real>, i: nat, j: nat, k: nat, q: nat)
    requires a.Inside() && b.Inside() && a.Distinct() && a.cols == b.rows
    requires i < a.rows && j < b.cols && k < a.cols && q < a.cols
    requires sA == OneAt(a.size, a.lies(i, k)) && sB == OneAt(b.size, b.lies(k, j))
    ensures Elements(a, sA)[i][q] * Elements(b, sB)[q][j] == if q == k then 1.0 else 0.0
    ensures Taken(a, sA)[i][q] * Taken(b, sB)[q][j] ==
            if a.read(i, q) == a.lies(i, k) && b.read(q, j) == b.lies(k, j) then 1.0 else 0.0
  {
    hide Operand.Inside, Elements, Taken;
    assert a.lies(i, q) == a.lies(i, k) ==> q == k;
    At(a, sA, i, q);
    At(b, sB, q, j);
  }

  /** The elements lie `rs` and `cs` apart and are read `ru` and `cu` apart, from one start. */
  ghost predicate Strided(x: Operand, rs: int, cs: int, ru: int, cu: int) {
    forall i: nat, k: nat :: i < x.rows && k < x.cols ==>
      x.lies(i, k) == x.lies(0, 0) + i * rs + k * cs && x.read(i, k) == x.lies(0, 0) + i * ru + k * cu
  }

  /** The distances of packed rows and columns in one of the two orders. */
  predicate PackedUnits(rows: nat, cols: nat, ru: int, cu: int) {
    (ru == cols && cu == 1) || (ru == 1 && cu == rows)
  }

  lemma StridesDiffer(x: Operand, rs: int, cs: int, ru: int, cu: int)
    requires x.Distinct() && Strided(x, rs, cs, ru, cu) && x.rows > 0 && x.cols > 0
    ensures (x.rows >= 2 ==> rs != 0) && (x.cols >= 2 ==> cs != 0)
  {
    if x.rows >= 2 {
      assert x.lies(1, 0) == x.lies(0, 0) + 1 * rs + 0 * cs;
    }
    if x.cols >= 2 {
      assert x.lies(0, 1) == x.lies(0, 0) + 0 * rs + 1 * cs;
    }
  }

  lemma StridedAt(x: Operand, rs: int, cs: int, ru: int, cu: int, i: nat, k: nat, k': nat)
    requires Strided(x, rs, cs, ru, cu) && i < x.rows && k < x.cols && k' < x.cols && x.read(i, k') == x.lies(i, k)
    ensures i * rs + k * cs == i * ru + k' * cu
  {
  }

  /** A left operand read as packed has packed strides. */
  lemma LeftForced(a: Operand, b: Operand, rs: int, cs: int, ru: int, cu: int)
    requires a.Inside() && b.Inside() && a.Distinct() && b.Distinct() && a.cols == b.rows && ReadAlike(a, b)
    requires a.rows > 0 && a.cols > 0 && b.cols > 0 && Strided(a, rs, cs, ru, cu) && PackedUnits(a.rows, a.cols, ru, cu)
    ensures (a.rows >= 2 ==> rs == ru) && (a.cols >= 2 ==> cs == cu)
  {
    hide Operand.Inside, ReadAlike, Strided;
    StridesDiffer(a, rs, cs, ru, cu);
    if a.cols >= 2 {
      var k1 := TermRead(a, b, 0, 0, 1);
      StridedAt(a, rs, cs, ru, cu, 0, 1, k1);
      var k2 := TermRead(a, b, 0, 0, a.cols - 1);
      StridedAt(a, rs, cs, ru, cu, 0, a.cols - 1, k2);
      InnerForced(a.cols, cs, cu, k1, k2);
    }
    if a.rows >= 2 {
      var k0 := TermRead(a, b, 1, 0, 0);
      StridedAt(a, rs, cs, ru, cu, 1, 0, k0);
      var k1 := TermRead(a, b, 1, 0, a.cols - 1);
      StridedAt(a, rs, cs, ru, cu, 1, a.cols - 1, k1);
      StartForced(rs, ru, a.cols, cs, cu, k0, k1);
    }
  }

  lemma StridedAtB(x: Operand, rs: int, cs: int, ru: int, cu: int, k: nat, k': nat, j: nat)
    requires Strided(x, rs, cs, ru, cu) && k < x.rows && k' < x.rows && j < x.cols && x.read(k', j) == x.lies(k, j)
    ensures k * rs + j * cs == k' * ru + j * cu
  {
  }

  /** So does a right one. */
  lemma RightForced(a: Operand, b: Operand, rs: int, cs: int, ru: int, cu: int)
    requires a.Inside() && b.Inside() && a.Distinct() && b.Distinct() && a.cols == b.rows && ReadAlike(a, b)
    requires a.rows > 0 && a.cols > 0 && b.cols > 0 && Strided(b, rs, cs, ru, cu) && PackedUnits(b.rows, b.cols, ru, cu)
    ensures (b.rows >= 2 ==> rs == ru) && (b.cols >= 2 ==> cs == cu)
  {
    hide Operand.Inside, ReadAlike, Strided;
    StridesDiffer(b, rs, cs, ru, cu);
    if b.rows >= 2 {
      var k1 := TermRead(a, b, 0, 0, 1);
      StridedAtB(b, rs, cs, ru, cu, 1, k1, 0);
      var k2 := TermRead(a, b, 0, 0, a.cols - 1);
      StridedAtB(b, rs, cs, ru, cu, a.cols - 1, k2, 0);
      InnerForced(b.rows, rs, ru, k1, k2);
    }
    if b.cols >= 2 {
      var k0 := TermRead(a, b, 0, 1, 0);
      StridedAtB(b, rs, cs, ru, cu, 0, k0, 1);
      var k1 := TermRead(a, b, 0, 1, a.cols - 1);
      StridedAtB(b, rs, cs, ru, cu, a.cols - 1, k1, 1);
      StartForced(cs, cu, b.rows, rs, ru, k0, k1);
    }
  }

  ghost predicate ReadInPlace(x: Operand) {
    forall i: nat, k: nat :: i < x.rows && k < x.cols ==> x.read(i, k) == x.lies(i, k)
  }

  lemma AlikeInPlace(a: Operand, b: Operand)
    requires a.Inside() && b.Inside() && a.cols == b.rows && ReadInPlace(a) && ReadInPlace(b)
    ensures ReadAlike(a, b)
  {
    hide SumProd;
    forall sA: seq<real>, sB: seq<real> | |sA| == a.size && |sB| == b.size
      ensures Taken(a, sA) == Elements(a, sA) && Taken(b, sB) == Elements(b, sB)
    {
      SameMat(Taken(a, sA), Elements(a, sA), a.rows, a.cols);
      SameMat(Taken(b, sB), Elements(b, sB), b.rows, b.cols);
    }
  }

  /** Packed strides mean reading in place. */
  lemma PackedInPlace(x: Operand, rs: int, cs: int, ru: int, cu: int)
    requires Strided(x, rs, cs, ru, cu) && (x.rows >= 2 ==> rs == ru) && (x.cols >= 2 ==> cs == cu)
    ensures ReadInPlace(x)
  {
  }
}
