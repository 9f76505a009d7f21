/** The parts of a tensor contraction: permuting and reshaping the operands to matrices, and
    the matrix product as a sum over the contracted axes. */
module TensorDot {
  import opened Axes
  import opened Shapes
  import opened Gemm
  import opened Reshaping
  import opened Sequences
  import opened Wrappers
  import RawIteration

  /** A strided array; cells outside the buffer read as zero, so that `At` is total. */
  datatype Tensor = Tensor(cells: seq<real>, offset: int, shape: seq<int>, strides: seq<int>, order: char, ews: int) {
    ghost predicate Valid() { |strides| == |shape| && Positive(shape) }

    function Cell(c: seq<int>): int
      requires |c| == |strides|
    {
      offset + Dot(c, strides)
    }

    function Read(at: int): real { if 0 <= at < |cells| then cells[at] else 0.0 }

    function At(c: seq<int>): real
      requires |c| == |strides|
    {
      Read(Cell(c))
    }
  }

  // ---------------------------------------------------------------- permuting axes

  /** Every axis once. */
  ghost predicate IsPermutation(p: seq<int>) {
    && Inside(p, |p|)
    && (forall d, e :: 0 <= d < e < |p| ==> p[d] != p[e])
    && (forall x :: 0 <= x < |p| ==> x in p)
  }

  /** The coordinate whose entries, read in the order `p`, are `c`. */
  function Scatter(p: seq<int>, c: seq<int>): (r: seq<int>)
    requires |c| == |p| && forall x :: 0 <= x < |p| ==> x in p
    ensures |r| == |p|
  {
    seq(|p|, x requires 0 <= x < |p| => c[Position(p, x)])
  }

  lemma GatherScatter(p: seq<int>, c: seq<int>)
    requires IsPermutation(p) && |c| == |p|
    ensures Gather(p, Scatter(p, c)) == c
  {
    forall d | 0 <= d < |p| ensures Gather(p, Scatter(p, c))[d] == c[d] {
      var e := Position(p, p[d]);
      assert e == d;
    }
  }

  /** The order getOrder finds: 'f' for packed columns, 'a' if rows are packed as well. */
  function OrderOf(shape: seq<int>, strides: seq<int>): char {
    if strides != FStrides(shape, 1) then 'c' else if strides == CStrides(shape) then 'a' else 'f'
  }

  method CContiguous(shape: seq<int>, strides: seq<int>) returns (r: bool)
    requires |strides| == |shape|
    ensures r <==> strides == CStrides(shape)
  {
    hide CStrides, Prod;
    RowPacked(shape, strides);
    var sd := 1;
    var i := |shape| - 1;
    assert shape[|shape|..] == [];
    NoProduct();
    while i >= 0
      invariant -1 <= i < |shape| && sd == Prod(shape[i + 1..])
      invariant forall j :: i < j < |shape| ==> strides[j] == Prod(shape[j + 1..])
    {
      if strides[i] != sd {
        return false;
      }
      SuffixStep(shape, i);
      sd := sd * shape[i];
      i := i - 1;
    }
    return true;
  }

  lemma SuffixStep(shape: seq<int>, i: nat)
    requires i < |shape|
    ensures Prod(shape[i..]) == Prod(shape[i + 1..]) * shape[i]
  {
    assert shape[i..] == [shape[i]] + shape[i + 1..];
    ProdFirst(shape[i], shape[i + 1..]);
  }

  lemma RowPacked(shape: seq<int>, strides: seq<int>)
    requires |strides| == |shape|
    ensures strides == CStrides(shape) <==> forall j :: 0 <= j < |shape| ==> strides[j] == Prod(shape[j + 1..])
  {
    forall j | 0 <= j < |shape| ensures CStrides(shape)[j] == Prod(shape[j + 1..]) {
      CStrideAt(shape, j);
    }
  }

  method FContiguous(shape: seq<int>, strides: seq<int>) returns (r: bool)
    requires |strides| == |shape|
    ensures r <==> strides == FStrides(shape, 1)
  {
    hide FStrides, Prod;
    r := true;
    var sd := 1;
    assert shape[..0] == [];
    NoProduct();
    for i := 0 to |shape|
      invariant sd == Prod(shape[..i])
      invariant r <==> forall j :: 0 <= j < i ==> strides[j] == Prod(shape[..j])
    {
      if strides[i] != sd {
        r := false;
      }
      PrefixNext(shape, i);
      sd := sd * shape[i];
    }
    ColumnPacked(shape, strides);
  }

  method GetOrder(shape: seq<int>, strides: seq<int>) returns (order: char)
    requires |strides| == |shape|
    ensures order == OrderOf(shape, strides)
    ensures order == 'c' <==> exists j :: 0 <= j < |shape| && strides[j] != Prod(shape[..j])
    ensures order == 'a' <==> forall j :: 0 <= j < |shape| ==>
            strides[j] == Prod(shape[..j]) && strides[j] == Prod(shape[j + 1..])
    ensures order == 'c' || order == 'a' || order == 'f'
  {
    ColumnPacked(shape, strides);
    RowPacked(shape, strides);
    var cContiguous := CContiguous(shape, strides);
    var isFortran := FContiguous(shape, strides);
    return if isFortran && cContiguous then 'a' else if isFortran then 'f' else 'c';
  }

  lemma ColumnPacked(shape: seq<int>, strides: seq<int>)
    requires |strides| == |shape|
    ensures strides == FStrides(shape, 1) <==> forall j :: 0 <= j < |shape| ==> strides[j] == Prod(shape[..j])
  {
    forall j | 0 <= j < |shape| ensures FStrides(shape, 1)[j] == Prod(shape[..j]) {
      FStrideAt(shape, 1, j);
    }
  }

  /** NDArray::permute: the same buffer, shape and strides reordered. */
  function Permute(t: Tensor, p: seq<int>): Tensor
    requires |t.shape| == |t.strides| == |p| && Inside(p, |p|)
  {
    var (shape, strides) := (Gather(p, t.shape), Gather(p, t.strides));
    t.(shape := shape, strides := strides, order := OrderOf(shape, strides), ews := -1)
  }

  function SumSeq(s: seq<int>): int {
    if s == [] then 0 else s[0] + SumSeq(s[1..])
  }

  lemma {:induction false} SumSeqSplit(a: seq<int>, b: seq<int>)
    ensures SumSeq(a + b) == SumSeq(a) + SumSeq(b)
  {
    if a == [] {
      assert a + b == b;
    } else {
      assert (a + b)[1..] == a[1..] + b;
      SumSeqSplit(a[1..], b);
    }
  }

  lemma DropFirst(a: seq<int>, b: seq<int>) returns (i: nat)
    requires a != [] && multiset(a) == multiset(b)
    ensures i < |b| && b[i] == a[0] && multiset(a[1..]) == multiset(b[..i] + b[i + 1..])
  {
    assert a == [a[0]] + a[1..];
    assert a[0] in multiset(b);
    i :| 0 <= i < |b| && b[i] == a[0];
    assert b == b[..i] + ([b[i]] + b[i + 1..]);
    assert multiset(a) == multiset{a[0]} + multiset(a[1..]);
    assert multiset(b) == multiset{a[0]} + multiset(b[..i] + b[i + 1..]);
    assert multiset(a[1..]) == multiset(a) - multiset{a[0]} == multiset(b[..i] + b[i + 1..]);
  }

  lemma {:induction false} SumSeqBag(a: seq<int>, b: seq<int>)
    requires multiset(a) == multiset(b)
    ensures SumSeq(a) == SumSeq(b)
  {
    assert |a| == |multiset(a)| == |multiset(b)| == |b|;
    if a != [] {
      var i := DropFirst(a, b);
      SumSeqBag(a[1..], b[..i] + b[i + 1..]);
      SumSeqSplit(b[..i], b[i..]);
      SumSeqSplit(b[..i], b[i + 1..]);
      assert b == b[..i] + b[i..] && b[i..][1..] == b[i + 1..];
    }
  }

  function Terms(c: seq<int>, s: seq<int>): seq<int>
    requires |c| == |s|
  {
    seq(|c|, d requires 0 <= d < |c| => c[d] * s[d])
  }

  lemma {:induction false} DotIsSum(c: seq<int>, s: seq<int>)
    requires |c| == |s|
    ensures Dot(c, s) == SumSeq(Terms(c, s))
  {
    if c != [] {
      DotIsSum(c[1..], s[1..]);
      assert Terms(c, s)[1..] == Terms(c[1..], s[1..]);
    }
  }

  /** A permuted view at the permuted coordinate is the original at the original one. */
  lemma PermuteAt(t: Tensor, p: seq<int>, c: seq<int>)
    requires |t.shape| == |t.strides| == |p| == |c| && IsPermutation(p)
    ensures Permute(t, p).Cell(Gather(p, c)) == t.Cell(c) && Permute(t, p).At(Gather(p, c)) == t.At(c)
  {
    var terms, permuted := Terms(c, t.strides), Terms(Gather(p, c), Gather(p, t.strides));
    DotIsSum(c, t.strides);
    DotIsSum(Gather(p, c), Gather(p, t.strides));
    RawIteration.Rearranged(terms, permuted, p);
    SumSeqBag(terms, permuted);
  }

  // ---------------------------------------------------------------- reshaping

  /** The elements in row-major order, packed. */
  function Packed(t: Tensor, shape: seq<int>): Tensor
    requires t.Valid()
  {
    ProdPositive(t.shape);
    Tensor(seq(Prod(t.shape), k requires 0 <= k < Prod(t.shape) => t.At(CUnravel(t.shape, k))),
           0, shape, CStrides(shape), 'c', 1)
  }

  /** reshapei to row-major order: nothing to do, other strides for the same cells, or a packed
      copy. */
  function Reshape(t: Tensor, shape: seq<int>): Tensor
    requires t.Valid() && Positive(shape)
  {
    if t.order == 'c' && t.shape == shape then t
    else
      var strides := NoCopy(t.shape, t.strides, t.ews, shape);
      if strides.Some? then t.(shape := shape, strides := strides.value, order := 'c', ews := -1) else Packed(t, shape)
  }

  method Reshapei(t: Tensor, shape: seq<int>) returns (r: Tensor)
    requires t.Valid() && Positive(shape)
    ensures r == Reshape(t, shape)
  {
    if t.order == 'c' && t.shape == shape {
      return t;
    }
    var strides := ReshapeCF(t.shape, t.strides, t.ews, shape);
    if strides.Some? {
      return t.(shape := shape, strides := strides.value, order := 'c', ews := -1);
    }
    return Packed(t, shape);
  }

  /** The elements stay in their cells. */
  predicate InPlace(t: Tensor, shape: seq<int>)
    requires t.Valid() && Positive(shape)
  {
    (t.order == 'c' && t.shape == shape) || NoCopy(t.shape, t.strides, t.ews, shape).Some?
  }

  lemma ReshapeRank(t: Tensor, shape: seq<int>)
    requires t.Valid() && Positive(shape)
    ensures Reshape(t, shape).shape == shape && |Reshape(t, shape).strides| == |shape|
  {
    hide NoCopy;
  }

  lemma ReshapeAt(t: Tensor, shape: seq<int>, c: seq<int>)
    requires t.Valid() && Positive(shape) && Prod(shape) == Prod(t.shape) && InBox(shape, c)
    ensures |Reshape(t, shape).strides| == |c|
    ensures Reshape(t, shape).At(c) == t.At(CUnravel(t.shape, CIndex(shape, c)))
    ensures InPlace(t, shape) ==>
              var r := Reshape(t, shape);
              r.cells == t.cells && r.offset == t.offset && r.Cell(c) == t.Cell(CUnravel(t.shape, CIndex(shape, c)))
  {
    hide Prod, CIndex, CUnravel, Dot, NoCopy, CStrides;
    CIndexRange(shape, c);
    if t.order == 'c' && t.shape == shape {
      CUnravelIndex(shape, c);
    } else if NoCopy(t.shape, t.strides, t.ews, shape).Some? {
      ReshapeAddress(t.shape, t.strides, t.ews, shape, c);
    } else {
      CStridesDot(shape, c);
    }
  }

  // ---------------------------------------------------------------- the plan

  /** Free and contracted axes of A, contracted and free axes of B. A is permuted to
      freeA + sumA, B to sumB + freeB. */
  datatype Plan = Plan(freeA: seq<int>, sumA: seq<int>, sumB: seq<int>, freeB: seq<int>) {
    /** Both orders list every axis once and contracted axes pair up in size. */
    ghost predicate Fits(a: Tensor, b: Tensor) {
      && a.Valid() && b.Valid()
      && IsPermutation(freeA + sumA) && |freeA + sumA| == |a.shape|
      && IsPermutation(sumB + freeB) && |sumB + freeB| == |b.shape|
      && Inside(freeA, |a.shape|) && Inside(sumA, |a.shape|)
      && Inside(sumB, |b.shape|) && Inside(freeB, |b.shape|)
      && Gather(sumA, a.shape) == Gather(sumB, b.shape)
    }
  }

  /** The axes below `n` that `axes` does not mention, in ascending order. */
  function Others(axes: seq<int>, n: nat): seq<int> {
    if n == 0 then [] else Others(axes, n - 1) + if n - 1 in axes then [] else [n - 1]
  }

  /** A scalar side contributes one axis of size 1 to the result. */
  function OrOne(shape: seq<int>): seq<int> { if shape == [] then [1] else shape }

  ghost predicate AxesFit(shape: seq<int>, axes: seq<int>) {
    forall i :: 0 <= i < |axes| ==> -|shape| <= axes[i] < |shape|
  }

  function Normal(axis: int, rank: nat): int { if axis < 0 then axis + rank else axis }

  function NormalAxes(axes: seq<int>, rank: nat): (r: seq<int>)
    ensures |r| == |axes|
  {
    seq(|axes|, i requires 0 <= i < |axes| => Normal(axes[i], rank))
  }

  /** As many axes of A as of B, of equal sizes in pairs, and no axis named twice. */
  ghost predicate Matching(a: seq<int>, b: seq<int>, axesA: seq<int>, axesB: seq<int>)
    requires AxesFit(a, axesA) && AxesFit(b, axesB)
  {
    && |axesA| == |axesB|
    && (forall i :: 0 <= i < |axesA| ==> SizeAt(a, axesA[i]) == SizeAt(b, axesB[i]))
    && (forall i, j, x :: 0 <= i < j < |axesA| ==> !(Names(axesA[i], |a|, x) && Names(axesA[j], |a|, x)))
    && (forall i, j, x :: 0 <= i < j < |axesB| ==> !(Names(axesB[i], |b|, x) && Names(axesB[j], |b|, x)))
  }

  lemma NamesNormal(shape: seq<int>, axes: seq<int>)
    requires AxesFit(shape, axes)
    ensures forall i, x :: 0 <= i < |axes| ==> (Names(axes[i], |shape|, x) <==> x == Normal(axes[i], |shape|))
    ensures forall i :: 0 <= i < |axes| ==> SizeAt(shape, axes[i]) == shape[Normal(axes[i], |shape|)]
    ensures forall x :: Named(axes, |shape|, x) <==> x in NormalAxes(axes, |shape|)
  {
    forall x ensures Named(axes, |shape|, x) <==> x in NormalAxes(axes, |shape|) {
      if Named(axes, |shape|, x) {
        var i :| 0 <= i < |axes| && Names(axes[i], |shape|, x);
        assert NormalAxes(axes, |shape|)[i] == x;
      }
      if x in NormalAxes(axes, |shape|) {
        var i :| 0 <= i < |axes| && NormalAxes(axes, |shape|)[i] == x;
        assert Names(axes[i], |shape|, x);
      }
    }
  }

  lemma MatchingNormal(a: seq<int>, b: seq<int>, axesA: seq<int>, axesB: seq<int>)
    requires AxesFit(a, axesA) && AxesFit(b, axesB)
    ensures var (xA, xB) := (NormalAxes(axesA, |a|), NormalAxes(axesB, |b|));
            Matching(a, b, axesA, axesB) <==>
              && |axesA| == |axesB| && (forall i :: 0 <= i < |axesA| ==> a[xA[i]] == b[xB[i]])
              && DistinctAxes(xA, |a|) && DistinctAxes(xB, |b|)
  {
    hide SizeAt, Names;
    NamesNormal(a, axesA);
    NamesNormal(b, axesB);
    var (xA, xB) := (NormalAxes(axesA, |a|), NormalAxes(axesB, |b|));
    if Matching(a, b, axesA, axesB) {
      forall i, j | 0 <= i < j < |axesA| ensures xA[i] != xA[j] {
        assert Names(axesA[i], |a|, xA[i]);
      }
      forall i, j | 0 <= i < j < |axesB| ensures xB[i] != xB[j] {
        assert Names(axesB[i], |b|, xB[i]);
      }
      forall i | 0 <= i < |axesA| ensures a[xA[i]] == b[xB[i]] {
        assert SizeAt(a, axesA[i]) == SizeAt(b, axesB[i]);
      }
    } else if |axesA| == |axesB| && DistinctAxes(xA, |a|) && DistinctAxes(xB, |b|) {
      forall i, j, x | 0 <= i < j < |axesA| ensures !(Names(axesA[i], |a|, x) && Names(axesA[j], |a|, x)) {
        assert xA[i] != xA[j];
      }
      forall i, j, x | 0 <= i < j < |axesB| ensures !(Names(axesB[i], |b|, x) && Names(axesB[j], |b|, x)) {
        assert xB[i] != xB[j];
      }
      var i :| 0 <= i < |axesA| && SizeAt(a, axesA[i]) != SizeAt(b, axesB[i]);
      assert a[xA[i]] != b[xB[i]];
    }
  }

  /** The plan lists the axes in the order in which they are named, and the others ascending. */
  ghost predicate PlanOf(plan: Plan, a: seq<int>, b: seq<int>, axesA: seq<int>, axesB: seq<int>) {
    && |plan.sumA| == |axesA| && (forall i :: 0 <= i < |axesA| ==> Names(axesA[i], |a|, plan.sumA[i]))
    && |plan.sumB| == |axesB| && (forall i :: 0 <= i < |axesB| ==> Names(axesB[i], |b|, plan.sumB[i]))
    && Remaining(plan.freeA, seq(|a|, i => i), axesA) && Remaining(plan.freeB, seq(|b|, i => i), axesB)
  }

  lemma {:induction false} OthersBelow(axes: seq<int>, rank: nat, normal: seq<int>, n: nat)
    requires n <= rank && forall x :: 0 <= x < rank ==> (Named(axes, rank, x) <==> x in normal)
    ensures |Others(normal, n)| == FreeBelow(axes, rank, n)
    ensures forall x :: 0 <= x < n && !Named(axes, rank, x) ==>
              FreeBelow(axes, rank, x) < |Others(normal, n)| && Others(normal, n)[FreeBelow(axes, rank, x)] == x
  {
    hide Named, FreeBelow, Others;
    BelowStep(axes, rank, normal, n);
    if n > 0 {
      OthersBelow(axes, rank, normal, n - 1);
      assert Named(axes, rank, n - 1) <==> n - 1 in normal;
    }
  }

  lemma BelowStep(axes: seq<int>, rank: nat, normal: seq<int>, n: nat)
    ensures n == 0 ==> Others(normal, n) == [] && FreeBelow(axes, rank, n) == 0
    ensures n > 0 ==> FreeBelow(axes, rank, n) == FreeBelow(axes, rank, n - 1) + if Named(axes, rank, n - 1) then 0 else 1
    ensures n > 0 ==> Others(normal, n) == Others(normal, n - 1) + if n - 1 in normal then [] else [n - 1]
  {
  }

  lemma PlanIs(a: seq<int>, b: seq<int>, axesA: seq<int>, axesB: seq<int>)
    requires AxesFit(a, axesA) && AxesFit(b, axesB)
    ensures PlanOf(PlanFor(a, b, axesA, axesB), a, b, axesA, axesB)
  {
    hide Names, Named, FreeBelow, Others;
    NamesNormal(a, axesA);
    NamesNormal(b, axesB);
    OthersBelow(axesA, |a|, NormalAxes(axesA, |a|), |a|);
    OthersBelow(axesB, |b|, NormalAxes(axesB, |b|), |b|);
  }

  /** The plan of evalShapeForTensorDot: contracted axes last in A and first in B. */
  function PlanFor(a: seq<int>, b: seq<int>, axesA: seq<int>, axesB: seq<int>): Plan {
    var (xA, xB) := (NormalAxes(axesA, |a|), NormalAxes(axesB, |b|));
    Plan(Others(xA, |a|), xA, xB, Others(xB, |b|))
  }

  lemma {:induction false} OthersInside(axes: seq<int>, n: nat)
    ensures forall i :: 0 <= i < |Others(axes, n)| ==> 0 <= Others(axes, n)[i] < n && Others(axes, n)[i] !in axes
    ensures forall i, j :: 0 <= i < j < |Others(axes, n)| ==> Others(axes, n)[i] < Others(axes, n)[j]
  {
    if n > 0 {
      OthersInside(axes, n - 1);
    }
  }

  lemma {:induction false} OthersCount(axes: seq<int>, n: nat)
    requires forall i :: 0 <= i < |axes| ==> 0 <= axes[i] < n
    requires forall i, j :: 0 <= i < j < |axes| ==> axes[i] != axes[j]
    ensures |Others(axes, n)| + |axes| == n
  {
    assert |axes| > 0 ==> 0 <= axes[0] < n;
    if n > 0 {
      if n - 1 in axes {
        var i :| 0 <= i < |axes| && axes[i] == n - 1;
        var rest := axes[..i] + axes[i + 1..];
        DropAxis(axes, i, n);
        OthersCount(rest, n - 1);
        SameOthers(axes, rest, n - 1);
      } else {
        OthersCount(axes, n - 1);
      }
    }
  }

  /** The other axes once the greatest is taken out. */
  lemma DropAxis(axes: seq<int>, i: int, n: nat)
    requires forall k :: 0 <= k < |axes| ==> 0 <= axes[k] < n
    requires forall j, k :: 0 <= j < k < |axes| ==> axes[j] != axes[k]
    requires 0 <= i < |axes| && axes[i] == n - 1
    ensures var rest := axes[..i] + axes[i + 1..];
            && (forall k :: 0 <= k < |rest| ==> 0 <= rest[k] < n - 1)
            && (forall j, k :: 0 <= j < k < |rest| ==> rest[j] != rest[k])
            && (forall x :: 0 <= x < n - 1 ==> (x in axes <==> x in rest))
  {
    var rest := axes[..i] + axes[i + 1..];
    assert forall k :: 0 <= k < |rest| ==> rest[k] == if k < i then axes[k] else axes[k + 1];
    forall k | 0 <= k < |rest| ensures 0 <= rest[k] < n - 1 {
      assert rest[k] != axes[i];
    }
    forall x | 0 <= x < n - 1 && x in axes ensures x in rest {
      var k :| 0 <= k < |axes| && axes[k] == x;
      assert rest[if k < i then k else k - 1] == x;
    }
  }

  lemma {:induction false} SameOthers(a: seq<int>, b: seq<int>, n: nat)
    requires forall x :: 0 <= x < n ==> (x in a <==> x in b)
    ensures Others(a, n) == Others(b, n)
  {
    if n > 0 {
      SameOthers(a, b, n - 1);
    }
  }

  // ---------------------------------------------------------------- sums over a box

  /** The sum of `f` over all coordinates that start with `prefix` and run over `shape`, one
      nested loop per axis. */
  ghost function SumBox(f: seq<int> -> real, prefix: seq<int>, shape: seq<int>): real
    decreases |shape|, 0, 0
  {
    if shape == [] then f(prefix) else SumAxis(f, prefix, shape, if shape[0] < 0 then 0 else shape[0])
  }

  ghost function SumAxis(f: seq<int> -> real, prefix: seq<int>, shape: seq<int>, n: nat): real
    requires shape != []
    decreases |shape| - 1, 1, n
  {
    if n == 0 then 0.0 else SumAxis(f, prefix, shape, n - 1) + SumBox(f, prefix + [n - 1], shape[1..])
  }

  /** The same sum in one loop over the row-major index. */
  ghost function SumFlat(f: seq<int> -> real, prefix: seq<int>, shape: seq<int>, n: int): real
    requires Positive(shape)
    decreases n
  {
    if n <= 0 then 0.0 else SumFlat(f, prefix, shape, n - 1) + f(prefix + CUnravel(shape, n - 1))
  }

  /** A whole block of the flat loop is one pass of the outermost nested loop. */
  lemma {:induction false} FlatBlock(f: seq<int> -> real, prefix: seq<int>, shape: seq<int>, j: nat, start: nat,
      n: nat)
    requires Positive(shape) && shape != [] && n <= Prod(shape[1..]) && start == j * Prod(shape[1..])
    ensures SumFlat(f, prefix, shape, start + n)
         == SumFlat(f, prefix, shape, start) + SumFlat(f, prefix + [j], shape[1..], n)
  {
    hide CUnravel, Prod;
    if n > 0 {
      FlatBlock(f, prefix, shape, j, start, n - 1);
      UnravelBlock(shape, j, start, n - 1);
      assert prefix + ([j] + CUnravel(shape[1..], n - 1)) == (prefix + [j]) + CUnravel(shape[1..], n - 1);
    }
  }

  lemma UnravelBlock(shape: seq<int>, j: nat, start: nat, m: nat)
    requires Positive(shape) && shape != [] && m < Prod(shape[1..]) && start == j * Prod(shape[1..])
    ensures CUnravel(shape, start + m) == [j] + CUnravel(shape[1..], m)
  {
    DivModUnique(start + m, Prod(shape[1..]), j, m);
  }

  lemma {:induction false} FlatAxis(f: seq<int> -> real, prefix: seq<int>, shape: seq<int>, n: nat)
    requires Positive(shape) && shape != []
    requires forall j: nat :: j < n ==>
               SumBox(f, prefix + [j], shape[1..]) == SumFlat(f, prefix + [j], shape[1..], Prod(shape[1..]))
    ensures SumAxis(f, prefix, shape, n) == SumFlat(f, prefix, shape, n * Prod(shape[1..]))
  {
    hide SumBox, SumFlat, Prod, CUnravel;
    var p := Prod(shape[1..]);
    ProdPositive(shape[1..]);
    FlatNothing(f, prefix, shape);
    if n > 0 {
      FlatAxis(f, prefix, shape, n - 1);
      MulMono(0, n - 1, p);
      FlatBlock(f, prefix, shape, n - 1, (n - 1) * p, p);
      OneMore(n, p);
    }
  }

  lemma FlatNothing(f: seq<int> -> real, prefix: seq<int>, shape: seq<int>)
    requires Positive(shape)
    ensures SumFlat(f, prefix, shape, 0) == 0.0
  {
  }

  lemma OneMore(n: int, p: int)
    ensures (n - 1) * p + p == n * p
  {
  }

  lemma {:induction false} FlatIsBox(f: seq<int> -> real, prefix: seq<int>, shape: seq<int>)
    requires Positive(shape)
    ensures SumBox(f, prefix, shape) == SumFlat(f, prefix, shape, Prod(shape))
    decreases |shape|
  {
    if shape == [] {
      assert prefix + CUnravel([], 0) == prefix;
      assert SumFlat(f, prefix, [], 1) == SumFlat(f, prefix, [], 0) + f(prefix + CUnravel([], 0));
    } else {
      forall j: nat | j < shape[0]
        ensures SumBox(f, prefix + [j], shape[1..]) == SumFlat(f, prefix + [j], shape[1..], Prod(shape[1..]))
      {
        FlatIsBox(f, prefix + [j], shape[1..]);
      }
      FlatAxis(f, prefix, shape, shape[0]);
    }
  }

  // ---------------------------------------------------------------- the contraction

  lemma {:induction false} OthersAre(axes: seq<int>, n: nat, x: int)
    ensures x in Others(axes, n) <==> 0 <= x < n && x !in axes
  {
    if n > 0 {
      OthersAre(axes, n - 1, x);
    }
  }

  ghost predicate DistinctAxes(axes: seq<int>, rank: nat) {
    && Inside(axes, rank)
    && (forall i, j :: 0 <= i < j < |axes| ==> axes[i] != axes[j])
  }

  /** Free axes followed by contracted ones, and the other way round, permute all axes. */
  lemma PlanPermutes(axes: seq<int>, rank: nat)
    requires DistinctAxes(axes, rank)
    ensures var others := Others(axes, rank);
            IsPermutation(others + axes) && IsPermutation(axes + others) && |others + axes| == rank
  {
    var others := Others(axes, rank);
    OthersInside(axes, rank);
    OthersCount(axes, rank);
    forall x | 0 <= x < rank ensures x in others + axes && x in axes + others {
      OthersAre(axes, rank, x);
    }
  }

  function Elements(s: seq<int>): set<int> { set x | x in s }

  /** A list without duplicates has as many different elements as entries. */
  lemma {:induction false} ElementsCount(s: seq<int>)
    ensures |Elements(s)| <= |s|
    ensures |Elements(s)| == |s| <==> forall i, j :: 0 <= i < j < |s| ==> s[i] != s[j]
  {
    if s == [] {
      assert Elements(s) == {};
    } else {
      var n := |s| - 1;
      ElementsCount(s[..n]);
      assert s == s[..n] + [s[n]];
      assert Elements(s) == Elements(s[..n]) + {s[n]};
      if s[n] in s[..n] {
        assert Elements(s) == Elements(s[..n]);
      }
      forall i, j | 0 <= i < j < n ensures s[i] == s[j] <==> s[..n][i] == s[..n][j] {
      }
    }
  }

  /** evalShapeForTensorDot: the plan and the shape of the result, or an error when the axes
      do not match. Axes have to exist; negative ones count from the end. */
  method EvalShapeForTensorDot(a: seq<int>, b: seq<int>, axesA: seq<int>, axesB: seq<int>)
    returns (r: Option<(Plan, seq<int>)>)
    requires AxesFit(a, axesA) && AxesFit(b, axesB)
    ensures r.Some? <==> Matching(a, b, axesA, axesB)
    ensures r.Some? ==>
              && r.value.0 == PlanFor(a, b, axesA, axesB)
              && PlanOf(r.value.0, a, b, axesA, axesB) && Inside(r.value.0.freeA, |a|) && Inside(r.value.0.freeB, |b|)
              && r.value.1 == OrOne(Gather(r.value.0.freeA, a)) + OrOne(Gather(r.value.0.freeB, b))
  {
    hide Elements, Gather, OrOne, Others, Matching, PlanOf;
    MatchingNormal(a, b, axesA, axesB);
    if |axesA| != |axesB| {
      return None;
    }
    if |axesA| > |a| || |axesB| > |b| {
      NotTooMany(a, b, axesA, axesB);
      return None;
    }
    var xA, xB := axesA, axesB;
    for i := 0 to |axesB|
      invariant |xA| == |xB| == |axesA|
      invariant forall j :: 0 <= j < i ==>
                  xA[j] == Normal(axesA[j], |a|) && xB[j] == Normal(axesB[j], |b|) && a[xA[j]] == b[xB[j]]
      invariant forall j :: i <= j < |axesA| ==> xA[j] == axesA[j] && xB[j] == axesB[j]
    {
      if xA[i] < 0 {
        xA := xA[i := xA[i] + |a|];
      }
      if xB[i] < 0 {
        xB := xB[i := xB[i] + |b|];
      }
      if a[xA[i]] != b[xB[i]] {
        assert xA[i] == NormalAxes(axesA, |a|)[i] && xB[i] == NormalAxes(axesB, |b|)[i];
        return None;
      }
    }
    assert xA == NormalAxes(axesA, |a|) && xB == NormalAxes(axesB, |b|);
    ElementsCount(xA);
    ElementsCount(xB);
    if |Elements(xA)| != |xA| || |Elements(xB)| != |xB| {
      return None;
    }
    var listA := FreeAxes(xA, |a|);
    var listB := FreeAxes(xB, |b|);
    OthersInside(xA, |a|);
    OthersInside(xB, |b|);
    PlanIs(a, b, axesA, axesB);
    return Some((Plan(listA, xA, xB, listB), OrOne(Gather(listA, a)) + OrOne(Gather(listB, b))));
  }

  lemma NotTooMany(a: seq<int>, b: seq<int>, axesA: seq<int>, axesB: seq<int>)
    requires AxesFit(a, axesA) && AxesFit(b, axesB)
    ensures Matching(a, b, axesA, axesB) ==> |axesA| <= |a| && |axesB| <= |b|
  {
    MatchingNormal(a, b, axesA, axesB);
    if Matching(a, b, axesA, axesB) {
      OthersCount(NormalAxes(axesA, |a|), |a|);
      OthersCount(NormalAxes(axesB, |b|), |b|);
    }
  }

  method FreeAxes(axes: seq<int>, rank: nat) returns (free: seq<int>)
    ensures free == Others(axes, rank)
  {
    free := [];
    for i := 0 to rank
      invariant free == Others(axes, i)
    {
      if i !in axes {
        free := free + [i];
      }
    }
  }

  predicate IsIdentity(p: seq<int>) { forall d :: 0 <= d < |p| ==> p[d] == d }

  function Permuted(t: Tensor, p: seq<int>): Tensor
    requires |t.shape| == |t.strides| == |p| && Inside(p, |p|)
  {
    if IsIdentity(p) then t else Permute(t, p)
  }

  /** An operand ready for the product: permuted if need be, and reshaped to a matrix unless
      it already is one of the right sizes. */
  function Side(t: Tensor, p: seq<int>, rows: int, cols: int): Tensor
    requires t.Valid() && |p| == |t.shape| && Inside(p, |p|) && rows >= 1 && cols >= 1
  {
    var permuted := Permuted(t, p);
    if permuted.shape == [rows, cols] then permuted else Reshape(permuted, [rows, cols])
  }

  /** A fresh column-major matrix, as the product helper returns it. */
  function ColumnMajor(m: Mat, rows: nat, cols: nat): Tensor
    requires IsMat(m, rows, cols)
  {
    Tensor(seq(rows * cols, k requires 0 <= k < rows * cols => ColumnOf(k, rows, cols); m[k % rows][k / rows]),
           0, [rows, cols], [1, rows], 'f', 1)
  }

  lemma ColumnOf(k: nat, rows: nat, cols: nat)
    requires k < cols * rows
    ensures rows > 0 && 0 <= k / rows < cols && 0 <= k % rows < rows
  {
    if rows > 0 {
      QuotientRange(k, rows, cols);
    }
  }

  ghost function AsMat(t: Tensor): (m: Mat)
    requires |t.shape| == |t.strides| == 2 && Positive(t.shape)
    ensures IsMat(m, t.shape[0], t.shape[1])
  {
    seq(t.shape[0], i requires 0 <= i < t.shape[0] => seq(t.shape[1], j requires 0 <= j < t.shape[1] => t.At([i, j])))
  }

  ghost function Product(a: Tensor, b: Tensor): (m: Mat)
    requires |a.shape| == |a.strides| == 2 && Positive(a.shape) && |b.shape| == |b.strides| == 2 && Positive(b.shape)
    requires a.shape[1] == b.shape[0]
    ensures IsMat(m, a.shape[0], b.shape[1])
  {
    seq(a.shape[0], i requires 0 <= i < a.shape[0] => seq(b.shape[1], j requires 0 <= j < b.shape[1] =>
      1.0 * SumProd(AsMat(a), AsMat(b), i, j, a.shape[1])))
  }

  lemma GatherPositive(p: seq<int>, s: seq<int>)
    requires Positive(s) && Inside(p, |s|)
    ensures Positive(Gather(p, s)) && Prod(Gather(p, s)) >= 1
  {
    ProdPositive(Gather(p, s));
  }

  lemma GatherConcat(p: seq<int>, q: seq<int>, s: seq<int>)
    requires Inside(p, |s|) && Inside(q, |s|)
    ensures Inside(p + q, |s|) && Gather(p + q, s) == Gather(p, s) + Gather(q, s)
  {
  }

  /** Two groups that list every axis once. */
  ghost predicate Grouped(t: Tensor, first: seq<int>, second: seq<int>) {
    && t.Valid() && |first + second| == |t.shape| && IsPermutation(first + second)
    && Inside(first, |t.shape|) && Inside(second, |t.shape|)
  }

  lemma GroupSizes(t: Tensor, first: seq<int>, second: seq<int>)
    requires Grouped(t, first, second)
    ensures var (sF, sS) := (Gather(first, t.shape), Gather(second, t.shape));
            && Positive(sF) && Positive(sS) && Prod(sF) >= 1 && Prod(sS) >= 1 && Positive([Prod(sF), Prod(sS)])
            && Permuted(t, first + second).shape == sF + sS && Permuted(t, first + second).Valid()
            && Permuted(t, first + second).cells == t.cells && Permuted(t, first + second).offset == t.offset
  {
    var p := first + second;
    GatherConcat(first, second, t.shape);
    GatherPositive(first, t.shape);
    GatherPositive(second, t.shape);
    if IsIdentity(p) {
      assert Gather(p, t.shape) == t.shape;
    }
  }

  /** The operand as a matrix, with the first group of axes as rows. */
  ghost function MatrixOf(t: Tensor, first: seq<int>, second: seq<int>): (m: Tensor)
    requires Grouped(t, first, second)
    ensures |m.shape| == |m.strides| == 2 && Positive(m.shape)
    ensures m.shape == [Prod(Gather(first, t.shape)), Prod(Gather(second, t.shape))]
  {
    GroupSizes(t, first, second);
    var (rows, cols) := (Prod(Gather(first, t.shape)), Prod(Gather(second, t.shape)));
    ReshapeRank(Permuted(t, first + second), [rows, cols]);
    Side(t, first + second, rows, cols)
  }

  /** No element is moved to make it one. */
  ghost predicate StaysInPlace(t: Tensor, first: seq<int>, second: seq<int>)
    requires Grouped(t, first, second)
  {
    GroupSizes(t, first, second);
    var (rows, cols) := (Prod(Gather(first, t.shape)), Prod(Gather(second, t.shape)));
    var permuted := Permuted(t, first + second);
    permuted.shape == [rows, cols] || InPlace(permuted, [rows, cols])
  }

  /** What an operand holds once it is a matrix: row and column indices unravel to the two
      groups of its permuted axes. */
  lemma SideAt(t: Tensor, first: seq<int>, second: seq<int>, x: seq<int>, y: seq<int>)
    requires Grouped(t, first, second)
    requires InBox(Gather(first, t.shape), x) && InBox(Gather(second, t.shape), y)
    ensures var (sF, sS) := (Gather(first, t.shape), Gather(second, t.shape));
            var (m, c) := (MatrixOf(t, first, second), [CIndex(sF, x), CIndex(sS, y)]);
            && m.At(c) == t.At(Scatter(first + second, x + y))
            && (StaysInPlace(t, first, second) ==>
                  m.cells == t.cells && m.offset == t.offset && m.Cell(c) == t.Cell(Scatter(first + second, x + y)))
  {
    hide Prod, CIndex, Tensor.At, Tensor.Cell, Permuted, Reshape, InPlace;
    GroupSizes(t, first, second);
    SidePermuted(t, first + second, x + y);
    MatrixAt(Permuted(t, first + second), Gather(first, t.shape), Gather(second, t.shape), x, y);
  }

  lemma SidePermuted(t: Tensor, p: seq<int>, z: seq<int>)
    requires t.Valid() && |p| == |t.shape| == |z| && IsPermutation(p)
    ensures |Permuted(t, p).strides| == |z|
    ensures Permuted(t, p).Cell(z) == t.Cell(Scatter(p, z)) && Permuted(t, p).At(z) == t.At(Scatter(p, z))
  {
    hide Dot, OrderOf;
    GatherScatter(p, z);
    if IsIdentity(p) {
      assert Gather(p, Scatter(p, z)) == Scatter(p, z);
    } else {
      PermuteAt(t, p, Scatter(p, z));
    }
  }

  lemma PairIndex(rows: int, cols: int, i: int, j: int)
    requires 0 <= i < rows && 0 <= j < cols
    ensures InBox([rows, cols], [i, j]) && Positive([rows, cols])
    ensures Prod([rows, cols]) == rows * cols && CIndex([rows, cols], [i, j]) == i * cols + j
    ensures CUnravel([rows, cols], i * cols + j) == [i, j]
  {
    assert [rows, cols][1..] == [cols] && [cols][1..] == [] && [i, j][1..] == [j];
    assert Prod([cols]) == cols * Prod([]) == cols;
    assert CIndex([cols], [j]) == j * Prod([]) + CIndex([], []) == j;
    CUnravelIndex([rows, cols], [i, j]);
  }

  /** A pair of group indices counts the same as the two coordinates together. */
  lemma PairOfGroups(sF: seq<int>, sS: seq<int>, x: seq<int>, y: seq<int>)
    requires Positive(sF + sS) && InBox(sF, x) && InBox(sS, y)
    ensures var (m, n, i, j) := (Prod(sF), Prod(sS), CIndex(sF, x), CIndex(sS, y));
            && InBox([m, n], [i, j]) && Positive([m, n]) && Prod([m, n]) == Prod(sF + sS)
            && InBox(sF + sS, x + y) && CIndex([m, n], [i, j]) == CIndex(sF + sS, x + y)
            && CUnravel([m, n], CIndex([m, n], [i, j])) == [i, j]
            && CUnravel(sF + sS, CIndex([m, n], [i, j])) == x + y
  {
    hide Prod, CIndex, CUnravel;
    CIndexRange(sF, x);
    CIndexRange(sS, y);
    PairIndex(Prod(sF), Prod(sS), CIndex(sF, x), CIndex(sS, y));
    CIndexSplit(sF, sS, x, y);
    ProdSplit(sF, sS);
    CUnravelIndex(sF + sS, x + y);
  }

  lemma MatrixAt(t: Tensor, sF: seq<int>, sS: seq<int>, x: seq<int>, y: seq<int>)
    requires t.Valid() && t.shape == sF + sS && InBox(sF, x) && InBox(sS, y) && Positive([Prod(sF), Prod(sS)])
    ensures var (shape, c) := ([Prod(sF), Prod(sS)], [CIndex(sF, x), CIndex(sS, y)]);
            var side := if t.shape == shape then t else Reshape(t, shape);
            && |side.strides| == 2 && side.At(c) == t.At(x + y)
            && (t.shape == shape || InPlace(t, shape) ==>
                  side.cells == t.cells && side.offset == t.offset && side.Cell(c) == t.Cell(x + y))
  {
    hide Prod, CIndex, CUnravel, Reshape, Tensor.At, Tensor.Cell, InPlace;
    PairOfGroups(sF, sS, x, y);
    var (shape, c) := ([Prod(sF), Prod(sS)], [CIndex(sF, x), CIndex(sS, y)]);
    if t.shape != shape {
      ReshapeAt(t, shape, c);
    } else {
      assert c == x + y;
    }
  }

  /** Axes that are valid and match give a plan that fits. */
  lemma PlanFits(a: Tensor, b: Tensor, axesA: seq<int>, axesB: seq<int>)
    requires a.Valid() && b.Valid() && AxesFit(a.shape, axesA) && AxesFit(b.shape, axesB)
    requires Matching(a.shape, b.shape, axesA, axesB)
    ensures PlanFor(a.shape, b.shape, axesA, axesB).Fits(a, b)
  {
    var (xA, xB) := (NormalAxes(axesA, |a.shape|), NormalAxes(axesB, |b.shape|));
    hide IsPermutation;
    MatchingNormal(a.shape, b.shape, axesA, axesB);
    PlanPermutes(xA, |a.shape|);
    PlanPermutes(xB, |b.shape|);
    OthersInside(xA, |a.shape|);
    OthersInside(xB, |b.shape|);
  }

  /** A as a matrix, with the contracted axes as columns. */
  ghost function Left(a: Tensor, b: Tensor, plan: Plan): (m: Tensor)
    requires plan.Fits(a, b)
    ensures |m.shape| == |m.strides| == 2 && Positive(m.shape)
    ensures m.shape == [Prod(Gather(plan.freeA, a.shape)), Prod(Gather(plan.sumA, a.shape))]
  {
    MatrixOf(a, plan.freeA, plan.sumA)
  }

  /** B as a matrix, with the contracted axes as rows. */
  ghost function Right(a: Tensor, b: Tensor, plan: Plan): (m: Tensor)
    requires plan.Fits(a, b)
    ensures |m.shape| == |m.strides| == 2 && Positive(m.shape)
    ensures m.shape == [Prod(Gather(plan.sumA, a.shape)), Prod(Gather(plan.freeB, b.shape))]
  {
    MatrixOf(b, plan.sumB, plan.freeB)
  }

  /** A coordinate of one side of the result, without the axis that stands in for no axes. */
  function FreePart(shape: seq<int>, c: seq<int>): seq<int> { if shape == [] then [] else c }

  /** The elements of A and B at free coordinates `u` and `v` and contracted coordinate `k`,
      multiplied. */
  ghost function Pair(a: Tensor, b: Tensor, plan: Plan, u: seq<int>, v: seq<int>): seq<int> -> real
    requires plan.Fits(a, b) && |u| == |plan.freeA| && |v| == |plan.freeB|
  {
    k => if |k| == |plan.sumA| then
           a.At(Scatter(plan.freeA + plan.sumA, u + k)) * b.At(Scatter(plan.sumB + plan.freeB, k + v))
         else 0.0
  }

  lemma {:induction false} ProductIsFlat(a2: Tensor, b2: Tensor, f: seq<int> -> real, i: nat, j: nat,
      inner: seq<int>, n: nat)
    requires |a2.shape| == |a2.strides| == 2 && Positive(a2.shape) && |b2.shape| == |b2.strides| == 2
             && Positive(b2.shape)
    requires Positive(inner) && a2.shape[1] == b2.shape[0] == Prod(inner) && i < a2.shape[0] && j < b2.shape[1]
    requires n <= Prod(inner)
    requires forall q :: 0 <= q < Prod(inner) ==> f(CUnravel(inner, q)) == a2.At([i, q]) * b2.At([q, j])
    ensures SumProd(AsMat(a2), AsMat(b2), i, j, n) == SumFlat(f, [], inner, n)
  {
    hide Prod, CUnravel, Tensor.At;
    if n > 0 {
      ProductIsFlat(a2, b2, f, i, j, inner, n - 1);
      assert [] + CUnravel(inner, n - 1) == CUnravel(inner, n - 1);
    }
  }

  lemma ProductIsBox(a2: Tensor, b2: Tensor, f: seq<int> -> real, i: nat, j: nat, inner: seq<int>)
    requires |a2.shape| == |a2.strides| == 2 && Positive(a2.shape) && |b2.shape| == |b2.strides| == 2
             && Positive(b2.shape)
    requires Positive(inner) && a2.shape[1] == b2.shape[0] == Prod(inner) && i < a2.shape[0] && j < b2.shape[1]
    requires forall q :: 0 <= q < Prod(inner) ==> f(CUnravel(inner, q)) == a2.At([i, q]) * b2.At([q, j])
    ensures Product(a2, b2)[i][j] == SumBox(f, [], inner)
  {
    hide Prod, CUnravel, SumBox, SumFlat, SumProd;
    ProductIsFlat(a2, b2, f, i, j, inner, a2.shape[1]);
    FlatIsBox(f, [], inner);
  }

  lemma ColumnMajorAt(m: Mat, rows: nat, cols: nat, i: nat, j: nat)
    requires IsMat(m, rows, cols) && i < rows && j < cols
    ensures ColumnMajor(m, rows, cols).At([i, j]) == m[i][j]
  {
    var t := ColumnMajor(m, rows, cols);
    assert [i, j][1..] == [j] && [1, rows][1..] == [rows];
    assert Dot([j], [rows]) == j * rows + Dot([], []);
    assert Dot([i, j], [1, rows]) == i + j * rows;
    MulMono(j + 1, cols, rows);
    DivModUnique(i + j * rows, rows, j, i);
  }

  /** The index of a free coordinate is not changed by the axis that stands in for none. */
  lemma OrOneIndex(shape: seq<int>, c: seq<int>)
    requires InBox(OrOne(shape), c)
    ensures InBox(shape, FreePart(shape, c)) && CIndex(OrOne(shape), c) == CIndex(shape, FreePart(shape, c))
    ensures Prod(OrOne(shape)) == Prod(shape)
  {
    if shape == [] {
      assert [1][1..] == [] && c[1..] == [];
      assert Prod([1]) == 1 * Prod([]);
    }
  }

  /** An entry of the matrix product is the direct sum. */
  lemma EntryIsSum(a: Tensor, b: Tensor, plan: Plan, u: seq<int>, v: seq<int>)
    requires plan.Fits(a, b)
    requires InBox(Gather(plan.freeA, a.shape), u) && InBox(Gather(plan.freeB, b.shape), v)
    ensures var (sA, sK, sB) := (Gather(plan.freeA, a.shape), Gather(plan.sumA, a.shape), Gather(plan.freeB, b.shape));
            && 0 <= CIndex(sA, u) < Prod(sA) && 0 <= CIndex(sB, v) < Prod(sB)
            && Product(Left(a, b, plan), Right(a, b, plan))[CIndex(sA, u)][CIndex(sB, v)]
               == SumBox(Pair(a, b, plan, u, v), [], sK)
  {
    hide Prod, CIndex, CUnravel, Tensor.At, SumBox, IsPermutation, Product, Gather, Pair, Left, Right;
    var (sA, sK, sB) := (Gather(plan.freeA, a.shape), Gather(plan.sumA, a.shape), Gather(plan.freeB, b.shape));
    var (left, right, f) := (Left(a, b, plan), Right(a, b, plan), Pair(a, b, plan, u, v));
    GatherPositive(plan.sumA, a.shape);
    CIndexRange(sA, u);
    CIndexRange(sB, v);
    forall q | 0 <= q < Prod(sK) ensures f(CUnravel(sK, q))
        == left.At([CIndex(sA, u), q]) * right.At([q, CIndex(sB, v)]) {
      PairAt(a, b, plan, u, v, q);
    }
    ProductIsBox(left, right, f, CIndex(sA, u), CIndex(sB, v), sK);
  }

  lemma PairAt(a: Tensor, b: Tensor, plan: Plan, u: seq<int>, v: seq<int>, q: int)
    requires plan.Fits(a, b)
    requires var (sA, sK, sB) := (Gather(plan.freeA, a.shape), Gather(plan.sumA, a.shape), Gather(plan.freeB, b.shape));
             InBox(sA, u) && InBox(sB, v) && Positive(sK) && 0 <= q < Prod(sK)
    ensures var (sA, sK, sB) := (Gather(plan.freeA, a.shape), Gather(plan.sumA, a.shape), Gather(plan.freeB, b.shape));
            Pair(a, b, plan, u, v)(CUnravel(sK, q))
            == Left(a, b, plan).At([CIndex(sA, u), q]) * Right(a, b, plan).At([q, CIndex(sB, v)])
  {
    hide Prod, CIndex, CUnravel, Reshape, Permute, Tensor.At, IsPermutation, Scatter, Side;
    var sK := Gather(plan.sumA, a.shape);
    CIndexUnravel(sK, q);
    SideAt(a, plan.freeA, plan.sumA, u, CUnravel(sK, q));
    SideAt(b, plan.sumB, plan.freeB, CUnravel(sK, q), v);
  }
}
