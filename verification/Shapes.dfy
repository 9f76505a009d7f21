/** Coordinates, linear indices and strides. `CIndex` counts coordinates with the last axis
    fastest (row-major order), `FIndex` with the first axis fastest. */
module Shapes {

  predicate Positive(shape: seq<int>) {
    forall i :: 0 <= i < |shape| ==> shape[i] >= 1
  }

  /** How many coordinates a shape has. */
  function Prod(shape: seq<int>): int {
    if shape == [] then 1 else shape[0] * Prod(shape[1..])
  }

  predicate InBox(shape: seq<int>, c: seq<int>) {
    |c| == |shape| && forall i :: 0 <= i < |c| ==> 0 <= c[i] < shape[i]
  }

  /** The distance in the buffer from the first cell to the one at `c`. */
  function Dot(c: seq<int>, strides: seq<int>): int
    requires |c| == |strides|
  {
    if c == [] then 0 else c[0] * strides[0] + Dot(c[1..], strides[1..])
  }

  function CIndex(shape: seq<int>, c: seq<int>): int
    requires |c| == |shape|
  {
    if shape == [] then 0 else c[0] * Prod(shape[1..]) + CIndex(shape[1..], c[1..])
  }

  function FIndex(shape: seq<int>, c: seq<int>): int
    requires |c| == |shape|
  {
    if shape == [] then 0 else c[0] + shape[0] * FIndex(shape[1..], c[1..])
  }

  lemma {:induction false} ProdPositive(shape: seq<int>)
    requires Positive(shape)
    ensures Prod(shape) >= 1
  {
    if shape != [] {
      ProdPositive(shape[1..]);
    }
  }

  /** The k-th coordinate in row-major order. */
  function CUnravel(shape: seq<int>, k: int): (c: seq<int>)
    requires Positive(shape)
    ensures |c| == |shape|
  {
    if shape == [] then []
    else
      ProdPositive(shape[1..]);
      [k / Prod(shape[1..])] + CUnravel(shape[1..], k % Prod(shape[1..]))
  }

  /** The k-th coordinate with the first axis fastest. */
  function FUnravel(shape: seq<int>, k: int): (c: seq<int>)
    requires Positive(shape)
    ensures |c| == |shape|
  {
    if shape == [] then [] else [k % shape[0]] + FUnravel(shape[1..], k / shape[0])
  }

  lemma MulMono(a: int, b: int, c: int)
    requires a <= b && c >= 0
    ensures a * c <= b * c
  {
  }

  /** Entry `r` of block `q`, for `n` blocks of size `p`. */
  lemma BlockInside(q: int, n: int, p: int, r: int)
    requires 0 <= q < n && 0 <= r < p
    ensures 0 <= q * p + r < n * p
  {
    MulMono(0, q, p);
    MulMono(q + 1, n, p);
    assert (q + 1) * p == q * p + p;
  }

  lemma {:induction false} CIndexRange(shape: seq<int>, c: seq<int>)
    requires InBox(shape, c)
    ensures 0 <= CIndex(shape, c) < Prod(shape)
  {
    if shape != [] {
      CIndexRange(shape[1..], c[1..]);
      BlockInside(c[0], shape[0], Prod(shape[1..]), CIndex(shape[1..], c[1..]));
    }
  }

  lemma {:induction false} FIndexRange(shape: seq<int>, c: seq<int>)
    requires InBox(shape, c)
    ensures 0 <= FIndex(shape, c) < Prod(shape)
  {
    if shape != [] {
      FIndexRange(shape[1..], c[1..]);
      BlockInside(FIndex(shape[1..], c[1..]), Prod(shape[1..]), shape[0], c[0]);
    }
  }

  /** The last axis runs fastest. */
  lemma {:induction false} LastFastest(shape: seq<int>, n: int, c: seq<int>, x: int)
    requires |c| == |shape|
    ensures CIndex(shape + [n], c + [x]) == CIndex(shape, c) * n + x
    ensures Prod(shape + [n]) == Prod(shape) * n
  {
    if shape != [] {
      LastFastest(shape[1..], n, c[1..], x);
      assert (shape + [n])[1..] == shape[1..] + [n] && (c + [x])[1..] == c[1..] + [x];
      assert c[0] * (Prod(shape[1..]) * n) == c[0] * Prod(shape[1..]) * n;
      assert shape[0] * (Prod(shape[1..]) * n) == shape[0] * Prod(shape[1..]) * n;
    } else {
      assert ([] + [n])[1..] == [] && ([] + [x])[1..] == [];
    }
  }

  lemma DivModUnique(k: int, d: int, q: int, r: int)
    requires d > 0 && k == q * d + r && 0 <= r < d
    ensures k / d == q && k % d == r
  {
    var q', r' := k / d, k % d;
    assert k == q' * d + r';
    assert (q - q') * d == r' - r;
    if q > q' {
      MulMono(1, q - q', d);
    } else if q < q' {
      MulMono(1, q' - q, d);
    }
  }

  lemma QuotientRange(k: int, p: int, n: int)
    requires p >= 1 && 0 <= k < n * p
    ensures 0 <= k / p < n && 0 <= k % p < p && k == (k / p) * p + k % p
  {
    if k / p >= n {
      MulMono(n, k / p, p);
    }
  }

  /** Unravelling inverts the row-major index, both ways. */
  lemma {:induction false} CUnravelIndex(shape: seq<int>, c: seq<int>)
    requires Positive(shape) && InBox(shape, c)
    ensures CUnravel(shape, CIndex(shape, c)) == c
  {
    if shape != [] {
      CUnravelIndex(shape[1..], c[1..]);
      CIndexRange(shape[1..], c[1..]);
      DivModUnique(CIndex(shape, c), Prod(shape[1..]), c[0], CIndex(shape[1..], c[1..]));
    }
  }

  lemma {:induction false} CIndexUnravel(shape: seq<int>, k: int)
    requires Positive(shape) && 0 <= k < Prod(shape)
    ensures InBox(shape, CUnravel(shape, k)) && CIndex(shape, CUnravel(shape, k)) == k
  {
    if shape != [] {
      var p := Prod(shape[1..]);
      ProdPositive(shape[1..]);
      QuotientRange(k, p, shape[0]);
      CIndexUnravel(shape[1..], k % p);
      var c := CUnravel(shape, k);
      assert c[0] == k / p && c[1..] == CUnravel(shape[1..], k % p);
    }
  }

  lemma {:induction false} FUnravelIndex(shape: seq<int>, c: seq<int>)
    requires Positive(shape) && InBox(shape, c)
    ensures FUnravel(shape, FIndex(shape, c)) == c
  {
    if shape != [] {
      FUnravelIndex(shape[1..], c[1..]);
      DivModUnique(FIndex(shape, c), shape[0], FIndex(shape[1..], c[1..]), c[0]);
    }
  }

  lemma {:induction false} FIndexUnravel(shape: seq<int>, k: int)
    requires Positive(shape) && 0 <= k < Prod(shape)
    ensures InBox(shape, FUnravel(shape, k)) && FIndex(shape, FUnravel(shape, k)) == k
  {
    if shape != [] {
      var n, rest := shape[0], shape[1..];
      QuotientRange(k, n, Prod(rest));
      FIndexUnravel(rest, k / n);
      var c := FUnravel(shape, k);
      assert c[0] == k % n && c[1..] == FUnravel(rest, k / n);
      assert k == k % n + n * (k / n);
    }
  }

  /** Changing one coordinate moves the address by that many strides. */
  lemma {:induction false} DotUpdate(c: seq<int>, strides: seq<int>, i: nat, v: int)
    requires |c| == |strides| && i < |c|
    ensures Dot(c[i := v], strides) == Dot(c, strides) + (v - c[i]) * strides[i]
  {
    if i == 0 {
      assert c[i := v][1..] == c[1..];
    } else {
      DotUpdate(c[1..], strides[1..], i - 1, v);
      assert c[i := v][1..] == c[1..][i - 1 := v];
    }
  }

  function Zeros(n: nat): (z: seq<int>)
    ensures |z| == n && forall i :: 0 <= i < n ==> z[i] == 0
  {
    if n == 0 then [] else [0] + Zeros(n - 1)
  }

  lemma {:induction false} ZeroCoord(shape: seq<int>, strides: seq<int>, c: seq<int>)
    requires |shape| == |strides| == |c| && forall i :: 0 <= i < |c| ==> c[i] == 0
    ensures Dot(c, strides) == 0 && FIndex(shape, c) == 0 && CIndex(shape, c) == 0
  {
    if c != [] {
      ZeroCoord(shape[1..], strides[1..], c[1..]);
    }
  }

  lemma {:induction false} LastCoord(shape: seq<int>, c: seq<int>)
    requires |c| == |shape| && forall i :: 0 <= i < |c| ==> c[i] == shape[i] - 1
    ensures FIndex(shape, c) == Prod(shape) - 1 && CIndex(shape, c) == Prod(shape) - 1
  {
    if c != [] {
      LastCoord(shape[1..], c[1..]);
    }
  }

  /** Carrying from the first axis on is adding one to the first-axis-fastest index. */
  lemma {:induction false} FCarry(shape: seq<int>, c: seq<int>, d: seq<int>, i: nat)
    requires |c| == |shape| == |d| && i < |c|
    requires forall j :: 0 <= j < i ==> c[j] == shape[j] - 1 && d[j] == 0
    requires d[i] == c[i] + 1 && forall j :: i < j < |c| ==> d[j] == c[j]
    ensures FIndex(shape, d) == FIndex(shape, c) + 1
  {
    if i == 0 {
      assert d[1..] == c[1..];
    } else {
      FCarry(shape[1..], c[1..], d[1..], i - 1);
      var rest := FIndex(shape[1..], c[1..]);
      assert shape[0] * (rest + 1) == shape[0] * rest + shape[0];
    }
  }

  /** Carrying from the last axis back is adding one to the row-major index. */
  lemma {:induction false} CCarry(shape: seq<int>, c: seq<int>, d: seq<int>, i: nat)
    requires |c| == |shape| == |d| && i < |c|
    requires forall j :: i < j < |c| ==> c[j] == shape[j] - 1 && d[j] == 0
    requires d[i] == c[i] + 1 && forall j :: 0 <= j < i ==> d[j] == c[j]
    ensures CIndex(shape, d) == CIndex(shape, c) + 1
  {
    if i == 0 {
      LastCoord(shape[1..], c[1..]);
      ZeroCoord(shape[1..], shape[1..], d[1..]);
      assert (c[0] + 1) * Prod(shape[1..]) == c[0] * Prod(shape[1..]) + Prod(shape[1..]);
    } else {
      CCarry(shape[1..], c[1..], d[1..], i - 1);
    }
  }

  /** Cutting a shape in two cuts the row-major index in two. */
  lemma {:induction false} ProdSplit(a: seq<int>, b: seq<int>)
    ensures Prod(a + b) == Prod(a) * Prod(b)
  {
    if a == [] {
      assert a + b == b;
    } else {
      ProdSplit(a[1..], b);
      assert (a + b)[1..] == a[1..] + b;
      assert a[0] * (Prod(a[1..]) * Prod(b)) == (a[0] * Prod(a[1..])) * Prod(b);
    }
  }

  lemma {:induction false} CIndexSplit(a: seq<int>, b: seq<int>, c: seq<int>, d: seq<int>)
    requires |c| == |a| && |d| == |b|
    ensures CIndex(a + b, c + d) == CIndex(a, c) * Prod(b) + CIndex(b, d)
  {
    hide Prod;
    if a == [] {
      assert a + b == b && c + d == d;
    } else {
      CIndexSplit(a[1..], b, c[1..], d);
      assert (a + b)[1..] == a[1..] + b && (c + d)[1..] == c[1..] + d;
      ProdSplit(a[1..], b);
      SplitSum(c[0], Prod(a[1..]), Prod(b), CIndex(a[1..], c[1..]));
    }
  }

  lemma SplitSum(x: int, p: int, q: int, rest: int)
    ensures x * (p * q) + rest * q == (x * p + rest) * q
  {
  }

  // ---------------------------------------------------------------- packed strides

  /** Strides of packed row-major elements. */
  function CStrides(shape: seq<int>): (s: seq<int>)
    ensures |s| == |shape|
  {
    if shape == [] then [] else [Prod(shape[1..])] + CStrides(shape[1..])
  }

  lemma {:induction false} CStridesDot(shape: seq<int>, c: seq<int>)
    requires |c| == |shape|
    ensures Dot(c, CStrides(shape)) == CIndex(shape, c)
  {
    if shape != [] {
      CStridesDot(shape[1..], c[1..]);
    }
  }

  lemma {:induction false} CStrideAt(shape: seq<int>, d: nat)
    requires d < |shape|
    ensures CStrides(shape)[d] == Prod(shape[d + 1..])
  {
    if d > 0 {
      CStrideAt(shape[1..], d - 1);
      assert shape[1..][d..] == shape[d + 1..];
    }
  }

  /** Strides of packed elements with the first axis fastest, the innermost being `unit`. */
  function FStrides(shape: seq<int>, unit: int): (s: seq<int>)
    ensures |s| == |shape|
  {
    if shape == [] then [] else [unit] + FStrides(shape[1..], unit * shape[0])
  }

  lemma {:induction false} FStridesDot(shape: seq<int>, unit: int, c: seq<int>)
    requires |c| == |shape|
    ensures Dot(c, FStrides(shape, unit)) == unit * FIndex(shape, c)
  {
    if shape != [] {
      FStridesDot(shape[1..], unit * shape[0], c[1..]);
      Spread(c[0], unit, shape[0], FIndex(shape[1..], c[1..]));
    }
  }

  lemma Spread(x: int, unit: int, n: int, rest: int)
    ensures x * unit + (unit * n) * rest == unit * (x + n * rest)
  {
  }

  /** Adding coordinates adds addresses. */
  lemma {:induction false} DotAdd(c: seq<int>, d: seq<int>, e: seq<int>, strides: seq<int>)
    requires |c| == |d| == |e| == |strides|
    requires forall i :: 0 <= i < |c| ==> e[i] == c[i] + d[i]
    ensures Dot(e, strides) == Dot(c, strides) + Dot(d, strides)
  {
    if c != [] {
      DotAdd(c[1..], d[1..], e[1..], strides[1..]);
    }
  }

  /** The coordinate with one step along axis `d`. */
  function Unit(n: nat, d: nat): (c: seq<int>)
    requires d < n
    ensures |c| == n
  {
    Zeros(n)[d := 1]
  }

  lemma UnitDot(strides: seq<int>, d: nat)
    requires d < |strides|
    ensures Dot(Unit(|strides|, d), strides) == strides[d]
  {
    hide FIndex, CIndex, Prod, Dot, Zeros;
    var z := Zeros(|strides|);
    ZeroCoord(strides, strides, z);
    DotUpdate(z, strides, d, 1);
    assert (1 - z[d]) * strides[d] == strides[d];
  }

  lemma {:induction false} FStrideAt(shape: seq<int>, unit: int, d: nat)
    requires d < |shape|
    ensures FStrides(shape, unit)[d] == unit * Prod(shape[..d])
  {
    if d > 0 {
      FStrideAt(shape[1..], unit * shape[0], d - 1);
      assert shape[..d][1..] == shape[1..][..d - 1];
      assert (unit * shape[0]) * Prod(shape[1..][..d - 1]) == unit * (shape[0] * Prod(shape[1..][..d - 1]));
    }
  }

  // ---------------------------------------------------------------- picking axes

  predicate Inside(p: seq<int>, n: nat) {
    forall d :: 0 <= d < |p| ==> 0 <= p[d] < n
  }

  /** `s` with its axes in the order `p`. */
  function Gather(p: seq<int>, s: seq<int>): (r: seq<int>)
    requires Inside(p, |s|)
    ensures |r| == |p|
  {
    seq(|p|, d requires 0 <= d < |p| => s[p[d]])
  }
}
