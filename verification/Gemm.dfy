/** The general matrix product on flat buffers: what it means, and the fallback loops that
    compute it. Elements are reals, so rounding is not part of the statements. */
module Gemm {

  /** A matrix by rows. */
  type Mat = seq<seq<real>>

  predicate IsMat(m: Mat, rows: nat, cols: nat) {
    |m| == rows && forall i :: 0 <= i < rows ==> |m[i]| == cols
  }

  /** The first `k` terms of entry (i, j) of a * b. */
  function SumProd(a: Mat, b: Mat, i: nat, j: nat, k: nat): real
    requires i < |a| && k <= |a[i]| && k <= |b| && forall l :: 0 <= l < k ==> j < |b[l]|
  {
    if k == 0 then 0.0 else SumProd(a, b, i, j, k - 1) + a[i][k - 1] * b[k - 1][j]
  }

  /** alpha * a * b + beta * c. */
  function Result(alpha: real, a: Mat, b: Mat, beta: real, c: Mat, m: nat, n: nat, k: nat): (r: Mat)
    requires IsMat(a, m, k) && IsMat(b, k, n) && IsMat(c, m, n)
    ensures IsMat(r, m, n)
  {
    seq(m, i requires 0 <= i < m => seq(n, j requires 0 <= j < n => alpha * SumProd(a, b, i, j, k) + beta * c[i][j]))
  }

  ghost function Sum(s: seq<real>): real {
    if s == [] then 0.0 else Sum(s[..|s| - 1]) + s[|s| - 1]
  }

  /** The terms of entry (i, j) of a * b. */
  ghost function Terms(a: Mat, b: Mat, i: nat, j: nat, k: nat): (s: seq<real>)
    requires i < |a| && k <= |a[i]| && k <= |b| && forall l :: 0 <= l < k ==> j < |b[l]|
    ensures |s| == k
  {
    seq(k, l requires 0 <= l < k => a[i][l] * b[l][j])
  }

  lemma {:induction false} SumOfTerms(a: Mat, b: Mat, i: nat, j: nat, k: nat)
    requires i < |a| && k <= |a[i]| && k <= |b| && forall l :: 0 <= l < k ==> j < |b[l]|
    ensures SumProd(a, b, i, j, k) == Sum(Terms(a, b, i, j, k))
  {
    if k > 0 {
      SumOfTerms(a, b, i, j, k - 1);
      assert Terms(a, b, i, j, k)[..k - 1] == Terms(a, b, i, j, k - 1);
    }
  }

  /** An entry of the result is alpha times the sum of a row of a times a column of b, plus beta
      times the entry of c. */
  lemma ResultIs(alpha: real, a: Mat, b: Mat, beta: real, c: Mat, m: nat, n: nat, k: nat, i: nat, j: nat)
    requires IsMat(a, m, k) && IsMat(b, k, n) && IsMat(c, m, n) && i < m && j < n
    ensures Result(alpha, a, b, beta, c, m, n, k)[i][j]
            == alpha * Sum(seq(k, l requires 0 <= l < k => a[i][l] * b[l][j])) + beta * c[i][j]
  {
    SumOfTerms(a, b, i, j, k);
    assert seq(k, l requires 0 <= l < k => a[i][l] * b[l][j]) == Terms(a, b, i, j, k);
  }

  // ---------------------------------------------------------------- layouts

  function LinearIndexC(rows: nat, cols: nat, r: nat, c: nat): nat { r * cols + c }

  function LinearIndexF(rows: nat, cols: nat, r: nat, c: nat): nat { c * rows + r }

  /** Where the fallback looks for element (r, c): row-major if the matrix is passed as
      transposed, column-major otherwise. */
  function Place(trans: bool, rows: nat, cols: nat, r: nat, c: nat): nat {
    if trans then LinearIndexC(rows, cols, r, c) else LinearIndexF(rows, cols, r, c)
  }

  /** Where a column-major xGEMM of the Level 3 BLAS looks for element (r, c) of op(X), with
      leading dimension ld. */
  function BlasPlace(trans: bool, ld: nat, r: nat, c: nat): nat {
    if trans then c + r * ld else r + c * ld
  }

  lemma MulLe(a: int, b: int, c: int)
    requires a <= b && c >= 0
    ensures a * c <= b * c
  {
  }

  lemma PlaceInside(trans: bool, rows: nat, cols: nat, r: nat, c: nat)
    requires r < rows && c < cols
    ensures Place(trans, rows, cols, r, c) < rows * cols
  {
    MulLe(r + 1, rows, cols);
    MulLe(c + 1, cols, rows);
  }

  lemma PlaceOnce(trans: bool, rows: nat, cols: nat, r: nat, c: nat, r': nat, c': nat)
    requires r < rows && c < cols && r' < rows && c' < cols
    requires Place(trans, rows, cols, r, c) == Place(trans, rows, cols, r', c')
    ensures r == r' && c == c'
  {
    if trans {
      PairOnce(r, c, r', c', cols);
    } else {
      PairOnce(c, r, c', r', rows);
    }
  }

  lemma PairOnce(hi: nat, lo: nat, hi': nat, lo': nat, d: nat)
    requires lo < d && lo' < d && hi * d + lo == hi' * d + lo'
    ensures hi == hi' && lo == lo'
  {
    if hi < hi' {
      MulLe(hi + 1, hi', d);
    } else if hi' < hi {
      MulLe(hi' + 1, hi, d);
    }
  }

  /** The leading dimension the helper passes, columns for a row-major matrix and rows for a
      column-major one, makes a provided xGEMM read the same places as the fallback. */
  lemma BlasReadsTheSame(trans: bool, rows: nat, cols: nat, r: nat, c: nat)
    ensures BlasPlace(trans, if trans then cols else rows, r, c) == Place(trans, rows, cols, r, c)
  {
  }

  /** The matrix held by `s` from `off` on. */
  function Held(s: seq<real>, off: nat, trans: bool, rows: nat, cols: nat): (m: Mat)
    requires off + rows * cols <= |s|
    ensures IsMat(m, rows, cols)
  {
    seq(rows, r requires 0 <= r < rows =>
      seq(cols, c requires 0 <= c < cols => PlaceInside(trans, rows, cols, r, c); s[off + Place(trans, rows, cols, r, c)]))
  }

  lemma HeldAt(s: seq<real>, off: nat, trans: bool, rows: nat, cols: nat, r: nat, c: nat)
    requires off + rows * cols <= |s| && r < rows && c < cols
    ensures 0 <= off + Place(trans, rows, cols, r, c) < off + rows * cols
    ensures Held(s, off, trans, rows, cols)[r][c] == s[off + Place(trans, rows, cols, r, c)]
  {
    PlaceInside(trans, rows, cols, r, c);
  }

  /** By rows if the matrix is passed as transposed, by columns otherwise. */
  lemma HeldIs(s: seq<real>, off: nat, rows: nat, cols: nat, r: nat, c: nat)
    requires off + rows * cols <= |s| && r < rows && c < cols
    ensures off + r * cols + c < |s| && Held(s, off, true, rows, cols)[r][c] == s[off + r * cols + c]
    ensures off + c * rows + r < |s| && Held(s, off, false, rows, cols)[r][c] == s[off + c * rows + r]
  {
    HeldAt(s, off, true, rows, cols, r, c);
    HeldAt(s, off, false, rows, cols, r, c);
  }

  // ---------------------------------------------------------------- the fallback

  lemma Scaled(alpha: real, s: real, x: real, y: real)
    ensures alpha * s + alpha * x * y == alpha * (s + x * y)
  {
  }

  /** One entry: alpha times the product of a row and a column. */
  method DotEntry(transA: bool, transB: bool, M: nat, N: nat, K: nat, alpha: real,
                  A: array<real>, aOff: nat, B: array<real>, bOff: nat, r: nat, c: nat)
    returns (dot: real)
    requires aOff + M * K <= A.Length && bOff + K * N <= B.Length && r < M && c < N
    ensures dot == alpha * SumProd(Held(A[..], aOff, transA, M, K), Held(B[..], bOff, transB, K, N), r, c, K)
  {
    hide Held, SumProd, LinearIndexC, LinearIndexF;
    ghost var a, b := Held(A[..], aOff, transA, M, K), Held(B[..], bOff, transB, K, N);
    dot := 0.0;
    NoTerms(a, b, r, c);
    if alpha != 0.0 {
      for k := 0 to K
        invariant dot == alpha * SumProd(a, b, r, c, k)
      {
        HeldAt(A[..], aOff, transA, M, K, r, k);
        HeldAt(B[..], bOff, transB, K, N, k, c);
        var aIdx := aOff + if transA then LinearIndexC(M, K, r, k) else LinearIndexF(M, K, r, k);
        var bIdx := bOff + if transB then LinearIndexC(K, N, k, c) else LinearIndexF(K, N, k, c);
        NextTerm(alpha, a, b, r, c, k);
        dot := dot + alpha * A[aIdx] * B[bIdx];
      }
    }
  }

  lemma NoTerms(a: Mat, b: Mat, i: nat, j: nat)
    requires i < |a|
    ensures SumProd(a, b, i, j, 0) == 0.0
  {
  }

  lemma NextTerm(alpha: real, a: Mat, b: Mat, i: nat, j: nat, k: nat)
    requires i < |a| && k < |a[i]| && k < |b| && forall l :: 0 <= l <= k ==> j < |b[l]|
    ensures alpha * SumProd(a, b, i, j, k + 1) == alpha * SumProd(a, b, i, j, k) + alpha * a[i][k] * b[k][j]
  {
    Scaled(alpha, SumProd(a, b, i, j, k), a[i][k], b[k][j]);
  }

  /** GEMM::op in column-major order: C becomes alpha * op(A) * op(B) + beta * C, and no
      cell outside the M x N block of C changes. */
  method Op(transA: bool, transB: bool, M: nat, N: nat, K: nat, alpha: real,
            A: array<real>, aOff: nat, B: array<real>, bOff: nat, beta: real, C: array<real>, cOff: nat)
    requires aOff + M * K <= A.Length && bOff + K * N <= B.Length && cOff + M * N <= C.Length
    requires A != C && B != C
    modifies C
    ensures Held(C[..], cOff, false, M, N) ==
            Result(alpha, Held(A[..], aOff, transA, M, K), Held(B[..], bOff, transB, K, N),
                   beta, old(Held(C[..], cOff, false, M, N)), M, N, K)
    ensures C[..cOff] == old(C[..cOff]) && C[cOff + M * N..] == old(C[cOff + M * N..])
  {
    hide Held, SumProd, Place, Mix, Result, SetEntry;
    ghost var a, b := Held(A[..], aOff, transA, M, K), Held(B[..], bOff, transB, K, N);
    ghost var c0 := Held(C[..], cOff, false, M, N);
    ghost var want := Result(alpha, a, b, beta, c0, M, N, K);
    if beta == 0.0 {
      ZeroBlock(C, cOff, M * N);
    }
    ghost var c1 := Held(C[..], cOff, false, M, N);
    MixStart(want, c1, M, N);
    for r := 0 to M
      invariant C[..cOff] == old(C[..cOff]) && C[cOff + M * N..] == old(C[cOff + M * N..])
      invariant Held(C[..], cOff, false, M, N) == Mix(want, c1, M, N, r, 0)
    {
      for c := 0 to N
        invariant C[..cOff] == old(C[..cOff]) && C[cOff + M * N..] == old(C[cOff + M * N..])
        invariant Held(C[..], cOff, false, M, N) == Mix(want, c1, M, N, r, c)
      {
        MixStep(want, c1, M, N, r, c);
        WantedEntry(alpha, a, b, beta, c0, c1, M, N, K, r, c);
        var dot := DotEntry(transA, transB, M, N, K, alpha, A, aOff, B, bOff, r, c);
        PutEntry(C, cOff, M, N, r, c, dot, beta, want[r][c]);
      }
      MixRow(want, c1, M, N, r);
    }
    MixStart(want, c1, M, N);
  }

  /** The matrix in the course of the loops: `want` up to entry (r, c), `was` from there on. */
  function Mix(want: Mat, was: Mat, m: nat, n: nat, r: nat, c: nat): (x: Mat)
    requires IsMat(want, m, n) && IsMat(was, m, n)
    ensures IsMat(x, m, n)
  {
    seq(m, i requires 0 <= i < m =>
      seq(n, j requires 0 <= j < n => if i < r || (i == r && j < c) then want[i][j] else was[i][j]))
  }

  function SetEntry(x: Mat, r: nat, c: nat, v: real): Mat
    requires r < |x| && c < |x[r]|
  {
    x[r := x[r][c := v]]
  }

  lemma MixStep(want: Mat, was: Mat, m: nat, n: nat, r: nat, c: nat)
    requires IsMat(want, m, n) && IsMat(was, m, n) && r < m && c < n
    ensures Mix(want, was, m, n, r, c)[r][c] == was[r][c]
    ensures SetEntry(Mix(want, was, m, n, r, c), r, c, want[r][c]) == Mix(want, was, m, n, r, c + 1)
  {
    SameMat(SetEntry(Mix(want, was, m, n, r, c), r, c, want[r][c]), Mix(want, was, m, n, r, c + 1), m, n);
  }

  lemma MixRow(want: Mat, was: Mat, m: nat, n: nat, r: nat)
    requires IsMat(want, m, n) && IsMat(was, m, n) && r < m
    ensures Mix(want, was, m, n, r, n) == Mix(want, was, m, n, r + 1, 0)
  {
    SameMat(Mix(want, was, m, n, r, n), Mix(want, was, m, n, r + 1, 0), m, n);
  }

  lemma MixStart(want: Mat, was: Mat, m: nat, n: nat)
    requires IsMat(want, m, n) && IsMat(was, m, n)
    ensures Mix(want, was, m, n, 0, 0) == was && Mix(want, was, m, n, m, 0) == want
  {
    SameMat(Mix(want, was, m, n, 0, 0), was, m, n);
    SameMat(Mix(want, was, m, n, m, 0), want, m, n);
  }

  /** The cleared or the original C makes no difference to an entry. */
  lemma WantedEntry(alpha: real, a: Mat, b: Mat, beta: real, c0: Mat, c1: Mat, m: nat, n: nat, k: nat, i: nat, j: nat)
    requires IsMat(a, m, k) && IsMat(b, k, n) && IsMat(c0, m, n) && IsMat(c1, m, n) && i < m && j < n
    requires beta != 0.0 ==> c1 == c0
    ensures Result(alpha, a, b, beta, c0, m, n, k)[i][j] == alpha * SumProd(a, b, i, j, k) + beta * c1[i][j]
  {
  }

  // ---------------------------------------------------------------- matrix and vector

  /** transpose: a packed column-major matrix copied to row-major order. */
  method TransposeToRows(A: array<real>, aOff: nat, M: nat, N: nat) returns (t: array<real>)
    requires aOff + M * N <= A.Length
    ensures fresh(t) && t.Length == M * N && Held(t[..], 0, true, M, N) == Held(A[..], aOff, false, M, N)
  {
    hide Held, Place, Mix, SetEntry;
    t := new real[M * N](_ => 0.0);
    ghost var want, was := Held(A[..], aOff, false, M, N), Held(t[..], 0, true, M, N);
    MixStart(want, was, M, N);
    for r := 0 to M
      invariant Held(t[..], 0, true, M, N) == Mix(want, was, M, N, r, 0)
    {
      for c := 0 to N
        invariant Held(t[..], 0, true, M, N) == Mix(want, was, M, N, r, c)
      {
        MixStep(want, was, M, N, r, c);
        HeldAt(A[..], aOff, false, M, N, r, c);
        PutRowMajor(t, M, N, r, c, A[aOff + Place(false, M, N, r, c)]);
      }
      MixRow(want, was, M, N, r);
    }
    MixStart(want, was, M, N);
  }

  method PutRowMajor(t: array<real>, M: nat, N: nat, r: nat, c: nat, v: real)
    requires t.Length == M * N && r < M && c < N
    modifies t
    ensures Held(t[..], 0, true, M, N) == SetEntry(old(Held(t[..], 0, true, M, N)), r, c, v)
  {
    hide Held, Place;
    ghost var s := t[..];
    HeldAt(s, 0, true, M, N, r, c);
    t[Place(true, M, N, r, c)] := v;
    forall i: nat, j: nat | i < M && j < N
      ensures Held(t[..], 0, true, M, N)[i][j] == if i == r && j == c then v else Held(s, 0, true, M, N)[i][j]
    {
      HeldAt(s, 0, true, M, N, i, j);
      HeldAt(t[..], 0, true, M, N, i, j);
      if Place(true, M, N, i, j) == Place(true, M, N, r, c) {
        PlaceOnce(true, M, N, i, j, r, c);
      }
    }
    SameMat(Held(t[..], 0, true, M, N), SetEntry(Held(s, 0, true, M, N), r, c, v), M, N);
  }

  /** nd4j_dot on a row of a packed row-major matrix and a vector. */
  method DotRow(A: array<real>, aOff: nat, M: nat, N: nat, r: nat, X: array<real>, xOff: nat) returns (dot: real)
    requires aOff + M * N <= A.Length && xOff + N <= X.Length && r < M
    ensures dot == SumProd(Held(A[..], aOff, true, M, N), Held(X[..], xOff, false, N, 1), r, 0, N)
  {
    hide Held, SumProd;
    ghost var a, x := Held(A[..], aOff, true, M, N), Held(X[..], xOff, false, N, 1);
    NoTerms(a, x, r, 0);
    dot := 0.0;
    for e := 0 to N
      invariant dot == SumProd(a, x, r, 0, e)
    {
      HeldAt(A[..], aOff, true, M, N, r, e);
      HeldAt(X[..], xOff, false, N, 1, e, 0);
      NextTerm(1.0, a, x, r, 0, e);
      dot := dot + A[aOff + LinearIndexC(M, N, r, 0) + e] * X[xOff + e];
    }
  }

  /** GEMV::op: Y becomes alpha * A * X + beta * Y, and no other cell changes. */
  method Gemv(columnMajor: bool, M: nat, N: nat, alpha: real, A: array<real>, aOff: nat,
              X: array<real>, xOff: nat, beta: real, Y: array<real>, yOff: nat)
    requires aOff + M * N <= A.Length && xOff + N <= X.Length && yOff + M <= Y.Length && A != Y && X != Y
    modifies Y
    ensures Held(Y[..], yOff, false, M, 1) ==
            Result(alpha, Held(A[..], aOff, !columnMajor, M, N), Held(X[..], xOff, false, N, 1),
                   beta, old(Held(Y[..], yOff, false, M, 1)), M, 1, N)
    ensures Y[..yOff] == old(Y[..yOff]) && Y[yOff + M..] == old(Y[yOff + M..])
  {
    hide Held, SumProd, Place, Mix, Result, SetEntry;
    ghost var a, x := Held(A[..], aOff, !columnMajor, M, N), Held(X[..], xOff, false, N, 1);
    ghost var y := Held(Y[..], yOff, false, M, 1);
    ghost var want := Result(alpha, a, x, beta, y, M, 1, N);
    var aT, tOff := A, aOff;
    if columnMajor {
      aT := TransposeToRows(A, aOff, M, N);
      tOff := 0;
    }
    MixStart(want, y, M, 1);
    for r := 0 to M
      invariant Y[..yOff] == old(Y[..yOff]) && Y[yOff + M * 1..] == old(Y[yOff + M * 1..])
      invariant Held(aT[..], tOff, true, M, N) == a && Held(X[..], xOff, false, N, 1) == x
      invariant Held(Y[..], yOff, false, M, 1) == Mix(want, y, M, 1, r, 0)
    {
      MixStep(want, y, M, 1, r, 0);
      WantedEntry(alpha, a, x, beta, y, y, M, 1, N, r, 0);
      var dot := DotRow(aT, tOff, M, N, r, X, xOff);
      dot := dot * alpha;
      PutEntry(Y, yOff, M, 1, r, 0, dot, beta, want[r][0]);
      MixRow(want, y, M, 1, r);
    }
    MixStart(want, y, M, 1);
  }

  /** Clearing the first M * N cells when beta is zero. */
  method ZeroBlock(C: array<real>, cOff: nat, length: nat)
    requires cOff + length <= C.Length
    modifies C
    ensures forall i :: cOff <= i < cOff + length ==> C[i] == 0.0
    ensures C[..cOff] == old(C[..cOff]) && C[cOff + length..] == old(C[cOff + length..])
  {
    for r := 0 to length
      invariant forall i :: cOff <= i < cOff + r ==> C[i] == 0.0
      invariant C[..cOff] == old(C[..cOff]) && C[cOff + length..] == old(C[cOff + length..])
    {
      C[cOff + r] := 0.0;
    }
  }

  method PutEntry(C: array<real>, cOff: nat, M: nat, N: nat, r: nat, c: nat, dot: real, beta: real, ghost v: real)
    requires cOff + M * N <= C.Length && r < M && c < N
    requires v == dot + beta * Held(C[..], cOff, false, M, N)[r][c]
    modifies C
    ensures C[..cOff] == old(C[..cOff]) && C[cOff + M * N..] == old(C[cOff + M * N..])
    ensures Held(C[..], cOff, false, M, N) == SetEntry(old(Held(C[..], cOff, false, M, N)), r, c, v)
  {
    hide Held;
    PlaceInside(false, M, N, r, c);
    var zIdx := cOff + LinearIndexF(M, N, r, c);
    ghost var s := C[..];
    HeldAt(s, cOff, false, M, N, r, c);
    if beta != 0.0 {
      C[zIdx] := dot + beta * C[zIdx];
    } else {
      C[zIdx] := dot;
    }
    assert C[..] == s[zIdx := C[zIdx]];
    HeldSet(s, cOff, M, N, r, c, C[zIdx]);
  }

  lemma HeldSet(s: seq<real>, off: nat, rows: nat, cols: nat, r: nat, c: nat, v: real)
    requires off + rows * cols <= |s| && r < rows && c < cols
    ensures off + Place(false, rows, cols, r, c) < |s|
    ensures Held(s[off + Place(false, rows, cols, r, c) := v], off, false, rows, cols)
         == SetEntry(Held(s, off, false, rows, cols), r, c, v)
  {
    hide Held, Place;
    HeldAt(s, off, false, rows, cols, r, c);
    var at := off + Place(false, rows, cols, r, c);
    forall i: nat, j: nat | i < rows && j < cols
      ensures Held(s[at := v], off, false, rows, cols)[i][j]
           == if i == r && j == c then v else Held(s, off, false, rows, cols)[i][j]
    {
      HeldUpdate(s, off, rows, cols, r, c, at, v, i, j);
    }
    SameMat(Held(s[at := v], off, false, rows, cols), SetEntry(Held(s, off, false, rows, cols), r, c, v), rows, cols);
  }

  /** Writing one cell of a column-major block changes one entry. */
  lemma HeldUpdate(s: seq<real>, off: nat, rows: nat, cols: nat, r: nat, c: nat, at: nat, v: real, i: nat, j: nat)
    requires off + rows * cols <= |s| && r < rows && c < cols && i < rows && j < cols
    requires at == off + Place(false, rows, cols, r, c) < |s|
    ensures Held(s[at := v], off, false, rows, cols)[i][j] ==
            if i == r && j == c then v else Held(s, off, false, rows, cols)[i][j]
  {
    PlaceInside(false, rows, cols, i, j);
    if Place(false, rows, cols, i, j) == Place(false, rows, cols, r, c) {
      PlaceOnce(false, rows, cols, i, j, r, c);
    }
  }

  lemma SameMat(x: Mat, y: Mat, rows: nat, cols: nat)
    requires IsMat(x, rows, cols) && IsMat(y, rows, cols)
    requires forall i, j :: 0 <= i < rows && 0 <= j < cols ==> x[i][j] == y[i][j]
    ensures x == y
  {
    forall i | 0 <= i < rows ensures x[i] == y[i] {
    }
  }
}
