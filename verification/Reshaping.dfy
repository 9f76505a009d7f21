/** Changing the shape of a strided array without moving its elements, where the strides
    allow it: the row-major case. */
module Reshaping {
  import opened Shapes
  import opened Wrappers

  // ---------------------------------------------------------------- axes longer than one

  function LongShape(shape: seq<int>): (d: seq<int>)
    ensures Positive(shape) ==> Positive(d)
  {
    if shape == [] then [] else (if shape[0] == 1 then [] else [shape[0]]) + LongShape(shape[1..])
  }

  function LongStrides(shape: seq<int>, strides: seq<int>): (s: seq<int>)
    requires |strides| == |shape|
    ensures |s| == |LongShape(shape)|
  {
    if shape == [] then []
    else (if shape[0] == 1 then [] else [strides[0]]) + LongStrides(shape[1..], strides[1..])
  }

  lemma LongCut(shape: seq<int>, strides: seq<int>)
    requires |strides| == |shape| > 0
    ensures shape[0] == 1 ==> LongShape(shape) == LongShape(shape[1..])
                              && LongStrides(shape, strides) == LongStrides(shape[1..], strides[1..])
    ensures shape[0] != 1 ==> LongShape(shape) == [shape[0]] + LongShape(shape[1..])
                              && LongStrides(shape, strides) == [strides[0]] + LongStrides(shape[1..], strides[1..])
  {
  }

  lemma {:induction false} LongProd(shape: seq<int>)
    ensures Prod(LongShape(shape)) == Prod(shape)
  {
    hide LongShape;
    if shape == [] {
      assert LongShape(shape) == [] by { NoLong(); }
    } else {
      LongCut(shape, shape);
      LongProd(shape[1..]);
      if shape[0] != 1 {
        assert LongShape(shape)[1..] == LongShape(shape[1..]);
      }
    }
  }

  lemma NoLong()
    ensures LongShape([]) == [] && LongStrides([], []) == []
  {
  }

  lemma FirstAxis(n: int, rest: seq<int>, k: int)
    requires n >= 1 && Positive(rest) && 0 <= k < n * Prod(rest)
    ensures Positive([n] + rest) && Prod(rest) >= 1 && 0 <= k % Prod(rest) < Prod(rest) && 0 <= k / Prod(rest) < n
    ensures CUnravel([n] + rest, k) == [k / Prod(rest)] + CUnravel(rest, k % Prod(rest))
  {
    ProdPositive(rest);
    QuotientRange(k, Prod(rest), n);
    assert ([n] + rest)[1..] == rest;
  }

  lemma DotFirst(x: int, c: seq<int>, y: int, s: seq<int>)
    requires |c| == |s|
    ensures Dot([x] + c, [y] + s) == x * y + Dot(c, s)
  {
    assert ([x] + c)[1..] == c && ([y] + s)[1..] == s;
  }

  /** The other axes address nothing. */
  lemma {:induction false} LongDot(shape: seq<int>, strides: seq<int>, k: int)
    requires |strides| == |shape| && Positive(shape) && 0 <= k < Prod(shape)
    ensures Dot(CUnravel(shape, k), strides) == Dot(CUnravel(LongShape(shape), k), LongStrides(shape, strides))
  {
    hide Prod, CUnravel, Dot, LongShape, LongStrides;
    if shape == [] {
      NoLong();
    } else {
      var (n, rest, step, more) := (shape[0], shape[1..], strides[0], strides[1..]);
      assert shape == [n] + rest && strides == [step] + more;
      ProdFirst(n, rest);
      FirstAxis(n, rest, k);
      LongDot(rest, more, k % Prod(rest));
      LongStep(n, rest, step, more, k);
    }
  }

  lemma ProdFirst(n: int, rest: seq<int>)
    ensures Prod([n] + rest) == n * Prod(rest)
  {
    assert ([n] + rest)[1..] == rest;
  }

  lemma LongStep(n: int, rest: seq<int>, step: int, more: seq<int>, k: int)
    requires |more| == |rest| && n >= 1 && Positive(rest) && 0 <= k < n * Prod(rest) && Prod(rest) >= 1
    requires var j := k % Prod(rest);
             Dot(CUnravel(rest, j), more) == Dot(CUnravel(LongShape(rest), j), LongStrides(rest, more))
    ensures Positive([n] + rest)
    ensures Dot(CUnravel([n] + rest, k), [step] + more)
         == Dot(CUnravel(LongShape([n] + rest), k), LongStrides([n] + rest, [step] + more))
  {
    hide Prod, CUnravel, Dot, LongShape, LongStrides;
    var (i, j) := (k / Prod(rest), k % Prod(rest));
    assert ([n] + rest)[1..] == rest && ([step] + more)[1..] == more;
    FirstAxis(n, rest, k);
    LongCut([n] + rest, [step] + more);
    LongProd(rest);
    DotFirst(i, CUnravel(rest, j), step, more);
    if n != 1 {
      FirstAxis(n, LongShape(rest), k);
      DotFirst(i, CUnravel(LongShape(rest), j), step, LongStrides(rest, more));
    } else {
      Small(k, Prod(rest));
    }
  }

  lemma Small(k: int, p: int)
    requires 0 <= k < 1 * p
    ensures k / p == 0 && k % p == k && 0 * p == 0
  {
  }

  // ---------------------------------------------------------------- runs of axes

  /** Each axis steps over the whole of the next one. */
  predicate Chain(d: seq<int>, s: seq<int>)
    requires |s| == |d|
  {
    forall k :: 0 <= k < |d| - 1 ==> s[k] == d[k + 1] * s[k + 1]
  }

  /** The strides of a run of axes whose last one steps by `unit`. */
  function Spaced(shape: seq<int>, unit: int): (s: seq<int>)
    ensures |s| == |shape|
  {
    if shape == [] then [] else [unit * Prod(shape[1..])] + Spaced(shape[1..], unit)
  }

  lemma {:induction false} SpacedDot(shape: seq<int>, unit: int, c: seq<int>)
    requires |c| == |shape|
    ensures Dot(c, Spaced(shape, unit)) == unit * CIndex(shape, c)
  {
    if shape != [] {
      SpacedDot(shape[1..], unit, c[1..]);
      Spreads(c[0], unit, Prod(shape[1..]), CIndex(shape[1..], c[1..]));
    }
  }

  lemma Spreads(x: int, unit: int, p: int, rest: int)
    ensures x * (unit * p) + unit * rest == unit * (x * p + rest)
  {
  }

  /** A chain is such a run, and the only one with its last stride. */
  lemma {:induction false} ChainSpaced(d: seq<int>, s: seq<int>)
    requires |s| == |d| > 0
    ensures Chain(d, s) <==> s == Spaced(d, s[|s| - 1])
  {
    var unit := s[|s| - 1];
    if |d| == 1 {
      assert d[1..] == [] && Spaced(d, unit) == [unit * 1] + [];
    } else {
      ChainSpaced(d[1..], s[1..]);
      assert s[1..][|s| - 2] == unit;
      SpacedFirst(d[1..], unit);
      Reorder(d[1], unit, Prod(d[2..]));
      assert d[1..][1..] == d[2..] && Spaced(d, unit)[1..] == Spaced(d[1..], unit);
      assert Chain(d, s) <==> s[0] == d[1] * s[1] && Chain(d[1..], s[1..]) by { ChainFirst(d, s); }
      assert s == Spaced(d, unit) <==> s[0] == unit * Prod(d[1..]) && s[1..] == Spaced(d[1..], unit);
    }
  }

  lemma SpacedFirst(shape: seq<int>, unit: int)
    requires shape != []
    ensures Spaced(shape, unit)[0] == unit * Prod(shape[1..]) && Prod(shape) == shape[0] * Prod(shape[1..])
  {
  }

  lemma Reorder(x: int, y: int, z: int)
    ensures x * (y * z) == y * (x * z)
  {
  }

  lemma ChainFirst(d: seq<int>, s: seq<int>)
    requires |s| == |d| > 1
    ensures Chain(d, s) <==> s[0] == d[1] * s[1] && Chain(d[1..], s[1..])
  {
    if s[0] == d[1] * s[1] && Chain(d[1..], s[1..]) {
      forall k | 0 <= k < |d| - 1 ensures s[k] == d[k + 1] * s[k + 1] {
        assert k > 0 ==> s[1..][k - 1] == d[1..][k] * s[1..][k];
      }
    }
    if Chain(d, s) {
      forall k | 0 <= k < |d| - 2 ensures s[1..][k] == d[1..][k + 1] * s[1..][k + 1] {
        assert s[k + 1] == d[k + 2] * s[k + 2];
      }
    }
  }

  // ---------------------------------------------------------------- groups of axes

  lemma PrefixBelow(d: seq<int>, p: nat)
    requires Positive(d) && p <= |d|
    ensures 1 <= Prod(d[..p]) <= Prod(d) && (p == |d| ==> Prod(d[..p]) == Prod(d))
    ensures 1 <= Prod(d[p..]) && Prod(d) == Prod(d[..p]) * Prod(d[p..])
  {
    assert d == d[..p] + d[p..];
    ProdSplit(d[..p], d[p..]);
    ProdPositive(d[..p]);
    ProdPositive(d[p..]);
    MulMono(1, Prod(d[p..]), Prod(d[..p]));
  }

  /** How many old and new axes make up the first group: the fewest with the same product. */
  function Match(d: seq<int>, w: seq<int>, p: nat, q: nat): (r: (nat, nat))
    requires Positive(d) && Positive(w) && Prod(d) == Prod(w) && 1 <= p <= |d| && 1 <= q <= |w|
    ensures p <= r.0 <= |d| && q <= r.1 <= |w| && Prod(d[..r.0]) == Prod(w[..r.1])
    decreases |d| - p + |w| - q
  {
    PrefixBelow(d, p);
    PrefixBelow(w, q);
    if Prod(w[..q]) == Prod(d[..p]) then (p, q)
    else if Prod(w[..q]) < Prod(d[..p]) then Match(d, w, p, q + 1)
    else Match(d, w, p + 1, q)
  }

  /** What is left after a group has the same product again. */
  lemma RestMatches(d: seq<int>, w: seq<int>, p: nat, q: nat)
    requires Positive(d) && Positive(w) && Prod(d) == Prod(w) && p <= |d| && q <= |w|
    requires Prod(d[..p]) == Prod(w[..q])
    ensures Prod(d[p..]) == Prod(w[q..]) && Positive(d[p..]) && Positive(w[q..])
  {
    PrefixBelow(d, p);
    PrefixBelow(w, q);
    Cancel(Prod(d[..p]), Prod(d[p..]), Prod(w[q..]));
  }

  lemma Cancel(a: int, x: int, y: int)
    requires a >= 1 && a * x == a * y
    ensures x == y
  {
    if x < y {
      MulMono(x + 1, y, a);
    } else if y < x {
      MulMono(y + 1, x, a);
    }
  }

  /** The strides of the new axes `w` over the old ones `d`, group by group; None if the old
      axes of a group are no chain. New axes that are left over have size 1. */
  function ViewStrides(d: seq<int>, s: seq<int>, w: seq<int>, last: int): (r: Option<seq<int>>)
    requires |s| == |d| && Positive(d) && Positive(w) && Prod(d) == Prod(w)
    ensures r.Some? ==> |r.value| == |w|
    decreases |w|
  {
    if w == [] || d == [] then Some(seq(|w|, _ => last))
    else
      var (p, q) := Match(d, w, 1, 1);
      RestMatches(d, w, p, q);
      if !Chain(d[..p], s[..p]) then None
      else
        var rest := ViewStrides(d[p..], s[p..], w[q..], s[p - 1]);
        if rest.None? then None else Some(Spaced(w[..q], s[p - 1]) + rest.value)
  }

  /** The strides of the row-major reshape that keeps every element in its cell. */
  function NoCopy(shape: seq<int>, strides: seq<int>, ews: int, newShape: seq<int>): (r: Option<seq<int>>)
    requires |strides| == |shape| && Positive(shape) && Positive(newShape)
    ensures r.Some? ==> |r.value| == |newShape|
  {
    LongProd(shape);
    if Prod(shape) != Prod(newShape) then None
    else ViewStrides(LongShape(shape), LongStrides(shape, strides), newShape, ews)
  }

  // ---------------------------------------------------------------- addresses

  lemma {:induction false} DotConcat(c: seq<int>, e: seq<int>, s: seq<int>, t: seq<int>)
    requires |c| == |s| && |e| == |t|
    ensures Dot(c + e, s + t) == Dot(c, s) + Dot(e, t)
  {
    if c == [] {
      assert c + e == e && s + t == t;
    } else {
      DotConcat(c[1..], e, s[1..], t);
      assert (c + e)[1..] == c[1..] + e && (s + t)[1..] == s[1..] + t;
    }
  }

  lemma UnravelSplit(a: seq<int>, b: seq<int>, i: int, j: int)
    requires Positive(a) && Positive(b) && 0 <= i < Prod(a) && 0 <= j < Prod(b)
    ensures Positive(a + b) && CUnravel(a + b, i * Prod(b) + j) == CUnravel(a, i) + CUnravel(b, j)
  {
    hide Prod, CIndex, CUnravel;
    CIndexUnravel(a, i);
    CIndexUnravel(b, j);
    CIndexSplit(a, b, CUnravel(a, i), CUnravel(b, j));
    CUnravelIndex(a + b, CUnravel(a, i) + CUnravel(b, j));
  }

  /** One coordinate is all there is, and it addresses nothing. */
  lemma OneCell(shape: seq<int>, strides: seq<int>, c: seq<int>)
    requires |strides| == |shape| && Positive(shape) && Prod(shape) == 1 && InBox(shape, c)
    ensures Dot(c, strides) == 0 && CIndex(shape, c) == 0
  {
    forall i | 0 <= i < |c| ensures c[i] == 0 {
      SizeOne(shape, i);
    }
    ZeroCoord(shape, strides, c);
  }

  lemma SizeOne(shape: seq<int>, i: nat)
    requires Positive(shape) && Prod(shape) == 1 && i < |shape|
    ensures shape[i] == 1
  {
    PrefixBelow(shape, i);
    PrefixBelow(shape[i..], 1);
    assert shape[i..][..1] == [shape[i]] && Prod([shape[i]]) == shape[i] * Prod([]);
    MulMono(1, Prod(shape[..i]), Prod(shape[i..]));
  }

  lemma GroupAddress(d: seq<int>, s: seq<int>, w: seq<int>, c: seq<int>)
    requires |s| == |d| > 0 && Positive(d) && Positive(w) && Prod(d) == Prod(w) && Chain(d, s) && InBox(w, c)
    ensures 0 <= CIndex(w, c) < Prod(d)
    ensures Dot(c, Spaced(w, s[|s| - 1])) == Dot(CUnravel(d, CIndex(w, c)), s)
  {
    hide Prod, CIndex, CUnravel, Dot, Chain;
    var unit, i := s[|s| - 1], CIndex(w, c);
    CIndexRange(w, c);
    CIndexUnravel(d, i);
    ChainSpaced(d, s);
    SpacedDot(w, unit, c);
    SpacedDot(d, unit, CUnravel(d, i));
  }

  lemma {:induction false} ViewAddress(d: seq<int>, s: seq<int>, w: seq<int>, last: int, c: seq<int>)
    requires |s| == |d| && Positive(d) && Positive(w) && Prod(d) == Prod(w) && InBox(w, c)
    requires ViewStrides(d, s, w, last).Some?
    ensures 0 <= CIndex(w, c) < Prod(d)
    ensures Dot(c, ViewStrides(d, s, w, last).value) == Dot(CUnravel(d, CIndex(w, c)), s)
    decreases |w|
  {
    hide Prod, CIndex, CUnravel, Dot, Chain, Match;
    CIndexRange(w, c);
    CIndexUnravel(d, CIndex(w, c));
    if w == [] || d == [] {
      NoProduct();
      OneCell(w, ViewStrides(d, s, w, last).value, c);
      OneCell(d, s, CUnravel(d, CIndex(w, c)));
    } else {
      var (p, q) := Match(d, w, 1, 1);
      RestMatches(d, w, p, q);
      GroupAddress(d[..p], s[..p], w[..q], c[..q]);
      ViewAddress(d[p..], s[p..], w[q..], s[p - 1], c[q..]);
      assert w == w[..q] + w[q..] && c == c[..q] + c[q..] && d == d[..p] + d[p..] && s == s[..p] + s[p..];
      JoinUnravel(d[..p], w[..q], c[..q], d[p..], w[q..], c[q..]);
      DotConcat(c[..q], c[q..], Spaced(w[..q], s[p - 1]), ViewStrides(d[p..], s[p..], w[q..], s[p - 1]).value);
      DotConcat(CUnravel(d[..p], CIndex(w[..q], c[..q])), CUnravel(d[p..], CIndex(w[q..], c[q..])), s[..p], s[p..]);
    }
  }

  /** Two groups one after the other. */
  lemma JoinUnravel(d1: seq<int>, w1: seq<int>, c1: seq<int>, d2: seq<int>, w2: seq<int>, c2: seq<int>)
    requires |c1| == |w1| && |c2| == |w2| && Positive(d1) && Positive(d2) && Prod(d2) == Prod(w2)
    requires 0 <= CIndex(w1, c1) < Prod(d1) && 0 <= CIndex(w2, c2) < Prod(d2)
    ensures Positive(d1 + d2)
    ensures CUnravel(d1 + d2, CIndex(w1 + w2, c1 + c2)) == CUnravel(d1, CIndex(w1, c1)) + CUnravel(d2, CIndex(w2, c2))
  {
    hide Prod, CIndex, CUnravel;
    var (i, j, k) := (CIndex(w1, c1), CIndex(w2, c2), CIndex(w1 + w2, c1 + c2));
    CIndexSplit(w1, w2, c1, c2);
    UnravelSplitAt(d1, d2, i, j, Prod(w2), k);
  }

  lemma UnravelSplitAt(a: seq<int>, b: seq<int>, i: int, j: int, n: int, k: int)
    requires Positive(a) && Positive(b) && 0 <= i < Prod(a) && 0 <= j < Prod(b) == n && k == i * n + j
    ensures Positive(a + b) && CUnravel(a + b, k) == CUnravel(a, i) + CUnravel(b, j)
  {
    hide CUnravel;
    UnravelSplit(a, b, i, j);
  }

  lemma NoProduct()
    ensures Prod([]) == 1
  {
  }

  /** With these strides the element at a new coordinate lies where the element with the same
      row-major index lay before. */
  lemma ReshapeAddress(shape: seq<int>, strides: seq<int>, ews: int, newShape: seq<int>, c: seq<int>)
    requires |strides| == |shape| && Positive(shape) && Positive(newShape) && InBox(newShape, c)
    requires NoCopy(shape, strides, ews, newShape).Some?
    ensures 0 <= CIndex(newShape, c) < Prod(shape)
    ensures Dot(c, NoCopy(shape, strides, ews, newShape).value) == Dot(CUnravel(shape, CIndex(newShape, c)), strides)
  {
    hide Prod, CIndex, CUnravel, Dot, ViewStrides, LongShape, LongStrides;
    LongProd(shape);
    ViewAddress(LongShape(shape), LongStrides(shape, strides), newShape, ews, c);
    LongDot(shape, strides, CIndex(newShape, c));
  }

  // ---------------------------------------------------------------- a copy only if needed

  /** The address of the element with row-major index `k`. */
  function Address(shape: seq<int>, strides: seq<int>, k: int): int
    requires |strides| == |shape| && Positive(shape)
  {
    Dot(CUnravel(shape, k), strides)
  }

  /** The element with row-major index `k` lies `k * unit` cells behind the first, below `n`. */
  ghost predicate Even(shape: seq<int>, strides: seq<int>, unit: int, n: int)
    requires |strides| == |shape| && Positive(shape)
  {
    forall k :: 0 <= k < n ==> Address(shape, strides, k) == k * unit
  }

  ghost predicate SameAddresses(d: seq<int>, s: seq<int>, w: seq<int>, ns: seq<int>)
    requires |s| == |d| && |ns| == |w| && Positive(d) && Positive(w)
  {
    forall k :: 0 <= k < Prod(d) ==> Address(d, s, k) == Address(w, ns, k)
  }

  lemma AddressFirst(n: int, rest: seq<int>, x: int, more: seq<int>, k: int)
    requires |more| == |rest| && n >= 1 && Positive(rest) && 0 <= k < n * Prod(rest)
    ensures Positive([n] + rest) && Prod(rest) >= 1 && 0 <= k % Prod(rest) < Prod(rest)
    ensures Address([n] + rest, [x] + more, k) == (k / Prod(rest)) * x + Address(rest, more, k % Prod(rest))
  {
    hide Prod, CUnravel, Dot;
    FirstAxis(n, rest, k);
    DotFirst(k / Prod(rest), CUnravel(rest, k % Prod(rest)), x, more);
  }

  /** Low indices leave the leading axes alone. */
  lemma {:induction false} AddressTail(d: seq<int>, s: seq<int>, p: nat, k: int)
    requires |s| == |d| && Positive(d) && p <= |d| && Positive(d[p..]) && 0 <= k < Prod(d[p..])
    ensures Address(d, s, k) == Address(d[p..], s[p..], k)
    decreases p
  {
    hide Prod, Address;
    if p == 0 {
      assert d[0..] == d && s[0..] == s;
    } else {
      AddressTail(d[1..], s[1..], p - 1, k);
      assert d[1..][p - 1..] == d[p..] && s[1..][p - 1..] == s[p..];
      PrefixBelow(d[1..], p - 1);
      assert d == [d[0]] + d[1..] && s == [s[0]] + s[1..];
      TailBelow(k, Prod(d[1..][..p - 1]), Prod(d[p..]), Prod(d[1..]), d[0]);
      AddressFirst(d[0], d[1..], s[0], s[1..], k);
    }
  }

  lemma TailBelow(k: int, a: int, b: int, p: int, n: int)
    requires 0 <= k < b && a >= 1 && p == a * b && n >= 1
    ensures k < p && k < n * p && k / p == 0 && k % p == k
  {
    MulMono(1, a, b);
    MulMono(1, n, p);
  }

  /** If indices are spaced evenly beyond one step of an axis, they are along the whole axis. */
  lemma Extend(w: seq<int>, ns: seq<int>, q: nat, unit: int, x: int)
    requires |ns| == |w| && Positive(w) && 0 < q <= |w| && Even(w, ns, unit, x)
    requires w[q - 1] == 1 || Prod(w[q..]) < x
    ensures Even(w, ns, unit, if w[q - 1] == 1 then x else Prod(w[q - 1..]))
  {
    hide Prod, Address;
    if w[q - 1] != 1 {
      var (n, rest, step, more) := (w[q - 1], w[q..], ns[q - 1], ns[q..]);
      var p := Prod(rest);
      assert w[q - 1..] == [n] + rest && ns[q - 1..] == [step] + more;
      PrefixBelow(w, q);
      ProdFirst(n, rest);
      StepIs(w, ns, q, unit, x);
      forall k | 0 <= k < Prod(w[q - 1..]) ensures Address(w, ns, k) == k * unit {
        AddressTail(w, ns, q - 1, k);
        AddressFirst(n, rest, step, more, k);
        AddressTail(w, ns, q, k % p);
        Recombine(k, p, unit);
      }
    }
  }

  lemma Recombine(k: int, p: int, unit: int)
    requires p >= 1
    ensures (k / p) * (p * unit) + (k % p) * unit == k * unit
  {
    assert k == (k / p) * p + k % p;
    Reassociate(k / p, p, unit);
    assert ((k / p) * p + k % p) * unit == ((k / p) * p) * unit + (k % p) * unit;
  }

  lemma StepIs(w: seq<int>, ns: seq<int>, q: nat, unit: int, x: int)
    requires |ns| == |w| && Positive(w) && 0 < q <= |w| && Even(w, ns, unit, x) && w[q - 1] >= 2 && Prod(w[q..]) < x
    ensures ns[q - 1] == Prod(w[q..]) * unit
  {
    hide Prod, Address;
    var (n, rest, step, more) := (w[q - 1], w[q..], ns[q - 1], ns[q..]);
    var p := Prod(rest);
    assert w[q - 1..] == [n] + rest && ns[q - 1..] == [step] + more;
    PrefixBelow(w, q);
    ProdFirst(n, rest);
    OneBlock(n, p);
    AddressTail(w, ns, q - 1, p);
    AddressFirst(n, rest, step, more, p);
    NoAddress(rest, more);
  }

  lemma OneBlock(n: int, p: int)
    requires n >= 2 && p >= 1
    ensures p < n * p && p / p == 1 && p % p == 0
  {
    MulMono(2, n, p);
  }

  lemma NoAddress(shape: seq<int>, strides: seq<int>)
    requires |strides| == |shape| && Positive(shape)
    ensures Address(shape, strides, 0) == 0
  {
    ProdPositive(shape);
    ZeroCoord(shape, strides, Zeros(|shape|));
    CUnravelIndex(shape, Zeros(|shape|));
  }

  /** No smaller groups: leading products agree at the end only. */
  ghost predicate Inseparable(d: seq<int>, w: seq<int>) {
    forall p, q :: 1 <= p <= |d| && 1 <= q <= |w| && (p < |d| || q < |w|) ==> Prod(d[..p]) != Prod(w[..q])
  }

  /** Two ways of cutting up an inseparable group extend each other over all of it. */
  lemma {:induction false} EvenAll(d: seq<int>, s: seq<int>, w: seq<int>, ns: seq<int>, p: nat, q: nat, unit: int,
      x: int)
    requires |s| == |d| && |ns| == |w| && Positive(d) && Positive(w) && Prod(d) == Prod(w)
    requires SameAddresses(d, s, w, ns) && Inseparable(d, w)
    requires p <= |d| && q <= |w| && (p < |d| || q < |w|)
    requires x >= Prod(d[p..]) && x >= Prod(w[q..]) && (x == Prod(d[p..]) || x == Prod(w[q..])) && Even(d, s, unit, x)
    ensures Even(d, s, unit, Prod(d))
    decreases p + q
  {
    hide Prod, Address, Inseparable, SameAddresses, Even;
    SuffixBelow(d, p);
    SuffixBelow(w, q);
    if p == 0 || q == 0 {
      WholeIs(d);
      WholeIs(w);
    } else {
      Boundaries(d, w, p, q);
      if Prod(w[q..]) < Prod(d[p..]) {
        EvenNew(d, s, w, ns, q, unit, x);
        EvenAll(d, s, w, ns, p, q - 1, unit, Larger(x, Prod(w[q - 1..])));
      } else {
        EvenOld(d, s, p, unit, x);
        EvenAll(d, s, w, ns, p - 1, q, unit, Larger(x, Prod(d[p - 1..])));
      }
    }
  }

  /** ... along the next new axis ... */
  lemma EvenNew(d: seq<int>, s: seq<int>, w: seq<int>, ns: seq<int>, q: nat, unit: int, x: int)
    requires |s| == |d| && |ns| == |w| && Positive(d) && Positive(w) && Prod(d) == Prod(w) && 0 < q <= |w|
    requires SameAddresses(d, s, w, ns) && Prod(w[q..]) < x <= Prod(d) && Even(d, s, unit, x)
    ensures Prod(w[q..]) <= Prod(w[q - 1..]) && Even(d, s, unit, Larger(x, Prod(w[q - 1..])))
    ensures x == Larger(x, Prod(w[q - 1..])) || Prod(w[q - 1..]) == Larger(x, Prod(w[q - 1..]))
  {
    hide Prod, Address, SameAddresses, Even;
    SuffixNext(w, q);
    Swap(d, s, w, ns, unit, x);
    Extend(w, ns, q, unit, x);
    Joined(d, s, w, ns, unit, x, Prod(w[q - 1..]), w[q - 1] == 1);
  }

  /** ... or the next old one. */
  lemma EvenOld(d: seq<int>, s: seq<int>, p: nat, unit: int, x: int)
    requires |s| == |d| && Positive(d) && 0 < p <= |d| && Prod(d[p..]) < x && Even(d, s, unit, x)
    ensures Prod(d[p..]) <= Prod(d[p - 1..]) && Even(d, s, unit, Larger(x, Prod(d[p - 1..])))
  {
    hide Prod, Address, Even;
    SuffixNext(d, p);
    Extend(d, s, p, unit, x);
    JoinedOwn(d, s, unit, x, Prod(d[p - 1..]), d[p - 1] == 1);
  }

  function Larger(x: int, y: int): int { if x < y then y else x }

  lemma WholeIs(d: seq<int>)
    ensures Prod(d[0..]) == Prod(d)
  {
    assert d[0..] == d;
  }

  lemma SuffixNext(d: seq<int>, p: nat)
    requires 0 < p <= |d| && Positive(d)
    ensures Prod(d[p - 1..]) == d[p - 1] * Prod(d[p..]) >= Prod(d[p..]) && Prod(d[p - 1..]) <= Prod(d)
  {
    assert d[p - 1..] == [d[p - 1]] + d[p..];
    ProdFirst(d[p - 1], d[p..]);
    PrefixBelow(d, p);
    PrefixBelow(d, p - 1);
    MulMono(1, d[p - 1], Prod(d[p..]));
    MulMono(1, Prod(d[..p - 1]), Prod(d[p - 1..]));
  }

  lemma Boundaries(d: seq<int>, w: seq<int>, p: nat, q: nat)
    requires Positive(d) && Positive(w) && Prod(d) == Prod(w) && Inseparable(d, w)
    requires 1 <= p <= |d| && 1 <= q <= |w| && (p < |d| || q < |w|)
    ensures Prod(d[p..]) != Prod(w[q..])
  {
    hide Prod, Inseparable;
    PrefixBelow(d, p);
    PrefixBelow(w, q);
    Separate(d, w, p, q);
    if Prod(d[p..]) == Prod(w[q..]) {
      CancelRight(Prod(d[..p]), Prod(w[..q]), Prod(d[p..]));
    }
  }

  lemma Separate(d: seq<int>, w: seq<int>, p: nat, q: nat)
    requires Inseparable(d, w) && 1 <= p <= |d| && 1 <= q <= |w| && (p < |d| || q < |w|)
    ensures Prod(d[..p]) != Prod(w[..q])
  {
  }

  lemma CancelRight(x: int, y: int, a: int)
    requires a >= 1 && x * a == y * a
    ensures x == y
  {
    Cancel(a, x, y);
  }

  lemma SuffixBelow(d: seq<int>, p: nat)
    requires Positive(d) && p <= |d|
    ensures Prod(d[p..]) <= Prod(d)
  {
    PrefixBelow(d, p);
    MulMono(1, Prod(d[..p]), Prod(d[p..]));
  }

  lemma Swap(d: seq<int>, s: seq<int>, w: seq<int>, ns: seq<int>, unit: int, x: int)
    requires |s| == |d| && |ns| == |w| && Positive(d) && Positive(w) && SameAddresses(d, s, w, ns) && x <= Prod(d)
    ensures Even(d, s, unit, x) <==> Even(w, ns, unit, x)
  {
    hide Address;
  }

  lemma Joined(d: seq<int>, s: seq<int>, w: seq<int>, ns: seq<int>, unit: int, x: int, y: int, same: bool)
    requires |s| == |d| && |ns| == |w| && Positive(d) && Positive(w) && SameAddresses(d, s, w, ns)
    requires x <= Prod(d) && y <= Prod(d) && (same ==> y <= x)
    requires Even(d, s, unit, x) && Even(w, ns, unit, if same then x else y)
    ensures Even(d, s, unit, Larger(x, y))
  {
    hide Address;
  }

  lemma JoinedOwn(d: seq<int>, s: seq<int>, unit: int, x: int, y: int, same: bool)
    requires |s| == |d| && Positive(d) && (same ==> y <= x)
    requires Even(d, s, unit, x) && Even(d, s, unit, if same then x else y)
    ensures Even(d, s, unit, Larger(x, y))
  {
    hide Address;
  }

  /** Evenly spaced axes longer than one are a chain. */
  lemma {:induction false} EvenSpaced(d: seq<int>, s: seq<int>, unit: int)
    requires |s| == |d| && (forall i :: 0 <= i < |d| ==> d[i] >= 2) && Even(d, s, unit, Prod(d))
    ensures s == Spaced(d, unit)
  {
    hide Prod, Address, Even;
    if d != [] {
      assert d == [d[0]] + d[1..] && s == [s[0]] + s[1..];
      EvenRest(d, s, unit);
      EvenSpaced(d[1..], s[1..], unit);
    }
  }

  lemma EvenRest(d: seq<int>, s: seq<int>, unit: int)
    requires |s| == |d| > 0 && (forall i :: 0 <= i < |d| ==> d[i] >= 2) && Even(d, s, unit, Prod(d))
    ensures s[0] == unit * Prod(d[1..]) && Even(d[1..], s[1..], unit, Prod(d[1..]))
  {
    hide Prod, Address;
    WholeIs(d);
    PrefixBelow(d, 1);
    SuffixNext(d, 1);
    OneBlock(d[0], Prod(d[1..]));
    StepIs(d, s, 1, unit, Prod(d));
    forall k | 0 <= k < Prod(d[1..]) ensures Address(d[1..], s[1..], k) == k * unit {
      AddressTail(d, s, 1, k);
    }
  }
  lemma PrefixMono(d: seq<int>, i: nat, p: nat)
    requires Positive(d) && i <= p <= |d|
    ensures Prod(d[..i]) <= Prod(d[..p])
  {
    PrefixBelow(d[..p], i);
    assert d[..p][..i] == d[..i];
  }

  /** The first group is inseparable. */
  lemma {:induction false} MatchInseparable(d: seq<int>, w: seq<int>, p: nat, q: nat)
    requires Positive(d) && Positive(w) && Prod(d) == Prod(w) && 1 <= p <= |d| && 1 <= q <= |w|
    requires p > 1 ==> Prod(d[..p - 1]) < Prod(w[..q])
    requires q > 1 ==> Prod(w[..q - 1]) < Prod(d[..p])
    requires forall i, j :: 1 <= i <= p && 1 <= j <= q && (i < p || j < q) ==> Prod(d[..i]) != Prod(w[..j])
    ensures var r := Match(d, w, p, q);
            forall i, j :: 1 <= i <= r.0 && 1 <= j <= r.1 && (i < r.0 || j < r.1) ==> Prod(d[..i]) != Prod(w[..j])
    decreases |d| - p + |w| - q
  {
    hide Prod;
    PrefixBelow(d, p);
    PrefixBelow(w, q);
    if Prod(w[..q]) < Prod(d[..p]) {
      PrefixMono(w, q, q + 1);
      forall i | 1 <= i < p ensures Prod(d[..i]) != Prod(w[..q + 1]) {
        PrefixMono(d, i, p - 1);
      }
      MatchInseparable(d, w, p, q + 1);
    } else if Prod(d[..p]) < Prod(w[..q]) {
      PrefixMono(d, p, p + 1);
      forall j | 1 <= j < q ensures Prod(d[..p + 1]) != Prod(w[..j]) {
        PrefixMono(w, j, q - 1);
      }
      MatchInseparable(d, w, p + 1, q);
    }
  }

  lemma FirstInseparable(d: seq<int>, w: seq<int>)
    requires Positive(d) && Positive(w) && Prod(d) == Prod(w) && d != [] && w != []
    ensures var (p, q) := Match(d, w, 1, 1); Inseparable(d[..p], w[..q])
  {
    hide Prod, Match;
    MatchInseparable(d, w, 1, 1);
    var (p, q) := Match(d, w, 1, 1);
    forall i, j | 1 <= i <= p && 1 <= j <= q && (i < p || j < q) ensures Prod(d[..p][..i]) != Prod(w[..q][..j]) {
      assert d[..p][..i] == d[..i] && w[..q][..j] == w[..j];
    }
  }

  predicate Long(d: seq<int>) { forall i :: 0 <= i < |d| ==> d[i] >= 2 }

  lemma EvenLast(d: seq<int>, s: seq<int>)
    requires |s| == |d| > 0 && Positive(d)
    ensures Prod(d[|d| - 1..]) == d[|d| - 1] && Even(d, s, s[|s| - 1], d[|d| - 1])
  {
    hide Prod, Address;
    var (m, n, x) := (|d| - 1, d[|d| - 1], s[|s| - 1]);
    assert d[m..] == [n] + [] && s[m..] == [x] + [];
    NoProduct();
    ProdFirst(n, []);
    NoAddress([], []);
    forall k | 0 <= k < n ensures Address(d, s, k) == k * x {
      AddressTail(d, s, m, k);
      AddressFirst(n, [], x, [], k);
    }
  }

  /** Old axes that some strides of the new ones can replace are a chain. */
  lemma GroupNeeded(d: seq<int>, s: seq<int>, w: seq<int>, ns: seq<int>)
    requires |s| == |d| > 0 && |ns| == |w| > 0 && Long(d) && Positive(w) && Prod(d) == Prod(w)
    requires SameAddresses(d, s, w, ns) && Inseparable(d, w)
    ensures Chain(d, s)
  {
    hide Prod, Address, SameAddresses, Inseparable, Even, Spaced;
    var (m, unit) := (|d| - 1, s[|s| - 1]);
    EvenLast(d, s);
    assert w[|w|..] == [];
    NoProduct();
    EvenAll(d, s, w, ns, m, |w|, unit, d[m]);
    EvenSpaced(d, s, unit);
    ChainSpaced(d, s);
  }

  lemma AddressHead(a: seq<int>, s: seq<int>, b: seq<int>, t: seq<int>, k: int)
    requires |s| == |a| && |t| == |b| && Positive(a) && Positive(b) && 0 <= k < Prod(a)
    ensures Positive(a + b) && Prod(b) >= 1 && 0 <= k * Prod(b) < Prod(a + b)
    ensures Address(a + b, s + t, k * Prod(b)) == Address(a, s, k)
  {
    hide Prod, CUnravel, Dot;
    ProdPositive(b);
    ProdSplit(a, b);
    UnravelSplit(a, b, k, 0);
    DotConcat(CUnravel(a, k), CUnravel(b, 0), s, t);
    NoAddress(b, t);
    MulMono(0, k, Prod(b));
    MulMono(k + 1, Prod(a), Prod(b));
    assert (k + 1) * Prod(b) == k * Prod(b) + Prod(b);
  }

  lemma SplitAddresses(d: seq<int>, s: seq<int>, w: seq<int>, ns: seq<int>, p: nat, q: nat)
    requires |s| == |d| && |ns| == |w| && p <= |d| && q <= |w| && Positive(d) && Positive(w) && Prod(d) == Prod(w)
    requires Prod(d[..p]) == Prod(w[..q]) && SameAddresses(d, s, w, ns)
    ensures Positive(d[p..]) && Positive(w[q..]) && Prod(d[p..]) == Prod(w[q..])
    ensures SameAddresses(d[..p], s[..p], w[..q], ns[..q]) && SameAddresses(d[p..], s[p..], w[q..], ns[q..])
  {
    hide Prod, Address;
    RestMatches(d, w, p, q);
    PrefixBelow(d, p);
    assert d == d[..p] + d[p..] && s == s[..p] + s[p..] && w == w[..q] + w[q..] && ns == ns[..q] + ns[q..];
    forall k | 0 <= k < Prod(d[..p]) ensures Address(d[..p], s[..p], k) == Address(w[..q], ns[..q], k) {
      AddressHead(d[..p], s[..p], d[p..], s[p..], k);
      AddressHead(w[..q], ns[..q], w[q..], ns[q..], k);
    }
    MulMono(1, Prod(d[..p]), Prod(d[p..]));
    forall k | 0 <= k < Prod(d[p..]) ensures Address(d[p..], s[p..], k) == Address(w[q..], ns[q..], k) {
      AddressTail(d, s, p, k);
      AddressTail(w, ns, q, k);
    }
  }

  lemma {:induction false} ViewNeeded(d: seq<int>, s: seq<int>, w: seq<int>, ns: seq<int>, last: int)
    requires |s| == |d| && |ns| == |w| && Long(d) && Positive(w) && Prod(d) == Prod(w) && SameAddresses(d, s, w, ns)
    ensures ViewStrides(d, s, w, last).Some?
    decreases |w|
  {
    hide Prod, SameAddresses, Inseparable, Chain, Match;
    if w != [] && d != [] {
      var (p, q) := Match(d, w, 1, 1);
      FirstInseparable(d, w);
      SplitAddresses(d, s, w, ns, p, q);
      GroupNeeded(d[..p], s[..p], w[..q], ns[..q]);
      ViewNeeded(d[p..], s[p..], w[q..], ns[q..], s[p - 1]);
    }
  }

  /** With strides `ns` every element of the new shape lies where it lay before. */
  ghost predicate KeepsCells(shape: seq<int>, strides: seq<int>, newShape: seq<int>, ns: seq<int>)
    requires |strides| == |shape| && |ns| == |newShape| && Positive(shape)
  {
    forall c :: InBox(newShape, c) ==> Dot(c, ns) == Dot(CUnravel(shape, CIndex(newShape, c)), strides)
  }

  lemma {:induction false} LongIsLong(shape: seq<int>)
    requires Positive(shape)
    ensures Long(LongShape(shape))
  {
    if shape != [] {
      LongIsLong(shape[1..]);
    }
  }

  /** A copy is made only if no strides at all would keep the elements where they are. */
  lemma CopyOnlyIfNeeded(shape: seq<int>, strides: seq<int>, ews: int, newShape: seq<int>)
    requires |strides| == |shape| && Positive(shape) && Positive(newShape) && Prod(shape) == Prod(newShape)
    ensures NoCopy(shape, strides, ews, newShape).Some?
            <==> exists ns :: |ns| == |newShape| && KeepsCells(shape, strides, newShape, ns)
  {
    hide Prod, CIndex, CUnravel, Dot, ViewStrides, LongShape, LongStrides;
    LongProd(shape);
    if NoCopy(shape, strides, ews, newShape).Some? {
      var ns := NoCopy(shape, strides, ews, newShape).value;
      forall c | InBox(newShape, c) ensures Dot(c, ns) == Dot(CUnravel(shape, CIndex(newShape, c)), strides) {
        ReshapeAddress(shape, strides, ews, newShape, c);
      }
      assert KeepsCells(shape, strides, newShape, ns);
    }
    if ns :| |ns| == |newShape| && KeepsCells(shape, strides, newShape, ns) {
      LongIsLong(shape);
      forall k | 0 <= k < Prod(LongShape(shape))
        ensures Address(LongShape(shape), LongStrides(shape, strides), k) == Address(newShape, ns, k)
      {
        CIndexUnravel(newShape, k);
        LongDot(shape, strides, k);
      }
      ViewNeeded(LongShape(shape), LongStrides(shape, strides), newShape, ns, ews);
    }
  }

  // ---------------------------------------------------------------- two groups

  /** The axes longer than one are a chain. */
  predicate Run(shape: seq<int>, strides: seq<int>)
    requires |strides| == |shape|
  {
    Chain(LongShape(shape), LongStrides(shape, strides))
  }

  /** The stride of the last axis longer than one. */
  function Step(shape: seq<int>, strides: seq<int>): int
    requires |strides| == |shape|
  {
    Last(LongStrides(shape, strides), 0)
  }

  /** The stride left for new axes of size 1. */
  function Last(strides: seq<int>, ews: int): int {
    if strides == [] then ews else strides[|strides| - 1]
  }

  lemma {:induction false} LongConcat(a: seq<int>, s: seq<int>, b: seq<int>, t: seq<int>)
    requires |s| == |a| && |t| == |b|
    ensures LongShape(a + b) == LongShape(a) + LongShape(b)
    ensures LongStrides(a + b, s + t) == LongStrides(a, s) + LongStrides(b, t)
  {
    hide LongShape, LongStrides;
    if a == [] {
      NoLong();
      assert a + b == b && s + t == t;
    } else {
      LongConcat(a[1..], s[1..], b, t);
      assert (a + b)[1..] == a[1..] + b && (s + t)[1..] == s[1..] + t;
      LongCut(a, s);
      LongCut(a + b, s + t);
    }
  }

  /** All of `a` makes up the first group if the first new axis has its size. */
  lemma {:induction false} MatchAll(a: seq<int>, b: seq<int>, w: seq<int>, p: nat)
    requires Long(a) && Long(b) && a != [] && Positive(w) && w != [] && w[0] == Prod(a) && Prod(a + b) == Prod(w)
    requires 1 <= p <= |a| && Positive(a + b)
    ensures Match(a + b, w, p, 1) == (|a|, 1)
    decreases |a| - p
  {
    hide Prod;
    var d := a + b;
    assert w[..1] == [w[0]] + [];
    NoProduct();
    ProdFirst(w[0], []);
    assert d[..p] == a[..p];
    PrefixBelow(a, p);
    if p == |a| {
      assert a[..p] == a;
    } else {
      LaterAxes(a, p);
      MatchAll(a, b, w, p + 1);
    }
  }

  lemma LaterAxes(a: seq<int>, p: nat)
    requires Long(a) && p < |a|
    ensures Prod(a[..p]) < Prod(a)
  {
    hide Prod;
    PrefixBelow(a, p);
    PrefixBelow(a[p..], 1);
    assert a[p..][..1] == [a[p]] + [];
    NoProduct();
    ProdFirst(a[p], []);
    MulMono(2, Prod(a[p..]), Prod(a[..p]));
  }

  /** Two groups of axes reshaped to a matrix: without a copy exactly if each is a run, and
      then with their steps. */
  lemma MatrixView(a: seq<int>, s: seq<int>, b: seq<int>, t: seq<int>, ews: int)
    requires |s| == |a| && |t| == |b| && Positive(a) && Positive(b) && Prod(a) >= 2 && Prod(b) >= 2
    ensures Positive(a + b) && Positive([Prod(a), Prod(b)])
    ensures NoCopy(a + b, s + t, ews, [Prod(a), Prod(b)]) ==
            if Run(a, s) && Run(b, t) then Some([Step(a, s), Step(b, t)]) else None
  {
    hide Prod, LongShape, LongStrides, ViewStrides;
    LongProd(a);
    LongProd(b);
    LongIsLong(a);
    LongIsLong(b);
    ProdSplit(a, b);
    PairProd(Prod(a), Prod(b));
    LongConcat(a, s, b, t);
    LongProd(a + b);
    LongViews(LongShape(a), LongStrides(a, s), LongShape(b), LongStrides(b, t), ews);
  }

  lemma PairProd(m: int, n: int)
    ensures Prod([m, n]) == m * n && Prod([n]) == n
  {
    NoProduct();
    assert [n] == [n] + [] && [m, n] == [m] + [n];
    ProdFirst(n, []);
    ProdFirst(m, [n]);
  }

  lemma LongViews(a: seq<int>, s: seq<int>, b: seq<int>, t: seq<int>, ews: int)
    requires |s| == |a| && |t| == |b| && Long(a) && Long(b) && Prod(a) >= 2 && Prod(b) >= 2
    ensures Positive(a + b) && Positive([Prod(a), Prod(b)]) && Prod(a + b) == Prod([Prod(a), Prod(b)])
    ensures ViewStrides(a + b, s + t, [Prod(a), Prod(b)], ews) ==
            if Chain(a, s) && Chain(b, t) then Some([Last(s, 0), Last(t, 0)]) else None
  {
    hide Prod, Chain, Match, Spaced;
    var (m, n) := (Prod(a), Prod(b));
    var w := [m, n];
    NoProduct();
    ProdSplit(a, b);
    PairProd(m, n);
    MatchAll(a, b, w, 1);
    assert (a + b)[..|a|] == a && (a + b)[|a|..] == b && (s + t)[..|a|] == s && (s + t)[|a|..] == t;
    assert w[..1] == [m] && w[1..] == [n];
    OneLast(m, s[|s| - 1]);
    OneLast(n, t[|t| - 1]);
    SecondView(b, t, n, s[|s| - 1]);
    assert [s[|s| - 1]] + [t[|t| - 1]] == [s[|s| - 1], t[|t| - 1]];
  }

  lemma OneLast(n: int, unit: int)
    ensures Spaced([n], unit) == [unit]
  {
    NoProduct();
    assert [n][1..] == [];
  }

  lemma SecondView(b: seq<int>, t: seq<int>, n: int, last: int)
    requires |t| == |b| && Long(b) && Positive(b) && b != [] && n == Prod(b) >= 2
    ensures Prod(b) == Prod([n]) && Positive([n])
    ensures ViewStrides(b, t, [n], last) == if Chain(b, t) then Some([t[|t| - 1]]) else None
  {
    hide Prod, Chain, Match, Spaced;
    var w := [n];
    PairProd(1, n);
    assert b + [] == b;
    MatchAll(b, [], w, 1);
    OneLast(n, t[|t| - 1]);
    assert b[..|b|] == b && b[|b|..] == [] && t[..|b|] == t && t[|b|..] == [] && w[..1] == w && w[1..] == [];
    var rest := ViewStrides([], [], [], t[|t| - 1]);
    assert rest.Some? && rest.value == [];
    assert [t[|t| - 1]] + [] == [t[|t| - 1]];
  }

  // ---------------------------------------------------------------- reshapeCF

  /** Leaves out the axes of size 1. */
  method DropOnes(shape: seq<int>, strides: seq<int>) returns (d: seq<int>, s: seq<int>)
    requires |strides| == |shape|
    ensures d == LongShape(shape) && s == LongStrides(shape, strides)
  {
    hide LongShape, LongStrides;
    d, s := [], [];
    for oi := 0 to |shape|
      invariant d + LongShape(shape[oi..]) == LongShape(shape)
      invariant s + LongStrides(shape[oi..], strides[oi..]) == LongStrides(shape, strides)
    {
      LongCut(shape[oi..], strides[oi..]);
      LaterPart(shape, oi, 1);
      LaterPart(strides, oi, 1);
      if shape[oi] != 1 {
        assert d + ([shape[oi]] + LongShape(shape[oi + 1..])) == (d + [shape[oi]]) + LongShape(shape[oi + 1..]);
        d, s := d + [shape[oi]], s + [strides[oi]];
      }
    }
    assert shape[|shape|..] == [] && strides[|shape|..] == [];
    NoLong();
  }

  method Length(shape: seq<int>) returns (n: int)
    ensures n == Prod(shape)
  {
    n := 1;
    for i := 0 to |shape|
      invariant n * Prod(shape[i..]) == Prod(shape)
    {
      assert shape[i..] == [shape[i]] + shape[i + 1..];
      ProdFirst(shape[i], shape[i + 1..]);
      Reassociate(n, shape[i], Prod(shape[i + 1..]));
      n := n * shape[i];
    }
    assert shape[|shape|..] == [];
  }

  lemma Reassociate(x: int, y: int, z: int)
    ensures (x * y) * z == x * (y * z)
  {
  }

  lemma PrefixNext(d: seq<int>, p: nat)
    requires p < |d|
    ensures Prod(d[..p + 1]) == Prod(d[..p]) * d[p]
  {
    assert d[..p + 1] == d[..p] + [d[p]];
    ProdSplit(d[..p], [d[p]]);
    assert [d[p]] == [d[p]] + [];
    ProdFirst(d[p], []);
  }

  /** The first group of old and of new axes. */
  method FirstGroup(d: seq<int>, w: seq<int>) returns (p: nat, q: nat)
    requires d != [] && w != [] && Positive(d) && Positive(w) && Prod(d) == Prod(w)
    ensures (p, q) == Match(d, w, 1, 1)
  {
    hide Prod;
    var np, op := w[0], d[0];
    p, q := 1, 1;
    assert d[..0] == [] && w[..0] == [];
    NoProduct();
    PrefixNext(d, 0);
    PrefixNext(w, 0);
    while np != op
      invariant 1 <= p <= |d| && 1 <= q <= |w| && np == Prod(w[..q]) && op == Prod(d[..p])
      invariant Match(d, w, p, q) == Match(d, w, 1, 1)
      decreases |d| - p + |w| - q
    {
      PrefixBelow(d, p);
      PrefixBelow(w, q);
      if np < op {
        PrefixNext(w, q);
        np, q := np * w[q], q + 1;
      } else {
        PrefixNext(d, p);
        op, p := op * d[p], p + 1;
      }
    }
  }

  /** Whether old axes can be combined. */
  method CanCombine(d: seq<int>, s: seq<int>) returns (r: bool)
    requires |s| == |d| > 0
    ensures r <==> Chain(d, s)
  {
    for k := 0 to |d| - 1
      invariant forall j :: 0 <= j < k ==> s[j] == d[j + 1] * s[j + 1]
    {
      if s[k] != d[k + 1] * s[k + 1] {
        return false;
      }
    }
    return true;
  }

  /** The strides of the new axes of a group, from the last one on. */
  method GroupStrides(w: seq<int>, unit: int) returns (strides: seq<int>)
    requires w != []
    ensures strides == Spaced(w, unit)
  {
    var k := |w| - 1;
    strides := [unit];
    assert w[k..] == [w[k]] && w[k..][1..] == [];
    while k > 0
      invariant 0 <= k < |w| && strides == Spaced(w[k..], unit)
    {
      SpacedFirst(w[k..], unit);
      assert w[k - 1..][1..] == w[k..];
      Reorder(w[k], unit, Prod(w[k..][1..]));
      strides := [strides[0] * w[k]] + strides;
      k := k - 1;
    }
    assert w[0..] == w;
  }

  /** The new strides computed so far, and those of the axes still to come. */
  function Continue(done: seq<int>, rest: Option<seq<int>>): Option<seq<int>> {
    if rest.None? then None else Some(done + rest.value)
  }

  lemma NextGroup(d: seq<int>, s: seq<int>, w: seq<int>, last: int, done: seq<int>)
    requires |s| == |d| > 0 && w != [] && Positive(d) && Positive(w) && Prod(d) == Prod(w)
    ensures var (p, q) := Match(d, w, 1, 1);
            && Positive(d[p..]) && Positive(w[q..]) && Prod(d[p..]) == Prod(w[q..])
            && Continue(done, ViewStrides(d, s, w, last)) ==
               if Chain(d[..p], s[..p])
               then Continue(done + Spaced(w[..q], s[p - 1]), ViewStrides(d[p..], s[p..], w[q..], s[p - 1]))
               else None
  {
    hide Prod, Chain, Match, Spaced;
    var (p, q) := Match(d, w, 1, 1);
    RestMatches(d, w, p, q);
    var rest := ViewStrides(d[p..], s[p..], w[q..], s[p - 1]);
    if rest.Some? {
      assert done + (Spaced(w[..q], s[p - 1]) + rest.value) == (done + Spaced(w[..q], s[p - 1])) + rest.value;
    }
  }

  /** reshapeCF for row-major order: None for other lengths and for arrays without elements. */
  method ReshapeCF(oldShape: seq<int>, oldStrides: seq<int>, ews: int, newShape: seq<int>)
    returns (r: Option<seq<int>>)
    requires |oldStrides| == |oldShape|
    requires forall i :: 0 <= i < |oldShape| ==> oldShape[i] >= 0
    requires forall i :: 0 <= i < |newShape| ==> newShape[i] >= 0
    ensures Positive(oldShape) && Positive(newShape) ==> r == NoCopy(oldShape, oldStrides, ews, newShape)
    ensures !Positive(oldShape) || !Positive(newShape) ==> r == None
  {
    var d, s := DropOnes(oldShape, oldStrides);
    var np := Length(newShape);
    var op := Length(d);
    LongProd(oldShape);
    if np != op || np == 0 {
      if np == op {
        PositiveIff(newShape);
      } else {
        PositiveIff(oldShape);
        PositiveIff(newShape);
      }
      return None;
    }
    PositiveIff(oldShape);
    PositiveIff(newShape);
    r := Groups(d, s, newShape, ews);
  }

  lemma {:induction false} PositiveIff(shape: seq<int>)
    requires forall i :: 0 <= i < |shape| ==> shape[i] >= 0
    ensures Prod(shape) >= 0 && (Prod(shape) == 0 <==> !Positive(shape))
  {
    if shape != [] {
      PositiveIff(shape[1..]);
      MulMono(0, shape[0], Prod(shape[1..]));
      if shape[0] >= 1 {
        MulMono(1, shape[0], Prod(shape[1..]));
      }
      assert Positive(shape) <==> shape[0] >= 1 && Positive(shape[1..]) by { PositiveFirst(shape); }
    }
  }

  lemma PositiveFirst(shape: seq<int>)
    requires shape != []
    ensures Positive(shape) <==> shape[0] >= 1 && Positive(shape[1..])
  {
    assert forall i :: 0 < i < |shape| ==> shape[i] == shape[1..][i - 1];
  }

  /** The loop over groups of axes. */
  method Groups(d: seq<int>, s: seq<int>, w: seq<int>, ews: int) returns (r: Option<seq<int>>)
    requires |s| == |d| && Positive(d) && Positive(w) && Prod(d) == Prod(w)
    ensures r == ViewStrides(d, s, w, ews)
  {
    hide Prod, Chain, Match, Spaced, ViewStrides, Continue;
    var oi, ni, newStrides := 0, 0, [];
    assert d[0..] == d && s[0..] == s && w[0..] == w;
    Begun(ViewStrides(d, s, w, ews));
    while ni < |w| && oi < |d|
      invariant 0 <= oi <= |d| && 0 <= ni <= |w| && |newStrides| == ni
      invariant Positive(d[oi..]) && Positive(w[ni..]) && Prod(d[oi..]) == Prod(w[ni..])
      invariant Continue(newStrides, ViewStrides(d[oi..], s[oi..], w[ni..], Last(newStrides, ews)))
          == ViewStrides(d, s, w, ews)
      decreases |w| - ni
    {
      NextGroup(d[oi..], s[oi..], w[ni..], Last(newStrides, ews), newStrides);
      var p, q := FirstGroup(d[oi..], w[ni..]);
      var combine := CanCombine(d[oi..][..p], s[oi..][..p]);
      if !combine {
        return None;
      }
      var unit := s[oi + p - 1];
      var strides := GroupStrides(w[ni..][..q], unit);
      SpacedLast(w[ni..][..q], unit);
      LaterPart(d, oi, p);
      LaterPart(s, oi, p);
      LaterPart(w, ni, q);
      newStrides := newStrides + strides;
      oi, ni := oi + p, ni + q;
    }
    NoGroup(d[oi..], s[oi..], w[ni..], Last(newStrides, ews), newStrides);
    return Some(newStrides + seq(|w| - ni, _ => Last(newStrides, ews)));
  }

  lemma LaterPart(s: seq<int>, i: nat, p: nat)
    requires i + p <= |s|
    ensures s[i..][p..] == s[i + p..]
  {
  }

  lemma NoGroup(d: seq<int>, s: seq<int>, w: seq<int>, last: int, done: seq<int>)
    requires |s| == |d| && Positive(d) && Positive(w) && Prod(d) == Prod(w) && (d == [] || w == [])
    ensures Continue(done, ViewStrides(d, s, w, last)) == Some(done + seq(|w|, _ => last))
  {
    hide Prod;
    assert ViewStrides(d, s, w, last).value == seq(|w|, _ => last);
  }

  lemma Begun(r: Option<seq<int>>)
    ensures Continue([], r) == r
  {
    if r.Some? {
      assert [] + r.value == r.value;
    }
  }

  lemma {:induction false} SpacedLast(shape: seq<int>, unit: int)
    requires shape != []
    ensures Spaced(shape, unit)[|shape| - 1] == unit
  {
    if |shape| > 1 {
      SpacedLast(shape[1..], unit);
    } else {
      NoProduct();
      assert shape[1..] == [];
    }
  }
}
