/** Sorting axes by stride: the quicksort with an explicit interval stack and a moving hole. */
module StrideSort {

  datatype StridePermutation = StridePermutation(perm: int, stride: int)

  const MAX_LEVELS := 300
  const INT_MAX := 0x7fff_ffff

  type Axes = seq<StridePermutation>

  ghost predicate Sorted(s: Axes) {
    forall p, q :: 0 <= p < q < |s| ==> s[p].stride <= s[q].stride
  }

  // ---------------------------------------------------------------- one partition

  /** Everything left of `m` in [lo, hi) is at most s[m], everything right of it at least. */
  ghost predicate SplitAt(s: Axes, lo: int, m: int, hi: int)
    requires 0 <= lo <= m < hi <= |s|
  {
    && (forall p :: lo <= p < m ==> s[p].stride <= s[m].stride)
    && (forall p :: m < p < hi ==> s[m].stride <= s[p].stride)
  }

  /** `t` rearranges the cells [lo, hi) of `s` and nothing else. */
  ghost predicate RangePermuted(s: Axes, t: Axes, lo: int, hi: int)
    requires 0 <= lo <= hi <= |s|
  {
    && |t| == |s| && t[..lo] == s[..lo] && t[hi..] == s[hi..]
    && multiset(t[lo..hi]) == multiset(s[lo..hi])
  }

  lemma SamePermuted(s: Axes, lo: int, hi: int)
    requires 0 <= lo <= hi <= |s|
    ensures RangePermuted(s, s, lo, hi)
  {
  }

  lemma SwapPermutes(s: Axes, t: Axes, lo: int, hi: int, i: int, j: int)
    requires 0 <= lo <= i < hi <= |s| && lo <= j < hi
    requires RangePermuted(s, t, lo, hi)
    ensures RangePermuted(s, t[i := t[j]][j := t[i]], lo, hi)
  {
    var u := t[i := t[j]][j := t[i]];
    assert u[lo..hi] == t[lo..hi][i - lo := t[j]][j - lo := t[i]];
    assert u[..lo] == t[..lo] && u[hi..] == t[hi..];
  }

  /** Cell `from` moves into the hole and becomes the hole. */
  lemma HoleMoves(s: Axes, t: Axes, piv: StridePermutation, lo: int, hi: int, hole: int, from: int)
    requires 0 <= lo <= hole < hi <= |s| == |t| && lo <= from < hi && from != hole
    requires RangePermuted(s, t[hole := piv], lo, hi)
    ensures RangePermuted(s, t[hole := t[from]][from := piv], lo, hi)
  {
    hide RangePermuted;
    SwapPermutes(s, t[hole := piv], lo, hi, hole, from);
    assert t[hole := piv][hole := t[from]][from := piv] == t[hole := t[from]][from := piv];
  }

  /** The hole moves between L and R; with the pivot put back into it the cells are always a
      rearrangement of the original ones. */
  method Partition(arr: array<StridePermutation>, lo: int, hi: int) returns (m: int)
    requires 0 <= lo && lo + 1 < hi <= arr.Length
    modifies arr
    ensures lo <= m < hi && SplitAt(arr[..], lo, m, hi)
    ensures RangePermuted(old(arr[..]), arr[..], lo, hi)
  {
    hide RangePermuted;
    var L, R := lo, hi - 1;
    var piv := arr[L];
    ghost var start := arr[..];
    SamePermuted(start, lo, hi);
    assert arr[..][L := piv] == start;
    while L < R
      invariant lo <= L <= R < hi
      invariant RangePermuted(start, arr[..][L := piv], lo, hi)
      invariant forall p :: lo <= p < L ==> arr[p].stride <= piv.stride
      invariant forall p :: R < p < hi ==> piv.stride <= arr[p].stride
      decreases R - L
    {
      ghost var R0 := R;
      while arr[R].stride >= piv.stride && L < R
        invariant lo <= L <= R <= R0
        invariant forall p :: R < p < hi ==> piv.stride <= arr[p].stride
        decreases R - L
      {
        R := R - 1;
      }
      ghost var hole := L;
      if L < R {
        HoleMoves(start, arr[..], piv, lo, hi, L, R);
        ghost var moved := arr[..][L := arr[R]];
        arr[L] := arr[R];
        assert arr[..] == moved;
        L := L + 1;
        hole := R;
      }
      while arr[L].stride <= piv.stride && L < R
        invariant lo <= L <= R
        invariant hole == R || L == R
        invariant RangePermuted(start, arr[..][hole := piv], lo, hi)
        invariant forall p :: lo <= p < L ==> arr[p].stride <= piv.stride
        decreases R - L
      {
        L := L + 1;
      }
      if L < R {
        HoleMoves(start, arr[..], piv, lo, hi, R, L);
        ghost var moved := arr[..][R := arr[L]];
        arr[R] := arr[L];
        assert arr[..] == moved;
        R := R - 1;
      }
    }
    arr[L] := piv;
    m := L;
  }

  // ---------------------------------------------------------------- the interval stack

  /** Half-open intervals still to be sorted; the last one is the top. */
  type Stack = seq<(int, int)>

  function Size(iv: (int, int)): nat {
    if iv.1 < iv.0 then 0 else iv.1 - iv.0
  }

  function Pow2(k: nat): (p: nat)
    ensures p >= 1
  {
    if k == 0 then 1 else 2 * Pow2(k - 1)
  }

  /** What is left to do: every interval costs a pop, every cell a split and a pop more. */
  function Work(stack: Stack): nat {
    if stack == [] then 0
    else Work(stack[..|stack| - 1]) + 2 * Size(stack[|stack| - 1]) + 1
  }

  lemma WorkPush(stack: Stack, iv: (int, int))
    ensures Work(stack + [iv]) == Work(stack) + 2 * Size(iv) + 1
  {
    assert (stack + [iv])[..|stack|] == stack;
  }

  /** Two cells lie in one interval that is still to be sorted. */
  ghost predicate Together(stack: Stack, p: int, q: int) {
    exists k :: 0 <= k < |stack| && stack[k].0 <= p && q < stack[k].1
  }

  /** Intervals inside [0, n) that do not overlap, each at most n / 2^level long. */
  ghost predicate WellStacked(stack: Stack, n: nat) {
    && (forall k :: 0 <= k < |stack| ==> 0 <= stack[k].0 && stack[k].1 <= n)
    && (forall j, k :: 0 <= j < k < |stack| ==> Apart(stack[j], stack[k]))
    && (forall k :: 0 <= k < |stack| ==> Size(stack[k]) * Pow2(k) <= n)
  }

  predicate Apart(a: (int, int), b: (int, int)) { a.1 <= b.0 || b.1 <= a.0 }

  /** Cells not in a common interval are already in order. */
  ghost predicate OrderedApart(s: Axes, stack: Stack, n: nat)
    requires n <= |s|
  {
    forall p, q :: 0 <= p < q < n ==> s[p].stride <= s[q].stride || Together(stack, p, q)
  }

  lemma TogetherPop(stack: Stack, p: int, q: int)
    requires stack != [] && Size(stack[|stack| - 1]) <= 1 && p < q && Together(stack, p, q)
    ensures Together(stack[..|stack| - 1], p, q)
  {
    var rest := stack[..|stack| - 1];
    var k :| 0 <= k < |stack| && stack[k].0 <= p && q < stack[k].1;
    assert rest[k] == stack[k];
  }

  lemma PopOrdered(s: Axes, stack: Stack, n: nat)
    requires n <= |s| && stack != [] && OrderedApart(s, stack, n) && Size(stack[|stack| - 1]) <= 1
    ensures OrderedApart(s, stack[..|stack| - 1], n)
  {
    forall p, q | 0 <= p < q < n && Together(stack, p, q) ensures Together(stack[..|stack| - 1], p, q) {
      TogetherPop(stack, p, q);
    }
  }

  /** The two parts of a split interval, the smaller one on top. */
  function Split(stack: Stack, m: int): Stack
    requires stack != []
  {
    var (lo, hi) := stack[|stack| - 1];
    var rest := stack[..|stack| - 1];
    if hi - (m + 1) > m - lo then rest + [(m + 1, hi), (lo, m)] else rest + [(lo, m), (m + 1, hi)]
  }

  lemma SplitStacked(stack: Stack, m: int, n: nat)
    requires stack != [] && WellStacked(stack, n)
    requires stack[|stack| - 1].0 <= m < stack[|stack| - 1].1
    ensures WellStacked(Split(stack, m), n)
  {
    hide Pow2;
    var split, i := Split(stack, m), |stack| - 1;
    SplitSizes(stack, m, n);
    assert forall k :: 0 <= k < i ==> split[k] == stack[k];
    forall j, k | 0 <= j < k < |split| ensures Apart(split[j], split[k]) {
      assert j < i ==> Apart(stack[j], stack[i]);
      assert k < i ==> Apart(stack[j], stack[k]);
    }
  }

  /** The part put on top is at most half of the interval it comes from. */
  lemma SplitSizes(stack: Stack, m: int, n: nat)
    requires stack != [] && stack[|stack| - 1].0 <= m < stack[|stack| - 1].1
    requires Size(stack[|stack| - 1]) * Pow2(|stack| - 1) <= n
    ensures var split, i := Split(stack, m), |stack| - 1;
            Size(split[i]) * Pow2(i) <= n && Size(split[i + 1]) * Pow2(i + 1) <= n
  {
    var split, i := Split(stack, m), |stack| - 1;
    MulLe(Size(split[i]), Size(stack[i]), Pow2(i));
    HalfLe(Size(split[i + 1]), Size(stack[i]), Pow2(i), Pow2(i + 1));
  }

  lemma HalfLe(a: nat, b: nat, p: nat, p2: nat)
    requires 2 * a <= b && p2 == 2 * p
    ensures a * p2 <= b * p
  {
    MulLe(2 * a, b, p);
    assert a * p2 == (2 * a) * p;
  }

  lemma SplitWorks(stack: Stack, m: int)
    requires stack != [] && stack[|stack| - 1].0 <= m < stack[|stack| - 1].1
    ensures Work(Split(stack, m)) < Work(stack)
  {
    var rest, split, i := stack[..|stack| - 1], Split(stack, m), |stack| - 1;
    assert split == rest + [split[i]] + [split[i + 1]];
    WorkPush(rest, split[i]);
    WorkPush(rest + [split[i]], split[i + 1]);
  }

  lemma MulLe(a: nat, b: nat, c: nat)
    requires a <= b
    ensures a * c <= b * c
  {
  }

  /** Rearranging one interval cannot put it out of order with cells outside it. */
  lemma PermutedBound(s: Axes, t: Axes, lo: int, hi: int, x: int, p: int)
    requires 0 <= lo <= p < hi <= |s| && RangePermuted(s, t, lo, hi)
    ensures (forall i :: lo <= i < hi ==> s[i].stride <= x) ==> t[p].stride <= x
    ensures (forall i :: lo <= i < hi ==> x <= s[i].stride) ==> x <= t[p].stride
  {
    assert t[lo..hi][p - lo] in multiset(t[lo..hi]);
    assert t[p] in multiset(s[lo..hi]);
    var i :| 0 <= i < hi - lo && s[lo..hi][i] == t[p];
    assert s[lo + i] == t[p];
  }

  lemma SplitOrdered(s: Axes, t: Axes, stack: Stack, m: int, n: nat)
    requires n <= |s| && stack != [] && WellStacked(stack, n) && OrderedApart(s, stack, n)
    requires var (lo, hi) := stack[|stack| - 1]; lo <= m < hi && RangePermuted(s, t, lo, hi) && SplitAt(t, lo, m, hi)
    ensures OrderedApart(t, Split(stack, m), n)
  {
    hide WellStacked, Together, RangePermuted, SplitAt, OrderedApart;
    TopInside(stack, n);
    PermutedLength(s, t, stack[|stack| - 1].0, stack[|stack| - 1].1);
    forall p, q | 0 <= p < q < n ensures t[p].stride <= t[q].stride || Together(Split(stack, m), p, q) {
      SplitOrderedAt(s, t, stack, m, n, p, q);
    }
    assert OrderedApart(t, Split(stack, m), n) by { OrderedIf(t, Split(stack, m), n); }
  }

  lemma PermutedLength(s: Axes, t: Axes, lo: int, hi: int)
    requires 0 <= lo <= hi <= |s| && RangePermuted(s, t, lo, hi)
    ensures |t| == |s|
    ensures forall i :: 0 <= i < lo || hi <= i < |s| ==> t[i] == s[i]
  {
    assert forall i :: 0 <= i < lo ==> t[i] == t[..lo][i] == s[..lo][i] == s[i];
    assert forall i :: hi <= i < |s| ==> t[i] == t[hi..][i - hi] == s[hi..][i - hi] == s[i];
  }

  lemma OrderedIf(s: Axes, stack: Stack, n: nat)
    requires n <= |s|
    requires forall p, q :: 0 <= p < q < n ==> s[p].stride <= s[q].stride || Together(stack, p, q)
    ensures OrderedApart(s, stack, n)
  {
  }

  /** Cells of a common interval stay together, unless the split parted them. */
  lemma TogetherSplit(stack: Stack, m: int, p: int, q: int)
    requires stack != [] && stack[|stack| - 1].0 <= m < stack[|stack| - 1].1
    requires p < q && Together(stack, p, q)
    ensures Together(Split(stack, m), p, q) || (stack[|stack| - 1].0 <= p <= m <= q < stack[|stack| - 1].1)
  {
    var i, split := |stack| - 1, Split(stack, m);
    var (lo, hi) := stack[i];
    assert forall k :: 0 <= k < i ==> split[k] == stack[k];
    assert split[i] == (lo, m) || split[i + 1] == (lo, m);
    assert split[i] == (m + 1, hi) || split[i + 1] == (m + 1, hi);
  }

  /** A cell of the top interval shares an interval with cells of the top interval only. */
  lemma TopAlone(stack: Stack, n: nat, p: int, q: int)
    requires stack != [] && WellStacked(stack, n) && p < q && Together(stack, p, q)
    ensures var (lo, hi) := stack[|stack| - 1]; lo <= p < hi || lo <= q < hi ==> lo <= p && q < hi
  {
    var i := |stack| - 1;
    forall k | 0 <= k < |stack| && stack[k].0 <= p && q < stack[k].1
      ensures stack[i].0 <= p < stack[i].1 || stack[i].0 <= q < stack[i].1 ==> k == i
    {
      assert k == i || Apart(stack[k], stack[i]);
    }
  }

  lemma SplitOrderedAt(s: Axes, t: Axes, stack: Stack, m: int, n: nat, p: int, q: int)
    requires n <= |s| == |t| && stack != [] && WellStacked(stack, n) && OrderedApart(s, stack, n)
    requires var (lo, hi) := stack[|stack| - 1]; lo <= m < hi && RangePermuted(s, t, lo, hi) && SplitAt(t, lo, m, hi)
    requires 0 <= p < q < n
    ensures t[p].stride <= t[q].stride || Together(Split(stack, m), p, q)
  {
    hide WellStacked, Together, RangePermuted;
    var (lo, hi) := stack[|stack| - 1];
    TopInside(stack, n);
    PermutedLength(s, t, lo, hi);
    if Together(stack, p, q) {
      TogetherSplit(stack, m, p, q);
    } else if lo <= p < hi <= q {
      forall i | lo <= i < hi ensures s[i].stride <= s[q].stride {
        TopApart(stack, n, i, q);
      }
      PermutedBound(s, t, lo, hi, s[q].stride, p);
    } else if p < lo <= q < hi {
      forall i | lo <= i < hi ensures s[p].stride <= s[i].stride {
        TopApart(stack, n, p, i);
      }
      PermutedBound(s, t, lo, hi, s[p].stride, q);
    } else if lo <= p && q < hi && !(p <= m <= q) {
      SplitHalf(stack, m, p, q);
    }
  }

  lemma TopApart(stack: Stack, n: nat, p: int, q: int)
    requires stack != [] && WellStacked(stack, n) && p < q
    requires var (lo, hi) := stack[|stack| - 1]; lo <= p < hi <= q || p < lo <= q < hi
    ensures !Together(stack, p, q)
  {
    hide WellStacked, Together;
    if Together(stack, p, q) {
      TopAlone(stack, n, p, q);
    }
  }

  lemma SplitHalf(stack: Stack, m: int, p: int, q: int)
    requires stack != [] && var (lo, hi) := stack[|stack| - 1]; lo <= p < q < hi && lo <= m < hi && !(p <= m <= q)
    ensures Together(Split(stack, m), p, q)
  {
    var i, split := |stack| - 1, Split(stack, m);
    var (lo, hi) := stack[i];
    var half := if q < m then (lo, m) else (m + 1, hi);
    var k := if split[i] == half then i else i + 1;
    assert split[k] == half;
  }

  lemma TopInside(stack: Stack, n: nat)
    requires stack != [] && WellStacked(stack, n)
    ensures 0 <= stack[|stack| - 1].0 && stack[|stack| - 1].1 <= n
  {
  }

  // ---------------------------------------------------------------- the sort

  /** The two arrays hold the stack. */
  ghost predicate Holds(beg: array<int>, end: array<int>, stack: Stack)
    reads beg, end
  {
    && |stack| <= beg.Length && |stack| <= end.Length
    && forall k :: 0 <= k < |stack| ==> beg[k] == stack[k].0 && end[k] == stack[k].1
  }

  /** Replaces the top interval by its two parts, the smaller one on top. */
  method SplitStack(beg: array<int>, end: array<int>, i: int, m: int, ghost stack: Stack)
    requires beg != end && 0 <= i && i + 1 == |stack| < beg.Length == end.Length && Holds(beg, end, stack)
    modifies beg, end
    ensures Holds(beg, end, Split(stack, m)) && |Split(stack, m)| == i + 2
  {
    ghost var (lo, hi) := stack[i];
    beg[i + 1], end[i + 1] := m + 1, end[i];
    end[i] := m;
    if end[i + 1] - beg[i + 1] > end[i] - beg[i] {
      beg[i + 1], beg[i] := beg[i], beg[i + 1];
      end[i + 1], end[i] := end[i], end[i + 1];
    }
  }

  /** One pass over an interval of two or more cells keeps what the loop keeps. */
  lemma SplitStep(start: Axes, s: Axes, t: Axes, stack: Stack, m: int, n: nat)
    requires n <= |start| == |s| && stack != [] && WellStacked(stack, n) && OrderedApart(s, stack, n)
    requires RangePermuted(start, s, 0, n)
    requires var (lo, hi) := stack[|stack| - 1];
             0 <= lo <= m < hi <= n && RangePermuted(s, t, lo, hi) && |t| == |s| && SplitAt(t, lo, m, hi)
    ensures WellStacked(Split(stack, m), n) && OrderedApart(t, Split(stack, m), n) && RangePermuted(start, t, 0, n)
    ensures Work(Split(stack, m)) < Work(stack)
  {
    hide WellStacked, OrderedApart, RangePermuted, Work, SplitAt, Split;
    SplitOrdered(s, t, stack, m, n);
    SplitStacked(stack, m, n);
    SplitWorks(stack, m);
    WidenPermuted(start, s, t, stack[|stack| - 1].0, stack[|stack| - 1].1, n);
  }

  /** So does dropping an interval of fewer. */
  lemma PopStep(s: Axes, stack: Stack, n: nat)
    requires n <= |s| && stack != [] && WellStacked(stack, n) && OrderedApart(s, stack, n)
    requires Size(stack[|stack| - 1]) <= 1
    ensures var rest := stack[..|stack| - 1]; WellStacked(rest, n) && OrderedApart(s, rest, n) && Work(rest) < Work(stack)
  {
    hide WellStacked, OrderedApart, Work;
    var rest := stack[..|stack| - 1];
    PopOrdered(s, stack, n);
    PopStacked(stack, n);
    WorkPush(rest, stack[|stack| - 1]);
    assert stack == rest + [stack[|stack| - 1]];
  }

  /** Sorts the first `elements` entries. The stack never grows past level log2(elements),
      so the fixed arrays are large enough for every int-sized input. */
  method QuickSort(arr: array<StridePermutation>, elements: int) returns (ghost top: nat)
    requires elements <= arr.Length && elements <= INT_MAX
    modifies arr
    ensures var n := if elements < 0 then 0 else elements;
            Sorted(arr[..n]) && RangePermuted(old(arr[..]), arr[..], 0, n)
    ensures top == 0 || Pow2(top) <= elements
  {
    hide WellStacked, OrderedApart, RangePermuted, Work, SplitAt, Sorted, Pow2, Split;
    var beg, end := new int[MAX_LEVELS], new int[MAX_LEVELS];
    var i := 0;
    beg[0], end[0] := 0, elements;
    top := 0;
    ghost var n: nat := if elements < 0 then 0 else elements;
    ghost var stack: Stack := [(0, elements)];
    ghost var start := arr[..];
    StackStarts(start, elements);
    while i >= 0
      invariant -1 <= i <= top < MAX_LEVELS && i + 1 == |stack|
      invariant top == 0 || Pow2(top) <= n
      invariant Holds(beg, end, stack) && WellStacked(stack, n)
      invariant OrderedApart(arr[..], stack, n)
      invariant RangePermuted(start, arr[..], 0, n)
      decreases Work(stack)
    {
      var L, R := beg[i], end[i] - 1;
      if L < R {
        TopInside(stack, n);
        LevelBound(stack, n);
        ghost var before := arr[..];
        var m := Partition(arr, L, R + 1);
        SplitStep(start, before, arr[..], stack, m, n);
        SplitStack(beg, end, i, m, stack);
        stack := Split(stack, m);
        i := i + 1;
        top := if i > top then i else top;
      } else {
        PopStep(arr[..], stack, n);
        stack := stack[..i];
        i := i - 1;
      }
    }
    assert arr[..n] == arr[..][..n];
    NothingLeft(arr[..], n);
  }

  lemma StackStarts(s: Axes, elements: int)
    requires elements <= |s|
    ensures var n: nat := if elements < 0 then 0 else elements;
            WellStacked([(0, elements)], n) && OrderedApart(s, [(0, elements)], n) && RangePermuted(s, s, 0, n)
  {
    var stack := [(0, elements)];
    forall p, q | 0 <= p < q < elements ensures Together(stack, p, q) {
      assert stack[0].0 <= p && q < stack[0].1;
    }
  }

  lemma PopStacked(stack: Stack, n: nat)
    requires stack != [] && WellStacked(stack, n)
    ensures WellStacked(stack[..|stack| - 1], n)
  {
  }

  lemma NothingLeft(s: Axes, n: nat)
    requires n <= |s| && OrderedApart(s, [], n)
    ensures Sorted(s[..n])
  {
  }

  /** An interval of two or more cells is at a level below log2(n). */
  lemma LevelBound(stack: Stack, n: nat)
    requires stack != [] && WellStacked(stack, n) && n <= INT_MAX && Size(stack[|stack| - 1]) >= 2
    ensures Pow2(|stack|) <= n && |stack| < MAX_LEVELS
  {
    var i := |stack| - 1;
    MulLe(2, Size(stack[i]), Pow2(i));
    assert Pow2(8) == 256;
    assert Pow2(16) == 65536;
    assert Pow2(24) == 0x100_0000;
    assert Pow2(31) == 0x8000_0000;
    if |stack| > 31 {
      Pow2Mono(31, |stack|);
    }
  }

  lemma {:induction false} Pow2Mono(k: nat, m: nat)
    requires k <= m
    ensures Pow2(k) <= Pow2(m)
  {
    if k < m {
      Pow2Mono(k, m - 1);
    }
  }

  lemma WidenPermuted(s: Axes, t: Axes, u: Axes, lo: int, hi: int, n: nat)
    requires 0 <= lo <= hi <= n <= |s| && RangePermuted(s, t, 0, n) && RangePermuted(t, u, lo, hi)
    ensures RangePermuted(s, u, 0, n)
  {
    assert t[0..n] == t[..lo] + t[lo..hi] + t[hi..][..n - hi];
    assert u[0..n] == u[..lo] + u[lo..hi] + u[hi..][..n - hi];
    assert u[n..] == u[hi..][n - hi..] == t[hi..][n - hi..] == t[n..];
  }

  // ---------------------------------------------------------------- axes by stride

  /** Each axis with its stride. */
  function Tagged(strides: seq<int>): Axes {
    seq(|strides|, i requires 0 <= i < |strides| => StridePermutation(i, strides[i]))
  }

  /** `t` lists every axis once, next to its own stride, in ascending order of stride. */
  ghost predicate AxesByStride(strides: seq<int>, t: Axes) {
    && |t| == |strides| && Sorted(t)
    && (forall k :: 0 <= k < |t| ==> 0 <= t[k].perm < |strides| && t[k].stride == strides[t[k].perm])
    && (forall j, k :: 0 <= j < k < |t| ==> t[j].perm != t[k].perm)
    && (forall i :: 0 <= i < |strides| ==> StridePermutation(i, strides[i]) in t)
  }

  method SortStrideArray(ndim: int, strides: array<int>, outStrideperm: array<StridePermutation>)
    requires 0 <= ndim <= strides.Length && ndim <= outStrideperm.Length && ndim <= INT_MAX
    modifies outStrideperm
    ensures AxesByStride(strides[..ndim], outStrideperm[..ndim])
    ensures outStrideperm[ndim..] == old(outStrideperm[ndim..])
  {
    for i := 0 to ndim
      invariant outStrideperm[..i] == Tagged(strides[..ndim])[..i]
      invariant outStrideperm[ndim..] == old(outStrideperm[ndim..])
    {
      outStrideperm[i] := StridePermutation(i, strides[i]);
    }
    ghost var before := outStrideperm[..];
    ghost var top := QuickSort(outStrideperm, ndim);
    assert before[0..ndim] == Tagged(strides[..ndim]);
    assert outStrideperm[0..ndim] == outStrideperm[..ndim] == outStrideperm[..][0..ndim];
    RearrangedTags(strides[..ndim], outStrideperm[..ndim]);
  }

  lemma RearrangedTags(strides: seq<int>, t: Axes)
    requires multiset(t) == multiset(Tagged(strides)) && Sorted(t)
    ensures AxesByStride(strides, t)
  {
    var tagged := Tagged(strides);
    assert |t| == |multiset(t)| == |multiset(tagged)| == |tagged|;
    forall k | 0 <= k < |t| ensures 0 <= t[k].perm < |strides| && t[k].stride == strides[t[k].perm] {
      assert t[k] in multiset(tagged);
    }
    forall i | 0 <= i < |strides| ensures StridePermutation(i, strides[i]) in t {
      assert tagged[i] in multiset(t);
    }
    forall j, k | 0 <= j < k < |t| ensures t[j].perm != t[k].perm {
      if t[j] == t[k] {
        Twice(t, j, k);
        Once(tagged, t[j]);
      }
    }
  }

  lemma Twice(t: Axes, j: int, k: int)
    requires 0 <= j < k < |t| && t[j] == t[k]
    ensures multiset(t)[t[j]] >= 2
  {
    assert t == t[..k] + [t[k]] + t[k + 1..];
    assert t[j] in t[..k];
  }

  lemma {:induction false} Once(t: Axes, x: StridePermutation)
    requires forall j, k :: 0 <= j < k < |t| ==> t[j] != t[k]
    ensures multiset(t)[x] <= 1
  {
    if t != [] {
      var rest, last := t[..|t| - 1], t[|t| - 1];
      Once(rest, x);
      assert t == rest + [last];
      if x == last {
        assert x !in rest;
      }
    }
  }

  function Abs(x: int): nat { if x < 0 then -x else x }

  /** The order the comment on SortStrideArray promises. */
  ghost predicate DescendingByMagnitude(t: Axes) {
    forall p, q :: 0 <= p < q < |t| ==> Abs(t[p].stride) >= Abs(t[q].stride)
  }

  /** The promised order comes out if and only if any two different strides sum to at most
      zero: a positive stride spoils it unless every smaller one outweighs it. */
  lemma DocumentedOrderIff(strides: seq<int>, t: Axes)
    requires AxesByStride(strides, t)
    ensures DescendingByMagnitude(t) <==>
            forall i, j :: 0 <= i < |strides| && 0 <= j < |strides| && strides[i] < strides[j] ==>
              strides[i] + strides[j] <= 0
  {
    hide AxesByStride, DescendingByMagnitude;
    if DescendingByMagnitude(t) {
      forall i, j | 0 <= i < |strides| && 0 <= j < |strides| && strides[i] < strides[j]
        ensures strides[i] + strides[j] <= 0
      {
        DescendingSums(strides, t, i, j);
      }
    } else {
      var i, j := SpoiltBy(strides, t);
    }
  }

  /** Where an axis is listed. */
  lemma Listed(strides: seq<int>, t: Axes, i: int) returns (p: int)
    requires AxesByStride(strides, t) && 0 <= i < |strides|
    ensures 0 <= p < |t| && t[p].stride == strides[i]
  {
    p :| 0 <= p < |t| && t[p] == StridePermutation(i, strides[i]);
  }

  lemma DescendingSums(strides: seq<int>, t: Axes, i: int, j: int)
    requires AxesByStride(strides, t) && DescendingByMagnitude(t)
    requires 0 <= i < |strides| && 0 <= j < |strides| && strides[i] < strides[j]
    ensures strides[i] + strides[j] <= 0
  {
    var p := Listed(strides, t, i);
    var q := Listed(strides, t, j);
    assert p < q;
  }

  lemma SpoiltBy(strides: seq<int>, t: Axes) returns (i: int, j: int)
    requires AxesByStride(strides, t) && !DescendingByMagnitude(t)
    ensures 0 <= i < |strides| && 0 <= j < |strides| && strides[i] < strides[j] && strides[i] + strides[j] > 0
  {
    var p, q :| 0 <= p < q < |t| && Abs(t[p].stride) < Abs(t[q].stride);
    i, j := t[p].perm, t[q].perm;
    assert t[p].stride <= t[q].stride;
  }

  /** The comment's own example, strides (4, -2, 12), comes out as [(1,-2), (0,4), (2,12)]
      and not as promised. */
  lemma DocumentedExample(t: Axes)
    requires AxesByStride([4, -2, 12], t)
    ensures t == [StridePermutation(1, -2), StridePermutation(0, 4), StridePermutation(2, 12)]
    ensures !DescendingByMagnitude(t)
  {
    var strides := [4, -2, 12];
    assert StridePermutation(0, strides[0]) in t;
    assert StridePermutation(1, strides[1]) in t;
    assert StridePermutation(2, strides[2]) in t;
  }
}
