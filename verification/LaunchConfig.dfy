/** Choosing a CUDA block size: how many blocks of a size fit on a multiprocessor, and the
    search for the size with the highest occupancy. All quantities are non-negative, so the
    source's truncating division is `/`. */
module LaunchConfig {
  import opened Wrappers

  datatype DeviceProp = DeviceProp(
    major: nat, minor: nat, warpSize: nat, maxThreadsPerBlock: nat, maxThreadsPerMultiProcessor: nat,
    sharedMemPerBlock: nat, regsPerBlock: nat)

  datatype FuncAttributes = FuncAttributes(sharedSizeBytes: nat, numRegs: nat, maxThreadsPerBlock: nat)

  function Min(a: nat, b: nat): nat { if b < a then b else a }

  function DivideRi(x: nat, y: nat): nat
    requires y > 0
  {
    (x + (y - 1)) / y
  }

  function RoundI(x: nat, y: nat): nat
    requires y > 0
  {
    y * DivideRi(x, y)
  }

  /** Rounding up reaches the next multiple: no smaller multiple is large enough. */
  lemma RoundsUp(x: nat, y: nat)
    requires y > 0
    ensures RoundI(x, y) % y == 0 && x <= RoundI(x, y) < x + y
    ensures forall m: nat :: x <= m * y ==> RoundI(x, y) <= m * y
  {
    var q := DivideRi(x, y);
    assert x + (y - 1) == q * y + (x + (y - 1)) % y;
    assert (q * y) % y == 0 by { MultipleMod(q, y); }
    forall m: nat | x <= m * y ensures q * y <= m * y {
      if q > m {
        MulLe(m + 1, q, y);
      }
    }
  }

  lemma MultipleMod(q: int, y: nat)
    requires y > 0
    ensures (q * y) % y == 0
  {
    var k, r := (q * y) / y, (q * y) % y;
    assert q * y == k * y + r;
    assert (q - k) * y == r;
    if q > k {
      MulLe(1, q - k, y);
    } else if q < k {
      MulLe(1, k - q, y);
    }
  }

  lemma MulLe(a: int, b: int, c: nat)
    requires a <= b
    ensures a * c <= b * c
  {
  }

  function SmemAllocationUnit(p: DeviceProp): (u: nat)
    ensures u > 0
  {
    match p.major
    case 1 => 512
    case 2 => 128
    case 3 => 256
    case _ => 256
  }

  function RegAllocationUnit(p: DeviceProp, regsPerThread: nat): (u: nat)
    ensures u > 0
  {
    match p.major
    case 1 => if p.minor <= 1 then 256 else 512
    case 2 => if regsPerThread in [21, 22, 29, 30, 37, 38, 45, 46] then 128 else 64
    case 3 => 256
    case _ => 256
  }

  function WarpAllocationMultiple(p: DeviceProp): (m: nat)
    ensures m > 0
  {
    if p.major <= 1 then 2 else 1
  }

  function NumSides(p: DeviceProp): (m: nat)
    ensures m > 0
  {
    match p.major
    case 1 => 1
    case 2 => 2
    case 3 => 4
    case _ => 4
  }

  function MaxBlocks(p: DeviceProp): nat { if p.major <= 2 then 8 else 16 }

  /** Warps a block occupies. */
  function NumWarps(p: DeviceProp, ctaSize: nat): nat
    requires p.warpSize > 0
  {
    RoundI(DivideRi(ctaSize, p.warpSize), WarpAllocationMultiple(p))
  }

  function SmemPerCta(p: DeviceProp, a: FuncAttributes, dynamicSmem: nat): nat {
    RoundI(a.sharedSizeBytes + dynamicSmem, SmemAllocationUnit(p))
  }

  function RegsPerCta(p: DeviceProp, a: FuncAttributes, ctaSize: nat): nat
    requires p.warpSize > 0
  {
    RoundI(a.numRegs * p.warpSize * NumWarps(p, ctaSize), RegAllocationUnit(p, a.numRegs))
  }

  function RegsPerWarp(p: DeviceProp, a: FuncAttributes): nat {
    RoundI(a.numRegs * p.warpSize, RegAllocationUnit(p, a.numRegs))
  }

  lemma SomeWarps(p: DeviceProp, ctaSize: nat)
    requires p.warpSize > 0 && ctaSize > 0
    ensures NumWarps(p, ctaSize) > 0
    ensures NumWarps(p, ctaSize) * p.warpSize >= ctaSize
  {
    var warps := DivideRi(ctaSize, p.warpSize);
    RoundsUp(ctaSize, p.warpSize);
    RoundsUp(warps, WarpAllocationMultiple(p));
    assert p.warpSize * warps >= ctaSize;
    MulLe(warps, NumWarps(p, ctaSize), p.warpSize);
  }

  /** `total` split into shares of `share`; a share of nothing does not limit. */
  function Shares(total: nat, share: nat, unlimited: nat): nat {
    if share > 0 then total / share else unlimited
  }

  /** Limit due to registers: dealt to blocks up to compute capability 1.x, to warps on each
      side of the multiprocessor after that. */
  function LimitRegs(p: DeviceProp, a: FuncAttributes, ctaSize: nat): nat
    requires p.warpSize > 0 && ctaSize > 0
  {
    if p.major <= 1 then Shares(p.regsPerBlock, RegsPerCta(p, a, ctaSize), MaxBlocks(p))
    else if RegsPerWarp(p, a) > 0 then
      SomeWarps(p, ctaSize);
      WarpLimit(p, RegsPerWarp(p, a)) / NumWarps(p, ctaSize)
    else MaxBlocks(p)
  }

  function WarpLimit(p: DeviceProp, regsPerWarp: nat): nat
    requires regsPerWarp > 0
  {
    ((p.regsPerBlock / NumSides(p)) / regsPerWarp) * NumSides(p)
  }

  /** Blocks of `ctaSize` threads that can be active on one multiprocessor. */
  function MaxActiveBlocks(p: DeviceProp, a: FuncAttributes, ctaSize: nat, dynamicSmem: nat): nat
    requires p.warpSize > 0 && ctaSize > 0
  {
    var limitThreads := if ctaSize <= p.maxThreadsPerBlock then p.maxThreadsPerMultiProcessor / ctaSize else 0;
    var limitSmem := Shares(p.sharedMemPerBlock, SmemPerCta(p, a, dynamicSmem), MaxBlocks(p));
    Min(LimitRegs(p, a, ctaSize), Min(limitSmem, Min(limitThreads, MaxBlocks(p))))
  }

  /** `m` is the smallest multiple of `unit` that is at least `x`. */
  ghost predicate LeastMultiple(m: nat, x: nat, unit: nat) {
    (exists k: nat :: m == k * unit) && x <= m && (forall k: nat :: x <= k * unit ==> m <= k * unit)
  }

  /** `n` blocks fit the device at once, said of the fields alone, with the hardware's numbers
      per compute capability: block slots, threads, shared memory and registers. Shared memory
      is given out in units of 512, 128 or 256 bytes, warps in pairs up to 1.x, and registers
      in units of 64 to 512: up to 1.x to a block, from 2.0 on to a warp on one of the 2 or 4
      sides of the multiprocessor, where all warps find a place. */
  ghost predicate Fits(p: DeviceProp, a: FuncAttributes, ctaSize: nat, dynamicSmem: nat, n: nat) {
    && n <= (if p.major <= 2 then 8 else 16)
    && (n > 0 ==> ctaSize <= p.maxThreadsPerBlock)
    && n * ctaSize <= p.maxThreadsPerMultiProcessor
    && SmemFits(p, a.sharedSizeBytes + dynamicSmem, n)
    && exists warps: nat ::
         && LeastWarps(p, ctaSize, warps)
         && if p.major <= 1 then BlocksPlaced(p, a.numRegs, warps, n) else WarpsPlaced(p, a.numRegs, n * warps)
  }

  ghost predicate SmemFits(p: DeviceProp, bytes: nat, n: nat) {
    exists smem: nat ::
      LeastMultiple(smem, bytes, if p.major == 1 then 512 else if p.major == 2 then 128 else 256)
      && n * smem <= p.sharedMemPerBlock
  }

  /** The fewest warps, an even number up to 1.x, that have a thread for each of the block. */
  ghost predicate LeastWarps(p: DeviceProp, ctaSize: nat, warps: nat) {
    && (p.major <= 1 ==> warps % 2 == 0) && ctaSize <= warps * p.warpSize
    && forall w: nat :: (p.major <= 1 ==> w % 2 == 0) && ctaSize <= w * p.warpSize ==> warps <= w
  }

  ghost predicate BlocksPlaced(p: DeviceProp, regsPerThread: nat, warps: nat, n: nat) {
    exists regs: nat ::
      LeastMultiple(regs, regsPerThread * p.warpSize * warps, RegisterUnit(p, regsPerThread))
      && n * regs <= p.regsPerBlock
  }

  ghost predicate WarpsPlaced(p: DeviceProp, regsPerThread: nat, warps: nat) {
    exists regs: nat ::
      LeastMultiple(regs, regsPerThread * p.warpSize, RegisterUnit(p, regsPerThread))
      && OnSides(p.regsPerBlock, if p.major == 2 then 2 else 4, regs, warps)
  }

  /** Warps of `share` registers find a place on the sides, the registers being split evenly. */
  ghost predicate OnSides(total: nat, sides: nat, share: nat, warps: nat)
    requires sides > 0
  {
    exists perSide: nat :: perSide * share <= total / sides && warps <= perSide * sides
  }

  ghost function RegisterUnit(p: DeviceProp, regsPerThread: nat): nat {
    if p.major == 2 then if regsPerThread in {21, 22, 29, 30, 37, 38, 45, 46} then 128 else 64
    else if p.major == 1 && p.minor > 1 then 512 else 256
  }

  /** Division by a positive number counts how often it goes in. */
  lemma GoesIn(n: nat, size: nat, total: nat)
    requires size > 0
    ensures n <= total / size <==> n * size <= total
  {
    var q := total / size;
    assert total == q * size + total % size;
    if n <= q {
      MulLe(n, q, size);
    } else {
      MulLe(q + 1, n, size);
      assert (q + 1) * size == q * size + size;
    }
  }

  lemma RoundIsLeast(m: nat, x: nat, unit: nat)
    requires unit > 0
    ensures LeastMultiple(m, x, unit) <==> m == RoundI(x, unit)
  {
    RoundsUp(x, unit);
    assert RoundI(x, unit) == DivideRi(x, unit) * unit;
    if LeastMultiple(m, x, unit) {
      var k: nat :| m == k * unit;
      assert RoundI(x, unit) <= k * unit;
      assert m <= DivideRi(x, unit) * unit;
    }
  }

  /** Warps are dealt in groups of one or two. */
  lemma WarpsAreLeast(p: DeviceProp, ctaSize: nat, warps: nat)
    requires p.warpSize > 0 && ctaSize > 0
    ensures LeastWarps(p, ctaSize, warps) <==> warps == NumWarps(p, ctaSize)
  {
    hide RoundI, DivideRi;
    var most := NumWarps(p, ctaSize);
    SomeWarps(p, ctaSize);
    RoundsUp(DivideRi(ctaSize, p.warpSize), WarpAllocationMultiple(p));
    forall w: nat | (p.major <= 1 ==> w % 2 == 0) && ctaSize <= w * p.warpSize ensures most <= w {
      EnoughWarps(ctaSize, p.warpSize, w);
      assert w == (w / WarpAllocationMultiple(p)) * WarpAllocationMultiple(p);
    }
  }

  lemma EnoughWarps(x: nat, unit: nat, m: nat)
    requires unit > 0 && x <= m * unit
    ensures DivideRi(x, unit) <= m
  {
    RoundsUp(x, unit);
    if DivideRi(x, unit) > m {
      MulLe(m + 1, DivideRi(x, unit), unit);
    }
  }

  lemma SidesIff(total: nat, sides: nat, share: nat, warps: nat)
    requires sides > 0
    ensures OnSides(total, sides, share, warps) <==> share > 0 ==> warps <= total / sides / share * sides
  {
    if share == 0 {
      MulLe(1, sides, warps);
      assert warps * share <= total / sides && warps <= warps * sides;
    } else {
      var most := total / sides / share;
      GoesIn(most, share, total / sides);
      assert most * share <= total / sides;
      if OnSides(total, sides, share, warps) {
        var perSide: nat :| perSide * share <= total / sides && warps <= perSide * sides;
        GoesIn(perSide, share, total / sides);
        MulLe(perSide, most, sides);
      }
    }
  }

  lemma UnitIs(p: DeviceProp, regsPerThread: nat)
    ensures RegisterUnit(p, regsPerThread) == RegAllocationUnit(p, regsPerThread)
  {
  }

  lemma PlacedIff(p: DeviceProp, a: FuncAttributes, warps: nat)
    requires p.major >= 2
    ensures var regs := RegsPerWarp(p, a);
            WarpsPlaced(p, a.numRegs, warps) <==> regs > 0 ==> warps <= WarpLimit(p, regs)
  {
    hide RoundI, OnSides, LeastMultiple, RegAllocationUnit, RegisterUnit;
    var regs, unit := RegsPerWarp(p, a), RegAllocationUnit(p, a.numRegs);
    forall m: nat ensures LeastMultiple(m, a.numRegs * p.warpSize, unit) <==> m == regs {
      RoundIsLeast(m, a.numRegs * p.warpSize, unit);
    }
    UnitIs(p, a.numRegs);
    assert LeastMultiple(regs, a.numRegs * p.warpSize, RegisterUnit(p, a.numRegs));
    SidesIff(p.regsPerBlock, NumSides(p), regs, warps);
  }

  /** The count is exact: `n` blocks fit if and only if `n` is at most the computed number.
      No limit is exceeded by it, and one block more would exceed one. */
  lemma FitsIff(p: DeviceProp, a: FuncAttributes, ctaSize: nat, dynamicSmem: nat, n: nat)
    requires p.warpSize > 0 && ctaSize > 0
    ensures Fits(p, a, ctaSize, dynamicSmem, n) <==> n <= MaxActiveBlocks(p, a, ctaSize, dynamicSmem)
  {
    hide SmemPerCta, LimitRegs, RegsPerCta, RegsPerWarp, NumWarps, WarpsPlaced, BlocksPlaced, LeastWarps, SmemFits;
    GoesIn(n, ctaSize, p.maxThreadsPerMultiProcessor);
    SmemIff(p, a, dynamicSmem, n);
    WarpsAreLeast(p, ctaSize, NumWarps(p, ctaSize));
    forall w: nat ensures LeastWarps(p, ctaSize, w) <==> w == NumWarps(p, ctaSize) {
      WarpsAreLeast(p, ctaSize, w);
    }
    if n <= MaxBlocks(p) {
      RegsIff(p, a, ctaSize, n);
    }
  }

  lemma SmemIff(p: DeviceProp, a: FuncAttributes, dynamicSmem: nat, n: nat)
    ensures n <= MaxBlocks(p) ==>
              (SmemFits(p, a.sharedSizeBytes + dynamicSmem, n)
               <==> n <= Shares(p.sharedMemPerBlock, SmemPerCta(p, a, dynamicSmem), MaxBlocks(p)))
  {
    hide RoundI;
    var bytes, unit, smem := a.sharedSizeBytes + dynamicSmem, SmemAllocationUnit(p), SmemPerCta(p, a, dynamicSmem);
    forall m: nat ensures LeastMultiple(m, bytes, unit) <==> m == smem {
      RoundIsLeast(m, bytes, unit);
    }
    SharesFit(n, p.sharedMemPerBlock, smem, MaxBlocks(p));
  }

  lemma SharesFit(n: nat, total: nat, share: nat, unlimited: nat)
    ensures n <= unlimited ==> (n <= Shares(total, share, unlimited) <==> n * share <= total)
  {
    if share > 0 {
      GoesIn(n, share, total);
    }
  }

  lemma RegsIff(p: DeviceProp, a: FuncAttributes, ctaSize: nat, n: nat)
    requires p.warpSize > 0 && ctaSize > 0 && n <= MaxBlocks(p)
    ensures n <= LimitRegs(p, a, ctaSize) <==>
            if p.major <= 1 then BlocksPlaced(p, a.numRegs, NumWarps(p, ctaSize), n)
            else WarpsPlaced(p, a.numRegs, n * NumWarps(p, ctaSize))
  {
    hide MaxBlocks, RegsPerWarp, NumWarps, WarpsPlaced, WarpLimit, RoundI, LeastMultiple, RegAllocationUnit, RegisterUnit;
    SomeWarps(p, ctaSize);
    if p.major <= 1 {
      var total, unit := a.numRegs * p.warpSize * NumWarps(p, ctaSize), RegAllocationUnit(p, a.numRegs);
      forall m: nat ensures LeastMultiple(m, total, unit) <==> m == RegsPerCta(p, a, ctaSize) {
        RoundIsLeast(m, total, unit);
      }
      UnitIs(p, a.numRegs);
      assert LeastMultiple(RegsPerCta(p, a, ctaSize), total, RegisterUnit(p, a.numRegs));
      SharesFit(n, p.regsPerBlock, RegsPerCta(p, a, ctaSize), MaxBlocks(p));
    } else {
      var regs := RegsPerWarp(p, a);
      PlacedIff(p, a, n * NumWarps(p, ctaSize));
      if regs > 0 {
        GoesIn(n, NumWarps(p, ctaSize), WarpLimit(p, regs));
      }
    }
  }

  /** Registers over the whole block file: what the active blocks take in total. */
  lemma RegistersFit(p: DeviceProp, a: FuncAttributes, ctaSize: nat, dynamicSmem: nat, warps: nat, regs: nat)
    requires p.warpSize > 0 && ctaSize > 0 && LeastWarps(p, ctaSize, warps)
    requires LeastMultiple(regs, a.numRegs * p.warpSize * (if p.major <= 1 then warps else 1), RegisterUnit(p, a.numRegs))
    ensures var n := MaxActiveBlocks(p, a, ctaSize, dynamicSmem);
            n * (if p.major <= 1 then 1 else warps) * regs <= p.regsPerBlock
  {
    hide DivideRi, RoundI, NumWarps, MaxActiveBlocks, LeastWarps, LeastMultiple, SmemFits;
    var n := MaxActiveBlocks(p, a, ctaSize, dynamicSmem);
    FitsIff(p, a, ctaSize, dynamicSmem, n);
    var w: nat :| LeastWarps(p, ctaSize, w)
                  && if p.major <= 1 then BlocksPlaced(p, a.numRegs, w, n) else WarpsPlaced(p, a.numRegs, n * w);
    WarpsAreLeast(p, ctaSize, w);
    WarpsAreLeast(p, ctaSize, warps);
    var unit, each := RegisterUnit(p, a.numRegs), a.numRegs * p.warpSize * (if p.major <= 1 then warps else 1);
    forall m: nat ensures LeastMultiple(m, each, unit) <==> m == RoundI(each, unit) {
      RoundIsLeast(m, each, unit);
    }
    if p.major > 1 {
      var sides := if p.major == 2 then 2 else 4;
      assert OnSides(p.regsPerBlock, sides, regs, n * warps);
      var perSide: nat :| perSide * regs <= p.regsPerBlock / sides && n * warps <= perSide * sides;
      PerSideTotal(n * warps, perSide, sides, regs, p.regsPerBlock);
    }
  }

  lemma PerSideTotal(warps: nat, perSide: nat, sides: nat, regs: nat, total: nat)
    requires sides > 0 && perSide * regs <= total / sides && warps <= perSide * sides
    ensures warps * regs <= total
  {
    MulLe(warps, perSide * sides, regs);
    assert (perSide * sides) * regs == (perSide * regs) * sides;
    MulLe(perSide * regs, total / sides, sides);
    GoesIn(total / sides, sides, total);
  }

  // ---------------------------------------------------------------- the search

  type SmemFunction = nat -> nat

  function Occupancy(p: DeviceProp, a: FuncAttributes, smem: SmemFunction, blocksize: nat): nat
    requires p.warpSize > 0 && blocksize > 0
  {
    blocksize * MaxActiveBlocks(p, a, blocksize, smem(blocksize))
  }

  function LargestBlocksize(p: DeviceProp, a: FuncAttributes): nat {
    Min(p.maxThreadsPerBlock, a.maxThreadsPerBlock)
  }

  /** A size the countdown visits while it is positive: some warps below the smaller of the
      two limits. */
  ghost predicate Candidate(p: DeviceProp, a: FuncAttributes, b: nat) {
    b > 0 && exists k: nat :: IsDown(p, a, k, b)
  }

  ghost function Limit(p: DeviceProp, a: FuncAttributes): nat {
    if a.maxThreadsPerBlock < p.maxThreadsPerBlock then a.maxThreadsPerBlock else p.maxThreadsPerBlock
  }

  ghost predicate IsDown(p: DeviceProp, a: FuncAttributes, k: nat, b: nat) {
    b + k * p.warpSize == Limit(p, a)
  }

  function Down(p: DeviceProp, a: FuncAttributes, k: nat): int {
    LargestBlocksize(p, a) - k * p.warpSize
  }

  /** If the limit is a multiple of the warp size these are all positive multiples up to it. */
  lemma CandidatesAreMultiples(p: DeviceProp, a: FuncAttributes, b: nat)
    requires p.warpSize > 0
    requires Limit(p, a) % p.warpSize == 0
    ensures Candidate(p, a, b) <==> 0 < b <= a.maxThreadsPerBlock && b <= p.maxThreadsPerBlock && b % p.warpSize == 0
  {
    var (n, w) := (LargestBlocksize(p, a), p.warpSize);
    var q := n / w;
    assert n == q * w;
    if Candidate(p, a, b) {
      var k: nat :| IsDown(p, a, k, b);
      Diff(q, k, w);
      MultipleMod(q - k, w);
      MulLe(0, k, w);
    }
    if 0 < b <= n && b % w == 0 {
      assert b == (b / w) * w;
      if b / w > q {
        MulLe(q + 1, b / w, w);
      }
      Diff(q, b / w, w);
      assert IsDown(p, a, q - b / w, b);
    }
  }

  lemma Diff(x: int, y: int, w: int)
    ensures (x - y) * w == x * w - y * w
  {
  }

  /** The early exit of the search is harmless because of this bound. */
  lemma OccupancyBound(p: DeviceProp, a: FuncAttributes, smem: SmemFunction, b: nat)
    requires p.warpSize > 0 && b > 0
    ensures Occupancy(p, a, smem, b) <= p.maxThreadsPerMultiProcessor
  {
    hide MaxActiveBlocks, SmemFits, LeastWarps, BlocksPlaced, WarpsPlaced;
    var n := MaxActiveBlocks(p, a, b, smem(b));
    FitsIff(p, a, b, smem(b), n);
  }

  /** `best` is what the search is for, with `threads` of its threads resident: no visited size
      has more of them, and no larger one as many. */
  ghost predicate Beats(p: DeviceProp, a: FuncAttributes, smem: SmemFunction, best: nat, threads: nat) {
    forall b: nat, n: nat :: Candidate(p, a, b) && Fits(p, a, b, smem(b), n) ==>
      b * n <= threads && (b * n == threads > 0 ==> b <= best)
  }

  /** No visited size reaches the number of threads the multiprocessor has room for. */
  ghost predicate NoneFills(p: DeviceProp, a: FuncAttributes, smem: SmemFunction) {
    forall b: nat, n: nat :: Candidate(p, a, b) && Fits(p, a, b, smem(b), n) ==> b * n < p.maxThreadsPerMultiProcessor
  }

  /** 0 is the answer if no visited size fits at all. */
  ghost predicate IsBest(p: DeviceProp, a: FuncAttributes, smem: SmemFunction, best: nat) {
    if best == 0 then Beats(p, a, smem, 0, 0)
    else Candidate(p, a, best) && exists n: nat :: n > 0 && FitsBest(p, a, smem, best, n)
  }

  ghost predicate FitsBest(p: DeviceProp, a: FuncAttributes, smem: SmemFunction, best: nat, n: nat) {
    Fits(p, a, best, smem(best), n) && Beats(p, a, smem, best, best * n)
  }

  /** The occupancy of a size is the largest number of its threads that fit. */
  lemma OccupancyMost(p: DeviceProp, a: FuncAttributes, smem: SmemFunction, b: nat, n: nat)
    requires p.warpSize > 0 && b > 0
    ensures Fits(p, a, b, smem(b), n) ==> b * n <= Occupancy(p, a, smem, b)
    ensures Fits(p, a, b, smem(b), MaxActiveBlocks(p, a, b, smem(b)))
  {
    hide MaxActiveBlocks, Fits;
    FitsIff(p, a, b, smem(b), n);
    FitsIff(p, a, b, smem(b), MaxActiveBlocks(p, a, b, smem(b)));
    if n <= MaxActiveBlocks(p, a, b, smem(b)) {
      MulLe(n, MaxActiveBlocks(p, a, b, smem(b)), b);
    }
  }

  lemma BeatsAll(p: DeviceProp, a: FuncAttributes, smem: SmemFunction, best: nat, threads: nat)
    requires p.warpSize > 0
    requires forall b: nat :: Candidate(p, a, b) ==>
               Occupancy(p, a, smem, b) <= threads && (Occupancy(p, a, smem, b) == threads > 0 ==> b <= best)
    ensures Beats(p, a, smem, best, threads)
  {
    hide Fits, Occupancy;
    forall b: nat, n: nat | Candidate(p, a, b) && Fits(p, a, b, smem(b), n)
      ensures b * n <= threads && (b * n == threads > 0 ==> b <= best)
    {
      OccupancyMost(p, a, smem, b, n);
    }
  }

  /** Searches from the largest size down in steps of one warp, keeping the first size with
      the most resident threads and stopping at the number nothing can exceed. None when the
      countdown steps over zero and goes on with negative sizes: that is, when the limit is
      no multiple of the warp size and no visited size reaches that number. */
  method DefaultBlockSize(p: DeviceProp, a: FuncAttributes, smem: SmemFunction) returns (r: Option<nat>)
    requires p.warpSize > 0
    ensures r.None? <==> Limit(p, a) % p.warpSize != 0 && NoneFills(p, a, smem)
    ensures r.Some? ==> IsBest(p, a, smem, r.value)
  {
    hide Occupancy, LargestBlocksize, Fits, Candidate, Down, NoneFills, IsBest;
    var maxOccupancy := p.maxThreadsPerMultiProcessor;
    var highest, best: nat := 0, 0;
    var blocksize: nat := LargestBlocksize(p, a);
    ghost var k: nat := 0;
    StartsAt(p, a);
    while blocksize != 0
      invariant blocksize == Down(p, a, k)
      invariant highest <= maxOccupancy
      invariant best == 0 ==> highest == 0
      invariant best != 0 ==> Candidate(p, a, best) && best > blocksize && highest == Occupancy(p, a, smem, best) > 0
      invariant forall b: nat :: Candidate(p, a, b) && b > blocksize ==>
                  Occupancy(p, a, smem, b) <= highest && (Occupancy(p, a, smem, b) == highest > 0 ==> b <= best)
      invariant k > 0 ==> highest < maxOccupancy
      decreases blocksize
    {
      OccupancyBound(p, a, smem, blocksize);
      CandidateSteps(p, a, blocksize, k);
      var occupancy := Occupancy(p, a, smem, blocksize);
      if occupancy > highest {
        best, highest := blocksize, occupancy;
      }
      if highest == maxOccupancy {
        AllBounded(p, a, smem);
        var top: nat := if best == 0 then blocksize else best;
        assert Candidate(p, a, top) && Occupancy(p, a, smem, top) == maxOccupancy;
        Filled(p, a, smem, top);
        BestFound(p, a, smem, best, highest);
        return Some(best);
      }
      if blocksize < p.warpSize {
        StepsOver(p, a, blocksize, k);
        NoneReached(p, a, smem);
        return None;
      }
      blocksize := blocksize - p.warpSize;
      k := k + 1;
    }
    StepsOnto(p, a, k);
    BestFound(p, a, smem, best, highest);
    return Some(best);
  }

  lemma CandidateOccupancy(p: DeviceProp, a: FuncAttributes, smem: SmemFunction, b: nat)
    requires p.warpSize > 0 && Candidate(p, a, b)
    ensures b > 0
    ensures var n := MaxActiveBlocks(p, a, b, smem(b)); Fits(p, a, b, smem(b), n) && Occupancy(p, a, smem, b) == b * n
    ensures forall n: nat :: Fits(p, a, b, smem(b), n) ==> b * n <= Occupancy(p, a, smem, b)
  {
    hide Fits, MaxActiveBlocks;
    OccupancyMost(p, a, smem, b, 0);
    forall n: nat | Fits(p, a, b, smem(b), n) ensures b * n <= Occupancy(p, a, smem, b) {
      OccupancyMost(p, a, smem, b, n);
    }
  }

  lemma Filled(p: DeviceProp, a: FuncAttributes, smem: SmemFunction, b: nat)
    requires p.warpSize > 0 && Candidate(p, a, b) && Occupancy(p, a, smem, b) == p.maxThreadsPerMultiProcessor
    ensures !NoneFills(p, a, smem)
  {
    hide Fits, Occupancy, Candidate, MaxActiveBlocks;
    CandidateOccupancy(p, a, smem, b);
  }

  lemma AllBounded(p: DeviceProp, a: FuncAttributes, smem: SmemFunction)
    requires p.warpSize > 0
    ensures forall b: nat :: Candidate(p, a, b) ==> Occupancy(p, a, smem, b) <= p.maxThreadsPerMultiProcessor
  {
    hide Occupancy;
    forall b: nat | Candidate(p, a, b) ensures Occupancy(p, a, smem, b) <= p.maxThreadsPerMultiProcessor {
      OccupancyBound(p, a, smem, b);
    }
  }

  lemma BestFound(p: DeviceProp, a: FuncAttributes, smem: SmemFunction, best: nat, threads: nat)
    requires p.warpSize > 0 && (best == 0 ==> threads == 0)
    requires best != 0 ==> Candidate(p, a, best) && Occupancy(p, a, smem, best) == threads > 0
    requires forall b: nat :: Candidate(p, a, b) ==>
               Occupancy(p, a, smem, b) <= threads && (Occupancy(p, a, smem, b) == threads > 0 ==> b <= best)
    ensures IsBest(p, a, smem, best)
  {
    hide Fits, Occupancy, Candidate, Beats, MaxActiveBlocks;
    BeatsAll(p, a, smem, best, threads);
    if best != 0 {
      CandidateOccupancy(p, a, smem, best);
      var n := MaxActiveBlocks(p, a, best, smem(best));
      assert n > 0 && best * n == threads;
      assert FitsBest(p, a, smem, best, n);
    }
  }

  lemma NoneReached(p: DeviceProp, a: FuncAttributes, smem: SmemFunction)
    requires p.warpSize > 0
    requires forall b: nat :: Candidate(p, a, b) ==> Occupancy(p, a, smem, b) < p.maxThreadsPerMultiProcessor
    ensures NoneFills(p, a, smem)
  {
    hide Fits, Occupancy, Candidate;
    forall b: nat, n: nat | Candidate(p, a, b) && Fits(p, a, b, smem(b), n) ensures b * n < p.maxThreadsPerMultiProcessor {
      CandidateOccupancy(p, a, smem, b);
    }
  }

  lemma StartsAt(p: DeviceProp, a: FuncAttributes)
    ensures LargestBlocksize(p, a) == Down(p, a, 0)
    ensures forall b: nat :: Candidate(p, a, b) ==> b <= LargestBlocksize(p, a)
  {
    forall b: nat | Candidate(p, a, b) ensures b <= LargestBlocksize(p, a) {
      var k: nat :| IsDown(p, a, k, b);
      MulLe(0, k, p.warpSize);
    }
  }

  /** A limit of 100 threads and warps of 32: the sizes 100, 68, 36 and 4 leave the
      multiprocessor's 2048 threads short, and zero is never met. */
  method WarpsStepOverZero() returns (r: Option<nat>)
    ensures r == None
  {
    var p := DeviceProp(3, 0, 32, 1024, 2048, 49152, 65536);
    var a := FuncAttributes(0, 32, 100);
    StepsShort(p, a);
    r := DefaultBlockSize(p, a, _ => 0);
  }

  lemma StepsShort(p: DeviceProp, a: FuncAttributes)
    requires p == DeviceProp(3, 0, 32, 1024, 2048, 49152, 65536) && a == FuncAttributes(0, 32, 100)
    ensures NoneFills(p, a, _ => 0)
  {
    hide Fits;
    forall b: nat, n: nat | Candidate(p, a, b) && Fits(p, a, b, 0, n) ensures b * n < p.maxThreadsPerMultiProcessor {
      var k: nat :| IsDown(p, a, k, b);
      assert b <= 100;
      SixteenSlots(p, a, b, n);
      MulLe(n, 16, b);
    }
  }

  lemma SixteenSlots(p: DeviceProp, a: FuncAttributes, b: nat, n: nat)
    requires Fits(p, a, b, 0, n)
    ensures n <= 16
  {
    hide SmemFits, LeastWarps, BlocksPlaced, WarpsPlaced;
  }

  lemma CandidateSteps(p: DeviceProp, a: FuncAttributes, blocksize: nat, k: nat)
    requires p.warpSize > 0 && blocksize == Down(p, a, k) && blocksize > 0
    ensures Candidate(p, a, blocksize) && Down(p, a, k + 1) == blocksize - p.warpSize
    ensures forall b: nat :: Candidate(p, a, b) && b > blocksize - p.warpSize ==> b >= blocksize
  {
    Diff(k + 1, k, p.warpSize);
    assert IsDown(p, a, k, blocksize);
    forall b: nat | Candidate(p, a, b) && b > blocksize - p.warpSize ensures b >= blocksize {
      var j: nat :| IsDown(p, a, j, b);
      if j > k {
        MulLe(k + 1, j, p.warpSize);
      } else {
        MulLe(j, k, p.warpSize);
      }
    }
  }

  lemma StepsOver(p: DeviceProp, a: FuncAttributes, blocksize: nat, k: nat)
    requires blocksize == Down(p, a, k) && 0 < blocksize < p.warpSize
    ensures Limit(p, a) % p.warpSize != 0
  {
    NoMultiple(LargestBlocksize(p, a) / p.warpSize, k, p.warpSize, blocksize);
  }

  lemma NoMultiple(q: int, k: int, w: nat, rest: nat)
    requires 0 < rest < w
    ensures q * w != k * w + rest
  {
    if q > k {
      MulLe(k + 1, q, w);
      Diff(k + 1, k, w);
    } else {
      MulLe(q, k, w);
    }
  }

  lemma StepsOnto(p: DeviceProp, a: FuncAttributes, k: nat)
    requires p.warpSize > 0 && Down(p, a, k) == 0
    ensures Limit(p, a) % p.warpSize == 0
    ensures forall b: nat :: Candidate(p, a, b) ==> b > 0
  {
    MultipleMod(k, p.warpSize);
  }
}
