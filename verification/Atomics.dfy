/** The compare-and-swap retry loops, as threads that interleave one atomic action at a
    time. All of them share one loop: read the word, compute the updated word from it, swap
    it in if the word is still the one read, else start over from the word found. They
    differ in `apply`, the updated word for a call. */
module CasLoops {
  import opened Sequences

  /** Where a thread is: before its first read, about to compare-and-swap with the word it
      read last, or returned with the word it replaced. */
  datatype Thread<W> = Begin | Retry(read: W) | Done(replaced: W)

  /** The shared word, the threads, and a history: who committed in what order, how often
      each thread's swap failed, and how many commits there were when it last read. */
  datatype State<W> = State(word: W, threads: seq<Thread<W>>, commits: seq<nat>, failures: seq<nat>, seen: seq<nat>)

  function Init<W>(word: W, n: nat): State<W> {
    State(word, seq(n, _ => Begin), [], seq(n, _ => 0), seq(n, _ => 0))
  }

  /** Thread `i` performs its next atomic action. The swap succeeds when the word is bit for
      bit the one read last, wherever it has been in between. */
  function Step<W(==), C>(apply: (W, C) -> W, calls: seq<C>, s: State<W>, i: nat): State<W>
    requires i < |s.threads| && |calls| == |s.failures| == |s.seen| == |s.threads|
  {
    match s.threads[i]
    case Begin => s.(threads := s.threads[i := Retry(s.word)], seen := s.seen[i := |s.commits|])
    case Retry(read) =>
      if s.word == read then
        s.(word := apply(read, calls[i]), threads := s.threads[i := Done(read)], commits := s.commits + [i])
      else
        s.(threads := s.threads[i := Retry(s.word)], failures := s.failures[i := s.failures[i] + 1],
           seen := s.seen[i := |s.commits|])
    case Done(_) => s
  }

  ghost predicate Schedule(schedule: seq<nat>, n: nat) {
    forall k :: 0 <= k < |schedule| ==> schedule[k] < n
  }

  /** The state after the threads take turns as the schedule says. */
  function Run<W(==), C>(apply: (W, C) -> W, calls: seq<C>, word: W, schedule: seq<nat>): (s: State<W>)
    requires Schedule(schedule, |calls|)
    ensures |calls| == |s.threads| == |s.failures| == |s.seen|
  {
    if schedule == [] then Init(word, |calls|)
    else Step(apply, calls, Run(apply, calls, word, schedule[..|schedule| - 1]), schedule[|schedule| - 1])
  }

  // ---------------------------------------------------------------- one call after another

  /** The word after the listed calls are made one after another. */
  function Sequential<W, C>(apply: (W, C) -> W, calls: seq<C>, start: W, order: seq<nat>): W
    requires Schedule(order, |calls|)
  {
    if order == [] then start
    else apply(Sequential(apply, calls, start, order[..|order| - 1]), calls[order[|order| - 1]])
  }

  /** The concurrent state is explained by making the committed calls one after another: the
      word is what they leave, each returned call committed once and replaced the word its
      predecessors left, each call still running has not committed. */
  ghost predicate Explained<W, C>(apply: (W, C) -> W, calls: seq<C>, start: W, s: State<W>) {
    && |calls| == |s.threads| == |s.failures| == |s.seen|
    && Schedule(s.commits, |calls|)
    && s.word == Sequential(apply, calls, start, s.commits)
    && (forall j, k :: 0 <= j < k < |s.commits| ==> s.commits[j] != s.commits[k])
    && (forall i :: 0 <= i < |calls| ==> (s.threads[i].Done? <==> i in s.commits))
    && (forall k :: 0 <= k < |s.commits| ==>
          s.threads[s.commits[k]] == Done(Sequential(apply, calls, start, s.commits[..k])))
  }

  lemma SequentialGrows<W, C>(apply: (W, C) -> W, calls: seq<C>, start: W, order: seq<nat>, i: nat)
    requires Schedule(order, |calls|) && i < |calls|
    ensures Sequential(apply, calls, start, order + [i]) == apply(Sequential(apply, calls, start, order), calls[i])
  {
    assert (order + [i])[..|order|] == order;
  }

  /** A step that commits nothing changes neither the word nor any returned call. */
  lemma ExplainedQuiet<W, C>(apply: (W, C) -> W, calls: seq<C>, start: W, s: State<W>, t: State<W>)
    requires Explained(apply, calls, start, s)
    requires t.word == s.word && t.commits == s.commits
    requires |t.threads| == |t.failures| == |t.seen| == |calls|
    requires forall i :: 0 <= i < |calls| ==>
               t.threads[i] == s.threads[i] || (!t.threads[i].Done? && !s.threads[i].Done?)
    ensures Explained(apply, calls, start, t)
  {
    hide Sequential;
    forall k | 0 <= k < |t.commits|
      ensures t.threads[t.commits[k]] == Done(Sequential(apply, calls, start, t.commits[..k]))
    {
      assert s.threads[s.commits[k]].Done?;
    }
  }

  lemma ExplainedCommit<W, C>(apply: (W, C) -> W, calls: seq<C>, start: W, s: State<W>, i: nat)
    requires Explained(apply, calls, start, s) && i < |calls| && !s.threads[i].Done?
    ensures Explained(apply, calls, start,
                      s.(word := apply(s.word, calls[i]), threads := s.threads[i := Done(s.word)],
                         commits := s.commits + [i]))
  {
    hide Sequential;
    var t := s.(word := apply(s.word, calls[i]), threads := s.threads[i := Done(s.word)], commits := s.commits + [i]);
    SequentialGrows(apply, calls, start, s.commits, i);
    CommitOnce(s, i);
    CommitReturns(apply, calls, start, s, i);
    assert t.threads == s.threads[i := Done(s.word)] && t.commits == s.commits + [i];
  }

  lemma CommitOnce<W>(s: State<W>, i: nat)
    requires i < |s.threads| && i !in s.commits
    requires forall j, k :: 0 <= j < k < |s.commits| ==> s.commits[j] != s.commits[k]
    requires forall j :: 0 <= j < |s.threads| ==> (s.threads[j].Done? <==> j in s.commits)
    ensures var threads, commits := s.threads[i := Done(s.word)], s.commits + [i];
            && (forall j, k :: 0 <= j < k < |commits| ==> commits[j] != commits[k])
            && (forall j :: 0 <= j < |threads| ==> (threads[j].Done? <==> j in commits))
  {
    forall j | 0 <= j < |s.threads| ensures s.threads[i := Done(s.word)][j].Done? <==> j in s.commits + [i] {
      assert j in s.commits + [i] <==> j in s.commits || j == i;
    }
  }

  lemma CommitReturns<W, C>(apply: (W, C) -> W, calls: seq<C>, start: W, s: State<W>, i: nat)
    requires Explained(apply, calls, start, s) && i < |calls| && i !in s.commits
    ensures var threads, commits := s.threads[i := Done(s.word)], s.commits + [i];
            Schedule(commits, |calls|)
            && forall k :: 0 <= k < |commits| ==>
                 threads[commits[k]] == Done(Sequential(apply, calls, start, commits[..k]))
  {
    hide Sequential;
    var threads, commits := s.threads[i := Done(s.word)], s.commits + [i];
    assert commits[..|s.commits|] == s.commits;
    forall k | 0 <= k < |s.commits|
      ensures threads[commits[k]] == Done(Sequential(apply, calls, start, commits[..k]))
    {
      assert commits[..k] == s.commits[..k];
      assert s.commits[k] in s.commits;
    }
  }

  lemma ExplainedStep<W, C>(apply: (W, C) -> W, calls: seq<C>, start: W, s: State<W>, i: nat)
    requires Explained(apply, calls, start, s) && i < |calls|
    ensures Explained(apply, calls, start, Step(apply, calls, s, i))
  {
    hide Explained;
    ExplainedShape(apply, calls, start, s);
    if s.threads[i].Retry? && s.word == s.threads[i].read {
      ExplainedCommit(apply, calls, start, s, i);
    } else {
      ExplainedQuiet(apply, calls, start, s, Step(apply, calls, s, i));
    }
  }

  lemma ExplainedShape<W, C>(apply: (W, C) -> W, calls: seq<C>, start: W, s: State<W>)
    requires Explained(apply, calls, start, s)
    ensures |calls| == |s.threads| == |s.failures| == |s.seen|
  {
  }

  /** In every interleaving of any number of calls, at every moment. */
  lemma {:induction false} EveryInterleaving<W, C>(apply: (W, C) -> W, calls: seq<C>, start: W, schedule: seq<nat>)
    requires Schedule(schedule, |calls|)
    ensures Explained(apply, calls, start, Run(apply, calls, start, schedule))
  {
    if schedule != [] {
      EveryInterleaving(apply, calls, start, schedule[..|schedule| - 1]);
      ExplainedStep(apply, calls, start, Run(apply, calls, start, schedule[..|schedule| - 1]),
                    schedule[|schedule| - 1]);
    }
  }

  // ---------------------------------------------------------------- order does not matter

  /** Two calls may be made in either order. */
  ghost predicate Commutes<W(!new), C(!new)>(apply: (W, C) -> W) {
    forall w, a, b :: apply(apply(w, a), b) == apply(apply(w, b), a)
  }

  lemma {:induction false} MoveToEnd<W(!new), C(!new)>(apply: (W, C) -> W, calls: seq<C>, start: W, order: seq<nat>, p: nat)
    requires Commutes(apply) && Schedule(order, |calls|) && p < |order|
    ensures var rest := order[..p] + order[p + 1..];
            Sequential(apply, calls, start, order) == apply(Sequential(apply, calls, start, rest), calls[order[p]])
    decreases |order|
  {
    var last := |order| - 1;
    var rest := order[..p] + order[p + 1..];
    if p == last {
      assert rest == order[..last];
    } else {
      MoveToEnd(apply, calls, start, order[..last], p);
      var inner := order[..last][..p] + order[..last][p + 1..];
      assert rest[..|rest| - 1] == inner && rest[|rest| - 1] == order[last];
    }
  }

  lemma DropOne(a: seq<nat>, b: seq<nat>) returns (p: nat)
    requires a != [] && multiset(a) == multiset(b)
    ensures p < |b| && b[p] == a[|a| - 1]
    ensures multiset(a[..|a| - 1]) == multiset(b[..p] + b[p + 1..])
  {
    var x, a' := a[|a| - 1], a[..|a| - 1];
    assert a == a' + [x];
    assert x in multiset(b);
    p := Position(b, x);
    var b' := b[..p] + b[p + 1..];
    assert b == b[..p] + [x] + b[p + 1..];
    assert multiset(a) == multiset(a') + multiset{x};
    assert multiset(b) == multiset(b') + multiset{x};
    assert multiset(a') == multiset(a) - multiset{x} == multiset(b');
  }

  /** When calls commute, only which calls were made matters. */
  lemma {:induction false} AnyOrder<W(!new), C(!new)>(apply: (W, C) -> W, calls: seq<C>, start: W, a: seq<nat>, b: seq<nat>)
    requires Commutes(apply) && Schedule(a, |calls|) && Schedule(b, |calls|) && multiset(a) == multiset(b)
    ensures Sequential(apply, calls, start, a) == Sequential(apply, calls, start, b)
    decreases |a|
  {
    hide Commutes;
    assert |a| == |multiset(a)| == |multiset(b)| == |b|;
    if a != [] {
      var p := DropOne(a, b);
      MoveToEnd(apply, calls, start, b, p);
      AnyOrder(apply, calls, start, a[..|a| - 1], b[..p] + b[p + 1..]);
    }
  }

  /** The calls below `k` that have returned, by number. */
  function Returned<W>(threads: seq<Thread<W>>, k: nat): seq<nat>
    requires k <= |threads|
  {
    if k == 0 then [] else Returned(threads, k - 1) + if threads[k - 1].Done? then [k - 1] else []
  }

  lemma {:induction false} ReturnedOnce<W>(threads: seq<Thread<W>>, k: nat)
    requires k <= |threads|
    ensures forall i: nat :: i in Returned(threads, k) <==> i < k && threads[i].Done?
    ensures forall i: nat :: multiset(Returned(threads, k))[i] <= 1
  {
    if k > 0 {
      ReturnedOnce(threads, k - 1);
    }
  }

  lemma {:induction false} DistinctOnce(order: seq<nat>)
    requires forall j, k :: 0 <= j < k < |order| ==> order[j] != order[k]
    ensures forall i :: multiset(order)[i] <= 1
  {
    if order != [] {
      var rest := order[..|order| - 1];
      DistinctOnce(rest);
      assert order == rest + [order[|order| - 1]];
      assert order[|order| - 1] !in rest;
    }
  }

  /** At every moment of every interleaving, commuting calls have left exactly what the
      returned ones leave when made by number: no update is lost or made twice. */
  lemma NothingLost<W(!new), C(!new)>(apply: (W, C) -> W, calls: seq<C>, start: W, schedule: seq<nat>)
    requires Commutes(apply) && Schedule(schedule, |calls|)
    ensures var s := Run(apply, calls, start, schedule); var order := Returned(s.threads, |calls|);
            Schedule(order, |calls|) && s.word == Sequential(apply, calls, start, order)
  {
    var s := Run(apply, calls, start, schedule);
    EveryInterleaving(apply, calls, start, schedule);
    var order := Returned(s.threads, |calls|);
    ReturnedOnce(s.threads, |calls|);
    DistinctOnce(s.commits);
    forall k | 0 <= k < |order| ensures order[k] < |calls| {
      assert order[k] in order;
    }
    forall i: nat ensures multiset(order)[i] == multiset(s.commits)[i] {
      assert i in order <==> i in s.commits by {
        if i in s.commits {
          var k :| 0 <= k < |s.commits| && s.commits[k] == i;
        }
      }
      assert i in multiset(order) <==> i in multiset(s.commits);
    }
    AnyOrder(apply, calls, start, s.commits, order);
  }

  // ---------------------------------------------------------------- progress

  /** Since a thread's last read, either nothing was committed and the word is the one it
      read, or something was; and each failure of a thread had its own commit to blame. */
  ghost predicate Progress<W>(s: State<W>) {
    && |s.threads| == |s.failures| == |s.seen|
    && (forall i :: 0 <= i < |s.threads| ==> s.failures[i] <= s.seen[i] <= |s.commits|)
    && (forall i :: 0 <= i < |s.threads| && s.threads[i].Retry? && s.seen[i] == |s.commits| ==>
          s.threads[i].read == s.word)
  }

  lemma ProgressStep<W, C>(apply: (W, C) -> W, calls: seq<C>, s: State<W>, i: nat)
    requires Progress(s) && i < |calls| == |s.threads|
    ensures Progress(Step(apply, calls, s, i))
    ensures var t := Step(apply, calls, s, i);
            t.failures[i] > s.failures[i] ==> s.seen[i] < |s.commits|
  {
  }

  lemma {:induction false} ProgressAlways<W, C>(apply: (W, C) -> W, calls: seq<C>, start: W, schedule: seq<nat>)
    requires Schedule(schedule, |calls|)
    ensures Progress(Run(apply, calls, start, schedule))
  {
    if schedule != [] {
      ProgressAlways(apply, calls, start, schedule[..|schedule| - 1]);
      ProgressStep(apply, calls, Run(apply, calls, start, schedule[..|schedule| - 1]), schedule[|schedule| - 1]);
    }
  }

  /** How often thread `i` is scheduled. */
  function Turns(schedule: seq<nat>, i: nat): nat {
    if schedule == [] then 0
    else Turns(schedule[..|schedule| - 1], i) + if schedule[|schedule| - 1] == i then 1 else 0
  }

  lemma {:induction false} TurnsCount<W, C>(apply: (W, C) -> W, calls: seq<C>, start: W, schedule: seq<nat>, i: nat)
    requires Schedule(schedule, |calls|) && i < |calls|
    ensures var s := Run(apply, calls, start, schedule);
            match s.threads[i]
            case Begin => Turns(schedule, i) == 0 && s.failures[i] == 0
            case Retry(_) => Turns(schedule, i) == 1 + s.failures[i]
            case Done(_) => Turns(schedule, i) >= 2 + s.failures[i]
  {
    if schedule != [] {
      TurnsCount(apply, calls, start, schedule[..|schedule| - 1], i);
    }
  }

  /** A swap only fails because some other call has committed, and a run of n calls has at
      most n commits: a call that gets n + 1 turns has returned, whatever the others do. */
  lemma EveryCallReturns<W, C>(apply: (W, C) -> W, calls: seq<C>, start: W, schedule: seq<nat>, i: nat)
    requires Schedule(schedule, |calls|) && i < |calls|
    ensures Turns(schedule, i) >= |calls| + 1 ==> Run(apply, calls, start, schedule).threads[i].Done?
  {
    var s := Run(apply, calls, start, schedule);
    TurnsCount(apply, calls, start, schedule, i);
    ProgressAlways(apply, calls, start, schedule);
    EveryInterleaving(apply, calls, start, schedule);
    if !s.threads[i].Done? {
      assert i !in s.commits;
      AtMost(s.commits + [i], |calls|);
    }
  }

  /** Distinct numbers below n: at most n of them. */
  lemma {:induction false} AtMost(order: seq<nat>, n: nat)
    requires forall j :: 0 <= j < |order| ==> order[j] < n
    requires forall j, k :: 0 <= j < k < |order| ==> order[j] != order[k]
    ensures |order| <= n
  {
    if |order| > 0 {
      assert order[0] < n;
      var j := if n - 1 in order then Position(order, n - 1) else |order| - 1;
      var rest := order[..j] + order[j + 1..];
      forall k | 0 <= k < |rest| ensures rest[k] < n - 1 {
        assert rest[k] == if k < j then order[k] else order[k + 1];
      }
      AtMost(rest, n - 1);
    }
  }
}

/** The calls of namespace atomics that go through the loop. Additions and multiplications
    are those of an arbitrary commutative semigroup. */
module Atomics {
  import opened CasLoops

  type BinOp<!T> = (T, T) -> T

  ghost predicate CommutativeSemigroup<T(!new)>(op: BinOp<T>) {
    && (forall x, y :: op(x, y) == op(y, x))
    && (forall x, y, z :: op(op(x, y), z) == op(x, op(y, z)))
  }

  // ---------------------------------------------------------------- whole words

  /** atomicAdd and atomicMul on a double: the value combined with the word read. */
  function WholeWord<T>(op: BinOp<T>): (T, T) -> T {
    (word, val) => op(val, word)
  }

  /** The initial value combined with the values of the listed calls. */
  function Total<T>(op: BinOp<T>, start: T, vals: seq<T>, order: seq<nat>): T
    requires Schedule(order, |vals|)
  {
    if order == [] then start else op(Total(op, start, vals, order[..|order| - 1]), vals[order[|order| - 1]])
  }

  lemma {:induction false} WholeWordTotal<T(!new)>(op: BinOp<T>, start: T, vals: seq<T>, order: seq<nat>)
    requires CommutativeSemigroup(op) && Schedule(order, |vals|)
    ensures Sequential(WholeWord(op), vals, start, order) == Total(op, start, vals, order)
  {
    if order != [] {
      WholeWordTotal(op, start, vals, order[..|order| - 1]);
    }
  }

  lemma WholeWordCommutes<T(!new)>(op: BinOp<T>)
    requires CommutativeSemigroup(op)
    ensures Commutes(WholeWord(op))
  {
    var apply := WholeWord(op);
    forall w, a, b ensures apply(apply(w, a), b) == apply(apply(w, b), a) {
      assert op(b, op(a, w)) == op(op(b, a), w);
      assert op(a, op(b, w)) == op(op(a, b), w);
      assert op(a, b) == op(b, a);
    }
  }

  /** Any number of concurrent adds (or multiplications) to one double, at any moment: the
      word is its start combined with the values of exactly the returned calls; and the
      committed calls can be put in a line in which each returns what the word was just before
      it. */
  lemma WholeWordTotals<T(!new)>(op: BinOp<T>, vals: seq<T>, start: T, schedule: seq<nat>)
    requires CommutativeSemigroup(op) && Schedule(schedule, |vals|)
    ensures var s := Run(WholeWord(op), vals, start, schedule); var order := Returned(s.threads, |vals|);
            && Schedule(order, |vals|) && s.word == Total(op, start, vals, order) && Schedule(s.commits, |vals|)
            && forall k :: 0 <= k < |s.commits| ==>
                 s.threads[s.commits[k]] == Done(Total(op, start, vals, s.commits[..k]))
  {
    EveryInterleaving(WholeWord(op), vals, start, schedule);
    forall k | 0 <= k < |Run(WholeWord(op), vals, start, schedule).commits|
      ensures var s := Run(WholeWord(op), vals, start, schedule);
              s.threads[s.commits[k]] == Done(Total(op, start, vals, s.commits[..k]))
    {
      WholeWordTotal(op, start, vals, Run(WholeWord(op), vals, start, schedule).commits[..k]);
    }
    WholeWordCommutes(op);
    NothingLost(WholeWord(op), vals, start, schedule);
    WholeWordTotal(op, start, vals, Returned(Run(WholeWord(op), vals, start, schedule).threads, |vals|));
  }

  // ---------------------------------------------------------------- half words

  /** A 32-bit word holding two float16 values; an aligned address is its half H, an address
      two bytes further its half L. */
  datatype Half = H | L

  datatype Pair<T> = Pair(h: T, l: T) {
    function Get(half: Half): T { if half.H? then h else l }
  }

  datatype Call<T> = Call(half: Half, val: T)

  /** The updated word: one half is combined with the value, the other is copied from the
      word read. */
  function HalfWord<T>(op: BinOp<T>): (Pair<T>, Call<T>) -> Pair<T> {
    (word: Pair<T>, call: Call<T>) =>
      if call.half.H? then Pair(op(word.h, call.val), word.l) else Pair(word.h, op(word.l, call.val))
  }

  /** The start of one half combined with the values of the listed calls to that half. */
  function HalfTotal<T>(op: BinOp<T>, start: T, calls: seq<Call<T>>, order: seq<nat>, half: Half): T
    requires Schedule(order, |calls|)
  {
    if order == [] then start
    else
      var before := HalfTotal(op, start, calls, order[..|order| - 1], half);
      var call := calls[order[|order| - 1]];
      if call.half == half then op(before, call.val) else before
  }

  /** The two halves never see each other's calls. */
  lemma {:induction false} HalvesApart<T>(op: BinOp<T>, start: Pair<T>, calls: seq<Call<T>>, order: seq<nat>, half: Half)
    requires Schedule(order, |calls|)
    ensures Sequential(HalfWord(op), calls, start, order).Get(half)
         == HalfTotal(op, start.Get(half), calls, order, half)
  {
    if order != [] {
      HalvesApart(op, start, calls, order[..|order| - 1], half);
    }
  }

  lemma HalfWordCommutes<T(!new)>(op: BinOp<T>)
    requires CommutativeSemigroup(op)
    ensures Commutes(HalfWord(op))
  {
    var apply := HalfWord(op);
    forall w: Pair<T>, a: Call<T>, b: Call<T> ensures apply(apply(w, a), b) == apply(apply(w, b), a) {
      SwapAdds(op, w.h, a.val, b.val);
      SwapAdds(op, w.l, a.val, b.val);
    }
  }

  lemma SwapAdds<T(!new)>(op: BinOp<T>, x: T, a: T, b: T)
    requires CommutativeSemigroup(op)
    ensures op(op(x, a), b) == op(op(x, b), a)
  {
    assert op(op(x, a), b) == op(x, op(a, b));
    assert op(op(x, b), a) == op(x, op(b, a));
  }

  /** Any number of concurrent float16 adds to both halves of one word, at any moment of any
      interleaving. Each half is its start plus the values of exactly the returned calls to
      that half, whatever happened to the other half; and the committed calls can be put in
      a line in which each returns what its half held just before it. */
  lemma HalfWordTotals<T(!new)>(op: BinOp<T>, calls: seq<Call<T>>, start: Pair<T>, schedule: seq<nat>)
    requires CommutativeSemigroup(op) && Schedule(schedule, |calls|)
    ensures var s := Run(HalfWord(op), calls, start, schedule); var order := Returned(s.threads, |calls|);
            && Schedule(order, |calls|) && Schedule(s.commits, |calls|)
            && (forall half :: s.word.Get(half) == HalfTotal(op, start.Get(half), calls, order, half))
            && (forall k :: 0 <= k < |s.commits| ==>
                  var i := s.commits[k]; var half := calls[i].half;
                  s.threads[i].Done?
                  && s.threads[i].replaced.Get(half) == HalfTotal(op, start.Get(half), calls, s.commits[..k], half))
  {
    hide Explained, HalfTotal, Sequential, CommutativeSemigroup, Commutes, Returned;
    var s := Run(HalfWord(op), calls, start, schedule);
    var order := Returned(s.threads, |calls|);
    HalfWordCommutes(op);
    NothingLost(HalfWord(op), calls, start, schedule);
    forall half ensures s.word.Get(half) == HalfTotal(op, start.Get(half), calls, order, half) {
      HalvesApart(op, start, calls, order, half);
    }
    CommitsExplained(op, calls, start, schedule);
  }

  lemma CommitsExplained<T>(op: BinOp<T>, calls: seq<Call<T>>, start: Pair<T>, schedule: seq<nat>)
    requires Schedule(schedule, |calls|)
    ensures var s := Run(HalfWord(op), calls, start, schedule);
            Schedule(s.commits, |calls|)
            && forall k :: 0 <= k < |s.commits| ==>
                 var i := s.commits[k]; var half := calls[i].half;
                 s.threads[i].Done?
                 && s.threads[i].replaced.Get(half) == HalfTotal(op, start.Get(half), calls, s.commits[..k], half)
  {
    hide HalfTotal, Sequential;
    var s := Run(HalfWord(op), calls, start, schedule);
    EveryInterleaving(HalfWord(op), calls, start, schedule);
    forall k | 0 <= k < |s.commits|
      ensures var i := s.commits[k]; var half := calls[i].half;
              s.threads[i].Done?
              && s.threads[i].replaced.Get(half) == HalfTotal(op, start.Get(half), calls, s.commits[..k], half)
    {
      HalvesApart(op, start, calls, s.commits[..k], calls[s.commits[k]].half);
    }
  }
}
