/** Runs in which ops fail: up to the first failing op they are the runs in which no op fails,
    and that op ends them with its code. So what holds of all-succeeding runs, loops included,
    holds of every run up to there. */
module ExecutorFailures {
  import opened FlowPaths
  import opened Graphs
  import opened ExecutorSteps
  import ER = ExecutorRewinds

  /** The same ops, all succeeding. */
  function Forgiven(ops: Ops): Ops {
    (visit: nat, id: int) => ops(visit, id).(status := 0)
  }

  ghost predicate Visiting(g: Layout, s: State) {
    s.status == Running && s.l < |g.onion| && s.n < g.LayerSize(s.l)
  }

  /** The outcome of the op at the node that is visited next. */
  ghost function OutcomeHere(g: Layout, ops: Ops, s: State): Outcome
    requires Visiting(g, s)
  {
    ops(s.counter + 1, g.At(s.l, s.n).id)
  }

  /** The log of `t` has one more execution of node `id`. */
  ghost predicate LogsRun(s: State, t: State, id: int) {
    Times(t.log, id) == Times(s.log, id) + 1
  }

  ghost function Times(log: seq<Event>, id: int): nat { multiset(log)[Executed(id)] }

  lemma TimesGrow(log: seq<Event>, e: Event, id: int)
    ensures Times(log + [e], id) == Times(log, id) + if e == Executed(id) then 1 else 0
  {
  }

  /** If all ops succeed the visit runs its node: its execution is logged - or, at a
      NextIteration, it turns out only behind the op that no frame is open. */
  ghost predicate Asks(g: Layout, ops: Ops, s: State)
    requires Visiting(g, s)
  {
    var t, node := Visit(g, Forgiven(ops), s), g.At(s.l, s.n);
    LogsRun(s, t, node.id) || (node.Is(NEXT_ITERATION) && t.status == NoOpenFrame)
  }

  /** The walk without failures comes to a node whose op fails. */
  ghost predicate FailsAt(g: Layout, ops: Ops, s: State, k: nat) {
    var u := Steps(g, Forgiven(ops), s, k);
    Visiting(g, u) && Asks(g, ops, u) && OutcomeHere(g, ops, u).status != 0
  }

  // ---------------------------------------------------------------- one visit

  lemma EnterFails(s: State, node: Node, o: Outcome)
    requires s.status == Running
    ensures LogsRun(s, RunEnter(s, node, o.(status := 0)), node.id)
    ensures o.status != 0 ==> RunEnter(s, node, o).status == OpFailed(o.status)
  {
    hide Times;
    var frame := Lookup(s.frameIds, node.id);
    TimesGrow(s.log, Opened(frame), node.id);
    TimesGrow(s.log + [Opened(frame)], Executed(node.id), node.id);
    TimesGrow(s.log, Executed(node.id), node.id);
  }

  lemma NextFails(s: State, node: Node, o: Outcome)
    requires s.status == Running
    ensures var t := RunNextIteration(s, node, o.(status := 0));
            if |node.inputs| == 0 then t.status == OutOfRange && t.log == s.log && RunNextIteration(s, node, o) == t
            else (LogsRun(s, t, node.id) || t.status == NoOpenFrame)
                 && (o.status != 0 ==> RunNextIteration(s, node, o).status == OpFailed(o.status))
  {
    hide Times;
    TimesGrow(s.log, Executed(node.id), node.id);
    if |s.frames| > 0 {
      TimesGrow(s.log + [Executed(node.id)], Planned(s.frames[|s.frames| - 1], Lookup(s.rewindLayers, node.id)), node.id);
    }
  }

  lemma ExitFails(s: State, node: Node, o: Outcome)
    requires s.status == Running
    ensures var t := RunExit(s, node, o.(status := 0));
            if LogsRun(s, t, node.id) then o.status != 0 ==> RunExit(s, node, o).status == OpFailed(o.status)
            else RunExit(s, node, o) == t
  {
    hide Times;
    TimesGrow(s.log, Executed(node.id), node.id);
    TimesGrow(s.log, Skipped(node.id), node.id);
    if |s.frames| > 0 {
      var frame := s.frames[|s.frames| - 1];
      TimesGrow(s.log, Rewound(frame, s.flow.Frame(frame).rewindPosition + 1), node.id);
    }
  }

  lemma OtherFails(g: Layout, s: State, node: Node, o: Outcome)
    requires s.status == Running
    ensures LogsRun(s, RunOther(g, s, node, o.(status := 0)), node.id)
    ensures o.status != 0 ==> RunOther(g, s, node, o).status == OpFailed(o.status)
  {
    hide Times;
    TimesGrow(s.log, Executed(node.id), node.id);
  }

  /** A node that is dispatched asks its op, unless it is an Exit that skips or goes back or a
      NextIteration without inputs; and a failure is the end. */
  lemma DispatchFails(g: Layout, s: State, node: Node, o: Outcome)
    requires s.status == Running
    ensures var t := Dispatch(g, s, node, o.(status := 0));
            if LogsRun(s, t, node.id) || (node.Is(NEXT_ITERATION) && t.status == NoOpenFrame) then
              o.status != 0 ==> Dispatch(g, s, node, o).status == OpFailed(o.status)
            else Dispatch(g, s, node, o) == t
  {
    hide RunEnter, RunNextIteration, RunExit, RunOther;
    var s1 := if |s.frames| > 0 && Lookup(s.frameIds, node.id) < 0
              then s.(frameIds := s.frameIds[node.id := s.frames[|s.frames| - 1]]) else s;
    var s2 := s1.(flow := s1.flow.MarkActive(node.id, true));
    EnterFails(s2, node, o);
    NextFails(s2, node, o);
    ExitFails(s2, node, o);
    OtherFails(g, s2, node, o);
  }

  lemma DispatchSame(g: Layout, s: State, node: Node, o: Outcome)
    requires o.status == 0
    ensures Dispatch(g, s, node, o) == Dispatch(g, s, node, o.(status := 0))
  {
  }

  lemma VisitFails(g: Layout, ops: Ops, s: State)
    requires ER.StackShape(s) && Visiting(g, s)
    ensures if Asks(g, ops, s) && OutcomeHere(g, ops, s).status != 0
            then Visit(g, ops, s).status == OpFailed(OutcomeHere(g, ops, s).status)
            else Visit(g, ops, s) == Visit(g, Forgiven(ops), s)
  {
    hide Check, Dispatch, Times;
    var node, o := g.At(s.l, s.n), OutcomeHere(g, ops, s);
    var s0 := s.(counter := s.counter + 1);
    if s0.counter <= MAX_VISITS {
      assert Forgiven(ops)(s0.counter, node.id) == o.(status := 0);
      var s1 := if s.leftFrame && !node.Is(EXIT) then CloseFrame(s0) else s0;
      DispatchFails(g, s1, node, o);
      if o.status == 0 {
        DispatchSame(g, s1, node, o);
      }
      if s1 != s0 {
        TimesGrow(s.log, Forgot(s.frames[|s.frames| - 1]), node.id);
      }
      TimesGrow(s1.log, Skipped(node.id), node.id);
    }
  }

  // ---------------------------------------------------------------- runs

  lemma StackShapeForgiven(g: Layout, ops: Ops, s: State, k: nat)
    requires ER.StackShape(s)
    ensures ER.StackShape(Steps(g, Forgiven(ops), s, k))
  {
    ER.StackShapeAlways(g, Forgiven(ops), s, k);
  }

  /** As long as the walk comes to no failing op, failing ops elsewhere change nothing. */
  lemma {:induction false} SameSoFar(g: Layout, ops: Ops, s: State, k: nat)
    requires ER.StackShape(s) && forall j: nat :: j < k ==> !FailsAt(g, ops, s, j)
    ensures Steps(g, ops, s, k) == Steps(g, Forgiven(ops), s, k)
  {
    hide Visit, Asks;
    if k > 0 {
      SameSoFar(g, ops, s, k - 1);
      StackShapeForgiven(g, ops, s, k - 1);
      var u := Steps(g, Forgiven(ops), s, k - 1);
      assert !FailsAt(g, ops, s, k - 1);
      if Visiting(g, u) {
        VisitFails(g, ops, u);
      }
    }
  }

  /** The first failing op ends the run with its code. */
  lemma {:induction false} FirstFailure(g: Layout, ops: Ops, s: State, j: nat, k: nat)
    requires ER.StackShape(s) && j < k && FailsAt(g, ops, s, j)
    requires forall i: nat :: i < j ==> !FailsAt(g, ops, s, i)
    ensures Steps(g, ops, s, k).status == OpFailed(OutcomeHere(g, ops, Steps(g, Forgiven(ops), s, j)).status)
  {
    hide Visit, Asks;
    if k > j + 1 {
      FirstFailure(g, ops, s, j, k - 1);
    } else {
      SameSoFar(g, ops, s, j);
      StackShapeForgiven(g, ops, s, j);
      VisitFails(g, ops, Steps(g, Forgiven(ops), s, j));
    }
  }
}
