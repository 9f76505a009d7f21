/** What holds in every state a run can reach: the step budget, the shape of the frame
    stack, and the bookkeeping of planned and taken rewinds. */
module ExecutorRewinds {
  import opened FlowPaths
  import opened Graphs
  import opened ExecutorSteps

  // ---------------------------------------------------------------- halting

  /** Steps from the far end: one step first, then the rest. */
  lemma {:induction false} StepsFirst(g: Layout, ops: Ops, s: State, k: nat)
    ensures Steps(g, ops, s, k + 1) == Steps(g, ops, Step(g, ops, s), k)
  {
    if k > 0 {
      StepsFirst(g, ops, s, k - 1);
    }
  }

  /** In every reachable state at most 10000 visits were let through, and the run was cut
      short exactly when one more was asked for. */
  lemma {:induction false} BudgetKept(g: Layout, ops: Ops, s: State, k: nat)
    requires s.status == Running && s.counter == 0
    ensures var t := Steps(g, ops, s, k); t.counter <= 10001 && (t.status == EarlyTermination <==> t.counter == 10001)
  {
    if k > 0 {
      BudgetKept(g, ops, s, k - 1);
      BudgetStep(g, ops, Steps(g, ops, s, k - 1));
    }
  }

  lemma BudgetStep(g: Layout, ops: Ops, s: State)
    requires s.counter <= MAX_VISITS + 1 && (s.status == EarlyTermination <==> s.counter == MAX_VISITS + 1)
    ensures var t := Step(g, ops, s);
            t.counter <= MAX_VISITS + 1 && (t.status == EarlyTermination <==> t.counter == MAX_VISITS + 1)
  {
    hide Visit;
  }

  /** No run goes on forever, whatever the graph, the ops and the rewinds: some number of
      steps reaches a halted state, and that state is the result of the run. */
  lemma {:induction false} Halts(g: Layout, ops: Ops, s: State) returns (k: nat)
    requires s.counter <= MAX_VISITS
    ensures Steps(g, ops, s, k) == Run(g, ops, s)
    ensures Run(g, ops, s).status != Running
    decreases MAX_VISITS + 1 - s.counter, |g.onion| - s.l, g.LayerSize(s.l) - s.n
  {
    if s.status != Running {
      k := 0;
    } else {
      var t := Step(g, ops, s);
      if s.l >= |g.onion| {
        k := 1;
        assert Steps(g, ops, s, 0) == s;
      } else if s.n >= g.LayerSize(s.l) {
        k := Halts(g, ops, t);
        StepsFirst(g, ops, s, k);
        k := k + 1;
      } else if t.status != Running {
        k := 1;
        assert Steps(g, ops, s, 0) == s;
      } else {
        k := Halts(g, ops, t);
        StepsFirst(g, ops, s, k);
        k := k + 1;
      }
    }
  }

  // ---------------------------------------------------------------- frame stack

  /** Entering the frame one is already in opens nothing, so neighbours on the stack
      differ; and a frame is only left while it is open. */
  ghost predicate StackShape(s: State) {
    && (forall i :: 0 <= i < |s.frames| - 1 ==> s.frames[i] != s.frames[i + 1])
    && (s.leftFrame ==> |s.frames| > 0)
  }

  lemma StackShapeDispatch(g: Layout, s: State, node: Node, o: Outcome)
    requires StackShape(s)
    ensures StackShape(Dispatch(g, s, node, o))
  {
    hide RunEnter, RunExit, RunNextIteration, RunOther;
  }

  lemma StackShapeVisit(g: Layout, ops: Ops, s: State)
    requires StackShape(s) && s.n < g.LayerSize(s.l)
    ensures StackShape(Visit(g, ops, s))
  {
    hide Check, Dispatch, SkipNode;
    var node := g.At(s.l, s.n);
    var s0 := s.(counter := s.counter + 1);
    var s1 := if s.leftFrame && !node.Is(EXIT) then CloseFrame(s0) else s0;
    StackShapeDispatch(g, s1, node, ops(s0.counter, node.id));
  }

  lemma StackShapeStep(g: Layout, ops: Ops, s: State)
    requires StackShape(s)
    ensures StackShape(Step(g, ops, s))
  {
    hide Visit;
    if s.status == Running && s.l < |g.onion| && s.n < g.LayerSize(s.l) {
      StackShapeVisit(g, ops, s);
    }
  }

  lemma {:induction false} StackShapeAlways(g: Layout, ops: Ops, s: State, k: nat)
    requires StackShape(s)
    ensures StackShape(Steps(g, ops, s, k))
  {
    if k > 0 {
      StackShapeAlways(g, ops, s, k - 1);
      StackShapeStep(g, ops, Steps(g, ops, s, k - 1));
    }
  }

  /** The frames that are open, as a log tells: opening puts one on top, and forgetting takes
      the topmost off. */
  function OpenFrames(log: seq<Event>): seq<int> {
    if log == [] then []
    else
      var e, below := log[|log| - 1], OpenFrames(log[..|log| - 1]);
      if e.Opened? then below + [e.frame]
      else if e.Forgot? && |below| > 0 then below[..|below| - 1]
      else below
  }

  lemma OpenGrows(log: seq<Event>, e: Event)
    ensures OpenFrames(log + [e]) ==
            var below := OpenFrames(log);
            if e.Opened? then below + [e.frame] else if e.Forgot? && |below| > 0 then below[..|below| - 1] else below
  {
    assert (log + [e])[..|log|] == log;
  }

  lemma OpenEnter(s: State, node: Node, o: Outcome)
    requires s.frames == OpenFrames(s.log)
    ensures var t := RunEnter(s, node, o); t.frames == OpenFrames(t.log)
  {
    hide OpenFrames;
    var frame := Lookup(s.frameIds, node.id);
    OpenGrows(s.log, Opened(frame));
    OpenGrows(s.log + [Opened(frame)], Executed(node.id));
    OpenGrows(s.log, Executed(node.id));
  }

  lemma OpenNext(s: State, node: Node, o: Outcome)
    requires s.frames == OpenFrames(s.log)
    ensures var t := RunNextIteration(s, node, o); t.frames == OpenFrames(t.log)
  {
    hide OpenFrames;
    OpenGrows(s.log, Executed(node.id));
    if |s.frames| > 0 {
      OpenGrows(s.log + [Executed(node.id)], Planned(s.frames[|s.frames| - 1], Lookup(s.rewindLayers, node.id)));
    }
  }

  lemma OpenExit(s: State, node: Node, o: Outcome)
    requires s.frames == OpenFrames(s.log)
    ensures var t := RunExit(s, node, o); t.frames == OpenFrames(t.log)
  {
    hide OpenFrames;
    OpenGrows(s.log, Executed(node.id));
    OpenGrows(s.log, Skipped(node.id));
    if |s.frames| > 0 {
      var frame := s.frames[|s.frames| - 1];
      OpenGrows(s.log, Rewound(frame, s.flow.Frame(frame).rewindPosition + 1));
    }
  }

  lemma OpenOther(g: Layout, s: State, node: Node, o: Outcome)
    requires s.frames == OpenFrames(s.log)
    ensures var t := RunOther(g, s, node, o); t.frames == OpenFrames(t.log)
  {
    hide OpenFrames;
    OpenGrows(s.log, Executed(node.id));
  }

  lemma OpenDispatch(g: Layout, s: State, node: Node, o: Outcome)
    requires s.frames == OpenFrames(s.log)
    ensures var t := Dispatch(g, s, node, o); t.frames == OpenFrames(t.log)
  {
    hide OpenFrames, RunEnter, RunNextIteration, RunExit, RunOther;
    var s1 := if |s.frames| > 0 && Lookup(s.frameIds, node.id) < 0
              then s.(frameIds := s.frameIds[node.id := s.frames[|s.frames| - 1]]) else s;
    var s2 := s1.(flow := s1.flow.MarkActive(node.id, true));
    OpenEnter(s2, node, o);
    OpenNext(s2, node, o);
    OpenExit(s2, node, o);
    OpenOther(g, s2, node, o);
  }

  lemma OpenVisit(g: Layout, ops: Ops, s: State)
    requires s.frames == OpenFrames(s.log) && s.n < g.LayerSize(s.l)
    ensures var t := Visit(g, ops, s); t.frames == OpenFrames(t.log)
  {
    hide Dispatch, Check, OpenFrames;
    var node := g.At(s.l, s.n);
    var s0 := s.(counter := s.counter + 1);
    var s1 := if s.leftFrame && !node.Is(EXIT) && |s.frames| > 0 then CloseFrame(s0) else s0;
    if s1 != s0 {
      OpenGrows(s.log, Forgot(s.frames[|s.frames| - 1]));
    }
    OpenDispatch(g, s1, node, ops(s0.counter, node.id));
    OpenGrows(s1.log, Skipped(node.id));
  }

  /** In every reachable state the stack is what the log says was opened and not forgotten. */
  lemma {:induction false} OpenAlways(g: Layout, ops: Ops, flow: Flow, frameIds: map<int, int>,
      rewindLayers: map<int, int>,
      k: nat)
    ensures var s := Steps(g, ops, Start(flow, frameIds, rewindLayers), k); s.frames == OpenFrames(s.log)
  {
    hide Visit, OpenFrames;
    if k > 0 {
      OpenAlways(g, ops, flow, frameIds, rewindLayers, k - 1);
      var s := Steps(g, ops, Start(flow, frameIds, rewindLayers), k - 1);
      if s.status == Running && s.l < |g.onion| && s.n < g.LayerSize(s.l) {
        OpenVisit(g, ops, s);
      }
    } else {
      assert OpenFrames([]) == [] by { NoFrames(); }
    }
  }

  lemma NoFrames()
    ensures OpenFrames([]) == []
  {
  }

  /** The frames open for the next node that is no Exit: a frame that was left is not. */
  function Open(s: State): seq<int>
    requires s.leftFrame ==> |s.frames| > 0
  {
    if s.leftFrame then s.frames[..|s.frames| - 1] else s.frames
  }

  lemma EnterRuns(g: Layout, s: State, node: Node, o: Outcome)
    requires node.Is(ENTER)
    ensures var t := Dispatch(g, s, node, o); var f := Lookup(t.frameIds, node.id);
            && |t.frames| > 0 && t.frames[|t.frames| - 1] == f
            && t.frames == if |s.frames| > 0 && s.frames[|s.frames| - 1] == f then s.frames else s.frames + [f]
  {
    hide RunNextIteration, RunExit, RunOther, RunEnter;
    var s1 := if |s.frames| > 0 && Lookup(s.frameIds, node.id) < 0
              then s.(frameIds := s.frameIds[node.id := s.frames[|s.frames| - 1]]) else s;
    EnterStack(s1.(flow := s1.flow.MarkActive(node.id, true)), node, o);
  }

  lemma EnterStack(s: State, node: Node, o: Outcome)
    ensures var t, f := RunEnter(s, node, o), Lookup(s.frameIds, node.id);
            && t.frameIds == s.frameIds && |t.frames| > 0 && t.frames[|t.frames| - 1] == f
            && t.frames == if |s.frames| > 0 && s.frames[|s.frames| - 1] == f then s.frames else s.frames + [f]
  {
    hide Process, Complete;
    var f := Lookup(s.frameIds, node.id);
    var s1 := if |s.frames| == 0 || s.frames[|s.frames| - 1] != f then s.(frames := s.frames + [f]).Log(Opened(f)) else s;
    KeepIds(s1, node, o);
    KeepIds(Process(s1, node, o), node, o);
  }

  lemma KeepIds(s: State, node: Node, o: Outcome)
    ensures Process(s, node, o).frameIds == s.frameIds && Complete(s, node).frameIds == s.frameIds
  {
  }

  /** When an Enter has run, its own frame is the innermost one, on top of the frames that were
      open, or as one of them if it was the innermost already. */
  lemma EnterOpens(g: Layout, ops: Ops, s: State)
    requires StackShape(s) && s.n < g.LayerSize(s.l) && g.At(s.l, s.n).Is(ENTER)
    ensures var t, id := Visit(g, ops, s), g.At(s.l, s.n).id; var f := Lookup(t.frameIds, id);
            |t.log| > 0 && t.log[|t.log| - 1] == Executed(id) && |t.log| > |s.log| ==>
              && |t.frames| > 0 && t.frames[|t.frames| - 1] == f
              && t.frames == if |Open(s)| > 0 && Open(s)[|Open(s)| - 1] == f then Open(s) else Open(s) + [f]
  {
    hide Check, Dispatch;
    var node := g.At(s.l, s.n);
    var s0 := s.(counter := s.counter + 1);
    if s0.counter <= MAX_VISITS {
      var s1 := if s.leftFrame then CloseFrame(s0) else s0;
      assert s1.frames == Open(s);
      EnterRuns(g, s1, node, ops(s0.counter, node.id));
      assert !node.Is(EXIT);
    }
  }

  // ---------------------------------------------------------------- rewinds

  /** Rewinds planned for a frame since it was last forgotten. */
  function PlannedSince(log: seq<Event>, frame: int): nat {
    if log == [] then 0
    else
      var e, rest := log[|log| - 1], log[..|log| - 1];
      if e == Forgot(frame) then 0
      else PlannedSince(rest, frame) + if e.Planned? && e.frame == frame then 1 else 0
  }

  /** Rewinds taken for a frame since it was last forgotten. */
  function TakenSince(log: seq<Event>, frame: int): nat {
    if log == [] then 0
    else
      var e, rest := log[|log| - 1], log[..|log| - 1];
      if e == Forgot(frame) then 0
      else TakenSince(rest, frame) + if e.Rewound? && e.frame == frame then 1 else 0
  }

  /** The layer named by the last plan for a frame. */
  function LastPlan(log: seq<Event>, frame: int): int {
    if log == [] then -1
    else
      var e := log[|log| - 1];
      if e.Planned? && e.frame == frame then e.layer else LastPlan(log[..|log| - 1], frame)
  }

  /** Every rewind goes to the layer of the latest plan for its frame. */
  ghost predicate RewindsFollowPlans(log: seq<Event>) {
    forall i :: 0 <= i < |log| && log[i].Rewound? ==> log[i].layer == LastPlan(log[..i], log[i].frame)
  }

  /** Planned = taken + pending for one frame, and a pending rewind remembers its layer. */
  ghost predicate Balanced(flow: Flow, log: seq<Event>, frame: int) {
    var f := flow.Frame(frame);
    && PlannedSince(log, frame) == TakenSince(log, frame) + (if f.rewindPlanned then 1 else 0)
    && f.rewindPosition == if f.rewindPlanned then LastPlan(log, frame) - 1 else -1
  }

  ghost predicate Accounts(s: State) {
    && RewindsFollowPlans(s.log)
    && forall frame :: Balanced(s.flow, s.log, frame)
  }

  lemma LogGrows(log: seq<Event>, e: Event, frame: int)
    ensures PlannedSince(log + [e], frame) ==
            if e == Forgot(frame) then 0
            else PlannedSince(log, frame) + if e.Planned? && e.frame == frame then 1 else 0
    ensures TakenSince(log + [e], frame) ==
            if e == Forgot(frame) then 0
            else TakenSince(log, frame) + if e.Rewound? && e.frame == frame then 1 else 0
    ensures LastPlan(log + [e], frame) ==
            if e.Planned? && e.frame == frame then e.layer else LastPlan(log, frame)
  {
    assert (log + [e])[..|log|] == log;
  }

  ghost predicate SameRewinds(a: Flow, b: Flow) {
    forall frame :: a.Frame(frame).rewindPlanned == b.Frame(frame).rewindPlanned
                 && a.Frame(frame).rewindPosition == b.Frame(frame).rewindPosition
  }

  /** A change the books do not look at, with at most one event that is not about rewinds. */
  ghost predicate Quiet(s: State, t: State) {
    && SameRewinds(s.flow, t.flow)
    && (t.log == s.log || (OneMore(s.log, t.log) && QuietEvent(t.log[|t.log| - 1])))
  }

  predicate QuietEvent(e: Event) {
    !e.Planned? && !e.Rewound? && !e.Forgot?
  }

  predicate OneMore(before: seq<Event>, after: seq<Event>) {
    |after| > 0 && after[..|after| - 1] == before
  }

  lemma ProcessKeeps(s: State, node: Node, o: Outcome)
    ensures var t := Process(s, node, o);
            t.flow.frames == s.flow.frames && t.log == s.log && t.rewindLayers == s.rewindLayers
  {
  }

  lemma CompleteLogs(s: State, node: Node)
    ensures var t := Complete(s, node);
            && t.flow.frames == s.flow.frames && t.rewindLayers == s.rewindLayers
            && t.log == s.log + [Executed(node.id)]
  {
  }

  lemma QuietComplete(s: State, t: State, node: Node)
    requires SameRewinds(s.flow, t.flow) && t.log == s.log
    ensures Quiet(s, Complete(t, node))
  {
    CompleteLogs(t, node);
    hide Complete;
  }

  lemma AccountsQuiet(s: State, t: State)
    requires Accounts(s) && Quiet(s, t)
    ensures Accounts(t)
  {
    if t.log == s.log {
      forall frame ensures Balanced(t.flow, t.log, frame) {
        assert Balanced(s.flow, s.log, frame);
      }
    } else {
      var e := t.log[|t.log| - 1];
      assert t.log == s.log + [e];
      forall frame ensures Balanced(t.flow, t.log, frame) {
        LogGrows(s.log, e, frame);
        assert Balanced(s.flow, s.log, frame);
      }
      FollowGrows(s.log, e);
    }
  }

  lemma FollowGrows(log: seq<Event>, e: Event)
    requires RewindsFollowPlans(log)
    requires e.Rewound? ==> e.layer == LastPlan(log, e.frame)
    ensures RewindsFollowPlans(log + [e])
  {
    var grown := log + [e];
    forall i | 0 <= i < |grown| && grown[i].Rewound?
      ensures grown[i].layer == LastPlan(grown[..i], grown[i].frame)
    {
      if i < |log| {
        assert grown[..i] == log[..i];
      } else {
        assert grown[..i] == log;
      }
    }
  }

  lemma AccountsForgot(s: State)
    requires Accounts(s) && |s.frames| > 0
    ensures Accounts(CloseFrame(s))
  {
    var t := CloseFrame(s);
    var gone := s.frames[|s.frames| - 1];
    forall frame ensures Balanced(t.flow, t.log, frame) {
      LogGrows(s.log, Forgot(gone), frame);
      assert Balanced(s.flow, s.log, frame);
    }
    FollowGrows(s.log, Forgot(gone));
  }

  lemma AccountsPlanned(s: State, frame: int, layer: int)
    requires Accounts(s) && !s.flow.Frame(frame).rewindPlanned
    ensures Accounts(s.(flow := s.flow.Plan(frame, layer - 1)).Log(Planned(frame, layer)))
  {
    var t := s.(flow := s.flow.Plan(frame, layer - 1)).Log(Planned(frame, layer));
    assert Balanced(s.flow, s.log, frame);
    forall other ensures Balanced(t.flow, t.log, other) {
      LogGrows(s.log, Planned(frame, layer), other);
      assert Balanced(s.flow, s.log, other);
    }
    FollowGrows(s.log, Planned(frame, layer));
  }

  lemma AccountsRewound(s: State, t: State, frame: int)
    requires Accounts(s) && s.flow.Frame(frame).rewindPlanned
    requires t.flow == s.flow.Unplan(frame)
    requires t.log == s.log + [Rewound(frame, s.flow.Frame(frame).rewindPosition + 1)]
    ensures Accounts(t)
  {
    var e := Rewound(frame, s.flow.Frame(frame).rewindPosition + 1);
    assert Balanced(s.flow, s.log, frame);
    forall other ensures Balanced(t.flow, t.log, other) {
      LogGrows(s.log, e, other);
      assert Balanced(s.flow, s.log, other);
    }
    FollowGrows(s.log, e);
  }

  lemma QuietMerge(g: Layout, s: State, node: Node, o: Outcome)
    requires |node.inputs| >= 2
    ensures var t := LoopMerge(g, s, node, o); SameRewinds(s.flow, t.flow) && t.log == s.log
  {
  }

  lemma QuietOther(g: Layout, s: State, node: Node, o: Outcome)
    ensures Quiet(s, RunOther(g, s, node, o))
  {
    hide LoopMerge, Process, Complete;
    var s1 := Process(s, node, o);
    ProcessKeeps(s, node, o);
    var s2 := s1;
    if node.Is(MERGE) && |node.inputs| >= 2 {
      QuietMerge(g, s1, node, o);
      s2 := LoopMerge(g, s1, node, o);
    }
    QuietComplete(s, s2, node);
  }

  lemma AccountsEnter(s: State, node: Node, o: Outcome)
    requires Accounts(s)
    ensures Accounts(RunEnter(s, node, o))
  {
    hide Accounts, Process, Complete;
    var frame := Lookup(s.frameIds, node.id);
    var s1 := if |s.frames| == 0 || s.frames[|s.frames| - 1] != frame
              then s.(frames := s.frames + [frame]).Log(Opened(frame)) else s;
    AccountsQuiet(s, s1);
    ProcessKeeps(s1, node, o);
    QuietComplete(s1, Process(s1, node, o), node);
    AccountsQuiet(s1, RunEnter(s, node, o));
  }

  lemma AccountsNextIteration(s: State, node: Node, o: Outcome)
    requires Accounts(s)
    ensures Accounts(RunNextIteration(s, node, o))
  {
    hide Accounts, Process, Complete;
    var mid := Complete(Process(s, node, o), node);
    ProcessKeeps(s, node, o);
    QuietComplete(s, Process(s, node, o), node);
    AccountsQuiet(s, mid);
    if |node.inputs| > 0 && o.status == 0 && |s.frames| > 0 {
      var open := s.frames[|s.frames| - 1];
      if !mid.flow.Frame(open).rewindPlanned {
        AccountsPlanned(mid, open, Lookup(s.rewindLayers, node.id));
      }
    } else {
      AccountsQuiet(s, RunNextIteration(s, node, o));
    }
  }

  lemma QuietExit(s: State, node: Node, o: Outcome)
    requires |s.frames| > 0 ==> var f := s.flow.Frame(s.frames[|s.frames| - 1]); !f.activated || !f.rewindPlanned
    ensures Quiet(s, RunExit(s, node, o))
  {
    hide Process, Complete;
    ProcessKeeps(s, node, o);
    QuietComplete(s, Process(s, node, o).(leftFrame := true), node);
  }

  lemma AccountsExit(s: State, node: Node, o: Outcome)
    requires Accounts(s)
    ensures Accounts(RunExit(s, node, o))
  {
    hide Accounts, Process, Complete, Quiet;
    var t := RunExit(s, node, o);
    if |s.frames| > 0 && s.flow.Frame(s.frames[|s.frames| - 1]).activated
       && s.flow.Frame(s.frames[|s.frames| - 1]).rewindPlanned {
      AccountsRewound(s, t, s.frames[|s.frames| - 1]);
    } else {
      QuietExit(s, node, o);
      AccountsQuiet(s, t);
    }
  }

  lemma AccountsDispatch(g: Layout, s: State, node: Node, o: Outcome)
    requires Accounts(s)
    ensures Accounts(Dispatch(g, s, node, o))
  {
    hide Accounts, RunEnter, RunNextIteration, RunExit, RunOther;
    var s1 := if |s.frames| > 0 && Lookup(s.frameIds, node.id) < 0
              then s.(frameIds := s.frameIds[node.id := s.frames[|s.frames| - 1]]) else s;
    var s2 := s1.(flow := s1.flow.MarkActive(node.id, true));
    AccountsQuiet(s, s2);
    if node.Is(ENTER) {
      AccountsEnter(s2, node, o);
    } else if node.Is(NEXT_ITERATION) {
      AccountsNextIteration(s2, node, o);
    } else if node.Is(EXIT) {
      AccountsExit(s2, node, o);
    } else {
      QuietOther(g, s2, node, o);
      AccountsQuiet(s2, RunOther(g, s2, node, o));
    }
  }

  lemma AccountsVisit(g: Layout, ops: Ops, s: State)
    requires Accounts(s) && s.n < g.LayerSize(s.l)
    ensures Accounts(Visit(g, ops, s))
  {
    hide Accounts, Dispatch, Check, CloseFrame;
    var t := Visit(g, ops, s);
    var s0 := s.(counter := s.counter + 1);
    AccountsQuiet(s, s0);
    if s0.counter > MAX_VISITS {
      AccountsQuiet(s0, t);
    } else {
      var node := g.At(s.l, s.n);
      var o := ops(s0.counter, node.id);
      if node.Is(EXIT) {
        AccountsDispatch(g, s0, node, o);
      } else if s0.leftFrame && |s0.frames| == 0 {
        AccountsQuiet(s0, t);
      } else {
        var s1 := s0;
        if s0.leftFrame {
          AccountsForgot(s0);
          s1 := CloseFrame(s0);
        }
        match Check(g, s1.flow, node) {
          case Throw => AccountsQuiet(s1, t);
          case Skip => AccountsQuiet(s1, t);
          case Proceed => AccountsDispatch(g, s1, node, o);
        }
      }
    }
  }

  lemma AccountsStep(g: Layout, ops: Ops, s: State)
    requires Accounts(s)
    ensures Accounts(Step(g, ops, s))
  {
    hide Accounts, Visit;
    if s.status == Running && s.l < |g.onion| && s.n < g.LayerSize(s.l) {
      AccountsVisit(g, ops, s);
    } else {
      AccountsQuiet(s, Step(g, ops, s));
    }
  }

  /** From a fresh flow path, in every reachable state and for every frame: rewinds planned
      since the frame was last forgotten are the rewinds taken plus the pending one, and
      every rewind ever taken went to the layer of the plan before it. */
  lemma {:induction false} RewindsBalance(g: Layout, ops: Ops, flow: Flow, frameIds: map<int, int>,
                                          rewindLayers: map<int, int>, k: nat)
    requires flow.frames == map[]
    ensures Accounts(Steps(g, ops, Start(flow, frameIds, rewindLayers), k))
  {
    if k > 0 {
      RewindsBalance(g, ops, flow, frameIds, rewindLayers, k - 1);
      AccountsStep(g, ops, Steps(g, ops, Start(flow, frameIds, rewindLayers), k - 1));
    }
  }

  /** The last event is not a rewind that `t` added. */
  ghost predicate NoRewind(s: State, t: State) {
    t.log == s.log || (|t.log| > 0 && !t.log[|t.log| - 1].Rewound?)
  }

  lemma NoRewindEnter(s: State, node: Node, o: Outcome)
    ensures NoRewind(s, RunEnter(s, node, o))
  {
    hide Process, Complete;
    var frame := Lookup(s.frameIds, node.id);
    var s1 := if |s.frames| == 0 || s.frames[|s.frames| - 1] != frame
              then s.(frames := s.frames + [frame]).Log(Opened(frame)) else s;
    ProcessKeeps(s1, node, o);
    CompleteLogs(Process(s1, node, o), node);
  }

  lemma NoRewindNextIteration(s: State, node: Node, o: Outcome)
    ensures NoRewind(s, RunNextIteration(s, node, o))
  {
    hide Process, Complete;
    ProcessKeeps(s, node, o);
    CompleteLogs(Process(s, node, o), node);
  }

  lemma NoRewindDispatch(g: Layout, s: State, node: Node, o: Outcome)
    requires !node.Is(EXIT)
    ensures NoRewind(s, Dispatch(g, s, node, o))
  {
    hide RunEnter, RunNextIteration, RunExit, RunOther;
    var s1 := if |s.frames| > 0 && Lookup(s.frameIds, node.id) < 0
              then s.(frameIds := s.frameIds[node.id := s.frames[|s.frames| - 1]]) else s;
    var s2 := s1.(flow := s1.flow.MarkActive(node.id, true));
    NoRewindEnter(s2, node, o);
    NoRewindNextIteration(s2, node, o);
    QuietOther(g, s2, node, o);
    assert NoRewind(s2, RunOther(g, s2, node, o));
  }

  lemma OnlyExitsRewind(g: Layout, ops: Ops, s: State)
    requires s.status == Running && s.l < |g.onion| && s.n < g.LayerSize(s.l) && !g.At(s.l, s.n).Is(EXIT)
    ensures NoRewind(s, Visit(g, ops, s))
  {
    hide Check, Dispatch;
    var node := g.At(s.l, s.n);
    var s0 := s.(counter := s.counter + 1);
    var s1 := if s0.leftFrame && |s0.frames| > 0 then CloseFrame(s0) else s0;
    NoRewindDispatch(g, s1, node, ops(s0.counter, node.id));
  }

  lemma ExitRewinds(s: State, node: Node, o: Outcome)
    requires Accounts(s)
    requires var t := RunExit(s, node, o); t.log != s.log && t.log[|t.log| - 1].Rewound?
    ensures var t := RunExit(s, node, o); var e := t.log[|t.log| - 1];
            && |s.frames| > 0 && e.frame == s.frames[|s.frames| - 1]
            && t.status == s.status && t.l == e.layer == LastPlan(s.log, e.frame) && t.n == 0
  {
    assert Balanced(s.flow, s.log, s.frames[|s.frames| - 1]);
    hide Accounts;
  }

  /** The step from `s` to `t` takes a rewind. */
  ghost predicate TakesRewind(s: State, t: State) {
    t.log != s.log && |t.log| > 0 && t.log[|t.log| - 1].Rewound?
  }

  /** It happens at an Exit, for the innermost frame, and the walk goes on at the beginning of
      the layer the plan named, whether or not that layer has nodes. */
  ghost predicate LandsAsPlanned(g: Layout, s: State, t: State)
    requires TakesRewind(s, t)
  {
    var e := t.log[|t.log| - 1];
    && s.n < g.LayerSize(s.l) && g.At(s.l, s.n).Is(EXIT)
    && |s.frames| > 0 && e.frame == s.frames[|s.frames| - 1]
    && t.status == Running && t.l == e.layer == LastPlan(s.log, e.frame) && t.n == 0
  }

  /** Every rewind taken in a run that starts with a flow path without frames. */
  lemma RewindLands(g: Layout, ops: Ops, flow: Flow, frameIds: map<int, int>, rewindLayers: map<int, int>, k: nat)
    requires flow.frames == map[]
    ensures var s := Steps(g, ops, Start(flow, frameIds, rewindLayers), k); var t := Step(g, ops, s);
            TakesRewind(s, t) ==> LandsAsPlanned(g, s, t)
  {
    hide Accounts, Step, TakesRewind, LandsAsPlanned;
    RewindsBalance(g, ops, flow, frameIds, rewindLayers, k);
    StepLands(g, ops, Steps(g, ops, Start(flow, frameIds, rewindLayers), k));
  }

  lemma StepLands(g: Layout, ops: Ops, s: State)
    requires Accounts(s)
    ensures var t := Step(g, ops, s); TakesRewind(s, t) ==> LandsAsPlanned(g, s, t)
  {
    hide Accounts, Dispatch, Check, CloseFrame, SkipNode;
    if TakesRewind(s, Step(g, ops, s)) {
      var node := g.At(s.l, s.n);
      if !node.Is(EXIT) {
        OnlyExitsRewind(g, ops, s);
      } else {
        var s0 := s.(counter := s.counter + 1);
        AccountsQuiet(s, s0);
        DispatchRewinds(g, s0, node, ops(s0.counter, node.id));
      }
    }
  }

  lemma DispatchRewinds(g: Layout, s: State, node: Node, o: Outcome)
    requires Accounts(s) && node.Is(EXIT) && TakesRewind(s, Dispatch(g, s, node, o))
    ensures var t := Dispatch(g, s, node, o); var e := t.log[|t.log| - 1];
            && |s.frames| > 0 && e.frame == s.frames[|s.frames| - 1]
            && t.status == s.status && t.l == e.layer == LastPlan(s.log, e.frame) && t.n == 0
  {
    hide Accounts, RunExit;
    var s1 := if |s.frames| > 0 && Lookup(s.frameIds, node.id) < 0
              then s.(frameIds := s.frameIds[node.id := s.frames[|s.frames| - 1]]) else s;
    var s2 := s1.(flow := s1.flow.MarkActive(node.id, true));
    AccountsQuiet(s, s2);
    ExitRewinds(s2, node, o);
  }

  // ---------------------------------------------------------------- where plans point

  /** `layer` is the layer of a Merge whose second input is the NextIteration `id`. */
  ghost predicate ClosesLoop(g: Layout, id: int, layer: int) {
    exists l, n :: IsLoopMerge(g, l, n, id) && g.At(l, n).layer == layer
  }

  predicate IsLoopMerge(g: Layout, l: int, n: nat, id: int) {
    n < g.LayerSize(l) && g.At(l, n).Is(MERGE) && |g.At(l, n).inputs| >= 2 && g.At(l, n).inputs[1].0 == id
  }

  /** A layer that may be planned: the one of a loop Merge, or -1 if none ran yet. */
  ghost predicate PlanTarget(g: Layout, layer: int) {
    layer == -1 || exists id :: ClosesLoop(g, id, layer)
  }

  ghost predicate PlansNamed(g: Layout, s: State) {
    && (forall id :: id in s.rewindLayers ==> ClosesLoop(g, id, s.rewindLayers[id]))
    && (forall i :: 0 <= i < |s.log| && s.log[i].Planned? ==> PlanTarget(g, s.log[i].layer))
  }

  /** Steps that name nothing new. */
  ghost predicate NamesNothing(s: State, t: State) {
    && t.rewindLayers == s.rewindLayers
    && (t.log == s.log || (OneMore(s.log, t.log) && !t.log[|t.log| - 1].Planned?))
  }

  lemma PlansNamedQuiet(g: Layout, s: State, t: State)
    requires PlansNamed(g, s) && NamesNothing(s, t)
    ensures PlansNamed(g, t)
  {
  }

  lemma PlansNamedMerge(g: Layout, s: State, l: int, n: nat, o: Outcome)
    requires PlansNamed(g, s) && n < g.LayerSize(l) && g.At(l, n).Is(MERGE) && |g.At(l, n).inputs| >= 2
    ensures PlansNamed(g, LoopMerge(g, s, g.At(l, n), o))
  {
    assert IsLoopMerge(g, l, n, g.At(l, n).inputs[1].0);
    assert ClosesLoop(g, g.At(l, n).inputs[1].0, g.At(l, n).layer);
    QuietMerge(g, s, g.At(l, n), o);
  }

  lemma PlansNamedNextIteration(g: Layout, s: State, node: Node, o: Outcome)
    requires PlansNamed(g, s)
    ensures PlansNamed(g, RunNextIteration(s, node, o))
  {
    hide PlansNamed, Process, Complete;
    var mid := Complete(Process(s, node, o), node);
    ProcessKeeps(s, node, o);
    CompleteLogs(Process(s, node, o), node);
    PlansNamedQuiet(g, s, mid);
    var t := RunNextIteration(s, node, o);
    if |node.inputs| > 0 && o.status == 0 && |s.frames| > 0 {
      var layer := Lookup(s.rewindLayers, node.id);
      LookupNamed(g, s, node.id);
      if t != mid {
        var open := s.frames[|s.frames| - 1];
        PlansNamedPlanned(g, mid, mid.flow.Plan(open, layer - 1), open, layer);
      }
    } else {
      PlansNamedQuiet(g, s, t);
    }
  }

  /** The layer a NextIteration looks up. */
  lemma LookupNamed(g: Layout, s: State, id: int)
    requires PlansNamed(g, s)
    ensures PlanTarget(g, Lookup(s.rewindLayers, id))
  {
  }

  lemma PlansNamedPlanned(g: Layout, s: State, flow: Flow, frame: int, layer: int)
    requires PlansNamed(g, s) && PlanTarget(g, layer)
    ensures PlansNamed(g, s.(flow := flow).Log(Planned(frame, layer)))
  {
    hide PlanTarget, ClosesLoop;
  }

  lemma PlansNamedEnter(g: Layout, s: State, node: Node, o: Outcome)
    requires PlansNamed(g, s)
    ensures PlansNamed(g, RunEnter(s, node, o))
  {
    hide PlansNamed, Process, Complete;
    var frame := Lookup(s.frameIds, node.id);
    var s1 := if |s.frames| == 0 || s.frames[|s.frames| - 1] != frame
              then s.(frames := s.frames + [frame]).Log(Opened(frame)) else s;
    PlansNamedQuiet(g, s, s1);
    ProcessKeeps(s1, node, o);
    CompleteLogs(Process(s1, node, o), node);
    PlansNamedQuiet(g, s1, RunEnter(s, node, o));
  }

  lemma PlansNamedExit(g: Layout, s: State, node: Node, o: Outcome)
    requires PlansNamed(g, s)
    ensures PlansNamed(g, RunExit(s, node, o))
  {
    hide PlansNamed, Process, Complete;
    ProcessKeeps(s, node, o);
    CompleteLogs(Process(s, node, o).(leftFrame := true), node);
    PlansNamedQuiet(g, s, RunExit(s, node, o));
  }

  lemma PlansNamedOther(g: Layout, s: State, l: int, n: nat, o: Outcome)
    requires PlansNamed(g, s) && n < g.LayerSize(l)
    ensures PlansNamed(g, RunOther(g, s, g.At(l, n), o))
  {
    hide PlansNamed, LoopMerge, Process, Complete;
    var node := g.At(l, n);
    var s1 := Process(s, node, o);
    ProcessKeeps(s, node, o);
    PlansNamedQuiet(g, s, s1);
    var s2 := s1;
    if node.Is(MERGE) && |node.inputs| >= 2 {
      PlansNamedMerge(g, s1, l, n, o);
      s2 := LoopMerge(g, s1, node, o);
    }
    CompleteLogs(s2, node);
    PlansNamedQuiet(g, s2, RunOther(g, s, node, o));
  }

  lemma PlansNamedDispatch(g: Layout, s: State, l: int, n: nat, o: Outcome)
    requires PlansNamed(g, s) && n < g.LayerSize(l)
    ensures PlansNamed(g, Dispatch(g, s, g.At(l, n), o))
  {
    hide PlansNamed, RunNextIteration, RunEnter, RunExit, RunOther;
    var node := g.At(l, n);
    var s1 := if |s.frames| > 0 && Lookup(s.frameIds, node.id) < 0
              then s.(frameIds := s.frameIds[node.id := s.frames[|s.frames| - 1]]) else s;
    var s2 := s1.(flow := s1.flow.MarkActive(node.id, true));
    PlansNamedQuiet(g, s, s2);
    if node.Is(ENTER) {
      PlansNamedEnter(g, s2, node, o);
    } else if node.Is(NEXT_ITERATION) {
      PlansNamedNextIteration(g, s2, node, o);
    } else if node.Is(EXIT) {
      PlansNamedExit(g, s2, node, o);
    } else {
      PlansNamedOther(g, s2, l, n, o);
    }
  }

  lemma ClosedNamesNothing(s: State)
    requires |s.frames| > 0
    ensures NamesNothing(s, CloseFrame(s))
  {
  }

  lemma SkipNamesNothing(s: State, node: Node)
    ensures NamesNothing(s, SkipNode(s, node))
  {
  }

  lemma PlansNamedVisit(g: Layout, ops: Ops, s: State)
    requires PlansNamed(g, s) && s.n < g.LayerSize(s.l)
    ensures PlansNamed(g, Visit(g, ops, s))
  {
    hide PlansNamed, Dispatch, Check, CloseFrame, SkipNode;
    var t := Visit(g, ops, s);
    var s0 := s.(counter := s.counter + 1);
    PlansNamedQuiet(g, s, s0);
    if s0.counter > MAX_VISITS {
      PlansNamedQuiet(g, s0, t);
    } else {
      var node := g.At(s.l, s.n);
      var o := ops(s0.counter, node.id);
      if node.Is(EXIT) {
        PlansNamedDispatch(g, s0, s.l, s.n, o);
      } else if s0.leftFrame && |s0.frames| == 0 {
        PlansNamedQuiet(g, s0, t);
      } else {
        var s1 := s0;
        if s0.leftFrame {
          s1 := CloseFrame(s0);
          ClosedNamesNothing(s0);
          PlansNamedQuiet(g, s0, s1);
        }
        match Check(g, s1.flow, node) {
          case Throw => PlansNamedQuiet(g, s1, t);
          case Skip => SkipNamesNothing(s1, node); PlansNamedQuiet(g, s1, t);
          case Proceed => PlansNamedDispatch(g, s1, s.l, s.n, o);
        }
      }
    }
  }

  lemma PlansNamedStep(g: Layout, ops: Ops, s: State)
    requires PlansNamed(g, s)
    ensures PlansNamed(g, Step(g, ops, s))
  {
    hide PlansNamed, Visit;
    if s.status == Running && s.l < |g.onion| && s.n < g.LayerSize(s.l) {
      PlansNamedVisit(g, ops, s);
    } else {
      PlansNamedQuiet(g, s, Step(g, ops, s));
    }
  }

  /** In every reachable state, whatever the plan or the rewind, its layer is that of a
      Merge closing a loop (or -1, when the NextIteration ran before any such Merge). */
  lemma {:induction false} RewindsGoToLoopMerges(g: Layout, ops: Ops, flow: Flow, frameIds: map<int, int>, k: nat)
    requires flow.frames == map[]
    ensures var t := Steps(g, ops, Start(flow, frameIds, map[]), k);
            PlansNamed(g, t)
            && forall i :: 0 <= i < |t.log| && t.log[i].Rewound? ==> PlanTarget(g, t.log[i].layer)
  {
    var s := Start(flow, frameIds, map[]);
    var t := Steps(g, ops, s, k);
    if k > 0 {
      RewindsGoToLoopMerges(g, ops, flow, frameIds, k - 1);
      PlansNamedStep(g, ops, Steps(g, ops, s, k - 1));
    }
    RewindsBalance(g, ops, flow, frameIds, map[], k);
    forall i | 0 <= i < |t.log| && t.log[i].Rewound? ensures PlanTarget(g, t.log[i].layer) {
      LastPlanNamed(g, t.log[..i], t.log[i].frame);
    }
  }

  lemma {:induction false} LastPlanNamed(g: Layout, log: seq<Event>, frame: int)
    requires forall i :: 0 <= i < |log| && log[i].Planned? ==> PlanTarget(g, log[i].layer)
    ensures PlanTarget(g, LastPlan(log, frame))
  {
    if log != [] {
      LastPlanNamed(g, log[..|log| - 1], frame);
    }
  }
}
