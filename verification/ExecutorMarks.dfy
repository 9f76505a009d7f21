/** What the input check, the executed marks and the Exits do, for every graph. */
module ExecutorMarks {
  import opened FlowPaths
  import opened Graphs
  import opened ExecutorSteps
  import opened ExecutorRewinds

  // ---------------------------------------------------------------- the input check

  /** A custom op diverges if it is described so, any other node if it is the logic op 30. */
  ghost predicate Diverges(node: Node) {
    (node.customOp && node.divergent) || (!node.customOp && node.logic && node.opNum == 30)
  }

  ghost predicate Internal(g: Layout, id: int) { id >= 0 && id !in g.externals }

  /** An input of the graph's own that is inactive, or stands on another branch. */
  ghost predicate Blocks(g: Layout, flow: Flow, input: (int, int)) {
    && Internal(g, input.0) && input.0 in g.mapped
    && (!flow.Node(input.0).active || (Diverges(g.mapped[input.0]) && flow.Node(input.0).branch != input.1))
  }

  ghost predicate Unknown(g: Layout, input: (int, int)) { Internal(g, input.0) && input.0 !in g.mapped }

  lemma {:induction false} CheckFrom(g: Layout, flow: Flow, inputs: seq<(int, int)>, e: nat)
    requires e <= |inputs|
    ensures CheckInputs(g, flow, inputs, e) == Proceed
            <==> forall i :: e <= i < |inputs| ==> !Blocks(g, flow, inputs[i]) && !Unknown(g, inputs[i])
    ensures CheckInputs(g, flow, inputs, e) == Skip
            <==> exists i :: e <= i < |inputs| && Blocks(g, flow, inputs[i])
                             && forall j :: e <= j < i ==> !Unknown(g, inputs[j])
    decreases |inputs| - e
  {
    if e < |inputs| {
      CheckFrom(g, flow, inputs, e + 1);
      var now, next := CheckInputs(g, flow, inputs, e), CheckInputs(g, flow, inputs, e + 1);
      if Blocks(g, flow, inputs[e]) || Unknown(g, inputs[e]) {
        assert now != Proceed && (now == Skip <==> Blocks(g, flow, inputs[e]));
      } else {
        assert now == next;
      }
    }
  }

  /** A node other than a Merge runs if no input blocks it and all are known, and is skipped if
      one blocks it and all before that are known. */
  lemma CheckIs(g: Layout, flow: Flow, node: Node)
    requires !(node.logic && node.opNum == 60)
    ensures Check(g, flow, node) == Proceed
            <==> forall i :: 0 <= i < |node.inputs| ==>
                   !Blocks(g, flow, node.inputs[i]) && !Unknown(g, node.inputs[i])
    ensures Check(g, flow, node) == Skip
            <==> exists i :: 0 <= i < |node.inputs| && Blocks(g, flow, node.inputs[i])
                             && forall j :: 0 <= j < i ==> !Unknown(g, node.inputs[j])
  {
    CheckFrom(g, flow, node.inputs, 0);
  }

  // ---------------------------------------------------------------- executed marks

  /** A loop Merge reads the node as its second input. */
  ghost predicate Consumed(g: Layout, id: int) {
    exists l, n :: IsLoopMerge(g, l, n, id)
  }

  /** A node is marked as executed only if it ran, and, unless a Merge takes that mark away, if
      it ran. */
  ghost predicate MarksTell(g: Layout, flow: Flow, log: seq<Event>) {
    forall id :: MarkTells(g, flow, log, id)
  }

  ghost predicate MarkTells(g: Layout, flow: Flow, log: seq<Event>, id: int) {
    && (flow.Node(id).executed ==> Executed(id) in log)
    && (!Consumed(g, id) && Executed(id) in log ==> flow.Node(id).executed)
  }

  /** Marks and log go on without an execution. */
  ghost predicate Idle(before: Flow, log: seq<Event>, after: Flow, more: seq<Event>) {
    && (forall id :: after.Node(id).executed == before.Node(id).executed)
    && (forall id :: Executed(id) in more <==> Executed(id) in log)
  }

  lemma MarksIdle(g: Layout, before: Flow, log: seq<Event>, after: Flow, more: seq<Event>)
    requires MarksTell(g, before, log) && Idle(before, log, after, more)
    ensures MarksTell(g, after, more)
  {
    hide Consumed;
    forall id ensures MarkTells(g, after, more, id) {
      assert MarkTells(g, before, log, id);
    }
  }

  lemma MarksComplete(g: Layout, s: State, node: Node)
    requires MarksTell(g, s.flow, s.log)
    ensures MarksTell(g, Complete(s, node).flow, Complete(s, node).log)
  {
    hide Consumed;
    var t := Complete(s, node);
    forall id ensures MarkTells(g, t.flow, t.log, id) {
      assert MarkTells(g, s.flow, s.log, id);
    }
  }

  lemma IdleProcess(s: State, node: Node, o: Outcome)
    ensures Idle(s.flow, s.log, Process(s, node, o).flow, Process(s, node, o).log)
  {
  }

  /** A loop Merge takes away the mark of its second input, and of no other node. */
  lemma MarksMerge(g: Layout, s: State, l: int, n: nat, o: Outcome)
    requires MarksTell(g, s.flow, s.log) && n < g.LayerSize(l) && g.At(l, n).Is(MERGE) && |g.At(l, n).inputs| >= 2
    ensures var t := LoopMerge(g, s, g.At(l, n), o); MarksTell(g, t.flow, t.log)
  {
    hide Consumed;
    var node := g.At(l, n);
    var t, second := LoopMerge(g, s, node, o), node.inputs[1].0;
    assert IsLoopMerge(g, l, n, second);
    assert Consumed(g, second) by { SecondConsumed(g, l, n); }
    forall id ensures MarkTells(g, t.flow, t.log, id) {
      assert MarkTells(g, s.flow, s.log, id);
    }
  }

  lemma SecondConsumed(g: Layout, l: int, n: nat)
    requires n < g.LayerSize(l) && g.At(l, n).Is(MERGE) && |g.At(l, n).inputs| >= 2
    ensures Consumed(g, g.At(l, n).inputs[1].0)
  {
    assert IsLoopMerge(g, l, n, g.At(l, n).inputs[1].0);
  }

  lemma MarksEnter(g: Layout, s: State, node: Node, o: Outcome)
    requires MarksTell(g, s.flow, s.log)
    ensures var t := RunEnter(s, node, o); MarksTell(g, t.flow, t.log)
  {
    hide MarksTell, Complete, Process;
    var frame := Lookup(s.frameIds, node.id);
    var s1 := if |s.frames| == 0 || s.frames[|s.frames| - 1] != frame
              then s.(frames := s.frames + [frame]).Log(Opened(frame)) else s;
    MarksIdle(g, s.flow, s.log, s1.flow, s1.log);
    IdleProcess(s1, node, o);
    MarksIdle(g, s1.flow, s1.log, Process(s1, node, o).flow, Process(s1, node, o).log);
    MarksComplete(g, Process(s1, node, o), node);
  }

  lemma MarksNext(g: Layout, s: State, node: Node, o: Outcome)
    requires MarksTell(g, s.flow, s.log)
    ensures var t := RunNextIteration(s, node, o); MarksTell(g, t.flow, t.log)
  {
    hide MarksTell, Complete, Process;
    var s1 := Process(s, node, o);
    IdleProcess(s, node, o);
    MarksIdle(g, s.flow, s.log, s1.flow, s1.log);
    MarksComplete(g, s1, node);
    var s2 := Complete(s1, node);
    if |s.frames| > 0 {
      var frame, layer := s.frames[|s.frames| - 1], Lookup(s.rewindLayers, node.id);
      MarksIdle(g, s2.flow, s2.log, s2.flow.Plan(frame, layer - 1), s2.log + [Planned(frame, layer)]);
      FramesKept(s, node, o);
    }
  }

  lemma FramesKept(s: State, node: Node, o: Outcome)
    ensures Process(s, node, o).frames == s.frames && Process(s, node, o).rewindLayers == s.rewindLayers
    ensures Complete(Process(s, node, o), node).rewindLayers == s.rewindLayers
  {
  }

  lemma MarksExit(g: Layout, s: State, node: Node, o: Outcome)
    requires MarksTell(g, s.flow, s.log)
    ensures var t := RunExit(s, node, o); MarksTell(g, t.flow, t.log)
  {
    hide MarksTell, Complete, Process;
    if |s.frames| > 0 {
      var frame := s.frames[|s.frames| - 1];
      MarksIdle(g, s.flow, s.log, s.flow.MarkActive(node.id, false), s.log + [Skipped(node.id)]);
      MarksIdle(g, s.flow, s.log, s.flow.Unplan(frame), s.log + [Rewound(frame, s.flow.Frame(frame).rewindPosition + 1)]);
      var s1 := Process(s, node, o);
      IdleProcess(s, node, o);
      MarksIdle(g, s.flow, s.log, s1.flow, s1.log);
      MarksComplete(g, s1.(leftFrame := true), node);
    }
  }

  lemma MarksOther(g: Layout, s: State, l: int, n: nat, o: Outcome)
    requires MarksTell(g, s.flow, s.log) && n < g.LayerSize(l)
    ensures var t := RunOther(g, s, g.At(l, n), o); MarksTell(g, t.flow, t.log)
  {
    hide MarksTell, Complete, Process, LoopMerge;
    var node := g.At(l, n);
    var s1 := Process(s, node, o);
    IdleProcess(s, node, o);
    MarksIdle(g, s.flow, s.log, s1.flow, s1.log);
    if node.Is(MERGE) && |node.inputs| >= 2 {
      MarksMerge(g, s1, l, n, o);
      MarksComplete(g, LoopMerge(g, s1, node, o), node);
    }
    MarksComplete(g, s1, node);
  }

  lemma MarksDispatch(g: Layout, s: State, l: int, n: nat, o: Outcome)
    requires MarksTell(g, s.flow, s.log) && n < g.LayerSize(l)
    ensures var t := Dispatch(g, s, g.At(l, n), o); MarksTell(g, t.flow, t.log)
  {
    hide MarksTell, RunEnter, RunNextIteration, RunExit, RunOther;
    var node := g.At(l, n);
    var s1 := if |s.frames| > 0 && Lookup(s.frameIds, node.id) < 0
              then s.(frameIds := s.frameIds[node.id := s.frames[|s.frames| - 1]]) else s;
    var s2 := s1.(flow := s1.flow.MarkActive(node.id, true));
    MarksIdle(g, s.flow, s.log, s2.flow, s2.log);
    MarksEnter(g, s2, node, o);
    MarksNext(g, s2, node, o);
    MarksExit(g, s2, node, o);
    MarksOther(g, s2, l, n, o);
  }

  lemma MarksVisit(g: Layout, ops: Ops, s: State)
    requires MarksTell(g, s.flow, s.log) && s.n < g.LayerSize(s.l)
    ensures var t := Visit(g, ops, s); MarksTell(g, t.flow, t.log)
  {
    hide MarksTell, Dispatch, Check;
    var s0, node := s.(counter := s.counter + 1), g.At(s.l, s.n);
    var s1 := if s.leftFrame && |s.frames| > 0 && !node.Is(EXIT) then CloseFrame(s0) else s0;
    MarksIdle(g, s0.flow, s0.log, s1.flow, s1.log);
    MarksDispatch(g, s1, s.l, s.n, ops(s0.counter, node.id));
    var t := SkipNode(s1, node);
    MarksIdle(g, s1.flow, s1.log, t.flow, t.log);
  }

  /** In every reachable state of every run from a new flow path. */
  lemma {:induction false} MarksAlways(g: Layout, ops: Ops, frameIds: map<int, int>, rewindLayers: map<int, int>,
      k: nat)
    ensures var s := Steps(g, ops, Start(Flow(map[], map[]), frameIds, rewindLayers), k); MarksTell(g, s.flow, s.log)
  {
    hide Visit, Consumed;
    if k > 0 {
      MarksAlways(g, ops, frameIds, rewindLayers, k - 1);
      var s := Steps(g, ops, Start(Flow(map[], map[]), frameIds, rewindLayers), k - 1);
      if s.status == Running && s.l < |g.onion| && s.n < g.LayerSize(s.l) {
        MarksVisit(g, ops, s);
      }
    }
  }

  /** When a loop Merge has run and found its second variable, its second input does not count as
      executed. */
  lemma MergeConsumes(g: Layout, ops: Ops, s: State)
    requires s.status == Running && s.counter < MAX_VISITS && s.n < g.LayerSize(s.l) && !s.leftFrame
    requires var node := g.At(s.l, s.n);
             && node.Is(MERGE) && |node.inputs| >= 2 && node.inputs[1].0 in g.mapped
             && g.mapped[node.inputs[1].0].Is(NEXT_ITERATION) && node.inputs[1].0 != node.id
             && (s.flow.Node(node.inputs[0].0).active || s.flow.Node(node.inputs[1].0).active)
    ensures var node := g.At(s.l, s.n); var o := ops(s.counter + 1, node.id);
            var before, after := s.flow.Node(node.inputs[1].0).executed, Visit(g, ops, s).flow.Node(node.inputs[1].0).executed;
            after == (before && !o.hasSecondVariable)
  {
    hide CheckInputs, RunEnter, RunNextIteration, RunExit, RunOther;
    var node := g.At(s.l, s.n);
    var s0, o := s.(counter := s.counter + 1), ops(s.counter + 1, node.id);
    var s1 := if |s0.frames| > 0 && Lookup(s0.frameIds, node.id) < 0
              then s0.(frameIds := s0.frameIds[node.id := s0.frames[|s0.frames| - 1]]) else s0;
    var s2 := s1.(flow := s1.flow.MarkActive(node.id, true));
    assert Check(g, s.flow, node) == Proceed;
    assert Visit(g, ops, s) == RunOther(g, s2, node, o);
    OtherConsumes(g, s2, node, o);
  }

  lemma OtherConsumes(g: Layout, s: State, node: Node, o: Outcome)
    requires node.Is(MERGE) && |node.inputs| >= 2 && node.inputs[1].0 in g.mapped
    requires g.mapped[node.inputs[1].0].Is(NEXT_ITERATION) && node.inputs[1].0 != node.id
    ensures RunOther(g, s, node, o).flow.Node(node.inputs[1].0).executed
            == (s.flow.Node(node.inputs[1].0).executed && !o.hasSecondVariable)
  {
    hide Process;
    IdleProcess(s, node, o);
  }

  // ---------------------------------------------------------------- Exits

  /** An Exit goes back if its frame is activated and a rewind is planned; in all other cases it
      leaves the frame, running its op if the frame is activated, and being disabled else. */
  lemma ExitOutcome(g: Layout, ops: Ops, s: State)
    requires s.status == Running && s.counter < MAX_VISITS && s.n < g.LayerSize(s.l) && g.At(s.l, s.n).Is(EXIT)
    requires |s.frames| > 0 && ops(s.counter + 1, g.At(s.l, s.n).id).status == 0
    ensures var t, id, top := Visit(g, ops, s), g.At(s.l, s.n).id, s.frames[|s.frames| - 1]; var p := s.flow.Frame(top);
            && t.status == Running && t.frames == s.frames
            && if p.activated && p.rewindPlanned then
                 t.l == p.rewindPosition + 1 && t.n == 0 && t.leftFrame == s.leftFrame
                 && t.flow.Frame(top) == FrameState(true, false, -1) && !(Executed(id) in t.log[|s.log|..])
               else
                 t.l == s.l && t.n == s.n + 1 && Open(t) == s.frames[..|s.frames| - 1]
                 && t.flow.Node(id).active == p.activated && (Executed(id) in t.log[|s.log|..] <==> p.activated)
  {
    hide Visit, RunExit;
    var node := g.At(s.l, s.n);
    var s2 := ExitVisited(g, ops, s);
    ExitCases(s2, node, ops(s.counter + 1, node.id));
  }

  lemma ExitVisited(g: Layout, ops: Ops, s: State) returns (m: State)
    requires s.status == Running && s.counter < MAX_VISITS && s.n < g.LayerSize(s.l) && g.At(s.l, s.n).Is(EXIT)
    requires |s.frames| > 0
    ensures var node := g.At(s.l, s.n);
            && Visit(g, ops, s) == RunExit(m, node, ops(s.counter + 1, node.id)) && m.flow.Node(node.id).active
            && m == s.(counter := s.counter + 1, flow := m.flow, frameIds := m.frameIds)
               && m.flow.frames == s.flow.frames
  {
    hide RunEnter, RunNextIteration, RunOther, RunExit, Check;
    var node := g.At(s.l, s.n);
    var s0 := s.(counter := s.counter + 1);
    var s1 := if Lookup(s0.frameIds, node.id) < 0
              then s0.(frameIds := s0.frameIds[node.id := s0.frames[|s0.frames| - 1]]) else s0;
    m := s1.(flow := s1.flow.MarkActive(node.id, true));
  }

  lemma ExitCases(s: State, node: Node, o: Outcome)
    requires |s.frames| > 0 && o.status == 0 && s.flow.Node(node.id).active && s.status == Running
    ensures var t, top := RunExit(s, node, o), s.frames[|s.frames| - 1]; var p := s.flow.Frame(top);
            && t.status == Running && t.frames == s.frames && |t.log| >= |s.log|
            && if p.activated && p.rewindPlanned then
                 t.l == p.rewindPosition + 1 && t.n == 0 && t.leftFrame == s.leftFrame
                 && t.flow.Frame(top) == FrameState(true, false, -1) && !(Executed(node.id) in t.log[|s.log|..])
               else
                 t.l == s.l && t.n == s.n + 1 && t.leftFrame
                 && t.flow.Node(node.id).active == p.activated
                    && (Executed(node.id) in t.log[|s.log|..] <==> p.activated)
  {
    var t, frame := RunExit(s, node, o), s.frames[|s.frames| - 1];
    assert t.log == s.log + t.log[|s.log|..];
    var p := s.flow.Frame(frame);
    assert t.log[|s.log|..] == if !p.activated then [Skipped(node.id)]
                               else if p.rewindPlanned then [Rewound(frame, p.rewindPosition + 1)] else [Executed(node.id)];
  }
}
