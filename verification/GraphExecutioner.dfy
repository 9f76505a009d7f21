/** The executor as it runs: nested loops over layers and nodes that update the flow path,
    the frame stack and the nodes in place. Every method is tied to the transition system
    of ExecutorSteps through a ghost state that mirrors the real one. */
module GraphExecutioner {
  import opened FlowPaths
  import opened Graphs
  import opened ExecutorSteps

  /** The real state of a run is the ghost state `s`. */
  ghost predicate Mirrors(graph: Graph, flowPath: FlowPath, s: State)
    reads graph, flowPath
  {
    flowPath.View() == s.flow && graph.frameIds == s.frameIds && graph.rewindLayers == s.rewindLayers
  }

  method ShouldSkip(graph: Graph, flowPath: FlowPath, node: Node) returns (verdict: Verdict)
    modifies flowPath
    ensures verdict == Check(graph.layout, old(flowPath.View()), node)
    ensures flowPath.View() ==
            if verdict == Skip && !node.Is(MERGE) then old(flowPath.View()).MarkActive(node.id, false)
            else old(flowPath.View())
  {
    var g := graph.layout;
    if node.Is(MERGE) {
      if |node.inputs| < 2 {
        return Throw;
      }
      var view := flowPath.View();
      var inactive := !view.Node(node.inputs[0].0).active && !view.Node(node.inputs[1].0).active;
      return if inactive then Skip else Proceed;
    }
    for e := 0 to |node.inputs|
      invariant flowPath.View() == old(flowPath.View())
      invariant CheckInputs(g, flowPath.View(), node.inputs, 0) == CheckInputs(g, flowPath.View(), node.inputs, e)
    {
      var (id, branch) := node.inputs[e];
      if g.IsExternal(id) {
        continue;
      }
      if id !in g.mapped {
        return Throw;
      }
      if !flowPath.View().Node(id).active {
        flowPath.MarkNodeActive(node.id, false);
        return Skip;
      } else if g.mapped[id].IsDivergencePoint() {
        if flowPath.View().Node(id).branch != branch {
          flowPath.MarkNodeActive(node.id, false);
          return Skip;
        }
      }
    }
    return Proceed;
  }

  /** Runs the op of a node; a Merge closing a loop also tells its NextIteration where to
      rewind to and activates the frame. */
  method ProcessNode(graph: Graph, flowPath: FlowPath, node: Node, o: Outcome, ghost s: State)
    returns (status: int)
    requires Mirrors(graph, flowPath, s)
    modifies graph, flowPath
    ensures status == o.status
    ensures Mirrors(graph, flowPath,
                    if node.Is(MERGE) && |node.inputs| >= 2
                    then LoopMerge(graph.layout, Process(s, node, o), node, o) else Process(s, node, o))
  {
    if o.branch.Some? {
      flowPath.MarkBranch(node.id, o.branch.value);
    }
    if node.Is(MERGE) && |node.inputs| >= 2 {
      var second := node.inputs[1].0;
      if second in graph.layout.mapped && graph.layout.mapped[second].Is(NEXT_ITERATION) {
        graph.rewindLayers := graph.rewindLayers[second := node.layer];
        var frame := Lookup(graph.frameIds, node.id);
        if frame >= 0 {
          flowPath.MarkFrameActive(frame, true);
        }
        if o.hasSecondVariable && flowPath.View().Node(second).executed {
          flowPath.MarkExecuted(second, false);
        }
      }
    }
    return o.status;
  }

  /** How the node loop goes on after a node. */
  datatype Control = Next | Rewind(l: int) | Return(status: Status)

  /** The ghost state `t` is what the transition system makes of the node visited at `s`,
      and `c` is how the loops see it. */
  ghost predicate Follows(s: State, t: State, c: Control) {
    match c
    case Next => t.l == s.l && t.n == s.n + 1 && t.status == s.status
    case Rewind(l) => t.l == l + 1 && t.n == 0 && t.status == s.status
    case Return(status) => t.status == status && status != Running
  }

  method EnterNode(graph: Graph, flowPath: FlowPath, node: Node, o: Outcome,
                   frames: seq<int>, ghost s: State)
    returns (c: Control, newFrames: seq<int>)
    requires Mirrors(graph, flowPath, s) && s.frames == frames && !node.Is(MERGE)
    modifies graph, flowPath
    ensures var t := RunEnter(s, node, o);
            Mirrors(graph, flowPath, t) && Follows(s, t, c) && t.frames == newFrames && t.leftFrame == s.leftFrame
  {
    hide LoopMerge, Lookup, Flow.MarkExecuted;
    var frame := Lookup(graph.frameIds, node.id);
    newFrames := frames;
    ghost var s1 := s;
    if |frames| == 0 || frames[|frames| - 1] != frame {
      newFrames := frames + [frame];
      s1 := s.(frames := s.frames + [frame]).Log(Opened(frame));
    }
    var status := ProcessNode(graph, flowPath, node, o, s1);
    if status != 0 {
      c := Return(OpFailed(status));
    } else {
      flowPath.MarkExecuted(node.id, true);
      c := Next;
    }
  }

  method NextIterationNode(graph: Graph, flowPath: FlowPath, node: Node, o: Outcome,
                           frames: seq<int>, ghost s: State)
    returns (c: Control)
    requires Mirrors(graph, flowPath, s) && s.frames == frames && !node.Is(MERGE)
    modifies graph, flowPath
    ensures var t := RunNextIteration(s, node, o);
            Mirrors(graph, flowPath, t) && Follows(s, t, c) && t.frames == frames && t.leftFrame == s.leftFrame
  {
    hide LoopMerge, Lookup, Flow.Plan, Flow.Frame, Flow.WithFrame, Flow.MarkExecuted;
    if |node.inputs| == 0 {
      return Return(OutOfRange);
    }
    var status := ProcessNode(graph, flowPath, node, o, s);
    if status != 0 {
      return Return(OpFailed(status));
    }
    if |frames| == 0 {
      return Return(NoOpenFrame);
    }
    var frame := frames[|frames| - 1];
    flowPath.MarkExecuted(node.id, true);
    if !flowPath.View().Frame(frame).rewindPlanned {
      PlansInTwoSteps(flowPath.View(), frame, Lookup(s.rewindLayers, node.id) - 1);
      var nextLayer := Lookup(graph.rewindLayers, node.id);
      flowPath.PlanRewind(frame, true);
      flowPath.SetRewindPositionOnce(frame, nextLayer - 1);
    }
    return Next;
  }

  lemma PlansInTwoSteps(flow: Flow, frame: int, position: int)
    ensures var planned := flow.WithFrame(frame, flow.Frame(frame).(rewindPlanned := true));
            var f := planned.Frame(frame);
            planned.WithFrame(frame, f.(rewindPosition := if f.rewindPosition < 0 then position else f.rewindPosition))
            == flow.Plan(frame, position)
  {
  }

  method ExitNode(graph: Graph, flowPath: FlowPath, node: Node, o: Outcome,
                  frames: seq<int>, leftFrame: bool, ghost s: State)
    returns (c: Control, newLeft: bool)
    requires Mirrors(graph, flowPath, s) && s.frames == frames && s.leftFrame == leftFrame && !node.Is(MERGE)
    modifies graph, flowPath
    ensures var t := RunExit(s, node, o);
            Mirrors(graph, flowPath, t) && Follows(s, t, c) && t.frames == frames
            && (c.Return? || t.leftFrame == newLeft)
  {
    hide LoopMerge, Flow.MarkExecuted, Flow.MarkActive;
    newLeft := leftFrame;
    if |frames| == 0 {
      return Return(NoOpenFrame), newLeft;
    }
    var frame := frames[|frames| - 1];
    if !flowPath.View().Frame(frame).activated {
      flowPath.MarkNodeActive(node.id, false);
      return Next, true;
    }
    if flowPath.View().Frame(frame).rewindPlanned {
      var l := flowPath.View().Frame(frame).rewindPosition;
      flowPath.SetRewindPosition(frame, -1);
      flowPath.PlanRewind(frame, false);
      return Rewind(l), newLeft;
    }
    var status := ProcessNode(graph, flowPath, node, o, s);
    if status != 0 {
      return Return(OpFailed(status)), newLeft;
    }
    flowPath.MarkExecuted(node.id, true);
    return Next, true;
  }

  method OtherNode(graph: Graph, flowPath: FlowPath, node: Node, o: Outcome, ghost s: State)
    returns (c: Control)
    requires Mirrors(graph, flowPath, s)
    modifies graph, flowPath
    ensures var t := RunOther(graph.layout, s, node, o);
            Mirrors(graph, flowPath, t) && Follows(s, t, c) && t.frames == s.frames && t.leftFrame == s.leftFrame
  {
    var status := ProcessNode(graph, flowPath, node, o, s);
    if status != 0 {
      return Return(OpFailed(status));
    }
    flowPath.MarkExecuted(node.id, true);
    return Next;
  }

  /** Executes a node that passed its checks. */
  method ExecuteNode(graph: Graph, flowPath: FlowPath, node: Node, o: Outcome,
                     frames: seq<int>, leftFrame: bool, ghost s: State)
    returns (c: Control, newFrames: seq<int>, newLeft: bool)
    requires Mirrors(graph, flowPath, s) && s.frames == frames && s.leftFrame == leftFrame
    modifies graph, flowPath
    ensures var t := Dispatch(graph.layout, s, node, o);
            Mirrors(graph, flowPath, t) && Follows(s, t, c) && t.frames == newFrames
            && (c.Return? || t.leftFrame == newLeft)
  {
    hide RunEnter, RunNextIteration, RunExit, RunOther, Lookup, Flow.MarkActive;
    newFrames, newLeft := frames, leftFrame;
    ghost var s1 := s;
    if |frames| > 0 && Lookup(graph.frameIds, node.id) < 0 {
      graph.frameIds := graph.frameIds[node.id := frames[|frames| - 1]];
      s1 := s.(frameIds := graph.frameIds);
    }
    flowPath.MarkNodeActive(node.id, true);
    ghost var s2 := s1.(flow := s1.flow.MarkActive(node.id, true));
    if node.Is(ENTER) {
      c, newFrames := EnterNode(graph, flowPath, node, o, frames, s2);
    } else if node.Is(NEXT_ITERATION) {
      c := NextIterationNode(graph, flowPath, node, o, frames, s2);
    } else if node.Is(EXIT) {
      c, newLeft := ExitNode(graph, flowPath, node, o, frames, leftFrame, s2);
    } else {
      c := OtherNode(graph, flowPath, node, o, s2);
    }
  }

  /** One pass of the node loop after the visit has been counted. */
  method VisitNode(graph: Graph, ops: Ops, flowPath: FlowPath, counter: nat, node: Node,
                   frames: seq<int>, leftFrame: bool, ghost s: State)
    returns (c: Control, newFrames: seq<int>, newLeft: bool)
    requires Mirrors(graph, flowPath, s) && s.frames == frames && s.leftFrame == leftFrame
    requires s.n < graph.layout.LayerSize(s.l) && node == graph.layout.At(s.l, s.n)
    requires counter == s.counter + 1 <= MAX_VISITS
    modifies graph, flowPath
    ensures var t := Visit(graph.layout, ops, s);
            Mirrors(graph, flowPath, t) && Follows(s, t, c)
            && (c.Return? || (t.leftFrame == newLeft && t.frames == newFrames))
  {
    hide Dispatch, Check;
    newFrames, newLeft := frames, leftFrame;
    ghost var s1 := s.(counter := counter);
    var o := ops(counter, node.id);
    if !node.Is(EXIT) {
      if leftFrame {
        if |frames| == 0 {
          return Return(NoOpenFrame), newFrames, newLeft;
        }
        var frame := frames[|frames| - 1];
        newFrames := frames[..|frames| - 1];
        flowPath.MarkFrameActive(frame, false);
        flowPath.ForgetFrame(frame);
        newLeft := false;
        ForgetHides(s1.flow, frame);
        s1 := CloseFrame(s1);
      }
      var verdict := ShouldSkip(graph, flowPath, node);
      match verdict {
        case Throw => return Return(OutOfRange), newFrames, newLeft;
        case Skip => return Next, newFrames, newLeft;
        case Proceed =>
      }
    }
    c, newFrames, newLeft := ExecuteNode(graph, flowPath, node, o, newFrames, newLeft, s1);
  }

  lemma ForgetHides(flow: Flow, frame: int)
    ensures flow.WithFrame(frame, flow.Frame(frame).(activated := false)).Forget(frame) == flow.Forget(frame)
  {
  }

  lemma MirrorsStart(graph: Graph, flowPath: FlowPath)
    ensures Mirrors(graph, flowPath, Start(flowPath.View(), graph.frameIds, graph.rewindLayers))
  {
  }

  lemma MirrorsBudget(graph: Graph, flowPath: FlowPath, ops: Ops, s: State)
    requires Mirrors(graph, flowPath, s) && s.n < graph.layout.LayerSize(s.l) && s.counter == MAX_VISITS
    ensures var t := Visit(graph.layout, ops, s); Mirrors(graph, flowPath, t) && t.status == EarlyTermination
  {
  }

  lemma MirrorsMove(graph: Graph, flowPath: FlowPath, s: State, t: State)
    requires Mirrors(graph, flowPath, s)
    requires t.flow == s.flow && t.frameIds == s.frameIds && t.rewindLayers == s.rewindLayers
    ensures Mirrors(graph, flowPath, t)
  {
  }

  /** Walks the layers. A run ends in the state the transition system reaches from the
      same start. */
  method Execute(graph: Graph, ops: Ops, flowPath: FlowPath) returns (status: Status)
    modifies graph, flowPath
    ensures var end := Run(graph.layout, ops,
                           Start(old(flowPath.View()), old(graph.frameIds), old(graph.rewindLayers)));
            status == end.status && Mirrors(graph, flowPath, end)
  {
    hide Visit, Mirrors;
    var g := graph.layout;
    var frames: seq<int> := [];
    var leftFrame := false;
    var counter := 0;
    ghost var s := Start(flowPath.View(), graph.frameIds, graph.rewindLayers);
    ghost var end := Run(g, ops, s);
    MirrorsStart(graph, flowPath);
    var l := 0;
    while l < |g.onion|
      invariant Mirrors(graph, flowPath, s) && s.frames == frames && s.leftFrame == leftFrame
      invariant s.l == l && s.n == 0 && s.counter == counter <= MAX_VISITS && s.status == Running
      invariant Run(g, ops, s) == end
      decreases MAX_VISITS - counter, |g.onion| - l
    {
      var layerSize := g.LayerSize(l);
      var n := 0;
      ghost var before := counter;
      ghost var rewound := false;
      while n < layerSize
        invariant Mirrors(graph, flowPath, s) && s.frames == frames && s.leftFrame == leftFrame
        invariant s.l == l && s.n == n <= layerSize && s.counter == counter <= MAX_VISITS && s.status == Running
        invariant Run(g, ops, s) == end
        invariant before <= counter && !rewound
        decreases layerSize - n
      {
        counter := counter + 1;
        if counter > MAX_VISITS {
          MirrorsBudget(graph, flowPath, ops, s);
          return EarlyTermination;
        }
        var c, newFrames, newLeft := VisitNode(graph, ops, flowPath, counter, g.At(l, n), frames, leftFrame, s);
        s := Visit(g, ops, s);
        match c {
          case Return(st) => return st;
          case Rewind(to) =>
            frames, leftFrame, l := newFrames, newLeft, to;
            rewound := true;
            break;
          case Next =>
            frames, leftFrame, n := newFrames, newLeft, n + 1;
        }
      }
      if !rewound {
        MirrorsMove(graph, flowPath, s, s.(l := s.l + 1, n := 0));
        s := s.(l := s.l + 1, n := 0);
      }
      l := l + 1;
    }
    MirrorsMove(graph, flowPath, s, s.Stop(Finished));
    return Finished;
  }
}
