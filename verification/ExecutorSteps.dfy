/** The executor as a transition system: one step moves to the next layer or visits one
    node. Whatever an op computes is left open: `ops(visit, id)` is the outcome of the
    `visit`-th node visit of a run. */
module ExecutorSteps {
  import opened FlowPaths
  import opened Graphs
  import opened Wrappers

  const MAX_VISITS := 10000

  /** status 0 is success; `branch` is the branch the op marks for itself, if any;
      `hasSecondVariable` says whether a loop Merge finds its second input's variable. */
  datatype Outcome = Outcome(status: int, branch: Option<int>, hasSecondVariable: bool)

  type Ops = (nat, int) -> Outcome

  /** NoOpenFrame marks the two places that take the innermost frame of an empty stack;
      OutOfRange the places where a checked container access throws. */
  datatype Status = Running | Finished | EarlyTermination | OpFailed(code: int) | OutOfRange | NoOpenFrame

  datatype Event =
    | Executed(id: int)
    | Skipped(id: int)
    | Opened(frame: int)
    | Planned(frame: int, layer: int)
    | Rewound(frame: int, layer: int)
    | Forgot(frame: int)

  datatype State = State(
    l: int, n: nat, counter: nat,
    frames: seq<int>, leftFrame: bool,
    flow: Flow, frameIds: map<int, int>, rewindLayers: map<int, int>,
    log: seq<Event>, status: Status)
  {
    function Log(e: Event): State { this.(log := log + [e]) }

    function Stop(s: Status): State { this.(status := s) }

    function Advance(): State { this.(n := n + 1) }
  }

  function Start(flow: Flow, frameIds: map<int, int>, rewindLayers: map<int, int>): State {
    State(0, 0, 0, [], false, flow, frameIds, rewindLayers, [], Running)
  }

  datatype Verdict = Proceed | Skip | Throw

  /** The input check of an ordinary node, from input `e` on: the first input that is
      inactive, or divergent with the other branch taken, decides. */
  function CheckInputs(g: Layout, flow: Flow, inputs: seq<(int, int)>, e: nat): Verdict
    requires e <= |inputs|
    decreases |inputs| - e
  {
    if e == |inputs| then Proceed
    else
      var (id, branch) := inputs[e];
      if g.IsExternal(id) then CheckInputs(g, flow, inputs, e + 1)
      else if id !in g.mapped then Throw
      else if !flow.Node(id).active then Skip
      else if g.mapped[id].IsDivergencePoint() && flow.Node(id).branch != branch then Skip
      else CheckInputs(g, flow, inputs, e + 1)
  }

  function Check(g: Layout, flow: Flow, node: Node): Verdict {
    if node.Is(MERGE) then
      if |node.inputs| < 2 then Throw
      else if !flow.Node(node.inputs[0].0).active && !flow.Node(node.inputs[1].0).active then Skip
      else Proceed
    else CheckInputs(g, flow, node.inputs, 0)
  }

  /** The first non-Exit node after a loop drops the loop's frame. */
  function CloseFrame(s: State): (r: State)
    requires |s.frames| > 0
    ensures r.counter == s.counter
    ensures r.status == EarlyTermination ==> s.status == EarlyTermination
  {
    var frame := s.frames[|s.frames| - 1];
    s.(frames := s.frames[..|s.frames| - 1], flow := s.flow.Forget(frame), leftFrame := false)
     .Log(Forgot(frame))
  }

  function Process(s: State, node: Node, o: Outcome): (r: State)
    ensures r.counter == s.counter && r.frames == s.frames && r.leftFrame == s.leftFrame
    ensures r.status == EarlyTermination ==> s.status == EarlyTermination
  {
    if o.branch.Some? then s.(flow := s.flow.MarkBranch(node.id, o.branch.value)) else s
  }

  /** What a Merge does when its second input is a NextIteration node. */
  function LoopMerge(g: Layout, s: State, node: Node, o: Outcome): (r: State)
    requires |node.inputs| >= 2
    ensures r.counter == s.counter && r.frames == s.frames && r.leftFrame == s.leftFrame
    ensures r.status == EarlyTermination ==> s.status == EarlyTermination
  {
    var second := node.inputs[1].0;
    if second in g.mapped && g.mapped[second].Is(NEXT_ITERATION) then
      var frame := Lookup(s.frameIds, node.id);
      var flow1 := if frame >= 0 then s.flow.Activate(frame) else s.flow;
      var flow2 := if o.hasSecondVariable && flow1.Node(second).executed
                   then flow1.MarkExecuted(second, false) else flow1;
      s.(flow := flow2, rewindLayers := s.rewindLayers[second := node.layer])
    else s
  }

  function Complete(s: State, node: Node): (r: State)
    ensures r.counter == s.counter && r.frames == s.frames && r.leftFrame == s.leftFrame
    ensures r.status == EarlyTermination ==> s.status == EarlyTermination
  {
    s.(flow := s.flow.MarkExecuted(node.id, true)).Log(Executed(node.id)).Advance()
  }

  function RunEnter(s: State, node: Node, o: Outcome): (r: State)
    ensures r.counter == s.counter
    ensures r.status == EarlyTermination ==> s.status == EarlyTermination
    ensures r.leftFrame == s.leftFrame
    ensures r.frames == s.frames
            || (exists frame :: r.frames == s.frames + [frame] && (|s.frames| == 0 || s.frames[|s.frames| - 1] != frame))
  {
    var frame := Lookup(s.frameIds, node.id);
    var s1 := if |s.frames| == 0 || s.frames[|s.frames| - 1] != frame
              then s.(frames := s.frames + [frame]).Log(Opened(frame)) else s;
    var s2 := Process(s1, node, o);
    if o.status != 0 then s2.Stop(OpFailed(o.status)) else Complete(s2, node)
  }

  function RunNextIteration(s: State, node: Node, o: Outcome): (r: State)
    ensures r.counter == s.counter && r.frames == s.frames && r.leftFrame == s.leftFrame
    ensures r.status == EarlyTermination ==> s.status == EarlyTermination
  {
    var s1 := Process(s, node, o);
    if |node.inputs| == 0 then s.Stop(OutOfRange)
    else if o.status != 0 then s1.Stop(OpFailed(o.status))
    else if |s.frames| == 0 then s1.Stop(NoOpenFrame)
    else
      var frame := s.frames[|s.frames| - 1];
      var s2 := Complete(s1, node);
      if s2.flow.Frame(frame).rewindPlanned then s2
      else
        var layer := Lookup(s.rewindLayers, node.id);
        s2.(flow := s2.flow.Plan(frame, layer - 1)).Log(Planned(frame, layer))
  }

  function RunExit(s: State, node: Node, o: Outcome): (r: State)
    ensures r.counter == s.counter
    ensures r.status == EarlyTermination ==> s.status == EarlyTermination
    ensures r.frames == s.frames && (r.leftFrame ==> s.leftFrame || |s.frames| > 0)
  {
    if |s.frames| == 0 then s.Stop(NoOpenFrame)
    else
      var frame := s.frames[|s.frames| - 1];
      var f := s.flow.Frame(frame);
      if !f.activated then
        s.(flow := s.flow.MarkActive(node.id, false), leftFrame := true).Log(Skipped(node.id)).Advance()
      else if f.rewindPlanned then
        s.(flow := s.flow.Unplan(frame), l := f.rewindPosition + 1, n := 0)
         .Log(Rewound(frame, f.rewindPosition + 1))
      else
        var s1 := Process(s, node, o);
        if o.status != 0 then s1.Stop(OpFailed(o.status))
        else Complete(s1.(leftFrame := true), node)
  }

  function RunOther(g: Layout, s: State, node: Node, o: Outcome): (r: State)
    ensures r.counter == s.counter && r.frames == s.frames && r.leftFrame == s.leftFrame
    ensures r.status == EarlyTermination ==> s.status == EarlyTermination
  {
    var s1 := Process(s, node, o);
    var s2 := if node.Is(MERGE) && |node.inputs| >= 2 then LoopMerge(g, s1, node, o) else s1;
    if o.status != 0 then s2.Stop(OpFailed(o.status)) else Complete(s2, node)
  }

  /** A node that passed its checks. */
  function Dispatch(g: Layout, s: State, node: Node, o: Outcome): (r: State)
    ensures r.counter == s.counter
    ensures r.status == EarlyTermination ==> s.status == EarlyTermination
  {
    var s1 := if |s.frames| > 0 && Lookup(s.frameIds, node.id) < 0
              then s.(frameIds := s.frameIds[node.id := s.frames[|s.frames| - 1]]) else s;
    var s2 := s1.(flow := s1.flow.MarkActive(node.id, true));
    if node.Is(ENTER) then RunEnter(s2, node, o)
    else if node.Is(NEXT_ITERATION) then RunNextIteration(s2, node, o)
    else if node.Is(EXIT) then RunExit(s2, node, o)
    else RunOther(g, s2, node, o)
  }

  function SkipNode(s: State, node: Node): (r: State)
    ensures r.counter == s.counter && r.frames == s.frames && r.leftFrame == s.leftFrame
    ensures r.status == EarlyTermination ==> s.status == EarlyTermination
  {
    var flow := if node.Is(MERGE) then s.flow else s.flow.MarkActive(node.id, false);
    s.(flow := flow).Log(Skipped(node.id)).Advance()
  }

  function Visit(g: Layout, ops: Ops, s: State): (r: State)
    requires s.n < g.LayerSize(s.l)
    ensures r.counter == s.counter + 1
    ensures r.status == Running ==> r.counter <= MAX_VISITS
    ensures s.status == Running ==> (r.status == EarlyTermination <==> r.counter > MAX_VISITS)
  {
    var s0 := s.(counter := s.counter + 1);
    if s0.counter > MAX_VISITS then s0.Stop(EarlyTermination)
    else
      var node := g.At(s.l, s.n);
      var o := ops(s0.counter, node.id);
      if node.Is(EXIT) then Dispatch(g, s0, node, o)
      else if s0.leftFrame && |s0.frames| == 0 then s0.Stop(NoOpenFrame)
      else
        var s1 := if s0.leftFrame then CloseFrame(s0) else s0;
        match Check(g, s1.flow, node)
        case Throw => s1.Stop(OutOfRange)
        case Skip => SkipNode(s1, node)
        case Proceed => Dispatch(g, s1, node, o)
  }

  function Step(g: Layout, ops: Ops, s: State): State {
    if s.status != Running then s
    else if s.l >= |g.onion| then s.Stop(Finished)
    else if s.n >= g.LayerSize(s.l) then s.(l := s.l + 1, n := 0)
    else Visit(g, ops, s)
  }

  function Steps(g: Layout, ops: Ops, s: State, k: nat): State {
    if k == 0 then s else Step(g, ops, Steps(g, ops, s, k - 1))
  }

  /** The whole run. */
  function Run(g: Layout, ops: Ops, s: State): State
    requires s.counter <= MAX_VISITS
    decreases MAX_VISITS + 1 - s.counter, |g.onion| - s.l, g.LayerSize(s.l) - s.n
  {
    if s.status != Running then s
    else if s.l >= |g.onion| then s.Stop(Finished)
    else if s.n >= g.LayerSize(s.l) then Run(g, ops, s.(l := s.l + 1, n := 0))
    else
      var t := Visit(g, ops, s);
      if t.status != Running then t else Run(g, ops, t)
  }
}
