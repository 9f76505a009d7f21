/** A whole loop of the executor: a Merge, the layers of the condition, a Switch, the layers of
    the body, a NextIteration and an Exit. The body runs once for every condition that holds,
    and the budget of visits decides exactly whether the run comes out of the loop. All this
    takes an Exit behind the NextIteration; one before it breaks the loop in its first pass. */
module ExecutorLoop {
  import opened FlowPaths
  import opened Graphs
  import opened ExecutorSteps
  import opened Wrappers

  // ---------------------------------------------------------------- the loop

  /** The Merge is alone in layer `head`, the Switch in layer `fork` and the NextIteration in
      layer `tail - 1`; between them lie the layers of the condition and those of the body, of
      any size. In a well-formed loop the Exit is alone in layer `tail`. */
  datatype Loop = Loop(g: Layout, head: nat, fork: nat, tail: nat) {
    predicate Alone(l: nat) { g.LayerSize(l) == 1 }

    predicate Stands() {
      && head < fork && fork + 1 < tail <= |g.onion|
      && Alone(head) && Alone(fork) && Alone(tail - 1)
    }

    function Merge(): Node requires Stands() { g.At(head, 0) }

    function Switch(): Node requires Stands() { g.At(fork, 0) }

    function Next(): Node requires Stands() { g.At(tail - 1, 0) }

    function Exit(): Node requires Alone(tail) { g.At(tail, 0) }

    /** An op without a role in the control flow. */
    predicate Plain(node: Node) {
      !node.Is(MERGE) && !node.Is(ENTER) && !node.Is(NEXT_ITERATION) && !node.Is(EXIT) && !node.IsDivergencePoint()
    }

    predicate InCondition(l: nat) { head < l < fork }

    predicate InBody(l: nat) { fork < l < tail - 1 }

    /** An input that is known and reads no Switch, except that a node behind the loop's own
        Switch may read its branch 1. */
    predicate MayRead(l: nat, input: (int, int))
      requires Stands()
    {
      g.IsExternal(input.0)
      || (input.0 in g.mapped
          && (g.mapped[input.0].IsDivergencePoint() ==> fork < l && input == (Switch().id, 1)))
    }

    /** An input that is the Switch's branch 1, or a node between the Switch and layer `l`. */
    ghost predicate HangsOn(l: nat, input: (int, int))
      requires Stands()
    {
      !g.IsExternal(input.0)
      && (input == (Switch().id, 1) || exists l', n' :: fork < l' < l && IsAt(l', n', input.0))
    }

    predicate IsAt(l: int, n: nat, id: int) { n < g.LayerSize(l) && g.At(l, n).id == id }

    /** A node from place `n` of layer `l` on, but before place `n1` of layer `l1`. */
    ghost predicate Between(l: nat, n: nat, l1: nat, n1: nat, id: int) {
      exists l2: nat, n2: nat ::
        (l < l2 || (l == l2 && n <= n2)) && (l2 < l1 || (l2 == l1 && n2 < n1)) && IsAt(l2, n2, id)
    }

    /** A node of the loop, from the Merge to the NextIteration. */
    ghost predicate Has(id: int) { Between(head, 0, tail, 0, id) }

    /** The loop up to its Switch. */
    ghost predicate Opens() {
      && Stands()
      && Merge().Is(MERGE) && Switch().Is(SWITCH) && Switch().IsDivergencePoint() && Next().Is(NEXT_ITERATION)
      && |Merge().inputs| >= 2 && Merge().inputs[1].0 == Next().id && Merge().layer == head
      && !Has(Merge().inputs[0].0)
      && (forall l, n :: head <= l < tail ==> MappedAt(l, n))
      && (forall l, n :: InCondition(l) ==> PlainAt(l, n))
      && (forall l, n :: head < l <= fork ==> ReadsAt(l, n) && OrderedAt(l, n))
    }

    ghost predicate WellFormed() {
      && Opens() && tail < |g.onion| && Alone(tail) && Exit().Is(EXIT)
      && (forall l, n :: InBody(l) ==> PlainAt(l, n))
      && (forall l, n :: fork < l < tail ==> ReadsAt(l, n) && OrderedAt(l, n))
      && (forall l, n :: fork < l < tail ==> HangsAt(l, n))
    }

    predicate MappedAt(l: nat, n: nat) {
      n < g.LayerSize(l) ==> g.At(l, n).id in g.mapped && g.mapped[g.At(l, n).id] == g.At(l, n)
    }

    predicate PlainAt(l: nat, n: nat) { n < g.LayerSize(l) ==> Plain(g.At(l, n)) }

    predicate ReadsAt(l: nat, n: nat)
      requires Stands()
    {
      n < g.LayerSize(l) ==> forall e :: 0 <= e < |g.At(l, n).inputs| ==> MayRead(l, g.At(l, n).inputs[e])
    }

    /** What a node of the loop reads comes from outside, or earlier in the pass. */
    ghost predicate OrderedAt(l: nat, n: nat) {
      n < g.LayerSize(l) ==>
        forall e :: 0 <= e < |g.At(l, n).inputs| ==>
          var id := g.At(l, n).inputs[e].0; g.IsExternal(id) || !Has(id) || Between(head, 0, l, n, id)
    }

    ghost predicate HangsAt(l: nat, n: nat)
      requires Stands()
    {
      n < g.LayerSize(l) ==> exists e :: 0 <= e < |g.At(l, n).inputs| && HangsOn(l, g.At(l, n).inputs[e])
    }

    /** The nodes from place `n` of layer `l` to the end of layer `end - 1`, in visiting order. */
    function Nodes(l: nat, n: nat, end: nat): seq<int>
      decreases end - l, g.LayerSize(l) - n
    {
      if l >= end then []
      else if n >= g.LayerSize(l) then Nodes(l + 1, 0, end)
      else [g.At(l, n).id] + Nodes(l, n + 1, end)
    }

    /** The number of visits of one pass. */
    function Pass(): nat { |Nodes(head, 0, tail + 1)| }

    /** The visit of the Switch, in a pass that starts after `c` visits. */
    function Asked(c: nat): nat { c + |Nodes(head, 0, fork + 1)| }
  }

  /** Every op succeeds, and the Switch always names a branch. */
  ghost predicate Obliging(lp: Loop, ops: Ops)
    requires lp.Stands()
  {
    && (forall visit: nat, id: int :: ops(visit, id).status == 0)
    && (forall visit: nat :: ops(visit, lp.Switch().id).branch.Some?)
  }

  /** The condition of the pass that starts after `c` visits. */
  predicate Holds(lp: Loop, ops: Ops, c: nat)
    requires lp.Stands()
  {
    ops(lp.Asked(c), lp.Switch().id).branch == Some(1)
  }

  // ---------------------------------------------------------------- what is logged

  function Executions(ids: seq<int>): (log: seq<Event>)
    ensures |log| == |ids|
  {
    seq(|ids|, (i: nat) requires i < |ids| => Executed(ids[i]))
  }

  function Skips(ids: seq<int>): (log: seq<Event>)
    ensures |log| == |ids|
  {
    seq(|ids|, (i: nat) requires i < |ids| => Skipped(ids[i]))
  }

  /** A pass whose condition holds: every node but the Exit runs, and the walk goes back. */
  function IterationLog(lp: Loop, f: int): seq<Event> {
    Executions(lp.Nodes(lp.head, 0, lp.tail)) + [Planned(f, lp.head), Rewound(f, lp.head)]
  }

  /** The last pass: the body is skipped and the Exit runs. */
  function LeavingLog(lp: Loop): seq<Event>
    requires lp.Alone(lp.tail)
  {
    Executions(lp.Nodes(lp.head, 0, lp.fork + 1)) + Skips(lp.Nodes(lp.fork + 1, 0, lp.tail)) + [Executed(lp.Exit().id)]
  }

  function IterationLogs(lp: Loop, f: int, n: nat): seq<Event> {
    if n == 0 then [] else IterationLog(lp, f) + IterationLogs(lp, f, n - 1)
  }

  // ---------------------------------------------------------------- states of the loop

  /** Every input from outside the loop is active. */
  ghost predicate Awake(lp: Loop, flow: Flow)
    requires lp.Stands()
  {
    && (|lp.Merge().inputs| > 0 ==> flow.Node(lp.Merge().inputs[0].0).active)
    && forall l, n :: lp.head < l < lp.tail ==> AwakeAt(lp, flow, l, n)
  }

  ghost predicate AwakeAt(lp: Loop, flow: Flow, l: nat, n: nat) {
    n < lp.g.LayerSize(l) ==>
      forall e :: 0 <= e < |lp.g.At(l, n).inputs| ==>
        var id := lp.g.At(l, n).inputs[e].0; lp.g.IsExternal(id) || lp.Has(id) || flow.Node(id).active
  }

  /** Every input of the nodes from here to the end of layer `upto - 1` is external, or active,
      or stands between here and its reader. */
  ghost predicate Ready(lp: Loop, flow: Flow, l: nat, n: nat, upto: nat) {
    forall l1: nat, n1: nat :: (l < l1 || (l == l1 && n <= n1)) && l1 < upto ==> ReadyAt(lp, flow, l, n, l1, n1)
  }

  ghost predicate ReadyAt(lp: Loop, flow: Flow, l: nat, n: nat, l1: nat, n1: nat) {
    n1 < lp.g.LayerSize(l1) ==>
      forall e :: 0 <= e < |lp.g.At(l1, n1).inputs| ==>
        var id := lp.g.At(l1, n1).inputs[e].0;
        lp.g.IsExternal(id) || flow.Node(id).active || lp.Between(l, n, l1, n1, id)
  }

  /** The nodes between two places are active. */
  ghost predicate Lit(lp: Loop, flow: Flow, l: nat, n: nat, l1: nat, n1: nat) {
    forall id :: lp.Between(l, n, l1, n1, id) ==> flow.Node(id).active
  }

  /** Only the marks of the loop's own nodes change, the layer its NextIteration goes back to,
      and its frame. */
  ghost predicate Keeps(lp: Loop, s: State, r: State, f: int)
    requires lp.Stands()
  {
    && (forall id :: !lp.Has(id) && !lp.IsAt(lp.tail, 0, id) ==>
          r.flow.Node(id).active == s.flow.Node(id).active && r.flow.Node(id).branch == s.flow.Node(id).branch
          && Lookup(r.frameIds, id) == Lookup(s.frameIds, id))
    && (forall id :: id != lp.Next().id ==> Lookup(r.rewindLayers, id) == Lookup(s.rewindLayers, id))
    && (forall x :: x != f ==> r.flow.Frame(x) == s.flow.Frame(x))
  }

  /** Only nodes between the two places are marked. */
  ghost predicate Marks(lp: Loop, s: State, r: State, l: nat, n: nat, l1: nat, n1: nat) {
    forall id :: !lp.Between(l, n, l1, n1, id) ==>
      r.flow.Node(id).active == s.flow.Node(id).active && r.flow.Node(id).branch == s.flow.Node(id).branch
      && Lookup(r.frameIds, id) == Lookup(s.frameIds, id)
  }

  /** No node is put to sleep. */
  ghost predicate Wakes(before: Flow, after: Flow) {
    forall id :: before.Node(id).active ==> after.Node(id).active
  }

  /** Between two visits, in the frame `f`, which the Merge belongs to. */
  ghost predicate Inside(lp: Loop, s: State, f: int)
    requires lp.Stands()
  {
    && s.status == Running && s.counter <= MAX_VISITS && !s.leftFrame
    && f >= 0 && |s.frames| > 0 && s.frames[|s.frames| - 1] == f
    && (Lookup(s.frameIds, lp.Merge().id) < 0 || Lookup(s.frameIds, lp.Merge().id) == f)
  }

  ghost predicate AtHead(lp: Loop, s: State, f: int)
    requires lp.Stands()
  {
    && Inside(lp, s, f) && s.l == lp.head && s.n == 0 && Awake(lp, s.flow)
    && !s.flow.Frame(f).rewindPlanned && s.flow.Frame(f).rewindPosition == -1
  }

  /** The Merge has run: the frame is activated, and NextIteration knows where to go back to. */
  ghost predicate Armed(lp: Loop, s: State, f: int)
    requires lp.Stands()
  {
    s.flow.Frame(f) == FrameState(true, false, -1) && Lookup(s.rewindLayers, lp.Next().id) == lp.head
  }

  // ---------------------------------------------------------------- one node

  /** `t` is `s` after `node` ran: it is active, has the branch its op names, and belongs to a
      frame. */
  ghost predicate Ran(s: State, t: State, node: Node, o: Outcome) {
    && t.counter == s.counter && t.frames == s.frames && t.status == s.status
    && (forall id :: t.flow.Node(id).active == (id == node.id || s.flow.Node(id).active))
    && (forall id :: t.flow.Node(id).branch
          == if id == node.id && o.branch.Some? then o.branch.value else s.flow.Node(id).branch)
    && (forall id :: Lookup(t.frameIds, id)
          == if id == node.id && |s.frames| > 0 && Lookup(s.frameIds, id) < 0 then s.frames[|s.frames| - 1]
             else Lookup(s.frameIds, id))
  }

  lemma ProcessMarks(s: State, node: Node, o: Outcome)
    ensures var t := Process(s, node, o);
            && t == s.(flow := t.flow) && t.flow.frames == s.flow.frames
               && (forall x :: t.flow.Frame(x) == s.flow.Frame(x))
            && (forall id :: t.flow.Node(id).active == s.flow.Node(id).active)
            && (forall id :: t.flow.Node(id).branch
                  == if id == node.id && o.branch.Some? then o.branch.value else s.flow.Node(id).branch)
  {
  }

  lemma CompleteMarks(s: State, node: Node)
    ensures var t := Complete(s, node);
            && t == s.(flow := t.flow, log := s.log + [Executed(node.id)], n := s.n + 1)
               && t.flow.frames == s.flow.frames && (forall x :: t.flow.Frame(x) == s.flow.Frame(x))
            && (forall id :: t.flow.Node(id).active == s.flow.Node(id).active
                  && t.flow.Node(id).branch == s.flow.Node(id).branch)
  {
  }

  lemma MergeMarks(g: Layout, s: State, node: Node, o: Outcome, f: int)
    requires |node.inputs| >= 2 && node.inputs[1].0 in g.mapped && g.mapped[node.inputs[1].0].Is(NEXT_ITERATION)
    requires Lookup(s.frameIds, node.id) == f >= 0
    ensures var t := LoopMerge(g, s, node, o);
            && t == s.(flow := t.flow, rewindLayers := s.rewindLayers[node.inputs[1].0 := node.layer])
            && t.flow.Frame(f) == s.flow.Frame(f).(activated := true)
            && (forall x :: x != f ==> t.flow.Frame(x) == s.flow.Frame(x))
            && (forall id :: t.flow.Node(id).active == s.flow.Node(id).active
                  && t.flow.Node(id).branch == s.flow.Node(id).branch)
  {
  }

  /** What a node has done to the state before its op runs. */
  function Marked(s: State, node: Node): State {
    s.(frameIds := if |s.frames| > 0 && Lookup(s.frameIds, node.id) < 0
                   then s.frameIds[node.id := s.frames[|s.frames| - 1]] else s.frameIds,
       flow := s.flow.MarkActive(node.id, true))
  }

  lemma MarkedMarks(s: State, node: Node)
    ensures var t := Marked(s, node);
            && t == s.(flow := t.flow, frameIds := t.frameIds) && t.flow.frames == s.flow.frames
            && (forall x :: t.flow.Frame(x) == s.flow.Frame(x))
            && (forall id :: t.flow.Node(id).active == (id == node.id || s.flow.Node(id).active))
            && (forall id :: t.flow.Node(id).branch == s.flow.Node(id).branch)
            && (forall id :: Lookup(t.frameIds, id)
                  == if id == node.id && |s.frames| > 0 && Lookup(s.frameIds, id) < 0 then s.frames[|s.frames| - 1]
                     else Lookup(s.frameIds, id))
  {
  }

  lemma Dispatches(g: Layout, s: State, node: Node, o: Outcome)
    ensures Dispatch(g, s, node, o) ==
            var m := Marked(s, node);
            if node.Is(ENTER) then RunEnter(m, node, o)
            else if node.Is(NEXT_ITERATION) then RunNextIteration(m, node, o)
            else if node.Is(EXIT) then RunExit(m, node, o)
            else RunOther(g, m, node, o)
  {
    hide RunEnter, RunNextIteration, RunExit, RunOther;
  }

  lemma RunsPlain(g: Layout, s: State, node: Node, o: Outcome)
    requires !node.Is(MERGE) && !node.Is(ENTER) && !node.Is(NEXT_ITERATION) && !node.Is(EXIT) && o.status == 0
    ensures var t := Dispatch(g, s, node, o);
            && Ran(s, t, node, o) && t.l == s.l && t.n == s.n + 1 && t.leftFrame == s.leftFrame
               && t.log == s.log + [Executed(node.id)]
            && t.flow.frames == s.flow.frames && t.rewindLayers == s.rewindLayers
  {
    hide Process, Complete, LoopMerge, RunEnter, RunExit, RunNextIteration, Dispatch, Marked;
    Dispatches(g, s, node, o);
    MarkedMarks(s, node);
    var m := Marked(s, node);
    ProcessMarks(m, node, o);
    CompleteMarks(Process(m, node, o), node);
  }

  lemma RunsMerge(g: Layout, s: State, node: Node, o: Outcome, f: int)
    requires node.Is(MERGE) && |node.inputs| >= 2 && o.status == 0
    requires node.inputs[1].0 in g.mapped && g.mapped[node.inputs[1].0].Is(NEXT_ITERATION)
    requires |s.frames| > 0 && f >= 0
    requires f == if Lookup(s.frameIds, node.id) < 0 then s.frames[|s.frames| - 1] else Lookup(s.frameIds, node.id)
    ensures var t := Dispatch(g, s, node, o);
            && Ran(s, t, node, o) && t.l == s.l && t.n == s.n + 1 && t.leftFrame == s.leftFrame
               && t.log == s.log + [Executed(node.id)]
            && t.flow.Frame(f) == s.flow.Frame(f).(activated := true)
            && (forall x :: x != f ==> t.flow.Frame(x) == s.flow.Frame(x))
            && t.rewindLayers == s.rewindLayers[node.inputs[1].0 := node.layer]
  {
    hide Process, Complete, LoopMerge, RunEnter, RunExit, RunNextIteration, Dispatch, Marked;
    Dispatches(g, s, node, o);
    MarkedMarks(s, node);
    var m := Marked(s, node);
    ProcessMarks(m, node, o);
    MergeMarks(g, Process(m, node, o), node, o, f);
    CompleteMarks(LoopMerge(g, Process(m, node, o), node, o), node);
  }

  lemma PlanMarks(s: State, f: int, layer: int)
    requires s.flow.Frame(f) == FrameState(true, false, -1)
    ensures var t := s.(flow := s.flow.Plan(f, layer - 1)).Log(Planned(f, layer));
            && t == s.(flow := t.flow, log := s.log + [Planned(f, layer)])
            && t.flow.Frame(f) == FrameState(true, true, layer - 1)
            && (forall x :: x != f ==> t.flow.Frame(x) == s.flow.Frame(x))
            && (forall id :: t.flow.Node(id) == s.flow.Node(id))
  {
  }

  /** A NextIteration of a frame without a plan makes one. */
  lemma RunsNext(g: Layout, s: State, node: Node, o: Outcome, f: int)
    requires node.Is(NEXT_ITERATION) && |node.inputs| > 0 && o.status == 0
    requires |s.frames| > 0 && s.frames[|s.frames| - 1] == f && s.flow.Frame(f) == FrameState(true, false, -1)
    ensures var t := Dispatch(g, s, node, o); var layer := Lookup(s.rewindLayers, node.id);
            && Ran(s, t, node, o) && t.l == s.l && t.n == s.n + 1 && t.leftFrame == s.leftFrame
            && t.log == s.log + [Executed(node.id), Planned(f, layer)]
            && t.flow.Frame(f) == FrameState(true, true, layer - 1) && t.rewindLayers == s.rewindLayers
            && (forall x :: x != f ==> t.flow.Frame(x) == s.flow.Frame(x))
  {
    hide RunEnter, RunExit, RunOther, RunNextIteration, Dispatch, Marked, Ran;
    Dispatches(g, s, node, o);
    NextPlans(s, node, o, f);
  }

  lemma NextPlans(s: State, node: Node, o: Outcome, f: int)
    requires |node.inputs| > 0 && o.status == 0
    requires |s.frames| > 0 && s.frames[|s.frames| - 1] == f && s.flow.Frame(f) == FrameState(true, false, -1)
    ensures var t := RunNextIteration(Marked(s, node), node, o); var layer := Lookup(s.rewindLayers, node.id);
            && Ran(s, t, node, o) && t.l == s.l && t.n == s.n + 1 && t.leftFrame == s.leftFrame
            && t.log == s.log + [Executed(node.id), Planned(f, layer)]
            && t.flow.Frame(f) == FrameState(true, true, layer - 1) && t.rewindLayers == s.rewindLayers
            && (forall x :: x != f ==> t.flow.Frame(x) == s.flow.Frame(x))
  {
    hide Process, Complete, Marked;
    MarkedMarks(s, node);
    var m := Marked(s, node);
    ProcessMarks(m, node, o);
    var u := Complete(Process(m, node, o), node);
    CompleteMarks(Process(m, node, o), node);
    var layer := Lookup(s.rewindLayers, node.id);
    PlanMarks(u, f, layer);
    assert s.log + [Executed(node.id)] + [Planned(f, layer)] == s.log + [Executed(node.id), Planned(f, layer)];
  }

  /** An Exit of an activated frame goes back if that is planned, and else runs its op. */
  lemma RunsExit(g: Layout, s: State, node: Node, o: Outcome, f: int)
    requires node.Is(EXIT) && o.status == 0
    requires |s.frames| > 0 && s.frames[|s.frames| - 1] == f && s.flow.Frame(f).activated
    ensures var t := Dispatch(g, s, node, o); var p := s.flow.Frame(f);
            if p.rewindPlanned then
              Ran(s, t, node, o.(branch := None)) && t.l == p.rewindPosition + 1 && t.n == 0
                  && t.leftFrame == s.leftFrame
              && t.log == s.log + [Rewound(f, p.rewindPosition + 1)]
              && t.flow.Frame(f) == FrameState(true, false, -1)
            else
              Ran(s, t, node, o) && t.l == s.l && t.n == s.n + 1 && t.leftFrame
                  && t.log == s.log + [Executed(node.id)]
    ensures var t := Dispatch(g, s, node, o);
            t.rewindLayers == s.rewindLayers && (forall x :: x != f ==> t.flow.Frame(x) == s.flow.Frame(x))
  {
    hide Process, Complete, RunEnter, RunNextIteration, RunOther, Dispatch, Marked, Ran;
    Dispatches(g, s, node, o);
    MarkedFrame(s, node, f);
    if s.flow.Frame(f).rewindPlanned {
      ExitRewinds(s, node, o, f);
    } else {
      ExitRuns(s, node, o);
    }
  }

  lemma MarkedFrame(s: State, node: Node, f: int)
    ensures Marked(s, node).flow.Frame(f) == s.flow.Frame(f)
  {
  }

  lemma ExitRewinds(s: State, node: Node, o: Outcome, f: int)
    requires |s.frames| > 0 && s.frames[|s.frames| - 1] == f && s.flow.Frame(f).activated
             && s.flow.Frame(f).rewindPlanned
    ensures var t := RunExit(Marked(s, node), node, o); var p := s.flow.Frame(f);
            && Ran(s, t, node, o.(branch := None)) && t.l == p.rewindPosition + 1 && t.n == 0
               && t.leftFrame == s.leftFrame
            && t.log == s.log + [Rewound(f, p.rewindPosition + 1)] && t.flow.Frame(f) == FrameState(true, false, -1)
            && t.rewindLayers == s.rewindLayers && (forall x :: x != f ==> t.flow.Frame(x) == s.flow.Frame(x))
  {
    hide Marked, Process, Complete;
    MarkedMarks(s, node);
    UnplanMarks(Marked(s, node), f);
  }

  lemma ExitRuns(s: State, node: Node, o: Outcome)
    requires |s.frames| > 0 && o.status == 0
    requires var p := s.flow.Frame(s.frames[|s.frames| - 1]); p.activated && !p.rewindPlanned
    ensures var t := RunExit(Marked(s, node), node, o);
            && Ran(s, t, node, o) && t.l == s.l && t.n == s.n + 1 && t.leftFrame
               && t.log == s.log + [Executed(node.id)]
            && t.rewindLayers == s.rewindLayers && (forall x :: t.flow.Frame(x) == s.flow.Frame(x))
  {
    hide Marked, Process, Complete;
    MarkedMarks(s, node);
    var m := Marked(s, node);
    ProcessMarks(m, node, o);
    CompleteMarks(Process(m, node, o).(leftFrame := true), node);
  }

  lemma UnplanMarks(s: State, f: int)
    requires s.flow.Frame(f).activated
    ensures var t := s.flow.Unplan(f);
            && t.Frame(f) == FrameState(true, false, -1) && (forall x :: x != f ==> t.Frame(x) == s.flow.Frame(x))
            && (forall id :: t.Node(id) == s.flow.Node(id))
  {
  }

  // ---------------------------------------------------------------- the input check

  /** Nothing stops a node whose inputs are known, active and on the branch it reads. */
  lemma {:induction false} ChecksPass(g: Layout, flow: Flow, inputs: seq<(int, int)>, e: nat)
    requires e <= |inputs|
    requires forall i :: e <= i < |inputs| ==>
               var (id, branch) := inputs[i];
               g.IsExternal(id)
               || (id in g.mapped && flow.Node(id).active
                   && (g.mapped[id].IsDivergencePoint() ==> flow.Node(id).branch == branch))
    ensures CheckInputs(g, flow, inputs, e) == Proceed
    decreases |inputs| - e
  {
    if e < |inputs| {
      ChecksPass(g, flow, inputs, e + 1);
    }
  }

  /** One inactive input, or one on the other branch, is enough to skip a node. */
  lemma {:induction false} ChecksFail(g: Layout, flow: Flow, inputs: seq<(int, int)>, e: nat, i: nat)
    requires e <= i < |inputs|
    requires forall i :: e <= i < |inputs| ==> g.IsExternal(inputs[i].0) || inputs[i].0 in g.mapped
    requires var (id, branch) := inputs[i];
             !g.IsExternal(id) && (!flow.Node(id).active || (g.mapped[id].IsDivergencePoint() && flow.Node(id).branch != branch))
    ensures CheckInputs(g, flow, inputs, e) == Skip
    decreases i - e
  {
    if e < i {
      ChecksFail(g, flow, inputs, e + 1, i);
    }
  }

  lemma Kinds(lp: Loop, l: nat, n: nat)
    requires lp.Opens() && lp.head < l < lp.tail && n < lp.g.LayerSize(l)
    requires l == lp.fork || l == lp.tail - 1 || lp.PlainAt(l, n)
    ensures var node := lp.g.At(l, n);
            !node.Is(MERGE) && !node.Is(ENTER) && !node.Is(EXIT) && (node.Is(NEXT_ITERATION) <==> l == lp.tail - 1)
    ensures l < lp.tail - 1 ==> (lp.g.At(l, n).id == lp.Switch().id <==> l == lp.fork)
  {
    assert lp.MappedAt(l, n);
    assert lp.MappedAt(lp.fork, 0);
  }

  /** A node whose inputs are ready passes its check, behind the Switch if that took branch 1. */
  lemma Passes(lp: Loop, flow: Flow, l: nat, n: nat)
    requires lp.Opens() && lp.head < l < lp.tail && n < lp.g.LayerSize(l) && !lp.g.At(l, n).Is(MERGE)
    requires lp.ReadsAt(l, n) && ReadyAt(lp, flow, l, n, l, n)
    requires l > lp.fork ==> flow.Node(lp.Switch().id).branch == 1
    ensures Check(lp.g, flow, lp.g.At(l, n)) == Proceed
  {
    hide CheckInputs;
    var node := lp.g.At(l, n);
    forall e | 0 <= e < |node.inputs|
      ensures lp.g.IsExternal(node.inputs[e].0) || flow.Node(node.inputs[e].0).active
    {
      assert !lp.Between(l, n, l, n, node.inputs[e].0);
    }
    ChecksPass(lp.g, flow, node.inputs, 0);
  }

  /** The places from layer `fork + 1` up to here are inactive. */
  ghost predicate Shut(lp: Loop, flow: Flow, l: nat, n: nat) {
    forall l': nat, n': nat, id :: lp.fork < l' && (l' < l || (l' == l && n' < n)) && lp.IsAt(l', n', id) ==>
        !flow.Node(id).active
  }

  /** Behind a Switch that took another branch every node is skipped. */
  lemma Fails(lp: Loop, flow: Flow, l: nat, n: nat)
    requires lp.WellFormed() && lp.fork < l < lp.tail && n < lp.g.LayerSize(l)
    requires Shut(lp, flow, l, n) && flow.Node(lp.Switch().id).branch != 1
    ensures Check(lp.g, flow, lp.g.At(l, n)) == Skip
  {
    hide CheckInputs;
    var node := lp.g.At(l, n);
    assert lp.HangsAt(l, n);
    var e :| 0 <= e < |node.inputs| && lp.HangsOn(l, node.inputs[e]);
    assert lp.ReadsAt(l, n) && lp.MappedAt(lp.fork, 0) && (l < lp.tail - 1 ==> lp.PlainAt(l, n));
    ChecksFail(lp.g, flow, node.inputs, 0, e);
    Kinds(lp, l, n);
  }

  // ---------------------------------------------------------------- visits

  /** A node that passes its check is dispatched. */
  lemma Visits(g: Layout, ops: Ops, s: State)
    requires s.n < g.LayerSize(s.l) && s.counter < MAX_VISITS && !s.leftFrame
    requires g.At(s.l, s.n).Is(EXIT) || Check(g, s.flow, g.At(s.l, s.n)) == Proceed
    ensures Visit(g, ops, s)
            == Dispatch(g, s.(counter := s.counter + 1), g.At(s.l, s.n), ops(s.counter + 1, g.At(s.l, s.n).id))
  {
    hide Dispatch, Check, CloseFrame, SkipNode;
  }

  lemma AwakeKept(lp: Loop, before: Flow, after: Flow)
    requires lp.Stands() && Awake(lp, before)
    requires forall id :: !lp.Has(id) && before.Node(id).active ==> after.Node(id).active
    requires |lp.Merge().inputs| > 0 ==> !lp.Has(lp.Merge().inputs[0].0)
    ensures Awake(lp, after)
  {
    hide Loop.Has;
    forall l, n | lp.head < l < lp.tail ensures AwakeAt(lp, after, l, n) {
      assert AwakeAt(lp, before, l, n);
    }
  }

  /** With all earlier nodes of the pass active, the rest of it is ready. */
  lemma ReadyFrom(lp: Loop, flow: Flow, l: nat, n: nat, upto: nat)
    requires lp.Stands() && Awake(lp, flow) && lp.head < l && upto <= lp.tail && Lit(lp, flow, lp.head, 0, l, n)
    requires forall l1, n1 :: l <= l1 < upto ==> lp.OrderedAt(l1, n1)
    ensures Ready(lp, flow, l, n, upto)
  {
    hide Loop.Has, Loop.Between, Lit;
    forall l1: nat, n1: nat | (l < l1 || (l == l1 && n <= n1)) && l1 < upto ensures ReadyAt(lp, flow, l, n, l1, n1) {
      assert lp.OrderedAt(l1, n1) && AwakeAt(lp, flow, l1, n1);
      if n1 < lp.g.LayerSize(l1) {
        forall e | 0 <= e < |lp.g.At(l1, n1).inputs|
          ensures var id := lp.g.At(l1, n1).inputs[e].0;
                  lp.g.IsExternal(id) || flow.Node(id).active || lp.Between(l, n, l1, n1, id)
        {
          var id := lp.g.At(l1, n1).inputs[e].0;
          if lp.Between(lp.head, 0, l1, n1, id) {
            BetweenSplits(lp, lp.head, 0, l, n, l1, n1, id);
            LitAt(lp, flow, lp.head, 0, l, n, id);
          }
        }
      }
    }
  }

  lemma LitAt(lp: Loop, flow: Flow, l: nat, n: nat, l1: nat, n1: nat, id: int)
    requires Lit(lp, flow, l, n, l1, n1)
    ensures lp.Between(l, n, l1, n1, id) ==> flow.Node(id).active
  {
  }

  lemma BetweenSplits(lp: Loop, l: nat, n: nat, l1: nat, n1: nat, l2: nat, n2: nat, id: int)
    requires lp.Between(l, n, l2, n2, id)
    ensures lp.Between(l, n, l1, n1, id) || lp.Between(l1, n1, l2, n2, id)
  {
  }

  lemma LitJoins(lp: Loop, flow: Flow, l: nat, n: nat, l1: nat, n1: nat, l2: nat, n2: nat)
    requires Lit(lp, flow, l, n, l1, n1) && Lit(lp, flow, l1, n1, l2, n2)
    ensures Lit(lp, flow, l, n, l2, n2)
  {
    hide Loop.Between;
    forall id | lp.Between(l, n, l2, n2, id) ensures flow.Node(id).active {
      BetweenSplits(lp, l, n, l1, n1, l2, n2, id);
    }
  }

  lemma BetweenWithin(lp: Loop, l: nat, n: nat, l1: nat, n1: nat, k: nat, m: nat, k1: nat, m1: nat, id: int)
    requires lp.Between(l, n, l1, n1, id) && (k < l || (k == l && m <= n)) && (l1 < k1 || (l1 == k1 && n1 <= m1))
    ensures lp.Between(k, m, k1, m1, id)
  {
  }

  lemma MarksJoin(lp: Loop, s: State, t: State, r: State, l: nat, n: nat, l1: nat, n1: nat, l2: nat, n2: nat)
    requires Marks(lp, s, t, l, n, l1, n1) && Marks(lp, t, r, l1, n1, l2, n2)
    requires (l < l1 || (l == l1 && n <= n1)) && (l1 < l2 || (l1 == l2 && n1 <= n2))
    ensures Marks(lp, s, r, l, n, l2, n2)
  {
    hide Loop.Between;
    forall id | !lp.Between(l, n, l2, n2, id)
      ensures !lp.Between(l, n, l1, n1, id) && !lp.Between(l1, n1, l2, n2, id)
    {
      if lp.Between(l, n, l1, n1, id) {
        BetweenWithin(lp, l, n, l1, n1, l, n, l2, n2, id);
      }
      if lp.Between(l1, n1, l2, n2, id) {
        BetweenWithin(lp, l1, n1, l2, n2, l, n, l2, n2, id);
      }
    }
  }

  /** One node has run. */
  lemma MarksRan(lp: Loop, s: State, t: State, l: nat, n: nat, o: Outcome)
    requires n < lp.g.LayerSize(l) && Ran(s.(counter := t.counter), t, lp.g.At(l, n), o)
    ensures Marks(lp, s, t, l, n, l, n + 1)
  {
    var id := lp.g.At(l, n).id;
    assert lp.IsAt(l, n, id);
    assert lp.Between(l, n, l, n + 1, id);
    hide Loop.Between;
  }

  lemma MarksMoved(lp: Loop, s: State, t: State, r: State, l: nat, n: nat, l1: nat, n1: nat)
    requires Marks(lp, s, t, l, n, l1, n1) && r.flow == t.flow && r.frameIds == t.frameIds
    ensures Marks(lp, s, r, l, n, l1, n1)
  {
    hide Loop.Between;
  }

  lemma MarksNone(lp: Loop, s: State, t: State, l: nat, n: nat, l1: nat, n1: nat)
    requires t.flow == s.flow && t.frameIds == s.frameIds
    ensures Marks(lp, s, t, l, n, l1, n1)
  {
    hide Loop.Between;
  }

  lemma LitKept(lp: Loop, before: Flow, after: Flow, l: nat, n: nat, l1: nat, n1: nat)
    requires Lit(lp, before, l, n, l1, n1) && Wakes(before, after)
    ensures Lit(lp, after, l, n, l1, n1)
  {
    hide Loop.Between;
  }

  /** One node on, which is active now. */
  lemma LitOne(lp: Loop, flow: Flow, l: nat, n: nat)
    requires n < lp.g.LayerSize(l) && flow.Node(lp.g.At(l, n).id).active
    ensures Lit(lp, flow, l, n, l, n + 1)
  {
  }

  lemma LitNone(lp: Loop, flow: Flow, l: nat, n: nat)
    ensures Lit(lp, flow, l, n, l, n)
    ensures n >= lp.g.LayerSize(l) ==> Lit(lp, flow, l, n, l + 1, 0)
  {
  }

  lemma ReadyNext(lp: Loop, before: Flow, after: Flow, l: nat, n: nat, upto: nat)
    requires Ready(lp, before, l, n, upto) && Wakes(before, after)
    requires n < lp.g.LayerSize(l) && after.Node(lp.g.At(l, n).id).active
    ensures Ready(lp, after, l, n + 1, upto)
  {
    hide Loop.Between;
    var m := n + 1;
    forall l1: nat, n1: nat | (l < l1 || (l == l1 && m <= n1)) && l1 < upto ensures ReadyAt(lp, after, l, m, l1, n1) {
      assert ReadyAt(lp, before, l, n, l1, n1);
      if n1 < lp.g.LayerSize(l1) {
        forall e | 0 <= e < |lp.g.At(l1, n1).inputs|
          ensures var id := lp.g.At(l1, n1).inputs[e].0;
                  lp.g.IsExternal(id) || after.Node(id).active || lp.Between(l, n + 1, l1, n1, id)
        {
          var id := lp.g.At(l1, n1).inputs[e].0;
          if lp.Between(l, n, l1, n1, id) {
            BetweenSplits(lp, l, n, l, n + 1, l1, n1, id);
            LitOne(lp, after, l, n);
            LitAt(lp, after, l, n, l, n + 1, id);
          }
        }
      }
    }
  }

  lemma ReadyLayer(lp: Loop, flow: Flow, l: nat, n: nat, upto: nat)
    requires Ready(lp, flow, l, n, upto) && n >= lp.g.LayerSize(l)
    ensures Ready(lp, flow, l + 1, 0, upto)
  {
    hide Loop.Between;
    var k := l + 1;
    forall l1: nat, n1: nat | k <= l1 < upto ensures ReadyAt(lp, flow, k, 0, l1, n1) {
      assert ReadyAt(lp, flow, l, n, l1, n1);
      if n1 < lp.g.LayerSize(l1) {
        forall e | 0 <= e < |lp.g.At(l1, n1).inputs|
          ensures var id := lp.g.At(l1, n1).inputs[e].0;
                  lp.g.IsExternal(id) || flow.Node(id).active || lp.Between(l + 1, 0, l1, n1, id)
        {
          var id := lp.g.At(l1, n1).inputs[e].0;
          if lp.Between(l, n, l1, n1, id) {
            BetweenSplits(lp, l, n, l + 1, 0, l1, n1, id);
            LitNone(lp, flow, l, n);
            LitAt(lp, flow, l, n, l + 1, 0, id);
          }
        }
      }
    }
  }

  /** The inputs of the node that comes next are active. */
  lemma ReadyHere(lp: Loop, flow: Flow, l: nat, n: nat, upto: nat)
    requires Ready(lp, flow, l, n, upto) && l < upto
    ensures ReadyAt(lp, flow, l, n, l, n)
  {
  }

  lemma VisitPlain(lp: Loop, ops: Ops, s: State, f: int)
    requires lp.Opens() && Obliging(lp, ops) && Inside(lp, s, f) && s.counter < MAX_VISITS
    requires lp.head < s.l < lp.tail - 1 && s.n < lp.g.LayerSize(s.l)
    requires lp.ReadsAt(s.l, s.n) && (s.l == lp.fork || lp.PlainAt(s.l, s.n))
             && ReadyAt(lp, s.flow, s.l, s.n, s.l, s.n)
    requires s.l > lp.fork ==> s.flow.Node(lp.Switch().id).branch == 1
    ensures var t := Visit(lp.g, ops, s); var id := lp.g.At(s.l, s.n).id;
            && Inside(lp, t, f) && t.l == s.l && t.n == s.n + 1 && t.counter == s.counter + 1
            && t.frames == s.frames && t.log == s.log + [Executed(id)]
            && t.flow.frames == s.flow.frames && t.rewindLayers == s.rewindLayers
            && Wakes(s.flow, t.flow) && t.flow.Node(id).active && Keeps(lp, s, t, f)
            && Marks(lp, s, t, s.l, s.n, s.l, s.n + 1)
            && t.flow.Node(lp.Switch().id).branch ==
               if s.l == lp.fork then ops(s.counter + 1, lp.Switch().id).branch.value else s.flow.Node(lp.Switch().id).branch
  {
    hide Visit, Check, Dispatch, Loop.Opens, ReadyAt, Keeps, Marks;
    Opening(lp);
    Kinds(lp, s.l, s.n);
    Passes(lp, s.flow, s.l, s.n);
    Visits(lp.g, ops, s);
    var s0, node := s.(counter := s.counter + 1), lp.g.At(s.l, s.n);
    RunsPlain(lp.g, s0, node, ops(s0.counter, node.id));
    KeepsRan(lp, s, Visit(lp.g, ops, s), f, s.l, s.n, ops(s0.counter, node.id));
    MarksRan(lp, s, Visit(lp.g, ops, s), s.l, s.n, ops(s0.counter, node.id));
  }

  lemma KeepsRan(lp: Loop, s: State, t: State, f: int, l: nat, n: nat, o: Outcome)
    requires lp.Stands() && lp.head <= l && n < lp.g.LayerSize(l) && (l < lp.tail || (l == lp.tail && n == 0))
    requires Ran(s.(counter := t.counter), t, lp.g.At(l, n), o)
    requires forall id :: id != lp.Next().id ==> Lookup(t.rewindLayers, id) == Lookup(s.rewindLayers, id)
    requires forall x :: x != f ==> t.flow.Frame(x) == s.flow.Frame(x)
    ensures Keeps(lp, s, t, f)
  {
    assert lp.IsAt(l, n, lp.g.At(l, n).id);
    assert l < lp.tail ==> lp.Has(lp.g.At(l, n).id);
    hide Loop.Has;
  }

  lemma VisitMerge(lp: Loop, ops: Ops, s: State, f: int)
    requires lp.Opens() && Obliging(lp, ops) && AtHead(lp, s, f) && s.counter < MAX_VISITS
    ensures var t := Visit(lp.g, ops, s);
            && Inside(lp, t, f) && Armed(lp, t, f) && t.l == s.l && t.n == 1 && t.counter == s.counter + 1
            && t.frames == s.frames && t.log == s.log + [Executed(lp.Merge().id)]
            && Wakes(s.flow, t.flow) && t.flow.Node(lp.Merge().id).active && Keeps(lp, s, t, f)
            && Marks(lp, s, t, lp.head, 0, lp.head, 1)
  {
    hide Visit, Dispatch, Keeps, Marks, Loop.Has, AwakeAt, Loop.ReadsAt, Loop.OrderedAt;
    assert lp.MappedAt(lp.tail - 1, 0);
    Visits(lp.g, ops, s);
    var s0, node := s.(counter := s.counter + 1), lp.Merge();
    RunsMerge(lp.g, s0, node, ops(s0.counter, node.id), f);
    KeepsRan(lp, s, Visit(lp.g, ops, s), f, lp.head, 0, ops(s0.counter, node.id));
    MarksRan(lp, s, Visit(lp.g, ops, s), lp.head, 0, ops(s0.counter, node.id));
  }

  lemma VisitNext(lp: Loop, ops: Ops, s: State, f: int)
    requires lp.Opens() && Obliging(lp, ops) && Inside(lp, s, f) && Armed(lp, s, f) && |lp.Next().inputs| > 0
    requires lp.ReadsAt(lp.tail - 1, 0) && ReadyAt(lp, s.flow, lp.tail - 1, 0, lp.tail - 1, 0)
    requires s.counter < MAX_VISITS && s.l == lp.tail - 1 && s.n == 0 && s.flow.Node(lp.Switch().id).branch == 1
    ensures var t := Visit(lp.g, ops, s);
            && Inside(lp, t, f) && t.l == s.l && t.n == 1 && t.counter == s.counter + 1
            && t.frames == s.frames && t.log == s.log + [Executed(lp.Next().id), Planned(f, lp.head)]
            && t.flow.Frame(f) == FrameState(true, true, lp.head - 1)
            && Wakes(s.flow, t.flow) && Keeps(lp, s, t, f) && Marks(lp, s, t, lp.tail - 1, 0, lp.tail - 1, 1)
  {
    hide Visit, Check, Dispatch, ReadyAt, Keeps, Marks, Loop.Opens;
    NextIs(lp);
    Passes(lp, s.flow, s.l, s.n);
    Visits(lp.g, ops, s);
    var s0, node := s.(counter := s.counter + 1), lp.Next();
    RunsNext(lp.g, s0, node, ops(s0.counter, node.id), f);
    KeepsRan(lp, s, Visit(lp.g, ops, s), f, s.l, 0, ops(s0.counter, node.id));
    MarksRan(lp, s, Visit(lp.g, ops, s), s.l, 0, ops(s0.counter, node.id));
  }

  lemma NextIs(lp: Loop)
    requires lp.Opens()
    ensures lp.Stands() && lp.Next().Is(NEXT_ITERATION) && !lp.Next().Is(MERGE)
  {
  }

  /** The Exit goes back to the head. */
  lemma VisitExitBack(lp: Loop, ops: Ops, s: State, f: int)
    requires lp.Stands() && lp.Alone(lp.tail) && lp.Exit().Is(EXIT) && Obliging(lp, ops) && Inside(lp, s, f)
    requires s.counter < MAX_VISITS && s.l == lp.tail && s.n == 0
             && s.flow.Frame(f) == FrameState(true, true, lp.head - 1)
    ensures var t := Visit(lp.g, ops, s);
            && Inside(lp, t, f) && t.l == lp.head && t.n == 0 && t.flow.Frame(f) == FrameState(true, false, -1)
            && t.counter == s.counter + 1 && t.frames == s.frames && t.log == s.log + [Rewound(f, lp.head)]
            && Wakes(s.flow, t.flow) && Keeps(lp, s, t, f) && Marks(lp, s, t, lp.tail, 0, lp.tail, 1)
  {
    hide Visit, Check, Dispatch, Keeps, Marks;
    Visits(lp.g, ops, s);
    var s0, node := s.(counter := s.counter + 1), lp.Exit();
    var o := ops(s0.counter, node.id);
    RunsExit(lp.g, s0, node, o, f);
    KeepsRan(lp, s, Visit(lp.g, ops, s), f, lp.tail, 0, o.(branch := None));
    MarksRan(lp, s, Visit(lp.g, ops, s), lp.tail, 0, o.(branch := None));
  }

  /** The Exit leaves the loop. */
  lemma VisitExitOut(lp: Loop, ops: Ops, s: State, f: int)
    requires lp.Stands() && lp.Alone(lp.tail) && lp.Exit().Is(EXIT) && Obliging(lp, ops) && Inside(lp, s, f)
    requires Armed(lp, s, f) && s.counter < MAX_VISITS && s.l == lp.tail && s.n == 0
    ensures var t := Visit(lp.g, ops, s);
            t.status == Running && t.leftFrame && t.frames == s.frames && t.l == lp.tail && t.n == 1
            && t.counter == s.counter + 1 && t.log == s.log + [Executed(lp.Exit().id)]
            && Keeps(lp, s, t, f) && t.flow.Node(lp.Exit().id).active && Wakes(s.flow, t.flow)
            && (Lookup(t.frameIds, lp.Merge().id) < 0 || Lookup(t.frameIds, lp.Merge().id) == f)
  {
    hide Visit, Check, Dispatch, Keeps;
    Visits(lp.g, ops, s);
    var s0, node := s.(counter := s.counter + 1), lp.Exit();
    RunsExit(lp.g, s0, node, ops(s0.counter, node.id), f);
    KeepsRan(lp, s, Visit(lp.g, ops, s), f, lp.tail, 0, ops(s0.counter, node.id));
  }

  lemma VisitSkipped(lp: Loop, ops: Ops, s: State, f: int)
    requires lp.WellFormed() && Inside(lp, s, f) && Armed(lp, s, f) && s.counter < MAX_VISITS
    requires lp.fork < s.l < lp.tail && s.n < lp.g.LayerSize(s.l)
    requires Shut(lp, s.flow, s.l, s.n) && s.flow.Node(lp.Switch().id).branch != 1
    ensures var t := Visit(lp.g, ops, s); var id := lp.g.At(s.l, s.n).id;
            && Inside(lp, t, f) && Armed(lp, t, f) && t.l == s.l && t.n == s.n + 1 && Shut(lp, t.flow, s.l, t.n)
            && t.counter == s.counter + 1 && t.log == s.log + [Skipped(id)] && t.frames == s.frames
            && t.flow.Node(lp.Switch().id).branch != 1 && Keeps(lp, s, t, f)
  {
    hide Check, Dispatch, CloseFrame, Keeps, Loop.Has, Loop.Between;
    assert s.l < lp.tail - 1 ==> lp.PlainAt(s.l, s.n);
    Kinds(lp, s.l, s.n);
    Fails(lp, s.flow, s.l, s.n);
    KeepsSkipped(lp, s, Visit(lp.g, ops, s), f);
  }

  lemma KeepsSkipped(lp: Loop, s: State, t: State, f: int)
    requires lp.Stands() && lp.head <= s.l < lp.tail && s.n < lp.g.LayerSize(s.l)
    requires t.frameIds == s.frameIds && t.rewindLayers == s.rewindLayers
    requires t.flow == s.flow.MarkActive(lp.g.At(s.l, s.n).id, false)
    ensures Keeps(lp, s, t, f)
  {
    assert lp.IsAt(s.l, s.n, lp.g.At(s.l, s.n).id);
    assert lp.Has(lp.g.At(s.l, s.n).id);
    hide Loop.Has;
  }

  // ---------------------------------------------------------------- stretches of the walk

  /** One more visit, or the end of the budget. */
  lemma RunVisits(g: Layout, ops: Ops, s: State)
    requires s.status == Running && s.counter <= MAX_VISITS && s.l < |g.onion| && s.n < g.LayerSize(s.l)
    ensures var t := Visit(g, ops, s);
            if s.counter == MAX_VISITS then Run(g, ops, s).status == EarlyTermination
            else t.counter <= MAX_VISITS && (t.status == Running ==> Run(g, ops, s) == Run(g, ops, t))
  {
    hide Visit;
  }

  /** From `s` the run gets to `r`, if there are visits enough, and is cut short else. */
  ghost predicate Gets(lp: Loop, ops: Ops, s: State, r: State, f: int, visits: nat, log: seq<Event>)
    requires lp.Stands() && s.counter <= MAX_VISITS
  {
    if s.counter + visits <= MAX_VISITS then
      && r.counter == s.counter + visits && r.log == s.log + log && r.frames == s.frames && Keeps(lp, s, r, f)
      && Run(lp.g, ops, s) == Run(lp.g, ops, r)
    else Run(lp.g, ops, s).status == EarlyTermination
  }

  lemma LogsGrow(id: int, ids: seq<int>)
    ensures Executions([id] + ids) == [Executed(id)] + Executions(ids)
    ensures Skips([id] + ids) == [Skipped(id)] + Skips(ids)
  {
  }

  /** One visit in front of a stretch. */
  lemma GetsAfter(lp: Loop, ops: Ops, s: State, t: State, r: State, f: int, visits: nat, first: seq<Event>,
      log: seq<Event>)
    requires lp.Stands() && s.counter < MAX_VISITS && t.counter == s.counter + 1 && t.frames == s.frames
    requires t.log == s.log + first && Keeps(lp, s, t, f)
    requires Run(lp.g, ops, s) == Run(lp.g, ops, t) && Gets(lp, ops, t, r, f, visits, log)
    ensures Gets(lp, ops, s, r, f, 1 + visits, first + log)
  {
    hide Run, Loop.Has;
    assert s.log + first + log == s.log + (first + log);
  }

  /** Two stretches, one behind the other. */
  lemma GetsThrough(lp: Loop, ops: Ops, s: State, t: State, r: State, f: int, v: nat, w: nat, first: seq<Event>,
      log: seq<Event>)
    requires lp.Stands() && s.counter <= MAX_VISITS && Gets(lp, ops, s, t, f, v, first)
    requires s.counter + v <= MAX_VISITS ==> t.counter <= MAX_VISITS && Gets(lp, ops, t, r, f, w, log)
    ensures Gets(lp, ops, s, r, f, v + w, first + log)
  {
    hide Run, Loop.Has;
    assert s.log + first + log == s.log + (first + log);
  }

  lemma GetsArrives(lp: Loop, ops: Ops, s: State, r: State, f: int, visits: nat, log: seq<Event>)
    requires lp.Stands() && s.counter <= MAX_VISITS && Gets(lp, ops, s, r, f, visits, log)
    ensures s.counter + visits <= MAX_VISITS ==>
              r.counter == s.counter + visits && r.frames == s.frames && r.log == s.log + log && Keeps(lp, s, r, f)
    ensures s.counter + visits > MAX_VISITS ==> Run(lp.g, ops, s).status == EarlyTermination
  {
    hide Run;
  }

  /** The end of a layer costs no visit. */
  lemma LayerEnds(g: Layout, ops: Ops, s: State)
    requires s.status == Running && s.counter <= MAX_VISITS && s.l < |g.onion| && s.n >= g.LayerSize(s.l)
    ensures Run(g, ops, s) == Run(g, ops, s.(l := s.l + 1, n := 0))
  {
    hide Visit;
  }

  lemma Opening(lp: Loop)
    requires lp.Opens()
    ensures lp.Stands()
  {
  }

  lemma Standing(lp: Loop)
    requires lp.WellFormed()
    ensures lp.Opens() && lp.Stands() && lp.Alone(lp.tail) && lp.tail < |lp.g.onion|
  {
  }

  /** The nodes of a stretch are plain and may be read. */
  ghost predicate PlainStretch(lp: Loop, l: nat, end: nat)
    requires lp.Stands()
  {
    forall l1, n1 :: l <= l1 < end ==> lp.PlainAt(l1, n1) && lp.ReadsAt(l1, n1)
  }

  /** From inside the condition or the body to the beginning of layer `end`. */
  lemma {:induction false} RunsOn(lp: Loop, ops: Ops, s: State, f: int, end: nat, upto: nat) returns (r: State)
    requires lp.Opens() && Obliging(lp, ops) && Inside(lp, s, f)
    requires lp.head < s.l <= end < lp.tail && (s.l == end ==> s.n == 0) && (s.l > lp.fork || end <= lp.fork)
    requires PlainStretch(lp, s.l, end) && end <= upto && Ready(lp, s.flow, s.l, s.n, upto)
    requires s.l > lp.fork ==> s.flow.Node(lp.Switch().id).branch == 1
    ensures var ids := lp.Nodes(s.l, s.n, end); Gets(lp, ops, s, r, f, |ids|, Executions(ids))
    ensures s.counter + |lp.Nodes(s.l, s.n, end)| <= MAX_VISITS ==>
              && Inside(lp, r, f) && r.l == end && r.n == 0
              && r.flow.frames == s.flow.frames && r.rewindLayers == s.rewindLayers
              && r.flow.Node(lp.Switch().id).branch == s.flow.Node(lp.Switch().id).branch
              && Wakes(s.flow, r.flow) && Ready(lp, r.flow, end, 0, upto) && Lit(lp, r.flow, s.l, s.n, end, 0)
              && Marks(lp, s, r, s.l, s.n, end, 0)
    decreases end - s.l, lp.g.LayerSize(s.l) - s.n
  {
    hide Visit, Loop.WellFormed, Loop.Opens, Run, Gets, Executions, Obliging, Loop.HangsOn, Loop.MayRead, Ready, ReadyAt,
      Lit, Keeps, Marks;
    Opening(lp);
    r := s;
    if s.l == end {
      GetsNowhere(lp, ops, s, f);
      MarksNone(lp, s, s, s.l, 0, end, 0);
      LitNone(lp, s.flow, s.l, 0);
    } else if s.n >= lp.g.LayerSize(s.l) {
      var t := s.(l := s.l + 1, n := 0);
      LayerEnds(lp.g, ops, s);
      ReadyLayer(lp, s.flow, s.l, s.n, upto);
      r := RunsOn(lp, ops, t, f, end, upto);
      GetsAlike(lp, ops, s, t, r, f, |lp.Nodes(t.l, t.n, end)|, Executions(lp.Nodes(t.l, t.n, end)));
      LitNone(lp, r.flow, s.l, s.n);
      if s.counter + |lp.Nodes(s.l, s.n, end)| <= MAX_VISITS {
        LitJoins(lp, r.flow, s.l, s.n, t.l, 0, end, 0);
        MarksNone(lp, s, t, s.l, s.n, t.l, 0);
        MarksJoin(lp, s, t, r, s.l, s.n, t.l, 0, end, 0);
      }
    } else {
      RunVisits(lp.g, ops, s);
      var ids := lp.Nodes(s.l, s.n + 1, end);
      if s.counter < MAX_VISITS {
        assert lp.PlainAt(s.l, s.n);
        ReadyHere(lp, s.flow, s.l, s.n, upto);
        VisitPlain(lp, ops, s, f);
        var t := Visit(lp.g, ops, s);
        ReadyNext(lp, s.flow, t.flow, s.l, s.n, upto);
        r := RunsOn(lp, ops, t, f, end, upto);
        LogsGrow(lp.g.At(s.l, s.n).id, ids);
        GetsAfter(lp, ops, s, t, r, f, |ids|, [Executed(lp.g.At(s.l, s.n).id)], Executions(ids));
        if t.counter + |ids| <= MAX_VISITS {
          LitOne(lp, r.flow, s.l, s.n);
          LitJoins(lp, r.flow, s.l, s.n, s.l, s.n + 1, end, 0);
          MarksJoin(lp, s, t, r, s.l, s.n, s.l, s.n + 1, end, 0);
        }
      } else {
        GetsCut(lp, ops, s, r, f, 1 + |ids|, Executions([lp.g.At(s.l, s.n).id] + ids));
      }
    }
  }

  lemma GetsNowhere(lp: Loop, ops: Ops, s: State, f: int)
    requires lp.Stands() && s.counter <= MAX_VISITS
    ensures Gets(lp, ops, s, s, f, 0, Executions([])) && Gets(lp, ops, s, s, f, 0, Skips([]))
  {
    hide Run;
  }

  lemma GetsAlike(lp: Loop, ops: Ops, s: State, t: State, r: State, f: int, visits: nat, log: seq<Event>)
    requires lp.Stands() && s.counter <= MAX_VISITS && t.counter == s.counter && t.frames == s.frames
             && t.log == s.log
    requires t.flow == s.flow && t.frameIds == s.frameIds && t.rewindLayers == s.rewindLayers
    requires Run(lp.g, ops, s) == Run(lp.g, ops, t) && Gets(lp, ops, t, r, f, visits, log)
    ensures Gets(lp, ops, s, r, f, visits, log)
  {
    hide Run;
  }

  lemma GetsCut(lp: Loop, ops: Ops, s: State, r: State, f: int, visits: nat, log: seq<Event>)
    requires lp.Stands() && s.counter <= MAX_VISITS < s.counter + visits
             && Run(lp.g, ops, s).status == EarlyTermination
    ensures Gets(lp, ops, s, r, f, visits, log)
  {
    hide Run;
  }

  /** From behind a Switch that took another branch to the beginning of layer `end`. */
  lemma {:induction false} SkipsOn(lp: Loop, ops: Ops, s: State, f: int) returns (r: State)
    requires lp.WellFormed() && Inside(lp, s, f) && Armed(lp, s, f)
    requires lp.fork < s.l <= lp.tail && (s.l == lp.tail ==> s.n == 0)
    requires Shut(lp, s.flow, s.l, s.n) && s.flow.Node(lp.Switch().id).branch != 1
    ensures var ids := lp.Nodes(s.l, s.n, lp.tail); Gets(lp, ops, s, r, f, |ids|, Skips(ids))
    ensures s.counter + |lp.Nodes(s.l, s.n, lp.tail)| <= MAX_VISITS ==>
              Inside(lp, r, f) && Armed(lp, r, f) && r.l == lp.tail && r.n == 0
    decreases lp.tail - s.l, lp.g.LayerSize(s.l) - s.n
  {
    hide Visit, Loop.WellFormed, Run, Gets, Skips, Loop.HangsOn, Loop.MayRead, Keeps;
    Standing(lp);
    r := s;
    if s.l == lp.tail {
      GetsNowhere(lp, ops, s, f);
    } else if s.n >= lp.g.LayerSize(s.l) {
      var t := s.(l := s.l + 1, n := 0);
      LayerEnds(lp.g, ops, s);
      r := SkipsOn(lp, ops, t, f);
      GetsAlike(lp, ops, s, t, r, f, |lp.Nodes(t.l, t.n, lp.tail)|, Skips(lp.Nodes(t.l, t.n, lp.tail)));
    } else {
      RunVisits(lp.g, ops, s);
      var ids := lp.Nodes(s.l, s.n + 1, lp.tail);
      if s.counter < MAX_VISITS {
        VisitSkipped(lp, ops, s, f);
        var t := Visit(lp.g, ops, s);
        r := SkipsOn(lp, ops, t, f);
        LogsGrow(lp.g.At(s.l, s.n).id, ids);
        GetsAfter(lp, ops, s, t, r, f, |ids|, [Skipped(lp.g.At(s.l, s.n).id)], Skips(ids));
      } else {
        GetsCut(lp, ops, s, r, f, 1 + |ids|, Skips([lp.g.At(s.l, s.n).id] + ids));
      }
    }
  }

  // ---------------------------------------------------------------- one pass

  lemma {:induction false} NodesThrough(lp: Loop, l: nat, n: nat, mid: nat, end: nat)
    requires l <= mid <= end && (l == mid ==> n == 0)
    ensures lp.Nodes(l, n, end) == lp.Nodes(l, n, mid) + lp.Nodes(mid, 0, end)
    decreases mid - l, lp.g.LayerSize(l) - n
  {
    hide Loop.Nodes;
    NodesUnfold(lp, l, n, mid);
    NodesUnfold(lp, l, n, end);
    if l < mid {
      if n >= lp.g.LayerSize(l) {
        NodesThrough(lp, l + 1, 0, mid, end);
      } else {
        NodesThrough(lp, l, n + 1, mid, end);
      }
    }
  }

  lemma NodesUnfold(lp: Loop, l: nat, n: nat, end: nat)
    ensures lp.Nodes(l, n, end) ==
            if l >= end then []
            else if n >= lp.g.LayerSize(l) then lp.Nodes(l + 1, 0, end)
            else [lp.g.At(l, n).id] + lp.Nodes(l, n + 1, end)
  {
  }

  lemma NodesAlone(lp: Loop, l: nat)
    requires lp.Alone(l)
    ensures lp.Nodes(l, 0, l + 1) == [lp.g.At(l, 0).id]
  {
    assert lp.Nodes(l + 1, 0, l + 1) == [];
    assert lp.Nodes(l, 1, l + 1) == [];
  }

  lemma ExecutionsConcat(a: seq<int>, b: seq<int>)
    ensures Executions(a + b) == Executions(a) + Executions(b)
  {
  }

  /** Over a layer of one node. */
  lemma GetsOver(lp: Loop, ops: Ops, s: State, f: int, first: seq<Event>) returns (r: State)
    requires lp.Stands()
    requires s.status == Running && s.counter <= MAX_VISITS && 0 <= s.l < |lp.g.onion| && s.n == 0 && lp.Alone(s.l)
    requires s.counter < MAX_VISITS ==>
               var t := Visit(lp.g, ops, s);
               && t.status == Running && t.l == s.l && t.n == 1 && t.frames == s.frames && t.log == s.log + first
               && Keeps(lp, s, t, f)
    ensures r == Visit(lp.g, ops, s).(l := s.l + 1, n := 0)
    ensures Gets(lp, ops, s, r, f, 1, first)
  {
    hide Visit, Run, Loop.Has;
    r := Visit(lp.g, ops, s).(l := s.l + 1, n := 0);
    RunVisits(lp.g, ops, s);
    if s.counter < MAX_VISITS {
      LayerEnds(lp.g, ops, Visit(lp.g, ops, s));
    }
  }

  lemma AwakeWakes(lp: Loop, before: Flow, after: Flow)
    requires lp.Stands() && Awake(lp, before) && Wakes(before, after)
    ensures Awake(lp, after)
  {
    hide Loop.Has;
    forall l, n | lp.head < l < lp.tail ensures AwakeAt(lp, after, l, n) {
      assert AwakeAt(lp, before, l, n);
    }
  }

  lemma WakesThrough(a: Flow, b: Flow, c: Flow)
    requires Wakes(a, b) && Wakes(b, c)
    ensures Wakes(a, c)
  {
  }

  /** What the condition may rely on. */
  lemma ConditionReady(lp: Loop, flow: Flow)
    requires lp.Opens() && Awake(lp, flow) && flow.Node(lp.Merge().id).active
    ensures Lit(lp, flow, lp.head, 0, lp.head + 1, 0)
    ensures PlainStretch(lp, lp.head + 1, lp.fork) && Ready(lp, flow, lp.head + 1, 0, lp.fork + 1)
    ensures lp.ReadsAt(lp.fork, 0)
  {
    hide Loop.Has, Loop.Between, AwakeAt;
    LitOne(lp, flow, lp.head, 0);
    LitNone(lp, flow, lp.head, 1);
    LitJoins(lp, flow, lp.head, 0, lp.head, 1, lp.head + 1, 0);
    ReadyFrom(lp, flow, lp.head + 1, 0, lp.fork + 1);
  }

  /** From the head to behind the Switch: the branch is the one its op names. */
  lemma Decides(lp: Loop, ops: Ops, s: State, f: int) returns (r: State)
    requires lp.Opens() && Obliging(lp, ops) && AtHead(lp, s, f)
    ensures var ids := lp.Nodes(lp.head, 0, lp.fork + 1); Gets(lp, ops, s, r, f, |ids|, Executions(ids))
    ensures lp.Asked(s.counter) <= MAX_VISITS ==>
              && Inside(lp, r, f) && Armed(lp, r, f) && r.l == lp.fork + 1 && r.n == 0
              && Wakes(s.flow, r.flow) && Lit(lp, r.flow, lp.head, 0, lp.fork + 1, 0)
              && Marks(lp, s, r, lp.head, 0, lp.fork + 1, 0)
              && r.flow.Node(lp.Switch().id).branch == ops(lp.Asked(s.counter), lp.Switch().id).branch.value
  {
    hide Visit, Run, Gets, Awake, Loop.WellFormed, Loop.Opens, Executions, Loop.Nodes, Keeps, Ready, ReadyAt, Lit,
      PlainStretch, Loop.MayRead, Marks;
    Opening(lp);
    NodesAlone(lp, lp.head);
    NodesAlone(lp, lp.fork);
    NodesThrough(lp, lp.head, 0, lp.head + 1, lp.fork + 1);
    NodesThrough(lp, lp.head + 1, 0, lp.fork, lp.fork + 1);
    var ids := lp.Nodes(lp.head + 1, 0, lp.fork);
    ExecutionsConcat([lp.Merge().id], ids + [lp.Switch().id]);
    ExecutionsConcat(ids, [lp.Switch().id]);
    ExecutionsOne(lp.Merge().id);
    ExecutionsOne(lp.Switch().id);
    var first, last := [Executed(lp.Merge().id)], [Executed(lp.Switch().id)];
    if s.counter < MAX_VISITS {
      VisitMerge(lp, ops, s, f);
    }
    var r1 := GetsOver(lp, ops, s, f, first);
    var r2 := r1;
    r := r1;
    if s.counter < MAX_VISITS {
      AwakeWakes(lp, s.flow, r1.flow);
      ConditionReady(lp, r1.flow);
      r2 := RunsOn(lp, ops, r1, f, lp.fork, lp.fork + 1);
      GetsArrives(lp, ops, r1, r2, f, |ids|, Executions(ids));
      if r1.counter + |ids| < MAX_VISITS {
        ReadyHere(lp, r2.flow, lp.fork, 0, lp.fork + 1);
        VisitPlain(lp, ops, r2, f);
      }
      if r1.counter + |ids| <= MAX_VISITS {
        r := GetsOver(lp, ops, r2, f, last);
        if r2.counter < MAX_VISITS {
          LitDecided(lp, r1.flow, r2.flow, r.flow);
          MarksMoved(lp, s, Visit(lp.g, ops, s), r1, lp.head, 0, lp.head, 1);
          MarksMoved(lp, r2, Visit(lp.g, ops, r2), r, lp.fork, 0, lp.fork, 1);
          MarksDecided(lp, s, r1, r2, r);
        }
      }
      GetsThrough(lp, ops, r1, r2, r, f, |ids|, 1, Executions(ids), last);
    }
    GetsThrough(lp, ops, s, r1, r, f, 1, |ids| + 1, first, Executions(ids) + last);
  }

  lemma MarksDecided(lp: Loop, s: State, r1: State, r2: State, r: State)
    requires lp.Stands() && Marks(lp, s, r1, lp.head, 0, lp.head, 1) && Marks(lp, r1, r2, lp.head + 1, 0, lp.fork, 0)
    requires Marks(lp, r2, r, lp.fork, 0, lp.fork, 1)
    ensures Marks(lp, s, r, lp.head, 0, lp.fork + 1, 0)
  {
    hide Marks;
    MarksNone(lp, r1, r1, lp.head, 1, lp.head + 1, 0);
    MarksJoin(lp, s, r1, r1, lp.head, 0, lp.head, 1, lp.head + 1, 0);
    MarksJoin(lp, s, r1, r2, lp.head, 0, lp.head + 1, 0, lp.fork, 0);
    MarksNone(lp, r, r, lp.fork, 1, lp.fork + 1, 0);
    MarksJoin(lp, r2, r, r, lp.fork, 0, lp.fork, 1, lp.fork + 1, 0);
    MarksJoin(lp, s, r2, r, lp.head, 0, lp.fork, 0, lp.fork + 1, 0);
  }

  /** The Merge, the condition and the Switch have run. */
  lemma LitDecided(lp: Loop, a: Flow, b: Flow, c: Flow)
    requires lp.Stands() && Wakes(a, b) && Wakes(b, c) && Lit(lp, a, lp.head, 0, lp.head + 1, 0)
    requires Lit(lp, b, lp.head + 1, 0, lp.fork, 0) && c.Node(lp.Switch().id).active
    ensures Wakes(a, c) && Lit(lp, c, lp.head, 0, lp.fork + 1, 0)
  {
    hide Lit;
    LitKept(lp, a, c, lp.head, 0, lp.head + 1, 0);
    LitKept(lp, b, c, lp.head + 1, 0, lp.fork, 0);
    LitOne(lp, c, lp.fork, 0);
    LitNone(lp, c, lp.fork, 1);
    LitJoins(lp, c, lp.fork, 0, lp.fork, 1, lp.fork + 1, 0);
    LitJoins(lp, c, lp.head + 1, 0, lp.fork, 0, lp.fork + 1, 0);
    LitJoins(lp, c, lp.head, 0, lp.head + 1, 0, lp.fork + 1, 0);
  }

  lemma ExecutionsOne(id: int)
    ensures Executions([id]) == [Executed(id)]
  {
  }

  /** One visit that the run survives. */
  lemma GetsOne(lp: Loop, ops: Ops, s: State, f: int, first: seq<Event>)
    requires lp.Stands()
    requires s.status == Running && s.counter <= MAX_VISITS && s.l < |lp.g.onion| && s.n < lp.g.LayerSize(s.l)
    requires s.counter < MAX_VISITS ==>
               var t := Visit(lp.g, ops, s);
               t.status == Running && t.frames == s.frames && t.log == s.log + first && Keeps(lp, s, t, f)
    ensures Gets(lp, ops, s, Visit(lp.g, ops, s), f, 1, first)
  {
    hide Visit, Run;
    RunVisits(lp.g, ops, s);
  }

  /** The NextIteration and the Exit may close the loop. */
  ghost predicate Closes(lp: Loop)
    requires lp.Stands()
  {
    && lp.tail < |lp.g.onion| && lp.Alone(lp.tail) && lp.Exit().Is(EXIT)
    && |lp.Next().inputs| > 0 && lp.ReadsAt(lp.tail - 1, 0)
  }

  /** From the NextIteration back to the head. */
  lemma Returns(lp: Loop, ops: Ops, s: State, f: int) returns (r: State)
    requires lp.Opens() && Closes(lp) && Obliging(lp, ops) && Inside(lp, s, f) && Awake(lp, s.flow) && Armed(lp, s, f)
    requires ReadyAt(lp, s.flow, lp.tail - 1, 0, lp.tail - 1, 0)
    requires s.l == lp.tail - 1 && s.n == 0 && s.flow.Node(lp.Switch().id).branch == 1
    ensures Gets(lp, ops, s, r, f, 2, [Executed(lp.Next().id), Planned(f, lp.head), Rewound(f, lp.head)])
    ensures s.counter + 2 <= MAX_VISITS ==>
              AtHead(lp, r, f) && Wakes(s.flow, r.flow) && Marks(lp, s, r, lp.tail - 1, 0, lp.tail, 1)
  {
    hide Visit, Run, Gets, Awake, Loop.Opens, Keeps, ReadyAt, Loop.ReadsAt, Marks;
    Opening(lp);
    if s.counter < MAX_VISITS {
      VisitNext(lp, ops, s, f);
    }
    var first, last := [Executed(lp.Next().id), Planned(f, lp.head)], [Rewound(f, lp.head)];
    r := GetsOver(lp, ops, s, f, first);
    var r1 := r;
    if s.counter < MAX_VISITS {
      if r1.counter < MAX_VISITS {
        VisitExitBack(lp, ops, r1, f);
      }
      r := Visit(lp.g, ops, r1);
      GetsOne(lp, ops, r1, f, last);
      if r1.counter < MAX_VISITS {
        WakesThrough(s.flow, r1.flow, r.flow);
        AwakeWakes(lp, s.flow, r.flow);
        MarksMoved(lp, s, Visit(lp.g, ops, s), r1, lp.tail - 1, 0, lp.tail - 1, 1);
        MarksNone(lp, r1, r1, lp.tail - 1, 1, lp.tail, 0);
        MarksJoin(lp, s, r1, r1, lp.tail - 1, 0, lp.tail - 1, 1, lp.tail, 0);
        MarksJoin(lp, s, r1, r, lp.tail - 1, 0, lp.tail, 0, lp.tail, 1);
      }
    }
    GetsThrough(lp, ops, s, r1, r, f, 1, 1, first, last);
    assert first + last == [Executed(lp.Next().id), Planned(f, lp.head), Rewound(f, lp.head)];
  }

  lemma IterationSplits(lp: Loop, f: int)
    requires lp.Stands() && lp.Alone(lp.tail)
    ensures var a, b := lp.Nodes(lp.head, 0, lp.fork + 1), lp.Nodes(lp.fork + 1, 0, lp.tail - 1);
            && lp.Pass() == |a| + (|b| + 2)
            && IterationLog(lp, f)
               == Executions(a) + (Executions(b) + [Executed(lp.Next().id), Planned(f, lp.head), Rewound(f, lp.head)])
  {
    hide Executions, Loop.Nodes;
    var a, b := lp.Nodes(lp.head, 0, lp.fork + 1), lp.Nodes(lp.fork + 1, 0, lp.tail - 1);
    NodesThrough(lp, lp.head, 0, lp.tail, lp.tail + 1);
    NodesThrough(lp, lp.head, 0, lp.fork + 1, lp.tail);
    NodesThrough(lp, lp.fork + 1, 0, lp.tail - 1, lp.tail);
    NodesAlone(lp, lp.tail - 1);
    NodesAlone(lp, lp.tail);
    ExecutionsConcat(a, b + [lp.Next().id]);
    ExecutionsConcat(b, [lp.Next().id]);
    ExecutionsOne(lp.Next().id);
  }

  /** What the body may rely on. */
  lemma BodyReady(lp: Loop, flow: Flow)
    requires lp.WellFormed() && Awake(lp, flow) && Lit(lp, flow, lp.head, 0, lp.fork + 1, 0)
    ensures Closes(lp) && PlainStretch(lp, lp.fork + 1, lp.tail - 1) && Ready(lp, flow, lp.fork + 1, 0, lp.tail)
  {
    hide Loop.Has, Loop.Between, AwakeAt, Loop.Opens, Loop.HangsOn, Lit;
    Standing(lp);
    assert lp.HangsAt(lp.tail - 1, 0);
    ReadyFrom(lp, flow, lp.fork + 1, 0, lp.tail);
  }

  /** A pass whose condition holds runs every node of the loop but the Exit, once, and is back
      at the head. */
  lemma Iterates(lp: Loop, ops: Ops, s: State, f: int) returns (r: State)
    requires lp.WellFormed() && Obliging(lp, ops) && AtHead(lp, s, f) && Holds(lp, ops, s.counter)
    ensures Gets(lp, ops, s, r, f, lp.Pass(), IterationLog(lp, f))
    ensures s.counter + lp.Pass() <= MAX_VISITS ==> AtHead(lp, r, f)
  {
    hide Run, Gets, Awake, Loop.WellFormed, Loop.Opens, Executions, Loop.Nodes, IterationLog, Obliging, Loop.Pass, Keeps;
    hide Ready, ReadyAt, Lit, PlainStretch, Closes, Wakes;
    Standing(lp);
    IterationSplits(lp, f);
    var a, b := lp.Nodes(lp.head, 0, lp.fork + 1), lp.Nodes(lp.fork + 1, 0, lp.tail - 1);
    var back := [Executed(lp.Next().id), Planned(f, lp.head), Rewound(f, lp.head)];
    var r1 := Decides(lp, ops, s, f);
    GetsArrives(lp, ops, s, r1, f, |a|, Executions(a));
    r := r1;
    if s.counter + |a| <= MAX_VISITS {
      AwakeWakes(lp, s.flow, r1.flow);
      BodyReady(lp, r1.flow);
      var r2 := RunsOn(lp, ops, r1, f, lp.tail - 1, lp.tail);
      GetsArrives(lp, ops, r1, r2, f, |b|, Executions(b));
      r := r2;
      if r1.counter + |b| <= MAX_VISITS {
        AwakeWakes(lp, r1.flow, r2.flow);
        ReadyHere(lp, r2.flow, lp.tail - 1, 0, lp.tail);
        r := Returns(lp, ops, r2, f);
      }
      GetsThrough(lp, ops, r1, r2, r, f, |b|, 2, Executions(b), back);
    }
    GetsThrough(lp, ops, s, r1, r, f, |a|, |b| + 2, Executions(a), Executions(b) + back);
  }

  /** Behind the Exit, with the loop's frame about to be dropped. */
  ghost predicate Left(lp: Loop, s: State, f: int)
    requires lp.Stands()
  {
    && s.status == Running && s.leftFrame && |s.frames| > 0 && s.frames[|s.frames| - 1] == f
    && s.l == lp.tail && s.n == 1
    && (Lookup(s.frameIds, lp.Merge().id) < 0 || Lookup(s.frameIds, lp.Merge().id) == f)
  }

  /** A pass whose condition fails skips the body and leaves the loop. */
  lemma Leaves(lp: Loop, ops: Ops, s: State, f: int) returns (r: State)
    requires lp.WellFormed() && Obliging(lp, ops) && AtHead(lp, s, f) && !Holds(lp, ops, s.counter)
    ensures Gets(lp, ops, s, r, f, lp.Pass(), LeavingLog(lp))
    ensures s.counter + lp.Pass() <= MAX_VISITS ==> Left(lp, r, f) && r.flow.Node(lp.Exit().id).active
  {
    hide Run, Gets, Awake, Loop.WellFormed, Loop.Opens, Executions, Skips, Loop.Nodes, Visit, Obliging, Keeps, Lit, Wakes;
    Standing(lp);
    var a, b := lp.Nodes(lp.head, 0, lp.fork + 1), lp.Nodes(lp.fork + 1, 0, lp.tail);
    NodesThrough(lp, lp.head, 0, lp.tail, lp.tail + 1);
    NodesThrough(lp, lp.head, 0, lp.fork + 1, lp.tail);
    NodesAlone(lp, lp.tail);
    var out := [Executed(lp.Exit().id)];
    var r1 := Decides(lp, ops, s, f);
    GetsArrives(lp, ops, s, r1, f, |a|, Executions(a));
    r := r1;
    if s.counter + |a| <= MAX_VISITS {
      NamesBranch(lp, ops, lp.Asked(s.counter));
      var r2 := SkipsOn(lp, ops, r1, f);
      GetsArrives(lp, ops, r1, r2, f, |b|, Skips(b));
      r := r2;
      if r1.counter + |b| <= MAX_VISITS {
        ExitIs(lp);
        if r2.counter < MAX_VISITS {
          VisitExitOut(lp, ops, r2, f);
        }
        r := Visit(lp.g, ops, r2);
        GetsOne(lp, ops, r2, f, out);
      }
      GetsThrough(lp, ops, r1, r2, r, f, |b|, 1, Skips(b), out);
    }
    GetsThrough(lp, ops, s, r1, r, f, |a|, |b| + 1, Executions(a), Skips(b) + out);
    assert Executions(a) + (Skips(b) + out) == LeavingLog(lp);
  }

  lemma ExitIs(lp: Loop)
    requires lp.WellFormed()
    ensures lp.Alone(lp.tail) && lp.Exit().Is(EXIT)
  {
  }

  lemma NamesBranch(lp: Loop, ops: Ops, visit: nat)
    requires lp.Stands() && Obliging(lp, ops)
    ensures ops(visit, lp.Switch().id).branch.Some?
  {
  }

  // ---------------------------------------------------------------- the whole loop

  /** The conditions of the first `n` passes hold, the first pass starting after `c` visits. */
  ghost predicate HoldFor(lp: Loop, ops: Ops, c: nat, n: nat)
    requires lp.Stands()
  {
    forall t: nat :: t < n ==> Holds(lp, ops, c + t * lp.Pass())
  }

  lemma HoldForNext(lp: Loop, ops: Ops, c: nat, n: nat)
    requires lp.Stands() && n > 0 && HoldFor(lp, ops, c, n)
    ensures Holds(lp, ops, c) && HoldFor(lp, ops, c + lp.Pass(), n - 1)
  {
    hide Holds;
    var p := lp.Pass();
    assert Holds(lp, ops, c + 0 * p);
    forall t: nat | t < n - 1 ensures Holds(lp, ops, c + p + t * p) {
      assert Holds(lp, ops, c + (t + 1) * p);
      assert c + (t + 1) * p == c + p + t * p;
    }
  }

  /** A loop whose condition holds in the first `n` passes and then fails: the body runs `n`
      times, every time completely, and the run leaves the loop. So it is unless the visits run
      out before, and then the run is cut short, however the conditions beyond may be. */
  lemma {:induction false} LoopRuns(lp: Loop, ops: Ops, s: State, f: int, n: nat) returns (r: State)
    requires lp.WellFormed() && Obliging(lp, ops) && AtHead(lp, s, f) && HoldFor(lp, ops, s.counter, n)
    requires s.counter + (n + 1) * lp.Pass() <= MAX_VISITS ==> !Holds(lp, ops, s.counter + n * lp.Pass())
    ensures Gets(lp, ops, s, r, f, (n + 1) * lp.Pass(), IterationLogs(lp, f, n) + LeavingLog(lp))
    ensures s.counter + (n + 1) * lp.Pass() <= MAX_VISITS ==> Left(lp, r, f) && r.flow.Node(lp.Exit().id).active
    decreases n
  {
    hide Gets, Run, Loop.WellFormed, Loop.Opens, Loop.Pass, IterationLog, LeavingLog, Holds, HoldFor, Obliging, Keeps, AtHead;
    Standing(lp);
    HeadCounts(lp, s, f);
    var p, c := lp.Pass(), s.counter;
    if n == 0 {
      if Holds(lp, ops, c) {
        r := Iterates(lp, ops, s, f);
        GetsCutToo(lp, ops, s, r, f, p, IterationLog(lp, f), (n + 1) * p, IterationLogs(lp, f, n) + LeavingLog(lp));
      } else {
        r := Leaves(lp, ops, s, f);
        assert IterationLogs(lp, f, n) + LeavingLog(lp) == LeavingLog(lp);
      }
    } else {
      HoldForNext(lp, ops, c, n);
      assert (n + 1) * p == p + n * p;
      var r1 := Iterates(lp, ops, s, f);
      GetsArrives(lp, ops, s, r1, f, p, IterationLog(lp, f));
      r := r1;
      var rest := IterationLogs(lp, f, n - 1) + LeavingLog(lp);
      if c + p <= MAX_VISITS {
        assert r1.counter + (n - 1) * p == c + n * p;
        r := LoopRuns(lp, ops, r1, f, n - 1);
      }
      GetsThrough(lp, ops, s, r1, r, f, p, n * p, IterationLog(lp, f), rest);
      assert IterationLog(lp, f) + rest == IterationLogs(lp, f, n) + LeavingLog(lp);
    }
  }

  lemma HeadCounts(lp: Loop, s: State, f: int)
    requires lp.Stands() && AtHead(lp, s, f)
    ensures s.counter <= MAX_VISITS
  {
  }

  lemma GetsCutToo(lp: Loop, ops: Ops, s: State, r: State, f: int, v: nat, a: seq<Event>, w: nat, b: seq<Event>)
    requires lp.Stands() && s.counter <= MAX_VISITS && Gets(lp, ops, s, r, f, v, a)
    requires s.counter + v > MAX_VISITS && s.counter + w > MAX_VISITS
    ensures Gets(lp, ops, s, r, f, w, b)
  {
    hide Run;
  }

  /** How often a log says that a node ran. */
  function Times(log: seq<Event>, id: int): nat { multiset(log)[Executed(id)] }

  lemma {:induction false} ExecutionsTimes(ids: seq<int>, id: int)
    ensures Times(Executions(ids), id) == multiset(ids)[id]
  {
    if ids != [] {
      ExecutionsTimes(ids[1..], id);
      LogsGrow(ids[0], ids[1..]);
      assert ids == [ids[0]] + ids[1..];
    }
  }

  lemma SkipsTimes(ids: seq<int>, id: int)
    ensures Times(Skips(ids), id) == 0
  {
  }

  lemma {:induction false} IterationsTimes(lp: Loop, f: int, n: nat, id: int)
    ensures Times(IterationLogs(lp, f, n), id) == n * multiset(lp.Nodes(lp.head, 0, lp.tail))[id]
  {
    hide Executions, Times, Loop.Nodes, IterationLog;
    var m := multiset(lp.Nodes(lp.head, 0, lp.tail))[id];
    if n == 0 {
      TimesNone(id);
    } else {
      IterationsTimes(lp, f, n - 1, id);
      IterationTimes(lp, f, id);
      TimesConcat(IterationLog(lp, f), IterationLogs(lp, f, n - 1), id);
      assert n * m == m + (n - 1) * m;
    }
  }

  lemma TimesNone(id: int)
    ensures Times([], id) == 0
  {
  }

  lemma TimesOne(ran: int, id: int)
    ensures Times([Executed(ran)], id) == if ran == id then 1 else 0
  {
  }

  lemma TimesConcat(a: seq<Event>, b: seq<Event>, id: int)
    ensures Times(a + b, id) == Times(a, id) + Times(b, id)
  {
  }

  lemma IterationTimes(lp: Loop, f: int, id: int)
    ensures Times(IterationLog(lp, f), id) == multiset(lp.Nodes(lp.head, 0, lp.tail))[id]
  {
    hide Executions, Loop.Nodes;
    var ids, back := lp.Nodes(lp.head, 0, lp.tail), [Planned(f, lp.head), Rewound(f, lp.head)];
    ExecutionsTimes(ids, id);
    TimesConcat(Executions(ids), back, id);
    assert Times(back, id) == 0;
  }

  /** In the log of `LoopRuns` a node of the loop that stands in one place ran once for every
      true condition if it stands behind the Switch, and once more if it does not. */
  lemma TimesRun(lp: Loop, f: int, n: nat, id: int)
    requires lp.Stands() && lp.Alone(lp.tail) && multiset(lp.Nodes(lp.head, 0, lp.tail + 1))[id] == 1
             && id != lp.Exit().id
    ensures Times(IterationLogs(lp, f, n) + LeavingLog(lp), id)
            == if id in lp.Nodes(lp.fork + 1, 0, lp.tail) then n else n + 1
  {
    hide Executions, Skips, Loop.Nodes, IterationLogs, Times;
    var a, b := lp.Nodes(lp.head, 0, lp.fork + 1), lp.Nodes(lp.fork + 1, 0, lp.tail);
    NodesThrough(lp, lp.head, 0, lp.tail, lp.tail + 1);
    NodesThrough(lp, lp.head, 0, lp.fork + 1, lp.tail);
    NodesAlone(lp, lp.tail);
    IterationsTimes(lp, f, n, id);
    ExecutionsTimes(a, id);
    SkipsTimes(b, id);
    var out := [Executed(lp.Exit().id)];
    assert multiset(a + b)[id] == 1;
    TimesOne(lp.Exit().id, id);
    TimesConcat(Executions(a) + Skips(b), out, id);
    TimesConcat(Executions(a), Skips(b), id);
    TimesConcat(IterationLogs(lp, f, n), LeavingLog(lp), id);
  }

  // ---------------------------------------------------------------- a graph that is a loop

  /** Layer 0 holds an Enter that waits for nothing and belongs to the frame `f`; the loop
      begins behind it. */
  ghost predicate Begins(lp: Loop, frameIds: map<int, int>, f: int) {
    && lp.Opens() && lp.head == 1 && lp.Alone(0) && lp.g.At(0, 0).Is(ENTER)
    && (forall e :: 0 <= e < |lp.g.At(0, 0).inputs| ==> lp.g.IsExternal(lp.g.At(0, 0).inputs[e].0))
    && f >= 0 && Lookup(frameIds, lp.g.At(0, 0).id) == f
    && (Lookup(frameIds, lp.Merge().id) < 0 || Lookup(frameIds, lp.Merge().id) == f)
  }

  /** An Enter opens its frame unless that is the innermost one already. */
  lemma RunsEnter(g: Layout, s: State, node: Node, o: Outcome, f: int)
    requires node.Is(ENTER) && o.status == 0 && Lookup(s.frameIds, node.id) == f >= 0
    requires |s.frames| == 0 || s.frames[|s.frames| - 1] != f
    ensures var t := Dispatch(g, s, node, o);
            && Ran(s, t.(frames := s.frames), node, o) && t.l == s.l && t.n == s.n + 1 && t.leftFrame == s.leftFrame
            && t.frames == s.frames + [f] && t.log == s.log + [Opened(f), Executed(node.id)]
            && t.flow.frames == s.flow.frames && t.rewindLayers == s.rewindLayers && t.frameIds == s.frameIds
  {
    hide Process, Complete, RunOther, RunExit, RunNextIteration, Dispatch, Marked;
    Dispatches(g, s, node, o);
    MarkedMarks(s, node);
    var m := Marked(s, node);
    assert m.frameIds == s.frameIds by { MarkedIds(s, node); }
    var m1 := m.(frames := m.frames + [f]).Log(Opened(f));
    ProcessMarks(m1, node, o);
    CompleteMarks(Process(m1, node, o), node);
    assert s.log + [Opened(f)] + [Executed(node.id)] == s.log + [Opened(f), Executed(node.id)];
  }

  lemma MarkedIds(s: State, node: Node)
    requires |s.frames| == 0 || Lookup(s.frameIds, node.id) >= 0
    ensures Marked(s, node).frameIds == s.frameIds
  {
  }

  lemma Enters(lp: Loop, ops: Ops, frameIds: map<int, int>, f: int)
    requires Begins(lp, frameIds, f) && Obliging(lp, ops)
    ensures var s := Start(Flow(map[], map[]), frameIds, map[]); var t := Visit(lp.g, ops, s);
            && t.status == Running && t.l == 0 && t.n == 1 && t.counter == 1 && t.frames == [f]
               && t.log == [Opened(f), Executed(lp.g.At(0, 0).id)]
            && AtHead(lp, t.(l := 1, n := 0), f) && (forall id :: t.flow.Node(id).active)
  {
    hide Dispatch, Visit, Loop.Opens, CheckInputs, Loop.Has;
    Opening(lp);
    var s := Start(Flow(map[], map[]), frameIds, map[]);
    var node := lp.g.At(0, 0);
    ChecksPass(lp.g, s.flow, node.inputs, 0);
    Visits(lp.g, ops, s);
    RunsEnter(lp.g, s.(counter := 1), node, ops(1, node.id), f);
    assert [] + [f] == [f];
  }

  /** From a new flow path: if the condition holds `n` times and then fails, the run ends at
      the end of the graph, its body having run `n` times, exactly if the Enter and `n + 1`
      passes take no more than 10000 visits; else it is cut short. */
  lemma WholeRun(lp: Loop, ops: Ops, frameIds: map<int, int>, f: int, n: nat)
    requires lp.WellFormed() && Begins(lp, frameIds, f) && |lp.g.onion| == lp.tail + 1 && Obliging(lp, ops)
    requires HoldFor(lp, ops, 1, n) && !Holds(lp, ops, 1 + n * lp.Pass())
    ensures var t := Run(lp.g, ops, Start(Flow(map[], map[]), frameIds, map[]));
            if 1 + (n + 1) * lp.Pass() <= MAX_VISITS then
              t.status == Finished
              && t.log == [Opened(f), Executed(lp.g.At(0, 0).id)] + (IterationLogs(lp, f, n) + LeavingLog(lp))
            else t.status == EarlyTermination
  {
    hide Gets, Run, Loop.WellFormed, Loop.Opens, Loop.Pass, IterationLogs, LeavingLog, Holds, HoldFor;
    hide Obliging, Visit, AtHead;
    Standing(lp);
    var s := Start(Flow(map[], map[]), frameIds, map[]);
    Enters(lp, ops, frameIds, f);
    RunVisits(lp.g, ops, s);
    var t := Visit(lp.g, ops, s);
    LayerEnds(lp.g, ops, t);
    var u := t.(l := 1, n := 0);
    var r := LoopRuns(lp, ops, u, f, n);
    GetsArrives(lp, ops, u, r, f, (n + 1) * lp.Pass(), IterationLogs(lp, f, n) + LeavingLog(lp));
    if 1 + (n + 1) * lp.Pass() <= MAX_VISITS {
      GetsSame(lp, ops, u, r, f, (n + 1) * lp.Pass(), IterationLogs(lp, f, n) + LeavingLog(lp));
      LayerEnds(lp.g, ops, r);
      RunEnds(lp.g, ops, r.(l := lp.tail + 1, n := 0));
    }
  }

  lemma GetsSame(lp: Loop, ops: Ops, s: State, r: State, f: int, visits: nat, log: seq<Event>)
    requires lp.Stands() && s.counter <= MAX_VISITS && Gets(lp, ops, s, r, f, visits, log)
             && s.counter + visits <= MAX_VISITS
    ensures Run(lp.g, ops, s) == Run(lp.g, ops, r)
  {
  }

  lemma RunEnds(g: Layout, ops: Ops, s: State)
    requires s.status == Running && s.counter <= MAX_VISITS && s.l >= |g.onion|
    ensures Run(g, ops, s) == s.Stop(Finished)
  {
  }

  // ---------------------------------------------------------------- where the Exit stands

  /** An Exit before the NextIteration leaves the frame whatever branch the Switch took. */
  lemma VisitExitEarly(g: Layout, ops: Ops, s: State, f: int)
    requires s.status == Running && s.counter < MAX_VISITS && !s.leftFrame && s.frames == [f]
    requires s.n < g.LayerSize(s.l) && g.At(s.l, s.n).Is(EXIT) && s.flow.Frame(f) == FrameState(true, false, -1)
    requires ops(s.counter + 1, g.At(s.l, s.n).id).status == 0
    ensures var t := Visit(g, ops, s); var node := g.At(s.l, s.n);
            && Ran(s.(counter := t.counter), t, node, ops(t.counter, node.id)) && t.counter == s.counter + 1
            && t.l == s.l && t.n == s.n + 1 && t.leftFrame && t.log == s.log + [Executed(node.id)]
  {
    hide Visit, Dispatch, Ran;
    Visits(g, ops, s);
    RunsExit(g, s.(counter := s.counter + 1), g.At(s.l, s.n), ops(s.counter + 1, g.At(s.l, s.n).id), f);
  }

  lemma RunStops(g: Layout, ops: Ops, s: State)
    requires s.status == Running && s.counter <= MAX_VISITS && s.l < |g.onion| && s.n < g.LayerSize(s.l)
    requires Visit(g, ops, s).status != Running
    ensures Run(g, ops, s) == Visit(g, ops, s)
  {
    hide Visit;
  }

  /** The Exit stands at place `en` of layer `el`, in the midst of the body: before the
      NextIteration. */
  ghost predicate LeavesEarly(lp: Loop, el: nat, en: nat) {
    && lp.Opens() && lp.InBody(el) && en < lp.g.LayerSize(el) && lp.g.At(el, en).Is(EXIT) && |lp.Next().inputs| > 0
    && (forall l: nat, n: nat :: lp.InBody(l) && (l, n) != (el, en) ==> lp.PlainAt(l, n))
    && (forall l: nat, n: nat :: lp.fork < l < lp.tail && (l, n) != (el, en) ==> lp.ReadsAt(l, n))
  }

  /** Every input of a node in the loop is active, from wherever. */
  ghost predicate AllAwake(lp: Loop, flow: Flow) {
    forall l, n :: lp.head <= l < lp.tail ==> AllAwakeAt(lp, flow, l, n)
  }

  ghost predicate AllAwakeAt(lp: Loop, flow: Flow, l: nat, n: nat) {
    n < lp.g.LayerSize(l) ==>
      forall e :: 0 <= e < |lp.g.At(l, n).inputs| ==> flow.Node(lp.g.At(l, n).inputs[e].0).active
  }

  lemma AllAwakeKept(lp: Loop, before: Flow, after: Flow)
    requires AllAwake(lp, before) && Wakes(before, after)
    ensures AllAwake(lp, after)
  {
    forall l, n | lp.head <= l < lp.tail ensures AllAwakeAt(lp, after, l, n) {
      assert AllAwakeAt(lp, before, l, n);
    }
  }

  lemma BodyPasses(lp: Loop, el: nat, en: nat, flow: Flow, l: nat, n: nat)
    requires LeavesEarly(lp, el, en) && AllAwake(lp, flow) && flow.Node(lp.Switch().id).branch == 1
    requires lp.fork < l < lp.tail && n < lp.g.LayerSize(l) && (l, n) != (el, en)
    ensures Check(lp.g, flow, lp.g.At(l, n)) == Proceed && !lp.g.At(l, n).Is(EXIT)
    ensures l < lp.tail - 1 ==> lp.Plain(lp.g.At(l, n)) && lp.g.At(l, n).id != lp.Switch().id
  {
    hide CheckInputs;
    var node := lp.g.At(l, n);
    assert AllAwakeAt(lp, flow, l, n);
    assert lp.MappedAt(l, n) && lp.MappedAt(lp.fork, 0);
    if l < lp.tail - 1 {
      assert lp.PlainAt(l, n);
    }
    assert lp.ReadsAt(l, n);
    ChecksPass(lp.g, flow, node.inputs, 0);
  }

  /** In the body, with or without a frame. */
  ghost predicate Roams(lp: Loop, s: State)
    requires lp.Stands()
  {
    && s.status == Running && s.counter <= MAX_VISITS && !s.leftFrame && AllAwake(lp, s.flow)
    && s.flow.Node(lp.Switch().id).branch == 1
  }

  lemma VisitBody(lp: Loop, el: nat, en: nat, ops: Ops, s: State)
    requires LeavesEarly(lp, el, en) && Obliging(lp, ops) && Roams(lp, s) && s.counter < MAX_VISITS
    requires lp.fork < s.l < lp.tail - 1 && s.n < lp.g.LayerSize(s.l) && (s.l, s.n) != (el, en)
    ensures var t := Visit(lp.g, ops, s);
            && Roams(lp, t) && t.l == s.l && t.n == s.n + 1 && t.counter == s.counter + 1
            && t.frames == s.frames && t.flow.frames == s.flow.frames
  {
    hide Visit, Check, Dispatch, AllAwake, LeavesEarly;
    assert lp.Opens() by { EarlyOpens(lp, el, en); }
    BodyPasses(lp, el, en, s.flow, s.l, s.n);
    Visits(lp.g, ops, s);
    var s0, node := s.(counter := s.counter + 1), lp.g.At(s.l, s.n);
    RunsPlain(lp.g, s0, node, ops(s0.counter, node.id));
    AllAwakeKept(lp, s.flow, Visit(lp.g, ops, s).flow);
  }

  lemma EarlyOpens(lp: Loop, el: nat, en: nat)
    requires LeavesEarly(lp, el, en)
    ensures lp.Opens() && lp.Stands() && lp.InBody(el) && en < lp.g.LayerSize(el) && lp.g.At(el, en).Is(EXIT)
    ensures |lp.Next().inputs| > 0
  {
  }

  /** The number of places from one to another. */
  function Places(g: Layout, l: nat, n: nat, l1: nat, n1: nat): nat
    decreases l1 - l, g.LayerSize(l) - n
  {
    if l > l1 || (l == l1 && n >= n1) then 0
    else if n >= g.LayerSize(l) then Places(g, l + 1, 0, l1, n1)
    else 1 + Places(g, l, n + 1, l1, n1)
  }

  /** From `s` the run gets to `r` without leaving or entering a frame, or it is cut short. */
  ghost predicate Comes(lp: Loop, ops: Ops, s: State, r: State, visits: nat)
    requires s.counter <= MAX_VISITS
  {
    if s.counter + visits <= MAX_VISITS then
      && r.counter == s.counter + visits && r.frames == s.frames && r.flow.frames == s.flow.frames
      && Run(lp.g, ops, s) == Run(lp.g, ops, r)
    else Run(lp.g, ops, s).status == EarlyTermination
  }

  /** Through the body up to the Exit, or from behind the Exit to the NextIteration. */
  lemma {:induction false} RunsTo(lp: Loop, el: nat, en: nat, ops: Ops, s: State, l1: nat, n1: nat) returns (r: State)
    requires LeavesEarly(lp, el, en) && Obliging(lp, ops) && Roams(lp, s)
    requires lp.fork < s.l <= l1 && (s.l == l1 ==> s.n <= n1)
    requires (l1, n1) == (el, en) || ((l1, n1) == (lp.tail - 1, 0) && (s.l > el || (s.l == el && s.n > en)))
    ensures Comes(lp, ops, s, r, Places(lp.g, s.l, s.n, l1, n1))
    ensures s.counter + Places(lp.g, s.l, s.n, l1, n1) <= MAX_VISITS ==> Roams(lp, r) && r.l == l1 && r.n == n1
    decreases l1 - s.l, lp.g.LayerSize(s.l) - s.n
  {
    hide Visit, AllAwake, LeavesEarly, Run, Obliging, Loop.Opens;
    EarlyOpens(lp, el, en);
    r := s;
    if s.l == l1 && s.n == n1 {
    } else if s.n >= lp.g.LayerSize(s.l) {
      LayerEnds(lp.g, ops, s);
      r := RunsTo(lp, el, en, ops, s.(l := s.l + 1, n := 0), l1, n1);
    } else {
      RunVisits(lp.g, ops, s);
      if s.counter < MAX_VISITS {
        VisitBody(lp, el, en, ops, s);
        r := RunsTo(lp, el, en, ops, Visit(lp.g, ops, s), l1, n1);
      }
    }
  }

  /** The frame left is dropped at the next node that is no Exit, and until then nothing happens. */
  lemma {:induction false} DropsFrame(lp: Loop, el: nat, en: nat, ops: Ops, s: State, f: int)
    requires LeavesEarly(lp, el, en) && s.status == Running && s.counter <= MAX_VISITS && s.leftFrame
             && s.frames == [f]
    requires lp.fork < s.l < lp.tail && (s.l > el || (s.l == el && s.n > en)) && (s.l == lp.tail - 1 ==> s.n == 0)
    ensures Run(lp.g, ops, s).status == Run(lp.g, ops, CloseFrame(s)).status
    decreases lp.tail - s.l
  {
    hide Visit, Run, LeavesEarly, Loop.Opens;
    EarlyOpens(lp, el, en);
    if s.n >= lp.g.LayerSize(s.l) {
      LayerEnds(lp.g, ops, s);
      LayerEnds(lp.g, ops, CloseFrame(s));
      DropsFrame(lp, el, en, ops, s.(l := s.l + 1, n := 0), f);
    } else {
      NoExit(lp, el, en, s.l, s.n);
      RunVisits(lp.g, ops, s);
      RunVisits(lp.g, ops, CloseFrame(s));
      if s.counter < MAX_VISITS {
        VisitCloses(lp.g, ops, s);
        if Visit(lp.g, ops, s).status != Running {
          RunStops(lp.g, ops, s);
          RunStops(lp.g, ops, CloseFrame(s));
        }
      }
    }
  }

  lemma NoExit(lp: Loop, el: nat, en: nat, l: nat, n: nat)
    requires LeavesEarly(lp, el, en) && lp.fork < l < lp.tail && n < lp.g.LayerSize(l) && (l, n) != (el, en)
    ensures !lp.g.At(l, n).Is(EXIT)
  {
    if l < lp.tail - 1 {
      assert lp.PlainAt(l, n);
    }
  }

  lemma VisitCloses(g: Layout, ops: Ops, s: State)
    requires s.n < g.LayerSize(s.l) && s.counter < MAX_VISITS && s.leftFrame && |s.frames| > 0
    requires !g.At(s.l, s.n).Is(EXIT)
    ensures Visit(g, ops, s) == Visit(g, ops, CloseFrame(s))
  {
    hide Check, Dispatch, SkipNode;
    assert CloseFrame(s.(counter := s.counter + 1)) == CloseFrame(s).(counter := s.counter + 1);
  }

  /** A NextIteration without an open frame. */
  lemma NextOutside(lp: Loop, el: nat, en: nat, ops: Ops, s: State)
    requires LeavesEarly(lp, el, en) && Obliging(lp, ops) && Roams(lp, s) && s.counter < MAX_VISITS
    requires s.frames == [] && s.l == lp.tail - 1 && s.n == 0
    ensures Visit(lp.g, ops, s).status == NoOpenFrame
  {
    hide Visit, Dispatch, Check, AllAwake, LeavesEarly;
    EarlyOpens(lp, el, en);
    BodyPasses(lp, el, en, s.flow, s.l, s.n);
    Visits(lp.g, ops, s);
    var node, s0 := lp.Next(), s.(counter := s.counter + 1);
    Dispatches(lp.g, s0, node, ops(s0.counter, node.id));
    MarkedIds(s0, node);
  }

  /** From behind the Switch, at branch 1, to the end of the run. */
  lemma BodyBreaks(lp: Loop, el: nat, en: nat, ops: Ops, s: State, f: int)
    requires LeavesEarly(lp, el, en) && Obliging(lp, ops) && Roams(lp, s)
    requires s.frames == [f] && s.l == lp.fork + 1 && s.n == 0 && s.flow.Frame(f) == FrameState(true, false, -1)
    ensures var visits := Places(lp.g, lp.fork + 1, 0, el, en) + Places(lp.g, el, en + 1, lp.tail - 1, 0) + 2;
            Run(lp.g, ops, s).status == if s.counter + visits <= MAX_VISITS then NoOpenFrame else EarlyTermination
  {
    hide Visit, Run, LeavesEarly, AllAwake, Loop.Opens, Places, Ran, Obliging;
    EarlyOpens(lp, el, en);
    var t := RunsTo(lp, el, en, ops, s, el, en);
    if s.counter + Places(lp.g, lp.fork + 1, 0, el, en) <= MAX_VISITS {
      RunVisits(lp.g, ops, t);
      if t.counter < MAX_VISITS {
        var u := Visit(lp.g, ops, t);
        ExitLeaves(lp, el, en, ops, t, f);
        DropsFrame(lp, el, en, ops, u, f);
        var v := CloseFrame(u);
        var w := RunsTo(lp, el, en, ops, v, lp.tail - 1, 0);
        if v.counter + Places(lp.g, el, en + 1, lp.tail - 1, 0) <= MAX_VISITS {
          RunVisits(lp.g, ops, w);
          if w.counter < MAX_VISITS {
            NextOutside(lp, el, en, ops, w);
            RunStops(lp.g, ops, w);
          }
        }
      }
    }
  }

  /** The Exit leaves the frame whatever branch the Switch took. */
  lemma ExitLeaves(lp: Loop, el: nat, en: nat, ops: Ops, s: State, f: int)
    requires LeavesEarly(lp, el, en) && Obliging(lp, ops) && Roams(lp, s) && s.counter < MAX_VISITS
    requires s.frames == [f] && s.l == el && s.n == en && s.flow.Frame(f) == FrameState(true, false, -1)
    ensures var t := Visit(lp.g, ops, s);
            && t.status == Running && t.leftFrame && t.frames == [f] && t.l == el && t.n == en + 1
            && t.counter == s.counter + 1 && Roams(lp, CloseFrame(t)) && CloseFrame(t).frames == []
  {
    hide Visit, LeavesEarly, AllAwake, Loop.Opens, Dispatch;
    EarlyOpens(lp, el, en);
    VisitExitEarly(lp.g, ops, s, f);
    var t := Visit(lp.g, ops, s);
    ExitIsNoSwitch(lp, el, en);
    AllAwakeKept(lp, s.flow, CloseFrame(t).flow);
  }

  lemma ExitIsNoSwitch(lp: Loop, el: nat, en: nat)
    requires LeavesEarly(lp, el, en)
    ensures lp.g.At(el, en).id != lp.Switch().id
  {
    assert lp.MappedAt(el, en) && lp.MappedAt(lp.fork, 0);
  }

  lemma {:induction false} PlacesOfNodes(lp: Loop, l: nat, n: nat, l1: nat, n1: nat, end: nat)
    requires l <= l1 < end && (l == l1 ==> n <= n1) && n1 <= lp.g.LayerSize(l1)
    ensures |lp.Nodes(l, n, end)| == Places(lp.g, l, n, l1, n1) + |lp.Nodes(l1, n1, end)|
    decreases l1 - l, lp.g.LayerSize(l) - n
  {
    hide Loop.Nodes;
    NodesUnfold(lp, l, n, end);
    if l == l1 && n == n1 {
    } else if n >= lp.g.LayerSize(l) {
      PlacesOfNodes(lp, l + 1, 0, l1, n1, end);
    } else {
      PlacesOfNodes(lp, l, n + 1, l1, n1, end);
    }
  }

  lemma EarlyVisits(lp: Loop, el: nat, en: nat)
    requires LeavesEarly(lp, el, en)
    ensures |lp.Nodes(lp.head, 0, lp.tail)| == |lp.Nodes(lp.head, 0, lp.fork + 1)|
            + (Places(lp.g, lp.fork + 1, 0, el, en) + Places(lp.g, el, en + 1, lp.tail - 1, 0) + 2)
  {
    hide LeavesEarly, Loop.Nodes, Loop.Opens, Places;
    EarlyOpens(lp, el, en);
    NodesThrough(lp, lp.head, 0, lp.fork + 1, lp.tail);
    PlacesOfNodes(lp, lp.fork + 1, 0, el, en, lp.tail);
    NodesUnfold(lp, el, en, lp.tail);
    PlacesOfNodes(lp, el, en + 1, lp.tail - 1, 0, lp.tail);
    NodesAlone(lp, lp.tail - 1);
  }

  /** A loop whose Exit stands before its NextIteration never goes back to its Merge: if its
      condition holds, the first pass ends the run, at the NextIteration, which asks for the
      innermost of no frames. */
  lemma EarlyExitBreaks(lp: Loop, el: nat, en: nat, ops: Ops, s: State, f: int)
    requires LeavesEarly(lp, el, en) && Obliging(lp, ops)
    requires AtHead(lp, s, f) && AllAwake(lp, s.flow) && s.frames == [f] && Holds(lp, ops, s.counter)
    ensures Run(lp.g, ops, s).status
            == if s.counter + |lp.Nodes(lp.head, 0, lp.tail)| <= MAX_VISITS then NoOpenFrame else EarlyTermination
  {
    hide Run, LeavesEarly, AllAwake, Loop.Opens, Places, Obliging, Loop.Nodes, Executions, Gets;
    EarlyOpens(lp, el, en);
    EarlyVisits(lp, el, en);
    var r := Decides(lp, ops, s, f);
    var ids := lp.Nodes(lp.head, 0, lp.fork + 1);
    GetsArrives(lp, ops, s, r, f, |ids|, Executions(ids));
    if s.counter + |ids| <= MAX_VISITS {
      GetsSame(lp, ops, s, r, f, |ids|, Executions(ids));
      AllAwakeKept(lp, s.flow, r.flow);
      BodyBreaks(lp, el, en, ops, r, f);
    }
  }

  const ENTER_NODE := Node(1, true, ENTER, false, false, [(-1, 0)], 0)
  const MERGE_NODE := Node(2, true, MERGE, false, false, [(1, 0), (6, 0)], 1)
  const CONDITION := Node(3, false, 0, true, false, [(2, 0)], 2)
  const SWITCH_NODE := Node(4, true, SWITCH, false, false, [(2, 0), (3, 0)], 3)
  const BODY := Node(5, false, 0, true, false, [(4, 1)], 4)
  const NEXT_NODE := Node(6, true, NEXT_ITERATION, false, false, [(5, 0)], 5)

  /** The smallest loop, with the Exit in a layer of choice: in layer 4 if the layers are those
      that `buildGraph` gives to the nodes, one behind the latest input that has one. */
  function Smallest(exitLayer: int): Layout {
    var exit := ExitAt(exitLayer);
    var onion := map[0 := [ENTER_NODE], 1 := [MERGE_NODE], 2 := [CONDITION], 3 := [SWITCH_NODE], 4 := [BODY],
                     5 := [NEXT_NODE]];
    Layout(if exitLayer == 4 then onion[4 := [BODY, exit]] else onion[6 := [exit]],
           map[1 := ENTER_NODE, 2 := MERGE_NODE, 3 := CONDITION, 4 := SWITCH_NODE, 5 := BODY, 6 := NEXT_NODE,
               7 := exit], {})
  }

  function ExitAt(layer: int): Node { Node(7, true, EXIT, false, false, [(4, 0)], layer) }

  /** What stands where, and under which id. */
  lemma SmallestLayers(exitLayer: int)
    requires exitLayer == 4 || exitLayer == 6
    ensures var g := Smallest(exitLayer);
            && (forall l :: 0 <= l < 6 && l != 4 ==> g.LayerSize(l) == 1)
            && g.At(0, 0) == ENTER_NODE && g.At(1, 0) == MERGE_NODE && g.At(2, 0) == CONDITION
               && g.At(3, 0) == SWITCH_NODE
            && g.At(5, 0) == NEXT_NODE
  {
  }

  lemma SmallestSize(exitLayer: int)
    requires exitLayer == 4 || exitLayer == 6
    ensures |Smallest(exitLayer).onion| == if exitLayer == 4 then 6 else 7
  {
    var g := Smallest(exitLayer);
    assert g.onion.Keys == if exitLayer == 4 then {0, 1, 2, 3, 4, 5} else {0, 1, 2, 3, 4, 5, 6};
    assert |{0, 1, 2, 3, 4, 5}| == 6 && |{0, 1, 2, 3, 4, 5, 6}| == 7;
  }

  lemma SmallestEnd(exitLayer: int)
    requires exitLayer == 4 || exitLayer == 6
    ensures var g := Smallest(exitLayer);
            && g.LayerSize(4) == (if exitLayer == 4 then 2 else 1) && g.At(4, 0) == BODY
            && if exitLayer == 4 then g.At(4, 1) == ExitAt(4) else g.LayerSize(6) == 1 && g.At(6, 0) == ExitAt(6)
  {
  }

  lemma SmallestMapped(exitLayer: int)
    ensures var m := Smallest(exitLayer).mapped;
            && m.Keys == {1, 2, 3, 4, 5, 6, 7} && Smallest(exitLayer).externals == {}
            && m[1] == ENTER_NODE && m[2] == MERGE_NODE && m[3] == CONDITION && m[4] == SWITCH_NODE
            && m[5] == BODY && m[6] == NEXT_NODE && m[7] == ExitAt(exitLayer)
  {
  }

  lemma SmallestBegins(f: int, exitLayer: int)
    requires f >= 0 && (exitLayer == 4 || exitLayer == 6)
    ensures Begins(Loop(Smallest(exitLayer), 1, 3, 6), map[1 := f], f)
  {
    hide Smallest;
    SmallestLayers(exitLayer);
    SmallestEnd(exitLayer);
    SmallestMapped(exitLayer);
    SmallestSize(exitLayer);
    var lp := Loop(Smallest(exitLayer), 1, 3, 6);
    assert lp.Stands();
    forall l: nat, n: nat | lp.head <= l < lp.tail ensures lp.MappedAt(l, n) {
      assert l == 1 || l == 2 || l == 3 || l == 4 || l == 5;
    }
    forall l: nat, n: nat | lp.InCondition(l) ensures lp.PlainAt(l, n) {
      assert l == 2;
    }
    forall l: nat, n: nat | lp.head < l <= lp.fork ensures lp.ReadsAt(l, n) && lp.OrderedAt(l, n) {
      assert l == 2 || l == 3;
      assert lp.IsAt(1, 0, 2) && lp.IsAt(2, 0, 3);
      assert lp.Between(1, 0, l, n, 2) && (l == 3 ==> lp.Between(1, 0, l, n, 3));
    }
    forall l: nat, n: nat | lp.head <= l < lp.tail && n < lp.g.LayerSize(l) ensures lp.g.At(l, n).id != 1 {
      assert l == 1 || l == 2 || l == 3 || l == 4 || l == 5;
      assert n == 0 || (l == 4 && n == 1);
    }
    assert !lp.Has(1);
  }

  /** With the Exit behind the NextIteration the loop is well formed, and a pass takes six visits. */
  lemma SmallestWellFormed()
    ensures var lp := Loop(Smallest(6), 1, 3, 6); lp.WellFormed() && lp.Pass() == 6
  {
    hide Smallest;
    SmallestLayers(6);
    SmallestEnd(6);
    SmallestMapped(6);
    SmallestSize(6);
    SmallestBegins(0, 6);
    var lp := Loop(Smallest(6), 1, 3, 6);
    assert lp.WellFormed() by {
      hide Loop.Opens;
      Opening(lp);
      forall l: nat, n: nat | lp.InBody(l) ensures lp.PlainAt(l, n) {
        assert l == 4;
      }
      forall l: nat, n: nat | lp.fork < l < lp.tail ensures lp.ReadsAt(l, n) && lp.OrderedAt(l, n) {
        assert l == 4 || l == 5;
        assert lp.IsAt(3, 0, 4) && lp.IsAt(4, 0, 5);
        assert lp.Between(1, 0, l, n, 4) && (l == 5 ==> lp.Between(1, 0, l, n, 5));
      }
      forall l: nat, n: nat | lp.fork < l < lp.tail ensures lp.HangsAt(l, n) {
        assert l == 4 || l == 5;
        assert lp.IsAt(4, 0, 5);
        if n < lp.g.LayerSize(l) {
          assert lp.HangsOn(l, lp.g.At(l, n).inputs[0]);
        }
      }
    }
    SmallestPass();
  }

  lemma SmallestPass()
    ensures Loop(Smallest(6), 1, 3, 6).Pass() == 6
  {
    hide Smallest;
    SmallestLayers(6);
    SmallestEnd(6);
    var lp := Loop(Smallest(6), 1, 3, 6);
    assert lp.Nodes(7, 0, 7) == [];
    assert |lp.Nodes(6, 0, 7)| == 1;
    assert |lp.Nodes(5, 0, 7)| == 2;
    assert |lp.Nodes(4, 0, 7)| == 3;
    assert |lp.Nodes(3, 0, 7)| == 4;
    assert |lp.Nodes(2, 0, 7)| == 5;
  }

  /** A NextIteration that comes next closes the frame, and finds none open. */
  lemma VisitNextOutside(g: Layout, ops: Ops, s: State, f: int)
    requires s.status == Running && s.counter < MAX_VISITS && s.leftFrame && s.frames == [f]
    requires s.n < g.LayerSize(s.l) && g.At(s.l, s.n).Is(NEXT_ITERATION) && |g.At(s.l, s.n).inputs| > 0
    requires ops(s.counter + 1, g.At(s.l, s.n).id).status == 0
    requires Check(g, s.flow.Forget(f), g.At(s.l, s.n)) == Proceed
    ensures var t := Visit(g, ops, s); t.status == NoOpenFrame && t.log == s.log + [Forgot(f)]
  {
    hide Check;
    var node := g.At(s.l, s.n);
    var s1 := CloseFrame(s.(counter := s.counter + 1));
    assert s1.frames == [];
    Dispatches(g, s1, node, ops(s1.counter, node.id));
  }

  /** One whose inputs are not active closes the frame too, and is skipped. */
  lemma VisitNextSkipped(g: Layout, ops: Ops, s: State, f: int)
    requires s.status == Running && s.counter < MAX_VISITS && s.leftFrame && s.frames == [f]
    requires s.n < g.LayerSize(s.l) && g.At(s.l, s.n).Is(NEXT_ITERATION)
    requires Check(g, s.flow.Forget(f), g.At(s.l, s.n)) == Skip
    ensures var t := Visit(g, ops, s);
            t.status == Running && t.l == s.l && t.n == s.n + 1
                && t.log == s.log + [Forgot(f), Skipped(g.At(s.l, s.n).id)]
  {
    hide Check, Dispatch;
    assert s.log + [Forgot(f)] + [Skipped(g.At(s.l, s.n).id)] == s.log + [Forgot(f), Skipped(g.At(s.l, s.n).id)];
  }

  /** The loop with the layers of `buildGraph`. */
  function Built(): Loop { Loop(Smallest(4), 1, 3, 6) }

  lemma BuiltLeavesEarly()
    ensures LeavesEarly(Built(), 4, 1)
  {
    hide Smallest, Loop.Opens;
    SmallestLayers(4);
    SmallestEnd(4);
    SmallestMapped(4);
    SmallestSize(4);
    SmallestBegins(0, 4);
    var lp := Built();
    Opening(lp);
    forall l: nat, n: nat | lp.InBody(l) && (l, n) != (4, 1) ensures lp.PlainAt(l, n) {
      assert l == 4;
    }
    forall l: nat, n: nat | lp.fork < l < lp.tail && (l, n) != (4, 1) ensures lp.ReadsAt(l, n) {
      assert l == 4 || l == 5;
    }
  }

  function BuiltLog(f: int): seq<Event> { [Opened(f), Executed(1), Executed(2), Executed(3), Executed(4)] }

  ghost predicate AllOblige(ops: Ops) {
    (forall visit: nat, id: int :: ops(visit, id).status == 0) && (forall visit: nat :: ops(visit, 4).branch.Some?)
  }

  /** Behind the Switch, at the body. */
  ghost predicate AtBody(s: State, f: int) {
    && s.status == Running && s.l == 4 && s.n == 0 && s.counter == 4 && s.frames == [f] && !s.leftFrame
    && s.log == BuiltLog(f) && s.flow.Frame(f) == FrameState(true, false, -1)
    && s.flow.Node(4).active && s.flow.Node(5).active
  }

  lemma BuiltNodes()
    ensures Built().Nodes(1, 0, 4) == [2, 3, 4]
  {
    hide Smallest;
    SmallestLayers(4);
    var lp := Built();
    assert lp.Nodes(4, 0, 4) == [];
    assert lp.Nodes(3, 0, 4) == [4];
    assert lp.Nodes(2, 0, 4) == [3, 4];
  }

  lemma BuiltToSwitch(ops: Ops, f: int) returns (r: State)
    requires f >= 0 && AllOblige(ops)
    ensures AtBody(r, f) && r.flow.Node(4).branch == ops(4, 4).branch.value
    ensures Run(Smallest(4), ops, Start(Flow(map[], map[]), map[1 := f], map[])) == Run(Smallest(4), ops, r)
  {
    hide Smallest, Run, Visit, Awake, Executions, Loop.Nodes, Loop.Opens, Gets, Keeps, Lit;
    var g, lp := Smallest(4), Built();
    SmallestLayers(4);
    SmallestSize(4);
    SmallestBegins(f, 4);
    BuiltNodes();
    var s := Start(Flow(map[], map[]), map[1 := f], map[]);
    Enters(lp, ops, map[1 := f], f);
    RunVisits(g, ops, s);
    LayerEnds(g, ops, Visit(g, ops, s));
    var u := Visit(g, ops, s).(l := 1, n := 0);
    r := Decides(lp, ops, u, f);
    GetsArrives(lp, ops, u, r, f, 3, Executions([2, 3, 4]));
    GetsSame(lp, ops, u, r, f, 3, Executions([2, 3, 4]));
    ExecutionsThree();
  }

  lemma ExecutionsThree()
    ensures Executions([2, 3, 4]) == [Executed(2), Executed(3), Executed(4)]
  {
  }

  /** The body runs, the Exit runs, and NextIteration has no frame. */
  lemma BuiltBreaks(ops: Ops, s: State, f: int)
    requires AllOblige(ops) && AtBody(s, f) && s.flow.Node(4).branch == 1
    ensures var t := Run(Smallest(4), ops, s);
            t.status == NoOpenFrame && t.log == BuiltLog(f) + [Executed(5), Executed(7), Forgot(f)]
  {
    hide Smallest, Run, Visit, Dispatch, CheckInputs;
    var g := Smallest(4);
    SmallestLayers(4);
    SmallestEnd(4);
    SmallestMapped(4);
    SmallestSize(4);
    ChecksPass(g, s.flow, BODY.inputs, 0);
    Visits(g, ops, s);
    RunsPlain(g, s.(counter := 5), BODY, ops(5, 5));
    RunVisits(g, ops, s);
    var t := Visit(g, ops, s);
    VisitExitEarly(g, ops, t, f);
    RunVisits(g, ops, t);
    var u := Visit(g, ops, t);
    LayerEnds(g, ops, u);
    var v := u.(l := 5, n := 0);
    ChecksPass(g, v.flow.Forget(f), NEXT_NODE.inputs, 0);
    VisitNextOutside(g, ops, v, f);
    RunStops(g, ops, v);
  }

  /** The body is skipped, the Exit runs, and NextIteration is skipped. */
  lemma BuiltEnds(ops: Ops, s: State, f: int)
    requires AllOblige(ops) && AtBody(s, f) && s.flow.Node(4).branch != 1
    ensures var t := Run(Smallest(4), ops, s);
            t.status == Finished && t.log == BuiltLog(f) + [Skipped(5), Executed(7), Forgot(f), Skipped(6)]
  {
    hide Smallest, Run, Visit, Dispatch, CheckInputs;
    var g := Smallest(4);
    SmallestLayers(4);
    SmallestEnd(4);
    SmallestMapped(4);
    SmallestSize(4);
    ChecksFail(g, s.flow, BODY.inputs, 0, 0);
    VisitSkips(g, ops, s);
    RunVisits(g, ops, s);
    var t := Visit(g, ops, s);
    VisitExitEarly(g, ops, t, f);
    RunVisits(g, ops, t);
    var u := Visit(g, ops, t);
    LayerEnds(g, ops, u);
    var v := u.(l := 5, n := 0);
    assert !t.flow.Node(5).active;
    assert !u.flow.Node(5).active;
    assert v.flow.Forget(f).Node(5) == u.flow.Node(5);
    assert NEXT_NODE.inputs[0] == (5, 0);
    ChecksFail(g, v.flow.Forget(f), NEXT_NODE.inputs, 0, 0);
    VisitNextSkipped(g, ops, v, f);
    RunVisits(g, ops, v);
    var w := Visit(g, ops, v);
    LayerEnds(g, ops, w);
    RunEnds(g, ops, w.(l := 6, n := 0));
  }

  lemma VisitSkips(g: Layout, ops: Ops, s: State)
    requires s.n < g.LayerSize(s.l) && s.counter < MAX_VISITS && !s.leftFrame && !g.At(s.l, s.n).Is(EXIT)
    requires Check(g, s.flow, g.At(s.l, s.n)) == Skip
    ensures Visit(g, ops, s) == SkipNode(s.(counter := s.counter + 1), g.At(s.l, s.n))
  {
    hide Check, Dispatch, SkipNode;
  }

  /** In the layers of `buildGraph` the smallest loop never goes back: its Exit stands beside the
      body, is visited before the NextIteration and leaves the frame. If the condition holds,
      the NextIteration asks for the innermost of no frames; the run only ends if the condition
      fails at once. */
  lemma BuiltLoopBreaks(ops: Ops, f: int)
    requires f >= 0 && AllOblige(ops)
    ensures var t := Run(Smallest(4), ops, Start(Flow(map[], map[]), map[1 := f], map[]));
            if ops(4, 4).branch == Some(1) then
              t.status == NoOpenFrame && t.log == BuiltLog(f) + [Executed(5), Executed(7), Forgot(f)]
            else
              t.status == Finished && t.log == BuiltLog(f) + [Skipped(5), Executed(7), Forgot(f), Skipped(6)]
  {
    hide Smallest, Run, AtBody;
    var r := BuiltToSwitch(ops, f);
    if ops(4, 4).branch == Some(1) {
      BuiltBreaks(ops, r, f);
    } else {
      BuiltEnds(ops, r, f);
    }
  }
}
