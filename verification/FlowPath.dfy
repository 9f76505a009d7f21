/** Per-run bookkeeping of the graph executor: what each node and each loop frame
    currently is. `FlowPath` is the mutable object the executor updates; `Flow` is its
    value, used to state what every update does. */
module FlowPaths {

  /** One node: active unless some visit disabled it, executed once it ran to the end,
      and, for divergent ops, the branch that was taken. */
  datatype NodeState = NodeState(active: bool, executed: bool, branch: int)

  /** One loop frame: activated by a loop Merge, and possibly with a rewind planned. */
  datatype FrameState = FrameState(activated: bool, rewindPlanned: bool, rewindPosition: int)

  const FRESH_NODE := NodeState(true, false, 0)
  const FRESH_FRAME := FrameState(false, false, -1)

  /** Reading an absent entry creates it with default fields, so an absent entry and a
      default one are the same thing; lookups here return the default instead. */
  datatype Flow = Flow(nodes: map<int, NodeState>, frames: map<int, FrameState>) {
    function Node(id: int): NodeState {
      if id in nodes then nodes[id] else FRESH_NODE
    }

    function Frame(id: int): FrameState {
      if id in frames then frames[id] else FRESH_FRAME
    }

    function WithNode(id: int, s: NodeState): Flow {
      this.(nodes := nodes[id := s])
    }

    function WithFrame(id: int, s: FrameState): Flow {
      this.(frames := frames[id := s])
    }

    function MarkActive(id: int, active: bool): Flow {
      WithNode(id, Node(id).(active := active))
    }

    function MarkExecuted(id: int, executed: bool): Flow {
      WithNode(id, Node(id).(executed := executed))
    }

    function MarkBranch(id: int, branch: int): Flow {
      WithNode(id, Node(id).(branch := branch))
    }

    function Activate(frame: int): Flow {
      WithFrame(frame, Frame(frame).(activated := true))
    }

    /** Plans a rewind; the position sticks only if none is recorded yet. */
    function Plan(frame: int, position: int): Flow {
      var f := Frame(frame);
      WithFrame(frame, f.(rewindPlanned := true,
                          rewindPosition := if f.rewindPosition < 0 then position else f.rewindPosition))
    }

    function Unplan(frame: int): Flow {
      WithFrame(frame, Frame(frame).(rewindPlanned := false, rewindPosition := -1))
    }

    function Forget(frame: int): Flow {
      this.(frames := frames - {frame})
    }
  }

  class FlowPath {
    var nodes: map<int, NodeState>
    var frames: map<int, FrameState>

    function View(): Flow
      reads this
    {
      Flow(nodes, frames)
    }

    constructor ()
      ensures View() == Flow(map[], map[])
    {
      nodes, frames := map[], map[];
    }

    method MarkNodeActive(id: int, active: bool)
      modifies this
      ensures View() == old(View()).MarkActive(id, active)
    {
      nodes := nodes[id := View().Node(id).(active := active)];
    }

    method MarkExecuted(id: int, executed: bool)
      modifies this
      ensures View() == old(View()).MarkExecuted(id, executed)
    {
      nodes := nodes[id := View().Node(id).(executed := executed)];
    }

    method MarkBranch(id: int, branch: int)
      modifies this
      ensures View() == old(View()).MarkBranch(id, branch)
    {
      nodes := nodes[id := View().Node(id).(branch := branch)];
    }

    method MarkFrameActive(frame: int, active: bool)
      modifies this
      ensures View() == old(View()).WithFrame(frame, old(View()).Frame(frame).(activated := active))
    {
      frames := frames[frame := View().Frame(frame).(activated := active)];
    }

    method PlanRewind(frame: int, planned: bool)
      modifies this
      ensures View() == old(View()).WithFrame(frame, old(View()).Frame(frame).(rewindPlanned := planned))
    {
      frames := frames[frame := View().Frame(frame).(rewindPlanned := planned)];
    }

    method SetRewindPosition(frame: int, position: int)
      modifies this
      ensures View() == old(View()).WithFrame(frame, old(View()).Frame(frame).(rewindPosition := position))
    {
      frames := frames[frame := View().Frame(frame).(rewindPosition := position)];
    }

    method SetRewindPositionOnce(frame: int, position: int)
      modifies this
      ensures var f := old(View()).Frame(frame);
              View() == old(View()).WithFrame(frame,
                          f.(rewindPosition := if f.rewindPosition < 0 then position else f.rewindPosition))
    {
      var f := View().Frame(frame);
      if f.rewindPosition < 0 {
        frames := frames[frame := f.(rewindPosition := position)];
      } else {
        frames := frames[frame := f];
      }
    }

    method ForgetFrame(frame: int)
      modifies this
      ensures View() == old(View()).Forget(frame)
    {
      if frame in frames {
        frames := frames - {frame};
      }
    }
  }
}
