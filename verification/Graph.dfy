/** The graph the executor walks: nodes arranged in layers. */
module Graphs {

  const SWITCH := 30
  const MERGE := 60
  const NEXT_ITERATION := 80
  const EXIT := 90
  const ENTER := 100

  /** `logic` is the op type being OpType_LOGIC; `customOp` the node carrying a
      declarable op, `divergent` that op's descriptor saying so. An input is a node id
      and the output (branch) it reads. */
  datatype Node = Node(
    id: int, logic: bool, opNum: int, customOp: bool, divergent: bool,
    inputs: seq<(int, int)>, layer: int)
  {
    predicate Is(op: int) { logic && opNum == op }

    predicate IsDivergencePoint() {
      if customOp then divergent else Is(SWITCH)
    }
  }

  /** The part of a graph a run never changes. The onion maps a layer number to its nodes. */
  datatype Layout = Layout(onion: map<int, seq<Node>>, mapped: map<int, Node>, externals: set<int>) {
    function LayerSize(l: int): nat {
      if l in onion then |onion[l]| else 0
    }

    function At(l: int, n: nat): Node
      requires n < LayerSize(l)
    {
      onion[l][n]
    }

    predicate IsExternal(id: int) { id < 0 || id in externals }
  }

  /** What a run does change on the nodes: the frame a node belongs to and, on
      NextIteration nodes, the layer to go back to. Both default to -1. */
  class Graph {
    const layout: Layout
    var frameIds: map<int, int>
    var rewindLayers: map<int, int>

    constructor (layout: Layout, frameIds: map<int, int>)
      ensures this.layout == layout && this.frameIds == frameIds && rewindLayers == map[]
    {
      this.layout := layout;
      this.frameIds := frameIds;
      rewindLayers := map[];
    }
  }

  function Lookup(m: map<int, int>, id: int): int {
    if id in m then m[id] else -1
  }
}
