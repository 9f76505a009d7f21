/** Which nodes of a loop-free graph a run executes: a definition on the graph alone, and
    the proof that the executor's walk, with all its marks, computes exactly that. */
module ExecutorLiveness {
  import opened FlowPaths
  import opened Graphs
  import opened ExecutorSteps
  import opened Wrappers
  import ER = ExecutorRewinds

  // ---------------------------------------------------------------- the graph

  /** The nodes of layer `l` and all later ones, in visiting order. */
  function Flatten(g: Layout, l: nat): seq<Node>
    decreases |g.onion| - l
  {
    if l >= |g.onion| then []
    else (if l in g.onion then g.onion[l] else []) + Flatten(g, l + 1)
  }

  function Order(g: Layout): seq<Node> { Flatten(g, 0) }

  function IndexOf(order: seq<Node>, id: int): (i: nat)
    ensures i <= |order|
    ensures i < |order| ==> order[i].id == id
    ensures forall j :: 0 <= j < i ==> order[j].id != id
  {
    if order == [] then 0
    else if order[0].id == id then 0
    else 1 + IndexOf(order[1..], id)
  }

  predicate IsLoopOp(node: Node) {
    node.Is(ENTER) || node.Is(NEXT_ITERATION) || node.Is(EXIT)
  }

  /** No loops, one mapped node per id, Merges with both inputs, and every input that is
      neither external nor unknown to a Merge visited before its reader. */
  ghost predicate LoopFree(g: Layout) {
    var order := Order(g);
    && (forall id :: id in g.mapped ==> !IsLoopOp(g.mapped[id]))
    && (forall k :: 0 <= k < |order| ==>
          && order[k].id in g.mapped && g.mapped[order[k].id] == order[k]
          && IndexOf(order, order[k].id) == k
          && (order[k].Is(MERGE) ==> |order[k].inputs| >= 2))
    && (forall k, e :: 0 <= k < |order| && 0 <= e < |order[k].inputs| ==> InputOrdered(g, order, k, order[k].inputs[e].0))
  }

  predicate InputOrdered(g: Layout, order: seq<Node>, k: nat, id: int)
    requires k < |order|
  {
    if order[k].Is(MERGE) then IndexOf(order, id) < k || IndexOf(order, id) == |order|
    else g.IsExternal(id) || IndexOf(order, id) < k
  }

  // ---------------------------------------------------------------- liveness

  /** Liveness of a graph for given op outcomes and initial marks. With `mergesStay`, a
      Merge that did not run still counts as active if it was marked so at the start. */
  datatype Dag = Dag(g: Layout, ops: Ops, flow: Flow, mergesStay: bool) {
    /** Is node `id` active, given which of the first nodes ran? */
    predicate Active(ran: seq<bool>, id: int) {
      var j := IndexOf(Order(g), id);
      if j < |ran| && j < |Order(g)| then ran[j] || (mergesStay && Order(g)[j].Is(MERGE) && flow.Node(id).active)
      else flow.Node(id).active
    }

    /** The branch node `id` took. */
    function Branch(ran: seq<bool>, id: int): int {
      var j := IndexOf(Order(g), id);
      if j < |ran| && ran[j] && ops(j + 1, id).branch.Some? then ops(j + 1, id).branch.value
      else flow.Node(id).branch
    }

    /** The input is active and, if it diverges, took the branch being read. */
    predicate Feeds(ran: seq<bool>, input: (int, int)) {
      g.IsExternal(input.0)
      || (Active(ran, input.0)
          && (input.0 in g.mapped && g.mapped[input.0].IsDivergencePoint() ==> Branch(ran, input.0) == input.1))
    }

    /** Does the node after the ones in `ran` run? A Merge needs one active input, any
        other node needs all its inputs to feed it. */
    predicate Runs(ran: seq<bool>)
      requires |ran| < |Order(g)|
    {
      var node := Order(g)[|ran|];
      if node.Is(MERGE) then
        |node.inputs| >= 2 && (Active(ran, node.inputs[0].0) || Active(ran, node.inputs[1].0))
      else forall e :: 0 <= e < |node.inputs| ==> Feeds(ran, node.inputs[e])
    }

    /** Which of the first `k` nodes run. */
    function Live(k: nat): (ran: seq<bool>)
      requires k <= |Order(g)|
      ensures |ran| == k
    {
      if k == 0 then [] else var ran := Live(k - 1); ran + [Runs(ran)]
    }
  }

  /** The ids of the nodes that ran, in order. */
  function Ids(order: seq<Node>, ran: seq<bool>): seq<int>
    requires |ran| <= |order|
  {
    if ran == [] then []
    else Ids(order, ran[..|ran| - 1]) + if ran[|ran| - 1] then [order[|ran| - 1].id] else []
  }

  /** The ids a log says were executed, in order. */
  function ExecutedIds(log: seq<Event>): seq<int> {
    if log == [] then []
    else ExecutedIds(log[..|log| - 1]) + if log[|log| - 1].Executed? then [log[|log| - 1].id] else []
  }

  // ---------------------------------------------------------------- the run

  /** What is left to visit. */
  function Rest(g: Layout, l: nat, n: nat): seq<Node> {
    if l >= |g.onion| then []
    else if n <= g.LayerSize(l) then (if l in g.onion then g.onion[l][n..] else []) + Flatten(g, l + 1)
    else Flatten(g, l + 1)
  }

  /** The marks say what the definition says, for the first `k` nodes and for all others. */
  ghost predicate MarksMatch(d: Dag, flow: Flow, k: nat)
    requires k <= |Order(d.g)|
  {
    var order, ran := Order(d.g), d.Live(k);
    forall id ::
      && flow.Node(id).active == d.Active(ran, id)
      && flow.Node(id).branch == d.Branch(ran, id)
  }

  /** `k` nodes have been visited and the walk goes on. */
  ghost predicate Walking(d: Dag, s: State, k: nat) {
    var order := Order(d.g);
    && s.status == Running && s.counter == k <= |order| && k <= MAX_VISITS
    && s.l >= 0 && s.n <= d.g.LayerSize(s.l)
    && order[k..] == Rest(d.g, s.l, s.n)
    && s.frames == [] && !s.leftFrame
    && MarksMatch(d, s.flow, k)
    && ExecutedIds(s.log) == Ids(order, d.Live(k))
  }

  /** The walk has ended: at the end of the graph, at a failing op, or out of budget. */
  ghost predicate Ended(d: Dag, s: State) {
    var order := Order(d.g);
    && s.counter <= |order| + (if s.status == EarlyTermination then 1 else 0)
    && match s.status
       case Finished => s.counter == |order| && ExecutedIds(s.log) == Ids(order, d.Live(|order|))
       case OpFailed(code) =>
         && 0 < s.counter <= |order| && ExecutedIds(s.log) == Ids(order, d.Live(s.counter - 1))
         && d.Live(s.counter)[s.counter - 1]
         && d.ops(s.counter, order[s.counter - 1].id).status == code != 0
       case EarlyTermination =>
         s.counter == MAX_VISITS + 1 <= |order| && ExecutedIds(s.log) == Ids(order, d.Live(MAX_VISITS))
       case _ => false
  }

  lemma RestUnfolds(g: Layout, l: nat, n: nat)
    requires l < |g.onion|
    ensures n >= g.LayerSize(l) && n <= g.LayerSize(l) ==> Rest(g, l, n) == Rest(g, l + 1, 0)
    ensures n < g.LayerSize(l) ==> Rest(g, l, n) == [g.At(l, n)] + Rest(g, l, n + 1)
  {
  }

  lemma InputMapped(g: Layout, k: nat, e: nat)
    requires LoopFree(g) && k < |Order(g)| && !Order(g)[k].Is(MERGE) && e < |Order(g)[k].inputs|
    ensures var id := Order(g)[k].inputs[e].0; g.IsExternal(id) || id in g.mapped
  {
    assert InputOrdered(g, Order(g), k, Order(g)[k].inputs[e].0);
  }

  /** The input loop of an ordinary node decides as the definition does. */
  lemma {:induction false} CheckInputsDecides(d: Dag, flow: Flow, k: nat, e: nat)
    requires LoopFree(d.g) && k < |Order(d.g)| && MarksMatch(d, flow, k)
    requires var node := Order(d.g)[k]; !node.Is(MERGE) && e <= |node.inputs|
    ensures var node := Order(d.g)[k];
            CheckInputs(d.g, flow, node.inputs, e) ==
            if forall i :: e <= i < |node.inputs| ==> d.Feeds(d.Live(k), node.inputs[i]) then Proceed else Skip
    decreases |Order(d.g)[k].inputs| - e
  {
    hide LoopFree, Order, Dag.Active, Dag.Branch, Dag.Live;
    var node, ran := Order(d.g)[k], d.Live(k);
    if e < |node.inputs| {
      CheckInputsDecides(d, flow, k, e + 1);
      InputMapped(d.g, k, e);
      var (id, branch) := node.inputs[e];
      assert flow.Node(id).active == d.Active(ran, id);
      assert flow.Node(id).branch == d.Branch(ran, id);
      assert d.Feeds(ran, node.inputs[e]) ==>
        ((forall i :: e <= i < |node.inputs| ==> d.Feeds(ran, node.inputs[i]))
         <==> (forall i :: e + 1 <= i < |node.inputs| ==> d.Feeds(ran, node.inputs[i])));
    }
  }

  lemma CheckDecides(d: Dag, flow: Flow, k: nat)
    requires LoopFree(d.g) && k < |Order(d.g)| && MarksMatch(d, flow, k)
    ensures Check(d.g, flow, Order(d.g)[k]) == if d.Runs(d.Live(k)) then Proceed else Skip
  {
    var node, ran := Order(d.g)[k], d.Live(k);
    if node.Is(MERGE) {
      assert flow.Node(node.inputs[0].0).active == d.Active(ran, node.inputs[0].0);
      assert flow.Node(node.inputs[1].0).active == d.Active(ran, node.inputs[1].0);
    } else {
      CheckInputsDecides(d, flow, k, 0);
    }
  }

  /** The marks of the node just visited follow the definition; all others are kept. */
  ghost predicate MarksNode(d: Dag, flow: Flow, after: Flow, k: nat)
    requires k < |Order(d.g)|
  {
    var node := Order(d.g)[k];
    var now, was, o := after.Node(node.id), flow.Node(node.id), d.ops(k + 1, node.id);
    && (forall id :: id != node.id ==> after.Node(id) == flow.Node(id))
    && if d.Runs(d.Live(k)) then now.active && now.branch == if o.branch.Some? then o.branch.value else was.branch
       else now.active == (node.Is(MERGE) && was.active) && now.branch == was.branch
  }

  /** One more node visited, its marks set: the marks still match. */
  lemma MarksGrow(d: Dag, flow: Flow, after: Flow, k: nat)
    requires LoopFree(d.g) && k < |Order(d.g)| && d.mergesStay && MarksMatch(d, flow, k)
    requires MarksNode(d, flow, after, k)
    ensures MarksMatch(d, after, k + 1)
  {
    forall id
      ensures after.Node(id).active == d.Active(d.Live(k + 1), id) && after.Node(id).branch == d.Branch(d.Live(k + 1), id)
    {
      assert flow.Node(id).active == d.Active(d.Live(k), id) && flow.Node(id).branch == d.Branch(d.Live(k), id);
      MarkGrows(d, k, id);
      MarkBefore(d, k);
    }
  }

  /** Visiting node `k` changes no other node's liveness. */
  lemma MarkGrows(d: Dag, k: nat, id: int)
    requires LoopFree(d.g) && k < |Order(d.g)|
    ensures var order, ran, more := Order(d.g), d.Live(k), d.Live(k + 1);
            if id != order[k].id then d.Active(more, id) == d.Active(ran, id) && d.Branch(more, id) == d.Branch(ran, id)
            else var o := d.ops(k + 1, id);
                 && d.Active(more, id) == (d.Runs(ran) || (d.mergesStay && order[k].Is(MERGE) && d.flow.Node(id).active))
                 && d.Branch(more, id) == if d.Runs(ran) && o.branch.Some? then o.branch.value else d.flow.Node(id).branch
  {
    hide LoopFree, Order, Dag.Runs, IndexOf;
    FirstIndex(d.g, k);
    assert d.Live(k + 1) == d.Live(k) + [d.Runs(d.Live(k))];
  }

  lemma FirstIndex(g: Layout, k: nat)
    requires LoopFree(g) && k < |Order(g)|
    ensures IndexOf(Order(g), Order(g)[k].id) == k
  {
  }

  /** Before its visit a node's marks are the initial ones. */
  lemma MarkBefore(d: Dag, k: nat)
    requires LoopFree(d.g) && k < |Order(d.g)|
    ensures var id, ran := Order(d.g)[k].id, d.Live(k);
            d.Active(ran, id) == d.flow.Node(id).active && d.Branch(ran, id) == d.flow.Node(id).branch
  {
    hide LoopFree, Order;
    FirstIndex(d.g, k);
  }

  lemma ExecutedGrows(log: seq<Event>, e: Event)
    ensures ExecutedIds(log + [e]) == ExecutedIds(log) + if e.Executed? then [e.id] else []
  {
    assert (log + [e])[..|log|] == log;
  }

  lemma IdsGrow(order: seq<Node>, ran: seq<bool>, b: bool)
    requires |ran| < |order|
    ensures Ids(order, ran + [b]) == Ids(order, ran) + if b then [order[|ran|].id] else []
  {
    assert (ran + [b])[..|ran|] == ran;
  }

  /** In a loop-free graph a node that passes its check just runs its op. */
  lemma DispatchRuns(d: Dag, s: State, k: nat)
    requires LoopFree(d.g) && k < |Order(d.g)| && s.frames == []
    ensures var node := Order(d.g)[k]; var o := d.ops(s.counter, node.id);
            var t := Dispatch(d.g, s, node, o);
            var marked := Process(s.(flow := s.flow.MarkActive(node.id, true)), node, o);
            t == if o.status != 0 then marked.Stop(OpFailed(o.status)) else Complete(marked, node)
  {
    hide RunEnter, RunNextIteration, RunExit;
    var node := Order(d.g)[k];
    assert !IsLoopOp(d.g.mapped[node.id]);
    if node.Is(MERGE) && node.inputs[1].0 in d.g.mapped {
      assert !IsLoopOp(d.g.mapped[node.inputs[1].0]);
    }
  }

  lemma WalkVisits(d: Dag, s: State, k: nat)
    requires LoopFree(d.g) && d.mergesStay && Walking(d, s, k)
    requires s.l < |d.g.onion| && s.n < d.g.LayerSize(s.l)
    ensures var t := Visit(d.g, d.ops, s); Walking(d, t, k + 1) || (t.status != Running && Ended(d, t))
  {
    hide LoopFree, MarksMatch, Dispatch, Check, CloseFrame, Order, Rest, Dag.Live, Dag.Runs, ExecutedIds, Ids;
    var order := Order(d.g);
    RestUnfolds(d.g, s.l, s.n);
    assert order[k..][0] == d.g.At(s.l, s.n);
    assert order[k + 1..] == order[k..][1..];
    var ran := d.Live(k);
    LiveGrows(d, k);
    NotExit(d.g, k);
    if k < MAX_VISITS {
      var s0 := s.(counter := s.counter + 1);
      CheckDecides(d, s.flow, k);
      IdsGrow(order, ran, d.Runs(ran));
      if d.Runs(ran) {
        WalkRuns(d, s0, k);
      } else {
        WalkSkips(d, s0, k);
      }
    }
  }

  lemma LiveGrows(d: Dag, k: nat)
    requires k < |Order(d.g)|
    ensures d.Live(k + 1) == d.Live(k) + [d.Runs(d.Live(k))]
  {
  }

  lemma NotExit(g: Layout, k: nat)
    requires LoopFree(g) && k < |Order(g)|
    ensures !Order(g)[k].Is(EXIT)
  {
    assert !IsLoopOp(g.mapped[Order(g)[k].id]);
  }

  lemma WalkRuns(d: Dag, s: State, k: nat)
    requires LoopFree(d.g) && d.mergesStay && k < |Order(d.g)| && MarksMatch(d, s.flow, k)
    requires d.Runs(d.Live(k)) && s.counter == k + 1 && s.status == Running && s.frames == [] && !s.leftFrame
    ensures var node := Order(d.g)[k]; var o := d.ops(k + 1, node.id); var t := Dispatch(d.g, s, node, o);
            && t.counter == s.counter && t.frames == [] && !t.leftFrame && t.l == s.l
            && if o.status != 0 then t.status == OpFailed(o.status) && t.log == s.log
               else t.status == Running && t.n == s.n + 1 && MarksMatch(d, t.flow, k + 1)
                    && ExecutedIds(t.log) == ExecutedIds(s.log) + [node.id]
  {
    hide LoopFree, MarksMatch, Dispatch, Dag.Runs, Order, Dag.Live, ExecutedIds, Flow.Node;
    var node := Order(d.g)[k];
    DispatchRuns(d, s, k);
    ExecutedGrows(s.log, Executed(node.id));
    var t := Dispatch(d.g, s, node, d.ops(k + 1, node.id));
    if t.status == Running {
      RunMarks(d, s, t, k);
      MarksGrow(d, s.flow, t.flow, k);
    }
  }

  lemma RunMarks(d: Dag, s: State, t: State, k: nat)
    requires k < |Order(d.g)| && d.Runs(d.Live(k))
    requires var node := Order(d.g)[k]; var o := d.ops(k + 1, node.id);
             t == Complete(Process(s.(flow := s.flow.MarkActive(node.id, true)), node, o), node)
    ensures MarksNode(d, s.flow, t.flow, k)
  {
    hide Order, Dag.Runs, Dag.Live;
  }

  lemma WalkSkips(d: Dag, s: State, k: nat)
    requires LoopFree(d.g) && d.mergesStay && k < |Order(d.g)| && MarksMatch(d, s.flow, k)
    requires !d.Runs(d.Live(k)) && s.status == Running
    ensures var node := Order(d.g)[k]; var t := SkipNode(s, node);
            MarksMatch(d, t.flow, k + 1) && ExecutedIds(t.log) == ExecutedIds(s.log)
  {
    hide LoopFree, MarksMatch;
    var node := Order(d.g)[k];
    ExecutedGrows(s.log, Skipped(node.id));
    MarksGrow(d, s.flow, SkipNode(s, node).flow, k);
  }

  lemma WalkStep(d: Dag, s: State, k: nat)
    requires LoopFree(d.g) && d.mergesStay && Walking(d, s, k)
    ensures var t := Step(d.g, d.ops, s);
            (t.status == Running && (Walking(d, t, k) || Walking(d, t, k + 1))) || (t.status != Running && Ended(d, t))
  {
    hide Visit, MarksMatch, LoopFree;
    if s.l < |d.g.onion| {
      RestUnfolds(d.g, s.l, s.n);
      if s.n < d.g.LayerSize(s.l) {
        WalkVisits(d, s, k);
      }
    } else {
      assert Order(d.g)[k..] == [];
    }
  }

  /** Where a run starts. */
  lemma WalkStarts(d: Dag, frameIds: map<int, int>, rewindLayers: map<int, int>)
    requires LoopFree(d.g)
    ensures Walking(d, Start(d.flow, frameIds, rewindLayers), 0)
  {
    assert Order(d.g)[0..] == Order(d.g);
  }

  /** In every reachable state of a loop-free run the nodes executed so far are exactly the
      live ones among the nodes visited so far. */
  lemma {:induction false} ExecutesTheLive(d: Dag, frameIds: map<int, int>, rewindLayers: map<int, int>, k: nat)
    requires LoopFree(d.g) && d.mergesStay
    ensures var t := Steps(d.g, d.ops, Start(d.flow, frameIds, rewindLayers), k);
            if t.status == Running then Walking(d, t, t.counter) else Ended(d, t)
  {
    hide LoopFree, Walking, Ended, Step;
    var s := Start(d.flow, frameIds, rewindLayers);
    if k == 0 {
      WalkStarts(d, frameIds, rewindLayers);
    } else {
      ExecutesTheLive(d, frameIds, rewindLayers, k - 1);
      var t := Steps(d.g, d.ops, s, k - 1);
      if t.status == Running {
        WalkStep(d, t, t.counter);
        WalkingCounts(d, Step(d.g, d.ops, t), t.counter);
        WalkingCounts(d, Step(d.g, d.ops, t), t.counter + 1);
      } else {
        assert Step(d.g, d.ops, t) == t by { HaltedStays(d, t); }
      }
    }
  }

  lemma WalkingCounts(d: Dag, s: State, k: nat)
    ensures Walking(d, s, k) ==> s.counter == k
  {
  }

  lemma HaltedStays(d: Dag, s: State)
    requires s.status != Running
    ensures Step(d.g, d.ops, s) == s
  {
  }

  /** The op of every live node succeeds. */
  ghost predicate OpsSucceed(d: Dag) {
    var order := Order(d.g);
    forall k :: 0 <= k < |order| && d.Live(k + 1)[k] ==> d.ops(k + 1, order[k].id).status == 0
  }

  /** How a loop-free run ends. It has executed exactly the live nodes it visited, in graph
      order; and when the ops succeed it gets through the graph if and only if the graph
      has at most 10000 nodes. */
  lemma LoopFreeRun(d: Dag, frameIds: map<int, int>, rewindLayers: map<int, int>)
    requires LoopFree(d.g) && d.mergesStay
    ensures var end := Run(d.g, d.ops, Start(d.flow, frameIds, rewindLayers));
            && Ended(d, end)
            && (OpsSucceed(d) ==> (end.status == Finished <==> |Order(d.g)| <= MAX_VISITS))
            && (OpsSucceed(d) && |Order(d.g)| <= MAX_VISITS ==>
                  ExecutedIds(end.log) == Ids(Order(d.g), d.Live(|Order(d.g)|)))
  {
    hide LoopFree, Walking, Step, Order, Dag.Live;
    var s := Start(d.flow, frameIds, rewindLayers);
    var k := ER.Halts(d.g, d.ops, s);
    ExecutesTheLive(d, frameIds, rewindLayers, k);
    var end := Run(d.g, d.ops, s);
    if OpsSucceed(d) && end.status.OpFailed? {
      assert false;
    }
    if end.status == Finished {
      ER.BudgetKept(d.g, d.ops, s, k);
    }
  }

  // ---------------------------------------------------------------- skipped Merges

  /** A Merge that did not run but was marked active when the run began. */
  predicate StaleMerge(d: Dag, ran: seq<bool>, id: int) {
    var order := Order(d.g);
    var j := IndexOf(order, id);
    j < |ran| && j < |order| && order[j].Is(MERGE) && !ran[j] && d.flow.Node(id).active
  }

  /** The input is such a Merge and, should that diverge, its initial branch is the one read. */
  predicate StaleInput(d: Dag, ran: seq<bool>, input: (int, int)) {
    && StaleMerge(d, ran, input.0)
    && (input.0 in d.g.mapped && d.g.mapped[input.0].IsDivergencePoint() ==> d.flow.Node(input.0).branch == input.1)
  }

  /** Node `k` should not run, but nothing holds it back except Merges that did not run and
      still pass for active: one of the two inputs of a Merge is one, or every input of
      another node feeds it or is one. `d` stands for what is intended. */
  predicate HeldByStaleMerges(d: Dag, k: nat)
    requires k < |Order(d.g)|
  {
    var node, ran := Order(d.g)[k], d.Live(k);
    && !d.Runs(ran)
    && if node.Is(MERGE) then
         |node.inputs| >= 2 && (StaleMerge(d, ran, node.inputs[0].0) || StaleMerge(d, ran, node.inputs[1].0))
       else
         forall e :: 0 <= e < |node.inputs| ==> d.Feeds(ran, node.inputs[e]) || StaleInput(d, ran, node.inputs[e])
  }

  /** What the executor makes of an input, in terms of what is intended. */
  lemma StaleFeeds(d: Dag, ran: seq<bool>, input: (int, int))
    requires !d.mergesStay
    ensures d.(mergesStay := true).Active(ran, input.0) <==> d.Active(ran, input.0) || StaleMerge(d, ran, input.0)
    ensures d.(mergesStay := true).Feeds(ran, input) <==> d.Feeds(ran, input) || StaleInput(d, ran, input)
  {
    hide Order, IndexOf;
  }

  lemma RunsIff(d: Dag, k: nat)
    requires !d.mergesStay && k < |Order(d.g)|
    ensures d.(mergesStay := true).Runs(d.Live(k)) <==> d.Runs(d.Live(k)) || HeldByStaleMerges(d, k)
    ensures HeldByStaleMerges(d, k) ==> !d.Runs(d.Live(k))
  {
    hide Order, Dag.Live, Dag.Feeds, Dag.Active, StaleInput, StaleMerge;
    var node, ran, on := Order(d.g)[k], d.Live(k), d.(mergesStay := true);
    forall e | 0 <= e < |node.inputs|
      ensures on.Feeds(ran, node.inputs[e]) <==> d.Feeds(ran, node.inputs[e]) || StaleInput(d, ran, node.inputs[e])
      ensures on.Active(ran, node.inputs[e].0) <==> d.Active(ran, node.inputs[e].0) || StaleMerge(d, ran, node.inputs[e].0)
    {
      StaleFeeds(d, ran, node.inputs[e]);
    }
  }

  /** A skipped Merge is never marked inactive, so its readers still take it for active. The
      executor's choice is the intended one if and only if stale Merges hold up no node. */
  lemma {:induction false} InputsRanIff(d: Dag, k: nat)
    requires !d.mergesStay && k <= |Order(d.g)|
    ensures d.(mergesStay := true).Live(k) == d.Live(k) <==> forall j :: 0 <= j < k ==> !HeldByStaleMerges(d, j)
  {
    hide Order, Dag.Runs, Dag.Live, HeldByStaleMerges;
    var on := d.(mergesStay := true);
    if k > 0 {
      InputsRanIff(d, k - 1);
      LiveGrows(on, k - 1);
      LiveGrows(d, k - 1);
      RunsIff(d, k - 1);
      if on.Live(k - 1) != d.Live(k - 1) {
        assert on.Live(k)[..k - 1] != d.Live(k)[..k - 1];
      } else {
        assert on.Live(k) == d.Live(k) <==> on.Live(k)[k - 1] == d.Live(k)[k - 1];
        assert on.Live(k) == d.Live(k) <==> !HeldByStaleMerges(d, k - 1);
      }
    }
  }

  lemma {:induction false} IdsAmong(order: seq<Node>, ran: seq<bool>, id: int)
    requires |ran| <= |order| && id in Ids(order, ran)
    ensures exists i :: 0 <= i < |ran| && order[i].id == id
  {
    if ran != [] {
      var n := |ran| - 1;
      if id in Ids(order, ran[..n]) {
        IdsAmong(order, ran[..n], id);
      } else {
        assert order[n].id == id;
      }
    }
  }

  predicate Unique(order: seq<Node>) {
    forall i, j :: 0 <= i < j < |order| ==> order[i].id != order[j].id
  }

  /** When ids are unique, different choices of nodes execute different ids. */
  lemma {:induction false} IdsTell(order: seq<Node>, a: seq<bool>, b: seq<bool>)
    requires |a| == |b| <= |order| && Ids(order, a) == Ids(order, b) && Unique(order)
    ensures a == b
  {
    hide Ids, Unique;
    if a != [] {
      var n := |a| - 1;
      IdsEnd(order, a, n);
      IdsEnd(order, b, n);
      LaterId(order, a[..n], n);
      LaterId(order, b[..n], n);
      EndsAlike(Ids(order, a[..n]), a[n], Ids(order, b[..n]), b[n], order[n].id);
      IdsTell(order, a[..n], b[..n]);
      assert a == a[..n] + [a[n]] && b == b[..n] + [b[n]];
    }
  }

  lemma IdsEnd(order: seq<Node>, ran: seq<bool>, n: nat)
    requires |ran| == n + 1 <= |order|
    ensures Ids(order, ran) == Ids(order, ran[..n]) + if ran[n] then [order[n].id] else []
  {
  }

  lemma EndsAlike(s: seq<int>, inS: bool, t: seq<int>, inT: bool, x: int)
    requires x !in s && x !in t && s + (if inS then [x] else []) == t + if inT then [x] else []
    ensures inS == inT && s == t
  {
    assert s + [] == s && t + [] == t;
    assert x in s + [x] && x in t + [x];
    assert (s + [x])[..|s|] == s && (t + [x])[..|t|] == t;
  }

  lemma LaterId(order: seq<Node>, ran: seq<bool>, n: nat)
    requires |ran| <= n < |order|
    requires Unique(order)
    ensures order[n].id !in Ids(order, ran)
  {
    hide Ids;
    if order[n].id in Ids(order, ran) {
      IdsAmong(order, ran, order[n].id);
    }
  }

  lemma UniqueIds(g: Layout)
    requires LoopFree(g)
    ensures Unique(Order(g))
  {
    forall i, j | 0 <= i < j < |Order(g)| ensures Order(g)[i].id != Order(g)[j].id {
      assert IndexOf(Order(g), Order(g)[i].id) == i && IndexOf(Order(g), Order(g)[j].id) == j;
    }
  }

  /** A loop-free run executes the intended nodes if and only if stale Merges hold up none. */
  lemma RunIsIntendedIff(d: Dag, frameIds: map<int, int>, rewindLayers: map<int, int>)
    requires LoopFree(d.g) && !d.mergesStay && OpsSucceed(d.(mergesStay := true)) && |Order(d.g)| <= MAX_VISITS
    ensures ExecutedIds(Run(d.g, d.ops, Start(d.flow, frameIds, rewindLayers)).log) == Ids(Order(d.g), d.Live(|Order(d.g)|))
            <==> forall j :: 0 <= j < |Order(d.g)| ==> !HeldByStaleMerges(d, j)
  {
    hide LoopFree, Order, Dag.Live, Ids, ExecutedIds, HeldByStaleMerges, Ended, OpsSucceed;
    var on, n := d.(mergesStay := true), |Order(d.g)|;
    LoopFreeRun(on, frameIds, rewindLayers);
    InputsRanIff(d, n);
    UniqueIds(d.g);
    if Ids(Order(d.g), on.Live(n)) == Ids(Order(d.g), d.Live(n)) {
      IdsTell(Order(d.g), on.Live(n), d.Live(n));
    }
  }

  /** The smallest graph that shows the difference: a Switch taking branch 0, two readers
      of branch 1, the Merge of those two, and a reader of the Merge. */
  function DeadMergeGraph(): Layout {
    var switch := Node(1, true, SWITCH, false, false, [(-1, 0), (-2, 0)], 0);
    var left := Node(2, false, 0, true, false, [(1, 1)], 1);
    var right := Node(3, false, 0, true, false, [(1, 1)], 1);
    var merge := Node(4, true, MERGE, false, false, [(2, 0), (3, 0)], 2);
    var reader := Node(5, false, 0, true, false, [(4, 0)], 3);
    Layout(map[0 := [switch], 1 := [left, right], 2 := [merge], 3 := [reader]],
           map[1 := switch, 2 := left, 3 := right, 4 := merge, 5 := reader], {})
  }

  lemma DeadMergeOrder()
    ensures var g := DeadMergeGraph();
            Order(g) == [g.mapped[1], g.mapped[2], g.mapped[3], g.mapped[4], g.mapped[5]]
  {
    var g := DeadMergeGraph();
    assert |g.onion| == 4 by {
      assert g.onion.Keys == {0, 1, 2, 3};
      assert |{0, 1, 2, 3}| == 4;
    }
    assert Flatten(g, 4) == [];
    assert Flatten(g, 3) == [g.mapped[5]];
    assert Flatten(g, 2) == [g.mapped[4], g.mapped[5]];
    assert Flatten(g, 1) == [g.mapped[2], g.mapped[3], g.mapped[4], g.mapped[5]];
  }

  lemma IndexOfAt(order: seq<Node>, k: nat)
    requires k < |order| && forall j :: 0 <= j < k ==> order[j].id != order[k].id
    ensures IndexOf(order, order[k].id) == k
  {
  }

  lemma DeadMergePlaces()
    ensures var g := DeadMergeGraph();
            && Order(g) == [g.mapped[1], g.mapped[2], g.mapped[3], g.mapped[4], g.mapped[5]]
            && IndexOf(Order(g), 1) == 0 && IndexOf(Order(g), 2) == 1 && IndexOf(Order(g), 3) == 2
            && IndexOf(Order(g), 4) == 3
  {
    hide Order, Flatten, IndexOf;
    DeadMergeOrder();
    var order := Order(DeadMergeGraph());
    IndexOfAt(order, 0);
    IndexOfAt(order, 1);
    IndexOfAt(order, 2);
    IndexOfAt(order, 3);
  }

  /** The run of that graph when every op takes branch 0. */
  function DeadMergeDag(mergesStay: bool): Dag {
    Dag(DeadMergeGraph(), (v, id) => Outcome(0, Some(0), false), Flow(map[], map[]), mergesStay)
  }

  lemma DeadMergeRun(mergesStay: bool)
    ensures |Order(DeadMergeGraph())| == 5
    ensures DeadMergeDag(mergesStay).Live(4) == [true, false, false, false]
  {
    hide Order, IndexOf, Dag.Live, Dag.Runs;
    DeadMergePlaces();
    var d := DeadMergeDag(mergesStay);
    assert d.Live(0) == [];
    SwitchRuns(d);
    LiveGrows(d, 0);
    assert d.Live(1) == [true];
    WrongBranchSkipped(d, [true]);
    LiveGrows(d, 1);
    assert d.Live(2) == [true, false];
    WrongBranchSkipped(d, [true, false]);
    LiveGrows(d, 2);
    assert d.Live(3) == [true, false, false];
    BothInputsDead(d);
    LiveGrows(d, 3);
  }

  lemma SwitchRuns(d: Dag)
    requires d.g == DeadMergeGraph()
    ensures |Order(d.g)| == 5 && d.Runs([])
  {
    hide Order, IndexOf;
    DeadMergePlaces();
    assert Order(d.g)[0].inputs == [(-1, 0), (-2, 0)];
  }

  lemma WrongBranchSkipped(d: Dag, ran: seq<bool>)
    requires d == DeadMergeDag(d.mergesStay) && (ran == [true] || ran == [true, false])
    ensures |Order(d.g)| == 5 && !d.Runs(ran)
  {
    hide Order, IndexOf;
    DeadMergePlaces();
    assert Order(d.g)[|ran|].inputs[0] == (1, 1);
    assert !d.Feeds(ran, (1, 1));
  }

  lemma BothInputsDead(d: Dag)
    requires d == DeadMergeDag(d.mergesStay)
    ensures |Order(d.g)| == 5 && !d.Runs([true, false, false])
  {
    hide Order, IndexOf;
    DeadMergePlaces();
    assert !d.Active([true, false, false], 2) && !d.Active([true, false, false], 3);
  }

  lemma DeadMergeLive()
    ensures |Order(DeadMergeGraph())| == 5
    ensures DeadMergeDag(true).Live(5) == [true, false, false, false, true]
    ensures DeadMergeDag(false).Live(5) == [true, false, false, false, false]
  {
    hide Order, IndexOf, Dag.Live, Dag.Runs;
    DeadMergeRun(true);
    DeadMergeRun(false);
    ReaderRunsIff(DeadMergeDag(true));
    ReaderRunsIff(DeadMergeDag(false));
    LiveGrows(DeadMergeDag(true), 4);
    LiveGrows(DeadMergeDag(false), 4);
  }

  lemma DeadMergeLoopFree()
    ensures LoopFree(DeadMergeGraph())
  {
    hide Order, IndexOf;
    var g := DeadMergeGraph();
    DeadMergePlaces();
    var order := Order(g);
    forall k | 0 <= k < |order|
      ensures order[k].id in g.mapped && g.mapped[order[k].id] == order[k] && IndexOf(order, order[k].id) == k
      ensures order[k].Is(MERGE) ==> |order[k].inputs| >= 2
    {
      assert order[k].id == k + 1;
    }
    forall k, e | 0 <= k < |order| && 0 <= e < |order[k].inputs| ensures InputOrdered(g, order, k, order[k].inputs[e].0) {
    }
  }

  lemma FirstAndFifth(order: seq<Node>)
    requires |order| == 5
    ensures Ids(order, [true, false, false, false, true]) == [order[0].id, order[4].id]
  {
    var ran := [true, false, false, false, true];
    assert ran[..4] == [true, false, false, false] && ran[..4][..3] == [true, false, false];
    assert ran[..4][..3][..2] == [true, false] && ran[..4][..3][..2][..1] == [true] && [true][..0] == [];
    assert Ids(order, [true]) == [order[0].id];
    assert Ids(order, [true, false]) == [order[0].id];
    assert Ids(order, [true, false, false]) == [order[0].id];
    assert Ids(order, [true, false, false, false]) == [order[0].id];
  }

  /** In that graph the executor runs nodes 1 and 5: the reader of the Merge runs although
      nothing it takes in did. */
  lemma DeadMergeFeeds(frameIds: map<int, int>, rewindLayers: map<int, int>)
    ensures var d := DeadMergeDag(true);
            var end := Run(d.g, d.ops, Start(d.flow, frameIds, rewindLayers));
            end.status == Finished && ExecutedIds(end.log) == [1, 5]
    ensures |Order(DeadMergeGraph())| == 5 && DeadMergeDag(false).Live(5) == [true, false, false, false, false]
  {
    hide LoopFree, Order, Dag.Live, Ids, ExecutedIds, Ended, IndexOf;
    var d := DeadMergeDag(true);
    DeadMergeLoopFree();
    DeadMergeLive();
    LoopFreeRun(d, frameIds, rewindLayers);
    FirstAndFifth(Order(d.g));
    DeadMergePlaces();
  }

  lemma ReaderRunsIff(d: Dag)
    requires d == DeadMergeDag(d.mergesStay)
    ensures |Order(d.g)| == 5 && (d.Runs([true, false, false, false]) <==> d.mergesStay)
  {
    hide Order, IndexOf;
    DeadMergePlaces();
    assert Order(d.g)[4].inputs == [(4, 0)] && Order(d.g)[4].inputs[0] == (4, 0);
    assert d.Feeds([true, false, false, false], (4, 0)) <==> d.mergesStay;
  }
}
