/** A loop inside the body of another. Every pass of the outer loop opens the inner frame above
    the outer one, runs the inner loop to its end and drops the inner frame again. The pass that
    should leave the outer loop does not come out of it: it visits the inner Exit, which leaves
    the outer frame instead. */
module ExecutorNest {
  import opened FlowPaths
  import opened Graphs
  import opened ExecutorSteps
  import opened ExecutorLoop
  import opened Wrappers

  /** The inner Enter is alone in layer `enter`, and the inner loop begins behind it; around
      them the body of the outer loop is plain. */
  datatype Nest = Nest(outer: Loop, inner: Loop, enter: nat) {
    predicate Layered() {
      && outer.g == inner.g && outer.Stands() && inner.Stands() && outer.Alone(outer.tail) && inner.Alone(inner.tail)
      && outer.fork < enter && outer.Alone(enter) && inner.head == enter + 1 && inner.tail < outer.tail - 1
    }

    function Enter(): Node requires outer.Alone(enter) { outer.g.At(enter, 0) }

    /** A layer of the inner loop. */
    predicate Within(l: nat) { inner.head <= l <= inner.tail }

    ghost predicate WellFormed() {
      && Layered() && outer.Opens() && Closes(outer) && inner.WellFormed()
      && Enter().Is(ENTER) && outer.ReadsAt(enter, 0) && inner.Merge().inputs[0].0 == Enter().id
      && PlainStretch(outer, outer.fork + 1, enter) && PlainStretch(outer, inner.tail + 1, outer.tail - 1)
      && (forall l, n :: outer.head <= l <= outer.tail && !Within(l) ==> ApartAt(l, n))
      && (forall l, n :: outer.fork < l < outer.tail && !Within(l) ==> SourcedAt(l, n))
      && (forall l, n :: inner.head < l < inner.tail ==> EntersAt(l, n))
    }

    /** The inner loop and its Enter share no id with the rest. */
    ghost predicate ApartAt(l: nat, n: nat)
      requires Layered()
    {
      n < outer.g.LayerSize(l) ==>
        var id := outer.g.At(l, n).id; !Inner(id) && (l != enter ==> id != Enter().id)
    }

    /** A node of the inner loop. */
    ghost predicate Inner(id: int)
      requires Layered()
    {
      inner.Has(id) || id == inner.Exit().id
    }

    /** The outer body reads what is outside, or earlier in the pass; of the inner loop, behind
        it, only the Exit. */
    ghost predicate SourcedAt(l: nat, n: nat)
      requires Layered()
    {
      n < outer.g.LayerSize(l) ==>
        forall e :: 0 <= e < |outer.g.At(l, n).inputs| ==>
          var id := outer.g.At(l, n).inputs[e].0;
          || outer.g.IsExternal(id) || !outer.Has(id) || (l > inner.tail && id == inner.Exit().id)
          || (outer.Between(outer.head, 0, l, n, id) && !Inner(id))
    }

    /** The inner loop reads what is its own, or outside both, or earlier in the outer pass. */
    ghost predicate EntersAt(l: nat, n: nat) {
      n < inner.g.LayerSize(l) ==>
        forall e :: 0 <= e < |inner.g.At(l, n).inputs| ==>
          var id := inner.g.At(l, n).inputs[e].0;
          inner.g.IsExternal(id) || inner.Has(id) || !outer.Has(id) || outer.Between(outer.head, 0, enter + 1, 0, id)
    }

    /** The visits of an outer pass up to the head of the inner loop. */
    function Before(): nat { |outer.Nodes(outer.head, 0, enter)| + 1 }

    /** The visits of an outer pass with `n` true inner conditions. */
    function Pass(n: nat): nat
      requires Layered()
    {
      Before() + (n + 1) * inner.Pass() + |outer.Nodes(inner.tail + 1, 0, outer.tail - 1)| + 2
    }
  }

  /** From `s` the run gets to `r`, if there are visits enough, and is cut short else. */
  ghost predicate Arrives(g: Layout, ops: Ops, s: State, r: State, visits: nat, log: seq<Event>)
    requires s.counter <= MAX_VISITS
  {
    if s.counter + visits <= MAX_VISITS then
      r.counter == s.counter + visits && r.log == s.log + log && Run(g, ops, s) == Run(g, ops, r)
    else Run(g, ops, s).status == EarlyTermination
  }

  lemma ArrivesIf(lp: Loop, ops: Ops, s: State, r: State, f: int, visits: nat, log: seq<Event>)
    requires lp.Stands() && s.counter <= MAX_VISITS && Gets(lp, ops, s, r, f, visits, log)
    ensures Arrives(lp.g, ops, s, r, visits, log)
    ensures s.counter + visits <= MAX_VISITS ==>
              r.frames == s.frames && Keeps(lp, s, r, f) && r.counter == s.counter + visits
  {
    hide Run, Keeps;
  }

  lemma ArrivesThrough(g: Layout, ops: Ops, s: State, t: State, r: State, v: nat, w: nat, first: seq<Event>,
      log: seq<Event>)
    requires s.counter <= MAX_VISITS && Arrives(g, ops, s, t, v, first)
    requires s.counter + v <= MAX_VISITS ==> t.counter <= MAX_VISITS && Arrives(g, ops, t, r, w, log)
    ensures Arrives(g, ops, s, r, v + w, first + log)
  {
    hide Run;
    assert s.log + first + log == s.log + (first + log);
  }

  lemma ArrivesAt(g: Layout, ops: Ops, s: State, r: State, visits: nat, log: seq<Event>)
    requires s.counter <= MAX_VISITS && Arrives(g, ops, s, r, visits, log)
    ensures s.counter + visits <= MAX_VISITS ==>
              r.counter == s.counter + visits && r.log == s.log + log && Run(g, ops, s) == Run(g, ops, r)
    ensures s.counter + visits > MAX_VISITS ==> Run(g, ops, s).status == EarlyTermination
  {
    hide Run;
  }

  // ---------------------------------------------------------------- states

  /** What the inner loop finds: its frame belongs to the Enter, and nothing is planned in it. */
  ghost predicate Fresh(ns: Nest, s: State, f2: int)
    requires ns.Layered()
  {
    && f2 >= 0 && Lookup(s.frameIds, ns.Enter().id) == f2
    && (Lookup(s.frameIds, ns.inner.Merge().id) < 0 || Lookup(s.frameIds, ns.inner.Merge().id) == f2)
    && !s.flow.Frame(f2).rewindPlanned && s.flow.Frame(f2).rewindPosition == -1
  }

  ghost predicate NestHead(ns: Nest, s: State, f: int, f2: int)
    requires ns.Layered()
  {
    AtHead(ns.outer, s, f) && Fresh(ns, s, f2) && f != f2
  }

  /** What the outer loop relies on while the inner one runs. */
  ghost predicate Beneath(ns: Nest, s: State, f: int)
    requires ns.Layered()
  {
    && Awake(ns.outer, s.flow) && Armed(ns.outer, s, f) && s.flow.Node(ns.outer.Switch().id).branch == 1
    && Lit(ns.outer, s.flow, ns.outer.head, 0, ns.enter + 1, 0)
    && (Lookup(s.frameIds, ns.outer.Merge().id) < 0 || Lookup(s.frameIds, ns.outer.Merge().id) == f)
  }

  lemma InnerIsOuter(ns: Nest, id: int)
    requires ns.Layered()
    ensures ns.Inner(id) ==> ns.outer.Has(id)
    ensures ns.outer.Between(ns.inner.head, 0, ns.inner.tail + 1, 0, id) ==> ns.Inner(id)
  {
    if ns.outer.Between(ns.inner.head, 0, ns.inner.tail + 1, 0, id) {
      var l2: nat, n2: nat :| ns.inner.head <= l2 <= ns.inner.tail && ns.outer.IsAt(l2, n2, id);
      if l2 < ns.inner.tail {
        assert ns.inner.IsAt(l2, n2, id);
      } else {
        assert n2 == 0;
      }
    }
    if ns.inner.Has(id) {
      var l2: nat, n2: nat :| ns.inner.head <= l2 < ns.inner.tail && ns.inner.IsAt(l2, n2, id);
      assert ns.outer.IsAt(l2, n2, id);
    }
    if id == ns.inner.Exit().id {
      assert ns.outer.IsAt(ns.inner.tail, 0, id);
    }
  }

  /** A node before the inner loop, or behind it, is none of the inner ones. */
  lemma ApartBetween(ns: Nest, l: nat, n: nat, l1: nat, n1: nat, id: int)
    requires ns.WellFormed() && ns.outer.Between(l, n, l1, n1, id)
    requires ns.outer.head <= l && (l1 < ns.inner.head || (l1 == ns.inner.head && n1 == 0) || l > ns.inner.tail)
             && l1 <= ns.outer.tail
    ensures !ns.Inner(id)
    ensures (l1 < ns.enter || (l1 == ns.enter && n1 == 0) || l > ns.enter) ==> id != ns.Enter().id
  {
    hide Loop.Has, Loop.Opens, Loop.WellFormed;
    var l2: nat, n2: nat :|
      (l < l2 || (l == l2 && n <= n2)) && (l2 < l1 || (l2 == l1 && n2 < n1)) && ns.outer.IsAt(l2, n2, id);
    assert ns.ApartAt(l2, n2);
  }

  // ---------------------------------------------------------------- into the inner loop

  lemma Layers(ns: Nest)
    requires ns.WellFormed()
    ensures ns.Layered() && ns.outer.Opens() && Closes(ns.outer) && ns.inner.WellFormed()
    ensures ns.Enter().Is(ENTER) && ns.outer.ReadsAt(ns.enter, 0)
    ensures PlainStretch(ns.outer, ns.outer.fork + 1, ns.enter)
            && PlainStretch(ns.outer, ns.inner.tail + 1, ns.outer.tail - 1)
  {
  }

  /** The body up to the Enter may rely on what ran before. */
  lemma BeforeReady(ns: Nest, flow: Flow)
    requires ns.WellFormed() && Awake(ns.outer, flow) && Lit(ns.outer, flow, ns.outer.head, 0, ns.outer.fork + 1, 0)
    ensures Ready(ns.outer, flow, ns.outer.fork + 1, 0, ns.enter + 1)
  {
    hide Loop.Has, Loop.Between, Loop.Opens, Loop.WellFormed, Lit, Awake, Nest.Inner;
    var lp, start, upto := ns.outer, ns.outer.fork + 1, ns.enter + 1;
    forall l1, n1 | start <= l1 < upto ensures lp.OrderedAt(l1, n1) {
      assert ns.SourcedAt(l1, n1);
    }
    ReadyFrom(lp, flow, start, 0, upto);
  }

  lemma FreshKept(ns: Nest, s: State, r: State, f2: int, l: nat, n: nat, l1: nat, n1: nat)
    requires ns.WellFormed() && Fresh(ns, s, f2) && Marks(ns.outer, s, r, l, n, l1, n1)
    requires r.flow.Frame(f2) == s.flow.Frame(f2)
    requires ns.outer.head <= l && l1 <= ns.outer.tail
             && (l1 < ns.enter || (l1 == ns.enter && n1 == 0) || l > ns.inner.tail)
    ensures Fresh(ns, r, f2)
  {
    hide Loop.Has, Loop.Between, Loop.Opens, Loop.WellFormed;
    var enter, merge := ns.Enter().id, ns.inner.Merge().id;
    assert ns.inner.Has(merge) by { MergeIsInner(ns); }
    if ns.outer.Between(l, n, l1, n1, enter) {
      ApartBetween(ns, l, n, l1, n1, enter);
    }
    if ns.outer.Between(l, n, l1, n1, merge) {
      ApartBetween(ns, l, n, l1, n1, merge);
    }
  }

  lemma MergeIsInner(ns: Nest)
    requires ns.Layered()
    ensures ns.inner.Has(ns.inner.Merge().id)
  {
    assert ns.inner.IsAt(ns.inner.head, 0, ns.inner.Merge().id);
  }

  /** One visit to the inner Enter: its frame is on top. */
  lemma VisitEnter(ns: Nest, ops: Ops, s: State, f: int, f2: int)
    requires ns.WellFormed() && Obliging(ns.outer, ops) && Inside(ns.outer, s, f) && Fresh(ns, s, f2) && f != f2
    requires ReadyAt(ns.outer, s.flow, ns.enter, 0, ns.enter, 0) && s.flow.Node(ns.outer.Switch().id).branch == 1
    requires s.counter < MAX_VISITS && s.l == ns.enter && s.n == 0
    ensures var t := Visit(ns.outer.g, ops, s);
            && t.status == Running && !t.leftFrame && t.counter == s.counter + 1 && t.l == s.l && t.n == 1
            && t.frames == s.frames + [f2] && t.log == s.log + [Opened(f2), Executed(ns.Enter().id)]
            && t.flow.frames == s.flow.frames && t.rewindLayers == s.rewindLayers && t.frameIds == s.frameIds
            && Wakes(s.flow, t.flow) && t.flow.Node(ns.Enter().id).active
            && Marks(ns.outer, s, t, ns.enter, 0, ns.enter, 1)
  {
    hide Visit, Check, Dispatch, Loop.Has, Loop.Between, Loop.Opens, Loop.WellFormed, ReadyAt, Nest.WellFormed, Loop.ReadsAt;
    Layers(ns);
    Passes(ns.outer, s.flow, ns.enter, 0);
    Visits(ns.outer.g, ops, s);
    var s0, node := s.(counter := s.counter + 1), ns.Enter();
    var o := ops(s0.counter, node.id);
    RunsEnter(ns.outer.g, s0, node, o, f2);
    var t := Visit(ns.outer.g, ops, s);
    MarksRan(ns.outer, s.(frames := s0.frames), t.(frames := s0.frames), ns.enter, 0, o);
  }

  lemma FrameKept(lp: Loop, s: State, r: State, f: int, x: int)
    requires lp.Stands() && Keeps(lp, s, r, f) && x != f
    ensures r.flow.Frame(x) == s.flow.Frame(x)
  {
    hide Loop.Has;
  }

  lemma ArrivesNow(g: Layout, ops: Ops, s: State, r: State, log: seq<Event>)
    requires s.counter <= MAX_VISITS
    requires if s.counter < MAX_VISITS then r.counter == s.counter + 1 && r.log == s.log + log
             && Run(g, ops, s) == Run(g, ops, r)
             else Run(g, ops, s).status == EarlyTermination
    ensures Arrives(g, ops, s, r, 1, log)
  {
    hide Run;
  }

  /** Everything up to the Enter is active. */
  lemma LitToEnter(ns: Nest, a: Flow, b: Flow, c: Flow)
    requires ns.Layered() && Wakes(a, b) && Wakes(b, c)
    requires Lit(ns.outer, a, ns.outer.head, 0, ns.outer.fork + 1, 0)
             && Lit(ns.outer, b, ns.outer.fork + 1, 0, ns.enter, 0)
    requires c.Node(ns.Enter().id).active
    ensures Lit(ns.outer, c, ns.outer.head, 0, ns.enter + 1, 0)
  {
    hide Lit;
    var lp := ns.outer;
    WakesThrough(a, b, c);
    LitKept(lp, a, c, lp.head, 0, lp.fork + 1, 0);
    LitKept(lp, b, c, lp.fork + 1, 0, ns.enter, 0);
    LitOne(lp, c, ns.enter, 0);
    LitNone(lp, c, ns.enter, 1);
    LitJoins(lp, c, ns.enter, 0, ns.enter, 1, ns.enter + 1, 0);
    LitJoins(lp, c, lp.fork + 1, 0, ns.enter, 0, ns.enter + 1, 0);
    LitJoins(lp, c, lp.head, 0, lp.fork + 1, 0, ns.enter + 1, 0);
  }

  /** The inner loop finds its inputs active. */
  lemma InnerAwake(ns: Nest, flow: Flow)
    requires ns.WellFormed() && Awake(ns.outer, flow) && Lit(ns.outer, flow, ns.outer.head, 0, ns.enter + 1, 0)
    ensures Awake(ns.inner, flow)
  {
    hide Loop.Has, Loop.Between, Loop.Opens, Loop.WellFormed, Lit, Nest.Inner;
    var lp, inner := ns.outer, ns.inner;
    forall l: nat, n: nat | inner.head < l < inner.tail ensures AwakeAt(inner, flow, l, n) {
      assert ns.EntersAt(l, n) && AwakeAt(lp, flow, l, n);
      if n < inner.g.LayerSize(l) {
        forall e | 0 <= e < |inner.g.At(l, n).inputs|
          ensures var id := inner.g.At(l, n).inputs[e].0;
                  inner.g.IsExternal(id) || inner.Has(id) || flow.Node(id).active
        {
          LitAt(lp, flow, lp.head, 0, ns.enter + 1, 0, inner.g.At(l, n).inputs[e].0);
        }
      }
    }
    EnterIsBetween(ns);
    LitAt(lp, flow, lp.head, 0, ns.enter + 1, 0, ns.Enter().id);
  }

  lemma EnterIsBetween(ns: Nest)
    requires ns.Layered()
    ensures ns.outer.Between(ns.outer.head, 0, ns.enter + 1, 0, ns.Enter().id)
  {
    assert ns.outer.IsAt(ns.enter, 0, ns.Enter().id);
  }

  lemma SwitchKept(ns: Nest, s: State, r: State)
    requires ns.WellFormed() && Marks(ns.outer, s, r, ns.enter, 0, ns.enter, 1)
    ensures r.flow.Node(ns.outer.Switch().id).branch == s.flow.Node(ns.outer.Switch().id).branch
  {
    hide Loop.Has, Loop.Opens, Loop.WellFormed;
    assert ns.ApartAt(ns.outer.fork, 0);
  }

  /** The state at the head of the inner loop: `r1` is behind the outer Switch, `r2` at the
      Enter. */
  lemma AtInnerHead(ns: Nest, s: State, r1: State, r2: State, r: State, f: int, f2: int)
    requires ns.WellFormed() && Awake(ns.outer, s.flow) && Wakes(s.flow, r1.flow) && Wakes(r1.flow, r2.flow)
             && Wakes(r2.flow, r.flow)
    requires Lit(ns.outer, r1.flow, ns.outer.head, 0, ns.outer.fork + 1, 0) && Armed(ns.outer, r1, f)
    requires Lit(ns.outer, r2.flow, ns.outer.fork + 1, 0, ns.enter, 0)
    requires r2.flow.frames == r1.flow.frames && r2.rewindLayers == r1.rewindLayers
    requires Inside(ns.outer, r2, f) && Fresh(ns, r2, f2) && r2.flow.Node(ns.outer.Switch().id).branch == 1
    requires r.status == Running && r.counter <= MAX_VISITS && !r.leftFrame && r.frames == r2.frames + [f2]
    requires r.flow.frames == r2.flow.frames && r.rewindLayers == r2.rewindLayers && r.frameIds == r2.frameIds
    requires Marks(ns.outer, r2, r, ns.enter, 0, ns.enter, 1) && r.flow.Node(ns.Enter().id).active
    requires r.l == ns.inner.head && r.n == 0
    ensures AtHead(ns.inner, r, f2) && Beneath(ns, r, f) && Lookup(r.frameIds, ns.Enter().id) == f2
  {
    hide Awake, Lit, Marks, Loop.Opens, Loop.WellFormed, Nest.WellFormed, Wakes, Loop.Has, Loop.Between;
    Layers(ns);
    AwakeWakes(ns.outer, s.flow, r1.flow);
    AwakeWakes(ns.outer, r1.flow, r2.flow);
    AwakeWakes(ns.outer, r2.flow, r.flow);
    LitToEnter(ns, r1.flow, r2.flow, r.flow);
    InnerAwake(ns, r.flow);
    SwitchKept(ns, r2, r);
  }

  /** The outer pass up to the head of the inner loop. */
  lemma EntersInner(ns: Nest, ops: Ops, s: State, f: int, f2: int) returns (r: State)
    requires ns.WellFormed() && Obliging(ns.outer, ops) && NestHead(ns, s, f, f2) && Holds(ns.outer, ops, s.counter)
    ensures Arrives(ns.outer.g, ops, s, r, ns.Before(),
                    Executions(ns.outer.Nodes(ns.outer.head, 0, ns.enter)) + [Opened(f2), Executed(ns.Enter().id)])
    ensures s.counter + ns.Before() <= MAX_VISITS ==>
              && AtHead(ns.inner, r, f2) && Beneath(ns, r, f) && r.frames == s.frames + [f2]
              && Lookup(r.frameIds, ns.Enter().id) == f2
  {
    hide Visit, Run, Gets, Keeps, Awake, Loop.Has, Loop.Between, Loop.Opens, Loop.WellFormed, Ready, ReadyAt, Nest.WellFormed;
    hide Loop.Nodes, Executions, Lit, Marks, PlainStretch, Obliging, Closes, Loop.ReadsAt, Arrives, Wakes;
    Layers(ns);
    var lp, g := ns.outer, ns.outer.g;
    NodesThrough(lp, lp.head, 0, lp.fork + 1, ns.enter);
    var a, b := lp.Nodes(lp.head, 0, lp.fork + 1), lp.Nodes(lp.fork + 1, 0, ns.enter);
    ExecutionsConcat(a, b);
    var opens := [Opened(f2), Executed(ns.Enter().id)];
    var r1 := Decides(lp, ops, s, f);
    ArrivesIf(lp, ops, s, r1, f, |a|, Executions(a));
    var r2 := r1;
    r := r1;
    if s.counter + |a| <= MAX_VISITS {
      AwakeWakes(lp, s.flow, r1.flow);
      BeforeReady(ns, r1.flow);
      FrameKept(lp, s, r1, f, f2);
      FreshKept(ns, s, r1, f2, lp.head, 0, lp.fork + 1, 0);
      r2 := RunsOn(lp, ops, r1, f, ns.enter, ns.enter + 1);
      ArrivesIf(lp, ops, r1, r2, f, |b|, Executions(b));
      r := r2;
      if r1.counter + |b| <= MAX_VISITS {
        ReadyHere(lp, r2.flow, ns.enter, 0, ns.enter + 1);
        FreshKept(ns, r1, r2, f2, lp.fork + 1, 0, ns.enter, 0);
        RunVisits(g, ops, r2);
        if r2.counter < MAX_VISITS {
          VisitEnter(ns, ops, r2, f, f2);
          var t := Visit(g, ops, r2);
          LayerEnds(g, ops, t);
          r := t.(l := ns.inner.head, n := 0);
          MarksMoved(lp, r2, t, r, ns.enter, 0, ns.enter, 1);
          AtInnerHead(ns, s, r1, r2, r, f, f2);
        }
        ArrivesNow(g, ops, r2, r, opens);
      }
      ArrivesThrough(g, ops, r1, r2, r, |b|, 1, Executions(b), opens);
    }
    ArrivesThrough(g, ops, s, r1, r, |a|, |b| + 1, Executions(a), Executions(b) + opens);
    assert Executions(a) + (Executions(b) + opens) == Executions(a) + Executions(b) + opens;
  }

  // ---------------------------------------------------------------- out of the inner loop

  /** The inner loop leaves alone what the outer one relies on. */
  lemma BeneathKept(ns: Nest, s: State, r: State, f: int, f2: int)
    requires ns.WellFormed() && Beneath(ns, s, f) && Keeps(ns.inner, s, r, f2) && f != f2
    ensures Beneath(ns, r, f)
  {
    hide Loop.Has, Loop.Between, Loop.Opens, Loop.WellFormed, Nest.WellFormed, Lit, Awake, AwakeAt;
    Layers(ns);
    forall id | !ns.Inner(id)
      ensures r.flow.Node(id).active == s.flow.Node(id).active && r.flow.Node(id).branch == s.flow.Node(id).branch
              && Lookup(r.frameIds, id) == Lookup(s.frameIds, id)
    {
      assert !ns.inner.IsAt(ns.inner.tail, 0, id);
    }
    OuterIds(ns);
    LitBeneath(ns, s.flow, r.flow);
    forall id | !ns.outer.Has(id) ensures r.flow.Node(id).active == s.flow.Node(id).active {
      InnerIsOuter(ns, id);
    }
    AwakeKept(ns.outer, s.flow, r.flow);
  }

  lemma OuterIds(ns: Nest)
    requires ns.WellFormed()
    ensures !ns.Inner(ns.outer.Switch().id) && !ns.Inner(ns.outer.Merge().id)
            && ns.outer.Next().id != ns.inner.Next().id
    ensures |ns.outer.Merge().inputs| > 0 && !ns.outer.Has(ns.outer.Merge().inputs[0].0)
  {
    hide Loop.WellFormed;
    assert ns.ApartAt(ns.outer.fork, 0) && ns.ApartAt(ns.outer.head, 0) && ns.ApartAt(ns.outer.tail - 1, 0);
    assert ns.inner.IsAt(ns.inner.tail - 1, 0, ns.inner.Next().id);
    assert ns.inner.Has(ns.inner.Next().id);
  }

  lemma LitBeneath(ns: Nest, a: Flow, b: Flow)
    requires ns.WellFormed() && Lit(ns.outer, a, ns.outer.head, 0, ns.enter + 1, 0)
    requires forall id :: !ns.Inner(id) ==> b.Node(id).active == a.Node(id).active
    ensures Lit(ns.outer, b, ns.outer.head, 0, ns.enter + 1, 0)
  {
    hide Loop.Has, Loop.Between, Loop.Opens, Loop.WellFormed, Nest.WellFormed, Nest.Inner;
    Layers(ns);
    var lp := ns.outer;
    forall id | lp.Between(lp.head, 0, ns.enter + 1, 0, id) ensures b.Node(id).active {
      ApartBetween(ns, lp.head, 0, ns.enter + 1, 0, id);
    }
  }

  /** Dropping the inner frame changes nothing else. */
  lemma BeneathClosed(ns: Nest, s: State, r: State, f: int, f2: int)
    requires ns.Layered() && Beneath(ns, s, f) && f != f2
    requires r.flow == s.flow.Forget(f2) && r.frameIds == s.frameIds && r.rewindLayers == s.rewindLayers
    ensures Beneath(ns, r, f) && r.flow.Frame(f2) == FRESH_FRAME
    ensures forall id :: r.flow.Node(id) == s.flow.Node(id)
  {
    hide Lit, Awake;
    assert forall id :: r.flow.Node(id) == s.flow.Node(id);
    assert Wakes(s.flow, r.flow);
    AwakeWakes(ns.outer, s.flow, r.flow);
    LitKept(ns.outer, s.flow, r.flow, ns.outer.head, 0, ns.enter + 1, 0);
    assert r.flow.Frame(f) == s.flow.Frame(f);
  }

  /** What the body behind the inner loop may rely on. */
  lemma AfterReady(ns: Nest, s: State, f: int)
    requires ns.WellFormed() && Beneath(ns, s, f) && s.flow.Node(ns.inner.Exit().id).active
    ensures Ready(ns.outer, s.flow, ns.inner.tail + 1, 0, ns.outer.tail)
  {
    hide Loop.Has, Loop.Between, Loop.Opens, Loop.WellFormed, Lit, Nest.Inner;
    var lp, flow, k := ns.outer, s.flow, ns.inner.tail + 1;
    forall l1: nat, n1: nat | k <= l1 < lp.tail ensures ReadyAt(lp, flow, k, 0, l1, n1) {
      assert ns.SourcedAt(l1, n1) && AwakeAt(lp, flow, l1, n1);
      if n1 < lp.g.LayerSize(l1) {
        forall e | 0 <= e < |lp.g.At(l1, n1).inputs|
          ensures var id := lp.g.At(l1, n1).inputs[e].0;
                  lp.g.IsExternal(id) || flow.Node(id).active || lp.Between(k, 0, l1, n1, id)
        {
          var id := lp.g.At(l1, n1).inputs[e].0;
          if lp.Between(lp.head, 0, l1, n1, id) && !ns.Inner(id) {
            BetweenSplits(lp, lp.head, 0, ns.inner.head, 0, l1, n1, id);
            if lp.Between(lp.head, 0, ns.inner.head, 0, id) {
              LitAt(lp, flow, lp.head, 0, ns.enter + 1, 0, id);
            } else {
              BetweenSplits(lp, ns.inner.head, 0, k, 0, l1, n1, id);
              InnerIsOuter(ns, id);
            }
          }
        }
      }
    }
  }

  /** From a place up to the NextIteration there is no Exit. */
  ghost predicate NoExitTo(g: Layout, l: nat, n: nat, end: nat) {
    g.LayerSize(end) > 0
    && forall l1: nat, n1: nat :: (l < l1 || (l == l1 && n <= n1)) && l1 <= end ==> NoExitAt(g, l1, n1)
  }

  predicate NoExitAt(g: Layout, l: nat, n: nat) { n < g.LayerSize(l) ==> !g.At(l, n).Is(EXIT) }

  /** The frame left is dropped at the next node, and until then nothing happens. */
  lemma {:induction false} Drops(g: Layout, ops: Ops, s: State, end: nat)
    requires s.status == Running && s.counter <= MAX_VISITS && s.leftFrame && |s.frames| > 0
    requires 0 <= s.l <= end < |g.onion| && (s.l == end ==> s.n == 0) && NoExitTo(g, s.l, s.n, end)
    ensures s.counter < MAX_VISITS ==> Run(g, ops, s) == Run(g, ops, CloseFrame(s))
    ensures s.counter == MAX_VISITS ==> Run(g, ops, s).status == EarlyTermination
    decreases end - s.l
  {
    hide Visit, Run;
    if s.n >= g.LayerSize(s.l) {
      LayerEnds(g, ops, s);
      LayerEnds(g, ops, CloseFrame(s));
      Drops(g, ops, s.(l := s.l + 1, n := 0), end);
    } else {
      assert NoExitAt(g, s.l, s.n);
      RunVisits(g, ops, s);
      RunVisits(g, ops, CloseFrame(s));
      if s.counter < MAX_VISITS {
        VisitCloses(g, ops, s);
        if Visit(g, ops, s).status != Running {
          RunStops(g, ops, s);
          RunStops(g, ops, CloseFrame(s));
        }
      }
    }
  }

  lemma NoExitBehind(ns: Nest)
    requires ns.WellFormed()
    ensures NoExitTo(ns.outer.g, ns.inner.tail, 1, ns.outer.tail - 1)
  {
    hide Loop.WellFormed;
    var g, end := ns.outer.g, ns.outer.tail - 1;
    forall l1: nat, n1: nat | (ns.inner.tail < l1 || (ns.inner.tail == l1 && 1 <= n1)) && l1 <= end
      ensures NoExitAt(g, l1, n1)
    {
      if ns.inner.tail < l1 < end {
        assert ns.outer.PlainAt(l1, n1);
      }
    }
  }

  /** From behind the inner Exit back to the head of the outer loop. */
  lemma LeavesInner(ns: Nest, ops: Ops, s: State, f: int, f2: int) returns (r: State)
    requires ns.WellFormed() && Obliging(ns.outer, ops) && Left(ns.inner, s, f2) && s.counter <= MAX_VISITS
    requires |s.frames| > 1 && s.frames[|s.frames| - 2] == f && 0 <= f != f2 && Beneath(ns, s, f)
    requires s.flow.Node(ns.inner.Exit().id).active && f2 >= 0 && Lookup(s.frameIds, ns.Enter().id) == f2
    ensures var ids := ns.outer.Nodes(ns.inner.tail + 1, 0, ns.outer.tail - 1);
            Arrives(ns.outer.g, ops, s, r, |ids| + 2,
                    [Forgot(f2)] + (Executions(ids) + [Executed(ns.outer.Next().id), Planned(f, ns.outer.head), Rewound(f, ns.outer.head)]))
    ensures s.counter + |ns.outer.Nodes(ns.inner.tail + 1, 0, ns.outer.tail - 1)| + 2 <= MAX_VISITS ==>
              NestHead(ns, r, f, f2) && r.frames == s.frames[..|s.frames| - 1]
  {
    hide Visit, Run, Gets, Keeps, Awake, Loop.Has, Loop.Between, Loop.Opens, Loop.WellFormed, Ready, ReadyAt, Nest.WellFormed;
    hide Loop.Nodes, Executions, Lit, Marks, PlainStretch, Obliging, Closes, Loop.ReadsAt, Arrives, Wakes;
    Layers(ns);
    var lp, g := ns.outer, ns.outer.g;
    var ids := lp.Nodes(ns.inner.tail + 1, 0, lp.tail - 1);
    var back := [Executed(lp.Next().id), Planned(f, lp.head), Rewound(f, lp.head)];
    NoExitBehind(ns);
    Drops(g, ops, s, lp.tail - 1);
    LayerEnds(g, ops, CloseFrame(s));
    var c := CloseFrame(s).(l := ns.inner.tail + 1, n := 0);
    BeneathClosed(ns, s, c, f, f2);
    AfterReady(ns, c, f);
    var r1 := RunsOn(lp, ops, c, f, lp.tail - 1, lp.tail);
    ArrivesIf(lp, ops, c, r1, f, |ids|, Executions(ids));
    r := r1;
    if c.counter + |ids| <= MAX_VISITS {
      FreshKept(ns, c, r1, f2, ns.inner.tail + 1, 0, lp.tail - 1, 0);
      AwakeWakes(lp, c.flow, r1.flow);
      ReadyHere(lp, r1.flow, lp.tail - 1, 0, lp.tail);
      r := Returns(lp, ops, r1, f);
      ArrivesIf(lp, ops, r1, r, f, 2, back);
      if r1.counter + 2 <= MAX_VISITS {
        FrameKept(lp, r1, r, f, f2);
        FreshKept(ns, r1, r, f2, lp.tail - 1, 0, lp.tail, 1);
      }
    }
    ArrivesThrough(g, ops, c, r1, r, |ids|, 2, Executions(ids), back);
    ArrivesClosed(g, ops, s, c, r, f2, |ids| + 2, Executions(ids) + back);
  }

  lemma ArrivesClosed(g: Layout, ops: Ops, s: State, c: State, r: State, f2: int, visits: nat, log: seq<Event>)
    requires s.counter == c.counter <= MAX_VISITS && c.log == s.log + [Forgot(f2)] && visits > 0
    requires s.counter < MAX_VISITS ==> Run(g, ops, s) == Run(g, ops, c)
    requires s.counter == MAX_VISITS ==> Run(g, ops, s).status == EarlyTermination
    requires Arrives(g, ops, c, r, visits, log)
    ensures Arrives(g, ops, s, r, visits, [Forgot(f2)] + log)
  {
    hide Run;
    assert s.log + [Forgot(f2)] + log == s.log + ([Forgot(f2)] + log);
  }

  // ---------------------------------------------------------------- outer passes

  /** What a pass of the outer loop logs, with `n` true inner conditions. */
  function PassLog(ns: Nest, f: int, f2: int, n: nat): seq<Event>
    requires ns.Layered()
  {
    Executions(ns.outer.Nodes(ns.outer.head, 0, ns.enter)) + [Opened(f2), Executed(ns.Enter().id)]
    + ((IterationLogs(ns.inner, f2, n) + LeavingLog(ns.inner))
       + ([Forgot(f2)] + (Executions(ns.outer.Nodes(ns.inner.tail + 1, 0, ns.outer.tail - 1))
                         + [Executed(ns.outer.Next().id), Planned(f, ns.outer.head), Rewound(f, ns.outer.head)])))
  }

  /** In the pass that starts after `c` visits the outer condition holds, and the inner one `n`
      times before it fails. */
  ghost predicate Agrees(ns: Nest, ops: Ops, c: nat, n: nat)
    requires ns.Layered()
  {
    Holds(ns.outer, ops, c)
    && HoldFor(ns.inner, ops, c + ns.Before(), n) && !Holds(ns.inner, ops, c + ns.Before() + n * ns.inner.Pass())
  }

  /** One pass of the outer loop. */
  lemma NestPass(ns: Nest, ops: Ops, s: State, f: int, f2: int, n: nat) returns (r: State)
    requires ns.WellFormed() && Obliging(ns.outer, ops) && Obliging(ns.inner, ops) && NestHead(ns, s, f, f2)
    requires Agrees(ns, ops, s.counter, n)
    ensures Arrives(ns.outer.g, ops, s, r, ns.Pass(n), PassLog(ns, f, f2, n))
    ensures s.counter + ns.Pass(n) <= MAX_VISITS ==> NestHead(ns, r, f, f2) && r.frames == s.frames
  {
    hide Run, Gets, Keeps, Awake, Loop.Opens, Loop.WellFormed, Nest.WellFormed, Beneath, AtHead, Loop.Pass, Nest.Before;
    hide Loop.Nodes, Executions, IterationLogs, LeavingLog, Obliging, Closes, Arrives, Holds, HoldFor;
    Layers(ns);
    var g, inner := ns.outer.g, ns.inner;
    var ids := ns.outer.Nodes(inner.tail + 1, 0, ns.outer.tail - 1);
    var first := Executions(ns.outer.Nodes(ns.outer.head, 0, ns.enter)) + [Opened(f2), Executed(ns.Enter().id)];
    var mid := IterationLogs(inner, f2, n) + LeavingLog(inner);
    var last := [Forgot(f2)] + (Executions(ids) + [Executed(ns.outer.Next().id), Planned(f, ns.outer.head), Rewound(f, ns.outer.head)]);
    var v, w, x := ns.Before(), (n + 1) * inner.Pass(), |ids| + 2;
    HeadFacts(ns, s, f, f2);
    var r1 := EntersInner(ns, ops, s, f, f2);
    ArrivesAt(g, ops, s, r1, v, first);
    r := r1;
    if s.counter + v <= MAX_VISITS {
      HeadCounts(inner, r1, f2);
      var r2 := LoopRuns(inner, ops, r1, f2, n);
      ArrivesIf(inner, ops, r1, r2, f2, w, mid);
      r := r2;
      if r1.counter + w <= MAX_VISITS {
        BeneathKept(ns, r1, r2, f, f2);
        EnterKept(ns, r1, r2, f2);
        r := LeavesInner(ns, ops, r2, f, f2);
        assert r2.frames[..|r2.frames| - 1] == s.frames;
      }
      ArrivesThrough(g, ops, r1, r2, r, w, x, mid, last);
    }
    ArrivesThrough(g, ops, s, r1, r, v, w + x, first, mid + last);
  }

  lemma EnterKept(ns: Nest, s: State, r: State, f2: int)
    requires ns.WellFormed() && Keeps(ns.inner, s, r, f2)
    ensures Lookup(r.frameIds, ns.Enter().id) == Lookup(s.frameIds, ns.Enter().id)
  {
    hide Loop.WellFormed, Loop.Opens;
    assert ns.ApartAt(ns.enter, 0);
  }

  lemma HeadFacts(ns: Nest, s: State, f: int, f2: int)
    requires ns.Layered() && NestHead(ns, s, f, f2)
    ensures s.counter <= MAX_VISITS && |s.frames| > 0 && s.frames[|s.frames| - 1] == f && 0 <= f != f2 && f2 >= 0
  {
  }

  /** The outer condition holds in as many passes as `counts` has entries, and in each pass the
      inner one as often as the entry says. */
  ghost predicate AgreesFor(ns: Nest, ops: Ops, c: nat, counts: seq<nat>)
    requires ns.Layered()
    decreases |counts|
  {
    counts == []
    || (Agrees(ns, ops, c, counts[0]) && AgreesFor(ns, ops, c + ns.Pass(counts[0]), counts[1..]))
  }

  function AllVisits(ns: Nest, counts: seq<nat>): nat
    requires ns.Layered()
  {
    if counts == [] then 0 else ns.Pass(counts[0]) + AllVisits(ns, counts[1..])
  }

  function PassLogs(ns: Nest, f: int, f2: int, counts: seq<nat>): seq<Event>
    requires ns.Layered()
  {
    if counts == [] then [] else PassLog(ns, f, f2, counts[0]) + PassLogs(ns, f, f2, counts[1..])
  }

  /** The outer passes, one after the other: after each the outer frame is innermost again and
      the run is back at the head of the outer loop, unless the visits run out before. */
  lemma {:induction false} NestRuns(ns: Nest, ops: Ops, s: State, f: int, f2: int, counts: seq<nat>)
    returns (r: State)
    requires ns.WellFormed() && Obliging(ns.outer, ops) && Obliging(ns.inner, ops) && NestHead(ns, s, f, f2)
    requires AgreesFor(ns, ops, s.counter, counts)
    ensures Arrives(ns.outer.g, ops, s, r, AllVisits(ns, counts), PassLogs(ns, f, f2, counts))
    ensures s.counter + AllVisits(ns, counts) <= MAX_VISITS ==> NestHead(ns, r, f, f2) && r.frames == s.frames
    decreases |counts|
  {
    hide Run, Agrees, PassLog, Nest.Pass, NestHead, Nest.WellFormed, Arrives;
    Layers(ns);
    HeadFacts(ns, s, f, f2);
    var g := ns.outer.g;
    r := s;
    if counts == [] {
      ArrivesNowhere(g, ops, s);
    } else {
      var r1 := NestPass(ns, ops, s, f, f2, counts[0]);
      ArrivesAt(g, ops, s, r1, ns.Pass(counts[0]), PassLog(ns, f, f2, counts[0]));
      r := r1;
      if s.counter + ns.Pass(counts[0]) <= MAX_VISITS {
        r := NestRuns(ns, ops, r1, f, f2, counts[1..]);
      }
      ArrivesThrough(g, ops, s, r1, r, ns.Pass(counts[0]), AllVisits(ns, counts[1..]),
                     PassLog(ns, f, f2, counts[0]), PassLogs(ns, f, f2, counts[1..]));
    }
  }

  lemma ArrivesNowhere(g: Layout, ops: Ops, s: State)
    requires s.counter <= MAX_VISITS
    ensures Arrives(g, ops, s, s, 0, [])
  {
    hide Run;
  }

  function Sum(counts: seq<nat>): nat {
    if counts == [] then 0 else counts[0] + Sum(counts[1..])
  }

  lemma {:induction false} SumAlike(m: nat, n: nat)
    ensures Sum(seq(m, _ => n)) == m * n
  {
    if m > 0 {
      SumAlike(m - 1, n);
      assert seq(m, _ => n)[1..] == seq(m - 1, _ => n);
      assert m * n == n + (m - 1) * n;
    }
  }

  lemma {:induction false} NodesSame(a: Loop, b: Loop, l: nat, n: nat, end: nat)
    requires a.g == b.g
    ensures a.Nodes(l, n, end) == b.Nodes(l, n, end)
    decreases end - l, a.g.LayerSize(l) - n
  {
    if l < end {
      if n >= a.g.LayerSize(l) {
        NodesSame(a, b, l + 1, 0, end);
      } else {
        NodesSame(a, b, l, n + 1, end);
      }
    }
  }

  /** The nodes of a pass, in order. */
  lemma NestNodes(ns: Nest)
    requires ns.Layered()
    ensures var (o, i) := (ns.outer, ns.inner);
            o.Nodes(o.head, 0, o.tail - 1)
            == o.Nodes(o.head, 0, ns.enter) + [ns.Enter().id] + i.Nodes(i.head, 0, i.tail + 1) + o.Nodes(i.tail + 1, 0, o.tail - 1)
  {
    hide Loop.Nodes;
    var o, i := ns.outer, ns.inner;
    NodesThrough(o, o.head, 0, ns.enter, o.tail - 1);
    NodesThrough(o, ns.enter, 0, ns.enter + 1, o.tail - 1);
    NodesThrough(o, i.head, 0, i.tail + 1, o.tail - 1);
    NodesAlone(o, ns.enter);
    NodesSame(o, i, i.head, 0, i.tail + 1);
    assert o.Nodes(o.head, 0, ns.enter) + ([ns.Enter().id] + (i.Nodes(i.head, 0, i.tail + 1) + o.Nodes(i.tail + 1, 0, o.tail - 1)))
        == o.Nodes(o.head, 0, ns.enter) + [ns.Enter().id] + i.Nodes(i.head, 0, i.tail + 1) + o.Nodes(i.tail + 1, 0, o.tail - 1);
  }

  /** A node of the inner body that stands in one place ran once for every true inner condition
      of the outer pass. */
  lemma PassTimes(ns: Nest, f: int, f2: int, n: nat, id: int)
    requires ns.Layered() && id in ns.inner.Nodes(ns.inner.fork + 1, 0, ns.inner.tail) && id != ns.inner.Exit().id
    requires multiset(ns.outer.Nodes(ns.outer.head, 0, ns.outer.tail - 1))[id] == 1 && id != ns.outer.Next().id
    ensures Times(PassLog(ns, f, f2, n), id) == n
  {
    hide Loop.Nodes, Executions, IterationLogs, LeavingLog, Times;
    var o, i := ns.outer, ns.inner;
    NestNodes(ns);
    var a, c, b := o.Nodes(o.head, 0, ns.enter), i.Nodes(i.head, 0, i.tail + 1), o.Nodes(i.tail + 1, 0, o.tail - 1);
    InnerOnce(ns, a, b, id);
    TimesRun(i, f2, n, id);
    ExecutionsTimes(a, id);
    ExecutionsTimes(b, id);
    var opens, mid := [Opened(f2), Executed(ns.Enter().id)], IterationLogs(i, f2, n) + LeavingLog(i);
    var back := [Executed(o.Next().id), Planned(f, o.head), Rewound(f, o.head)];
    OpensTimes(f2, ns.Enter().id, id);
    BackTimes(f, o.head, o.Next().id, id);
    ForgotTimes(f2, id);
    TimesConcat(Executions(a), opens, id);
    TimesConcat(Executions(b), back, id);
    TimesConcat([Forgot(f2)], Executions(b) + back, id);
    TimesConcat(mid, [Forgot(f2)] + (Executions(b) + back), id);
    TimesConcat(Executions(a) + opens, mid + ([Forgot(f2)] + (Executions(b) + back)), id);
  }

  lemma InnerOnce(ns: Nest, a: seq<int>, b: seq<int>, id: int)
    requires ns.Layered() && id in ns.inner.Nodes(ns.inner.fork + 1, 0, ns.inner.tail)
    requires multiset(a + [ns.Enter().id] + ns.inner.Nodes(ns.inner.head, 0, ns.inner.tail + 1) + b)[id] == 1
    ensures multiset(ns.inner.Nodes(ns.inner.head, 0, ns.inner.tail + 1))[id] == 1
    ensures multiset(a)[id] == 0 && multiset(b)[id] == 0 && id != ns.Enter().id
  {
    hide Loop.Nodes;
    var i := ns.inner;
    NodesThrough(i, i.head, 0, i.fork + 1, i.tail + 1);
    NodesThrough(i, i.fork + 1, 0, i.tail, i.tail + 1);
    var c := i.Nodes(i.head, 0, i.tail + 1);
    assert id in c;
    assert multiset(c)[id] >= 1;
  }

  lemma OpensTimes(f: int, enter: int, id: int)
    requires enter != id
    ensures Times([Opened(f), Executed(enter)], id) == 0
  {
  }

  lemma BackTimes(f: int, head: int, next: int, id: int)
    requires next != id
    ensures Times([Executed(next), Planned(f, head), Rewound(f, head)], id) == 0
  {
  }

  lemma ForgotTimes(f: int, id: int)
    ensures Times([Forgot(f)], id) == 0
  {
  }

  /** In the log of `NestRuns` it ran as often as the inner condition held in all outer passes:
      with `m` of these and `n` true inner conditions in each, m * n times. */
  lemma {:induction false} NestTimes(ns: Nest, f: int, f2: int, counts: seq<nat>, id: int)
    requires ns.Layered() && id in ns.inner.Nodes(ns.inner.fork + 1, 0, ns.inner.tail) && id != ns.inner.Exit().id
    requires multiset(ns.outer.Nodes(ns.outer.head, 0, ns.outer.tail - 1))[id] == 1 && id != ns.outer.Next().id
    ensures Times(PassLogs(ns, f, f2, counts), id) == Sum(counts)
    ensures forall m: nat, n: nat :: counts == seq(m, _ => n) ==> Times(PassLogs(ns, f, f2, counts), id) == m * n
    decreases |counts|
  {
    hide Times, PassLog, Loop.Nodes;
    if counts == [] {
      TimesNone(id);
    } else {
      NestTimes(ns, f, f2, counts[1..], id);
      PassTimes(ns, f, f2, counts[0], id);
      TimesConcat(PassLog(ns, f, f2, counts[0]), PassLogs(ns, f, f2, counts[1..]), id);
    }
    forall m: nat, n: nat | counts == seq(m, _ => n) ensures Times(PassLogs(ns, f, f2, counts), id) == m * n {
      SumAlike(m, n);
    }
  }

  // ---------------------------------------------------------------- the pass that should leave

  /** Up to the inner NextIteration every node but the inner Merge reads the outer Switch's
      branch 1, or something between that and itself other than the inner Merge. */
  ghost predicate Hangs(ns: Nest)
    requires ns.Layered()
  {
    forall l, n :: ns.outer.fork < l < ns.inner.tail && l != ns.inner.head ==> HangsAt(ns, l, n)
  }

  ghost predicate HangsAt(ns: Nest, l: nat, n: nat)
    requires ns.Layered()
  {
    n < ns.outer.g.LayerSize(l) ==>
      exists e :: 0 <= e < |ns.outer.g.At(l, n).inputs| && HangsOn(ns, l, ns.outer.g.At(l, n).inputs[e])
  }

  ghost predicate HangsOn(ns: Nest, l: nat, input: (int, int))
    requires ns.Layered()
  {
    !ns.outer.g.IsExternal(input.0)
    && (input == (ns.outer.Switch().id, 1)
        || (input.0 != ns.inner.Merge().id && ns.outer.Between(ns.outer.fork + 1, 0, l, 0, input.0)))
  }

  /** The nodes from behind the outer Switch up to here are inactive, but for the inner Merge. */
  ghost predicate Asleep(ns: Nest, flow: Flow, l: nat, n: nat)
    requires ns.Layered()
  {
    forall id :: ns.outer.Between(ns.outer.fork + 1, 0, l, n, id) && id != ns.inner.Merge().id ==>
        !flow.Node(id).active
  }

  /** In the outer frame, which is activated and plans nothing, behind a Switch that took
      another branch. */
  ghost predicate Leaving(ns: Nest, s: State, f: int)
    requires ns.Layered()
  {
    && s.status == Running && s.counter <= MAX_VISITS && !s.leftFrame && s.frames == [f] && f >= 0
    && s.flow.Frame(f) == FrameState(true, false, -1) && s.flow.Node(ns.outer.Switch().id).branch != 1
  }

  /** The kinds of the nodes from behind the outer Switch to the inner NextIteration. */
  lemma InnerKinds(ns: Nest, l: nat, n: nat)
    requires ns.WellFormed() && ns.outer.fork < l < ns.inner.tail && l != ns.inner.head && n < ns.outer.g.LayerSize(l)
    ensures var node := ns.outer.g.At(l, n);
            && !node.Is(MERGE) && !node.Is(EXIT)
            && forall e :: 0 <= e < |node.inputs| ==>
                 ns.outer.g.IsExternal(node.inputs[e].0) || node.inputs[e].0 in ns.outer.g.mapped
  {
    hide Loop.Has, Loop.Between, Loop.HangsOn;
    if l < ns.enter {
      assert ns.outer.PlainAt(l, n) && ns.outer.ReadsAt(l, n);
    } else if l == ns.enter {
      assert ns.outer.ReadsAt(l, n);
    } else {
      if l != ns.inner.fork && l != ns.inner.tail - 1 {
        assert ns.inner.PlainAt(l, n);
      }
      assert ns.inner.ReadsAt(l, n);
    }
  }

  lemma SleepsOn(ns: Nest, flow: Flow, l: nat, n: nat)
    requires ns.WellFormed() && Hangs(ns) && Asleep(ns, flow, l, n) && flow.Node(ns.outer.Switch().id).branch != 1
    requires ns.outer.fork < l < ns.inner.tail && l != ns.inner.head && n < ns.outer.g.LayerSize(l)
    ensures Check(ns.outer.g, flow, ns.outer.g.At(l, n)) == Skip
  {
    hide CheckInputs, Loop.Has, Loop.Between, Loop.WellFormed, Nest.WellFormed;
    InnerKinds(ns, l, n);
    OuterSwitch(ns);
    var g, node := ns.outer.g, ns.outer.g.At(l, n);
    assert HangsAt(ns, l, n);
    var e :| 0 <= e < |node.inputs| && HangsOn(ns, l, node.inputs[e]);
    var id := node.inputs[e].0;
    if node.inputs[e] != (ns.outer.Switch().id, 1) {
      BetweenWithin(ns.outer, ns.outer.fork + 1, 0, l, 0, ns.outer.fork + 1, 0, l, n, id);
      assert !flow.Node(id).active;
    }
    ChecksFail(g, flow, node.inputs, 0, e);
  }

  lemma OuterSwitch(ns: Nest)
    requires ns.WellFormed()
    ensures ns.Layered() && ns.outer.Switch().id in ns.outer.g.mapped
            && ns.outer.g.mapped[ns.outer.Switch().id].IsDivergencePoint()
    ensures ns.outer.Switch().id != ns.inner.Merge().id
  {
    hide Loop.Has, Loop.Between, Loop.WellFormed;
    assert ns.outer.MappedAt(ns.outer.fork, 0);
    MergeIsInner(ns);
    OuterIds(ns);
  }

  /** A skipped node sleeps from then on. */
  lemma AsleepNext(ns: Nest, before: Flow, after: Flow, l: nat, n: nat)
    requires ns.Layered() && Asleep(ns, before, l, n) && n < ns.outer.g.LayerSize(l)
    requires forall id :: id != ns.inner.Merge().id && after.Node(id).active ==> before.Node(id).active
    requires ns.outer.g.At(l, n).id == ns.inner.Merge().id || !after.Node(ns.outer.g.At(l, n).id).active
    ensures Asleep(ns, after, l, n + 1)
  {
    hide Loop.Between;
    forall id | ns.outer.Between(ns.outer.fork + 1, 0, l, n + 1, id) && id != ns.inner.Merge().id
      ensures !after.Node(id).active
    {
      BetweenSplits(ns.outer, ns.outer.fork + 1, 0, l, n, l, n + 1, id);
      if ns.outer.Between(l, n, l, n + 1, id) {
        OneBetween(ns.outer, l, n, id);
      }
    }
  }

  lemma OneBetween(lp: Loop, l: nat, n: nat, id: int)
    requires lp.Between(l, n, l, n + 1, id)
    ensures lp.IsAt(l, n, id)
  {
  }

  lemma AsleepLayer(ns: Nest, flow: Flow, l: nat, n: nat)
    requires ns.Layered() && Asleep(ns, flow, l, n) && n >= ns.outer.g.LayerSize(l)
    ensures Asleep(ns, flow, l + 1, 0)
  {
    hide Loop.Between;
    var k := l + 1;
    forall id | ns.outer.Between(ns.outer.fork + 1, 0, k, 0, id) && id != ns.inner.Merge().id
      ensures !flow.Node(id).active
    {
      BetweenSplits(ns.outer, ns.outer.fork + 1, 0, l, n, k, 0, id);
      if ns.outer.Between(l, n, k, 0, id) {
        NoneBetween(ns.outer, l, n, id);
      }
    }
  }

  lemma NoneBetween(lp: Loop, l: nat, n: nat, id: int)
    requires n >= lp.g.LayerSize(l)
    ensures !lp.Between(l, n, l + 1, 0, id)
  {
  }

  lemma VisitAsleep(ns: Nest, ops: Ops, s: State, f: int)
    requires ns.WellFormed() && Hangs(ns) && Leaving(ns, s, f) && s.counter < MAX_VISITS && Obliging(ns.outer, ops)
    requires ns.outer.fork < s.l < ns.inner.tail && s.n < ns.outer.g.LayerSize(s.l) && Asleep(ns, s.flow, s.l, s.n)
    ensures var t := Visit(ns.outer.g, ops, s);
            Leaving(ns, t, f) && t.l == s.l && t.n == s.n + 1 && t.counter == s.counter + 1
                && Asleep(ns, t.flow, s.l, t.n)
  {
    hide Visit, Dispatch, Check, Loop.Has, Loop.Between, Loop.WellFormed, Loop.Opens, Nest.WellFormed, Asleep, Hangs;
    Layers(ns);
    var g, t := ns.outer.g, Visit(ns.outer.g, ops, s);
    if s.l != ns.inner.head {
      InnerKinds(ns, s.l, s.n);
      SleepsOn(ns, s.flow, s.l, s.n);
      VisitSkips(g, ops, s);
    } else {
      VisitInnerMerge(ns, ops, s, f);
    }
    AsleepNext(ns, s.flow, t.flow, s.l, s.n);
  }

  lemma MergeFacts(ns: Nest)
    requires ns.WellFormed()
    ensures var merge := ns.inner.Merge();
            && merge.Is(MERGE) && |merge.inputs| >= 2 && merge.inputs[1].0 in ns.outer.g.mapped
            && ns.outer.g.mapped[merge.inputs[1].0].Is(NEXT_ITERATION) && ns.outer.Switch().id != merge.id
  {
    hide Loop.Has, Loop.Between;
    assert ns.inner.MappedAt(ns.inner.tail - 1, 0);
    OuterSwitch(ns);
  }

  /** The inner Merge is skipped, or runs without touching the outer frame. */
  lemma VisitInnerMerge(ns: Nest, ops: Ops, s: State, f: int)
    requires ns.WellFormed() && Leaving(ns, s, f) && s.counter < MAX_VISITS && Obliging(ns.outer, ops)
    requires s.l == ns.inner.head && s.n < ns.outer.g.LayerSize(s.l)
    ensures var t := Visit(ns.outer.g, ops, s);
            && Leaving(ns, t, f) && t.l == s.l && t.n == s.n + 1 && t.counter == s.counter + 1
            && forall id :: id != ns.inner.Merge().id && t.flow.Node(id).active ==> s.flow.Node(id).active
  {
    hide Visit, Dispatch, Loop.Has, Loop.Between, Loop.WellFormed, Loop.Opens, Nest.WellFormed;
    Layers(ns);
    MergeFacts(ns);
    var g, node := ns.outer.g, ns.inner.Merge();
    var s0, o := s.(counter := s.counter + 1), ops(s.counter + 1, node.id);
    if Check(g, s.flow, node) == Skip {
      VisitSkips(g, ops, s);
    } else {
      Visits(g, ops, s);
      var x := if Lookup(s.frameIds, node.id) < 0 then f else Lookup(s.frameIds, node.id);
      RunsMerge(g, s0, node, o, x);
    }
  }

  // ---------------------------------------------------------------- how it ends

  /** The run ends without an open frame, or is cut short; the former if there are `visits`
      visits left. */
  ghost predicate Breaks(g: Layout, ops: Ops, s: State, visits: nat)
    requires s.counter <= MAX_VISITS
  {
    var end := Run(g, ops, s).status;
    (end == NoOpenFrame || end == EarlyTermination) && (s.counter + visits <= MAX_VISITS ==> end == NoOpenFrame)
  }

  lemma BreaksAfter(g: Layout, ops: Ops, s: State, visits: nat)
    requires s.status == Running && s.counter <= MAX_VISITS && 0 <= s.l < |g.onion| && s.n < g.LayerSize(s.l)
    requires s.counter < MAX_VISITS ==>
               var t := Visit(g, ops, s);
               t.status == NoOpenFrame || (t.status == Running && t.counter == s.counter + 1 && Breaks(g, ops, t, visits))
    ensures Breaks(g, ops, s, visits + 1)
  {
    hide Visit, Run;
    RunVisits(g, ops, s);
    if s.counter < MAX_VISITS && Visit(g, ops, s).status != Running {
      RunStops(g, ops, s);
    }
  }

  lemma BreaksLayer(g: Layout, ops: Ops, s: State, visits: nat)
    requires s.status == Running && s.counter <= MAX_VISITS && 0 <= s.l < |g.onion| && s.n >= g.LayerSize(s.l)
    requires Breaks(g, ops, s.(l := s.l + 1, n := 0), visits)
    ensures Breaks(g, ops, s, visits)
  {
    hide Visit, Run;
    LayerEnds(g, ops, s);
  }

  lemma {:induction false} NoThrow(g: Layout, flow: Flow, inputs: seq<(int, int)>, e: nat)
    requires e <= |inputs| && forall i :: 0 <= i < |inputs| ==> g.IsExternal(inputs[i].0) || inputs[i].0 in g.mapped
    ensures CheckInputs(g, flow, inputs, e) != Throw
    decreases |inputs| - e
  {
    if e < |inputs| {
      NoThrow(g, flow, inputs, e + 1);
    }
  }

  /** Behind the inner Exit no frame is open. */
  ghost predicate Outside(s: State) {
    s.status == Running && s.counter <= MAX_VISITS && !s.leftFrame && s.frames == []
  }

  lemma VisitOutside(ns: Nest, ops: Ops, s: State)
    requires ns.WellFormed() && Outside(s) && s.counter < MAX_VISITS && Obliging(ns.outer, ops)
    requires ns.inner.tail < s.l <= ns.outer.tail && s.n < ns.outer.g.LayerSize(s.l)
    ensures var t := Visit(ns.outer.g, ops, s);
            || (t.status == NoOpenFrame)
            || (s.l < ns.outer.tail && Outside(t) && t.l == s.l && t.n == s.n + 1 && t.counter == s.counter + 1)
  {
    hide Visit, Dispatch, CheckInputs, Loop.Has, Loop.Between, Loop.WellFormed, Loop.Opens, Nest.WellFormed;
    Layers(ns);
    NextIs(ns.outer);
    var g, node := ns.outer.g, ns.outer.g.At(s.l, s.n);
    var s0, o := s.(counter := s.counter + 1), ops(s.counter + 1, node.id);
    if s.l == ns.outer.tail {
      Visits(g, ops, s);
      Dispatches(g, s0, node, o);
    } else {
      assert ns.outer.ReadsAt(s.l, s.n);
      NoThrow(g, s.flow, node.inputs, 0);
      assert s.l < ns.outer.tail - 1 ==> ns.outer.PlainAt(s.l, s.n);
      if Check(g, s.flow, node) == Skip {
        VisitSkips(g, ops, s);
      } else {
        Visits(g, ops, s);
        if s.l == ns.outer.tail - 1 {
          Dispatches(g, s0, node, o);
          MarkedFrames(s0, node);
        } else {
          RunsPlain(g, s0, node, o);
        }
      }
    }
  }

  lemma MarkedFrames(s: State, node: Node)
    ensures Marked(s, node).frames == s.frames && Marked(s, node).status == s.status
  {
  }

  lemma {:induction false} Drifts(ns: Nest, ops: Ops, s: State)
    requires ns.WellFormed() && Outside(s) && Obliging(ns.outer, ops)
    requires ns.inner.tail < s.l <= ns.outer.tail && (s.l == ns.outer.tail ==> s.n == 0)
    ensures Breaks(ns.outer.g, ops, s, |ns.outer.Nodes(s.l, s.n, ns.outer.tail + 1)|)
    decreases ns.outer.tail - s.l, ns.outer.g.LayerSize(s.l) - s.n
  {
    hide Visit, Run, Breaks, Loop.WellFormed, Loop.Opens, Nest.WellFormed, Obliging, Loop.Nodes, Closes, PlainStretch;
    Layers(ns);
    OnionEnds(ns);
    var g := ns.outer.g;
    NodesUnfold(ns.outer, s.l, s.n, ns.outer.tail + 1);
    if s.n >= g.LayerSize(s.l) {
      Drifts(ns, ops, s.(l := s.l + 1, n := 0));
      BreaksLayer(g, ops, s, |ns.outer.Nodes(s.l + 1, 0, ns.outer.tail + 1)|);
    } else {
      if s.counter < MAX_VISITS {
        VisitOutside(ns, ops, s);
        var t := Visit(g, ops, s);
        if t.status != NoOpenFrame {
          Drifts(ns, ops, t);
        }
      }
      BreaksAfter(g, ops, s, |ns.outer.Nodes(s.l, s.n + 1, ns.outer.tail + 1)|);
    }
  }

  lemma OnionEnds(ns: Nest)
    requires ns.WellFormed()
    ensures ns.outer.tail < |ns.outer.g.onion| && ns.outer.Alone(ns.outer.tail) && ns.inner.Alone(ns.inner.tail)
    ensures ns.inner.Exit().Is(EXIT)
  {
  }

  /** The inner Exit leaves the outer frame. */
  lemma ExitLeavesOuter(ns: Nest, ops: Ops, s: State, f: int)
    requires ns.WellFormed() && Leaving(ns, s, f) && Obliging(ns.outer, ops) && s.l == ns.inner.tail && s.n == 0
    ensures Breaks(ns.outer.g, ops, s, |ns.outer.Nodes(ns.inner.tail, 0, ns.outer.tail + 1)|)
  {
    hide Visit, Run, Loop.WellFormed, Loop.Opens, Nest.WellFormed, Loop.Nodes, Closes, PlainStretch, Ran;
    Layers(ns);
    OnionEnds(ns);
    var g, lp := ns.outer.g, ns.outer;
    NodesUnfold(lp, ns.inner.tail, 0, lp.tail + 1);
    NodesUnfold(lp, ns.inner.tail, 1, lp.tail + 1);
    if s.counter < MAX_VISITS {
      VisitExitEarly(g, ops, s, f);
      var t := Visit(g, ops, s);
      ExitFrames(g, ops, s, f);
      NoExitBehind(ns);
      Drops(g, ops, t, lp.tail - 1);
      LayerEnds(g, ops, CloseFrame(t));
      var c := CloseFrame(t).(l := ns.inner.tail + 1, n := 0);
      assert c.frames == [];
      Drifts(ns, ops, c);
      LaterNodes(ns);
    }
    BreaksAfter(g, ops, s, |lp.Nodes(ns.inner.tail + 1, 0, lp.tail + 1)|);
  }

  lemma ExitFrames(g: Layout, ops: Ops, s: State, f: int)
    requires s.status == Running && s.counter < MAX_VISITS && !s.leftFrame && s.frames == [f]
    requires s.n < g.LayerSize(s.l) && g.At(s.l, s.n).Is(EXIT) && s.flow.Frame(f) == FrameState(true, false, -1)
    requires ops(s.counter + 1, g.At(s.l, s.n).id).status == 0
    ensures Visit(g, ops, s).frames == [f] && Visit(g, ops, s).status == Running
  {
    hide Visit;
    VisitExitEarly(g, ops, s, f);
  }

  lemma LaterNodes(ns: Nest)
    requires ns.Layered()
    ensures |ns.outer.Nodes(ns.inner.tail + 1, 0, ns.outer.tail + 1)| > 0
  {
    hide Loop.Nodes;
    NodesThrough(ns.outer, ns.inner.tail + 1, 0, ns.outer.tail, ns.outer.tail + 1);
    NodesAlone(ns.outer, ns.outer.tail);
  }

  lemma {:induction false} SleepsTo(ns: Nest, ops: Ops, s: State, f: int)
    requires ns.WellFormed() && Hangs(ns) && Leaving(ns, s, f) && Obliging(ns.outer, ops)
    requires ns.outer.fork < s.l <= ns.inner.tail && (s.l == ns.inner.tail ==> s.n == 0)
             && Asleep(ns, s.flow, s.l, s.n)
    ensures Breaks(ns.outer.g, ops, s, |ns.outer.Nodes(s.l, s.n, ns.outer.tail + 1)|)
    decreases ns.inner.tail - s.l, ns.outer.g.LayerSize(s.l) - s.n
  {
    hide Visit, Run, Breaks, Loop.WellFormed, Loop.Opens, Nest.WellFormed, Obliging, Loop.Nodes, Closes, PlainStretch, Asleep, Hangs;
    Layers(ns);
    OnionEnds(ns);
    var g := ns.outer.g;
    NodesUnfold(ns.outer, s.l, s.n, ns.outer.tail + 1);
    if s.l == ns.inner.tail {
      ExitLeavesOuter(ns, ops, s, f);
    } else if s.n >= g.LayerSize(s.l) {
      AsleepLayer(ns, s.flow, s.l, s.n);
      SleepsTo(ns, ops, s.(l := s.l + 1, n := 0), f);
      BreaksLayer(g, ops, s, |ns.outer.Nodes(s.l + 1, 0, ns.outer.tail + 1)|);
    } else {
      if s.counter < MAX_VISITS {
        VisitAsleep(ns, ops, s, f);
        SleepsTo(ns, ops, Visit(g, ops, s), f);
      }
      BreaksAfter(g, ops, s, |ns.outer.Nodes(s.l, s.n + 1, ns.outer.tail + 1)|);
    }
  }

  /** A pass whose outer condition fails does not leave the loop: the inner Exit is visited
      whatever is skipped before it, and leaves the outer frame; then the outer NextIteration or
      the outer Exit asks for the innermost of no frames. */
  lemma NestBreaks(ns: Nest, ops: Ops, s: State, f: int, f2: int)
    requires ns.WellFormed() && Hangs(ns) && Obliging(ns.outer, ops) && NestHead(ns, s, f, f2) && s.frames == [f]
    requires !Holds(ns.outer, ops, s.counter)
    ensures s.counter <= MAX_VISITS
    ensures Breaks(ns.outer.g, ops, s, |ns.outer.Nodes(ns.outer.head, 0, ns.outer.tail + 1)|)
  {
    hide Visit, Run, Loop.WellFormed, Loop.Opens, Nest.WellFormed, Obliging, Loop.Nodes, Closes, PlainStretch, Hangs, Executions;
    hide Gets, Keeps, Awake, Lit, Marks;
    Layers(ns);
    HeadFacts(ns, s, f, f2);
    var lp := ns.outer;
    NodesThrough(lp, lp.head, 0, lp.fork + 1, lp.tail + 1);
    var ids := lp.Nodes(lp.head, 0, lp.fork + 1);
    var r := Decides(lp, ops, s, f);
    GetsArrives(lp, ops, s, r, f, |ids|, Executions(ids));
    if s.counter + |ids| <= MAX_VISITS {
      GetsSame(lp, ops, s, r, f, |ids|, Executions(ids));
      NamesBranch(lp, ops, lp.Asked(s.counter));
      AsleepNowhere(ns, r.flow);
      SleepsTo(ns, ops, r, f);
    }
  }

  lemma AsleepNowhere(ns: Nest, flow: Flow)
    requires ns.Layered()
    ensures Asleep(ns, flow, ns.outer.fork + 1, 0)
  {
  }

  // ---------------------------------------------------------------- a whole run

  lemma {:induction false} RunKeepsLog(g: Layout, ops: Ops, s: State)
    requires s.counter <= MAX_VISITS
    ensures s.log <= Run(g, ops, s).log
    decreases MAX_VISITS + 1 - s.counter, |g.onion| - s.l, g.LayerSize(s.l) - s.n
  {
    hide Visit;
    if s.status == Running && s.l < |g.onion| {
      if s.n >= g.LayerSize(s.l) {
        RunKeepsLog(g, ops, s.(l := s.l + 1, n := 0));
      } else {
        VisitKeepsLog(g, ops, s);
        var t := Visit(g, ops, s);
        if t.status == Running {
          RunKeepsLog(g, ops, t);
        }
      }
    }
  }

  lemma EnterKeepsLog(s: State, node: Node, o: Outcome)
    ensures s.log <= RunEnter(s, node, o).log
  {
    KeepLog(s, node, o);
    hide Process, Complete;
    var frame := Lookup(s.frameIds, node.id);
    KeepLog(s.(frames := s.frames + [frame]).Log(Opened(frame)), node, o);
  }

  lemma KeepLog(s: State, node: Node, o: Outcome)
    ensures Process(s, node, o).log == s.log
    ensures Complete(Process(s, node, o), node).log == s.log + [Executed(node.id)]
    ensures Process(s.(leftFrame := true), node, o) == Process(s, node, o).(leftFrame := true)
    ensures Complete(Process(s, node, o).(leftFrame := true), node).log == s.log + [Executed(node.id)]
  {
  }

  lemma NextKeepsLog(s: State, node: Node, o: Outcome)
    ensures s.log <= RunNextIteration(s, node, o).log
  {
    KeepLog(s, node, o);
    hide Process, Complete;
  }

  lemma ExitKeepsLog(s: State, node: Node, o: Outcome)
    ensures s.log <= RunExit(s, node, o).log
  {
    KeepLog(s, node, o);
    hide Process, Complete;
  }

  lemma OtherKeepsLog(g: Layout, s: State, node: Node, o: Outcome)
    ensures s.log <= RunOther(g, s, node, o).log
  {
    hide LoopMerge;
    if node.Is(MERGE) && |node.inputs| >= 2 {
      MergeKeepsLog(g, Process(s, node, o), node, o);
    }
  }

  lemma DispatchKeepsLog(g: Layout, s: State, node: Node, o: Outcome)
    ensures s.log <= Dispatch(g, s, node, o).log
  {
    hide RunEnter, RunNextIteration, RunExit, RunOther, Dispatch, Marked;
    Dispatches(g, s, node, o);
    MarkedMarks(s, node);
    var m := Marked(s, node);
    EnterKeepsLog(m, node, o);
    NextKeepsLog(m, node, o);
    ExitKeepsLog(m, node, o);
    OtherKeepsLog(g, m, node, o);
  }

  lemma MergeKeepsLog(g: Layout, s: State, node: Node, o: Outcome)
    requires |node.inputs| >= 2
    ensures LoopMerge(g, s, node, o).log == s.log
  {
  }

  lemma VisitKeepsLog(g: Layout, ops: Ops, s: State)
    requires s.n < g.LayerSize(s.l)
    ensures s.log <= Visit(g, ops, s).log
  {
    hide Dispatch, Check;
    var s0, node := s.(counter := s.counter + 1), g.At(s.l, s.n);
    var s1 := if s.leftFrame && |s.frames| > 0 && !node.Is(EXIT) then CloseFrame(s0) else s0;
    DispatchKeepsLog(g, s1, node, ops(s0.counter, node.id));
  }

  /** From a new flow path, in a graph that begins with the Enter of the outer loop: the run
      makes all the passes in which the outer condition holds, with all their inner passes, and
      then never finishes. */
  lemma NestWhole(ns: Nest, ops: Ops, frameIds: map<int, int>, f: int, f2: int, counts: seq<nat>)
    requires ns.WellFormed() && Hangs(ns) && Obliging(ns.outer, ops) && Obliging(ns.inner, ops)
    requires Begins(ns.outer, frameIds, f) && 0 <= f2 != f && Lookup(frameIds, ns.Enter().id) == f2
    requires Lookup(frameIds, ns.inner.Merge().id) < 0 || Lookup(frameIds, ns.inner.Merge().id) == f2
    requires AgreesFor(ns, ops, 1, counts) && !Holds(ns.outer, ops, 1 + AllVisits(ns, counts))
    ensures var t := Run(ns.outer.g, ops, Start(Flow(map[], map[]), frameIds, map[]));
            && (t.status == NoOpenFrame || t.status == EarlyTermination)
            && (1 + AllVisits(ns, counts) <= MAX_VISITS ==>
                  [Opened(f), Executed(ns.outer.g.At(0, 0).id)] + PassLogs(ns, f, f2, counts) <= t.log)
            && (1 + AllVisits(ns, counts) + |ns.outer.Nodes(ns.outer.head, 0, ns.outer.tail + 1)| <= MAX_VISITS ==>
                  t.status == NoOpenFrame)
  {
    hide Run, Visit, Loop.WellFormed, Loop.Opens, Nest.WellFormed, Obliging, Loop.Nodes, Closes, PlainStretch, Hangs, Executions;
    hide Agrees, PassLogs, AllVisits, AtHead, Arrives, Holds, AgreesFor;
    Layers(ns);
    var g, lp := ns.outer.g, ns.outer;
    var s := Start(Flow(map[], map[]), frameIds, map[]);
    Enters(lp, ops, frameIds, f);
    OnionEnds(ns);
    RunVisits(g, ops, s);
    var t := Visit(g, ops, s);
    LayerEnds(g, ops, t);
    var u := t.(l := 1, n := 0);
    EntersFresh(ns, ops, frameIds, f, f2);
    var r := NestRuns(ns, ops, u, f, f2, counts);
    ArrivesAt(g, ops, u, r, AllVisits(ns, counts), PassLogs(ns, f, f2, counts));
    if u.counter + AllVisits(ns, counts) <= MAX_VISITS {
      NestBreaks(ns, ops, r, f, f2);
      RunKeepsLog(g, ops, r);
    }
  }

  lemma EntersFresh(ns: Nest, ops: Ops, frameIds: map<int, int>, f: int, f2: int)
    requires ns.WellFormed() && Begins(ns.outer, frameIds, f) && Obliging(ns.outer, ops)
    requires 0 <= f2 && Lookup(frameIds, ns.Enter().id) == f2
    requires Lookup(frameIds, ns.inner.Merge().id) < 0 || Lookup(frameIds, ns.inner.Merge().id) == f2
    ensures Fresh(ns, Visit(ns.outer.g, ops, Start(Flow(map[], map[]), frameIds, map[])).(l := 1, n := 0), f2)
  {
    hide Dispatch, Visit, Loop.Opens, CheckInputs, Loop.Has, Loop.Between, Nest.WellFormed, Loop.WellFormed;
    Layers(ns);
    var s, node := Start(Flow(map[], map[]), frameIds, map[]), ns.outer.g.At(0, 0);
    ChecksPass(ns.outer.g, s.flow, node.inputs, 0);
    Visits(ns.outer.g, ops, s);
    RunsEnter(ns.outer.g, s.(counter := 1), node, ops(1, node.id), f);
  }

  // ---------------------------------------------------------------- the smallest nest

  /** One node a layer, with the id of its layer plus one. The logic ops are 30 for a Switch, 60 a
      Merge, 80 a NextIteration, 90 an Exit and 100 an Enter. */
  function NestNode(l: nat): Node {
    if l == 0 then Node(1, true, 100, false, false, [(-1, 0)], 0)
    else if l == 1 then Node(2, true, 60, false, false, [(1, 0), (12, 0)], 1)
    else if l == 2 then Node(3, false, 0, true, false, [(2, 0)], 2)
    else if l == 3 then Node(4, true, 30, false, false, [(2, 0), (3, 0)], 3)
    else if l == 4 then Node(5, true, 100, false, false, [(4, 1)], 4)
    else if l == 5 then Node(6, true, 60, false, false, [(5, 0), (10, 0)], 5)
    else if l == 6 then Node(7, false, 0, true, false, [(6, 0), (5, 0)], 6)
    else if l == 7 then Node(8, true, 30, false, false, [(6, 0), (7, 0)], 7)
    else if l == 8 then Node(9, false, 0, true, false, [(8, 1)], 8)
    else if l == 9 then Node(10, true, 80, false, false, [(9, 0)], 9)
    else if l == 10 then Node(11, true, 90, false, false, [(8, 0)], 10)
    else if l == 11 then Node(12, true, 80, false, false, [(11, 0)], 11)
    else Node(13, true, 90, false, false, [(4, 0)], 12)
  }

  function NestOnion(n: nat): map<int, seq<Node>> {
    if n == 0 then map[] else NestOnion(n - 1)[n - 1 := [NestNode(n - 1)]]
  }

  function NestMapped(n: nat): map<int, Node> {
    if n == 0 then map[] else NestMapped(n - 1)[n := NestNode(n - 1)]
  }

  lemma {:induction false} NestOnionIs(n: nat)
    ensures |NestOnion(n)| == n && forall l: int :: l in NestOnion(n) <==> 0 <= l < n
    ensures forall l: nat :: l < n ==> NestOnion(n)[l] == [NestNode(l)]
  {
    hide NestNode;
    if n > 0 {
      NestOnionIs(n - 1);
      assert NestOnion(n) == NestOnion(n - 1)[n - 1 := [NestNode(n - 1)]];
      assert NestOnion(n).Keys == NestOnion(n - 1).Keys + {n - 1};
    }
  }

  lemma {:induction false} NestMappedIs(n: nat)
    ensures forall id: int :: id in NestMapped(n) <==> 1 <= id <= n
    ensures forall id: nat :: 1 <= id <= n ==> NestMapped(n)[id] == NestNode(id - 1)
  {
    hide NestNode;
    if n > 0 {
      NestMappedIs(n - 1);
    }
  }

  function NestGraph(): Layout { Layout(NestOnion(13), NestMapped(13), {}) }

  function SmallestNest(): Nest {
    Nest(Loop(NestGraph(), 1, 3, 12), Loop(NestGraph(), 5, 7, 10), 4)
  }

  lemma NestLayers()
    ensures var g := NestGraph();
            && |g.onion| == 13 && (forall l :: 0 <= l < 13 ==> g.LayerSize(l) == 1 && g.At(l, 0) == NestNode(l))
            && (forall id :: id in g.mapped <==> 1 <= id <= 13)
                  && (forall id :: 1 <= id <= 13 ==> g.mapped[id] == NestNode(id - 1))
            && (forall id :: g.IsExternal(id) <==> id < 0)
  {
    hide NestNode, NestOnion, NestMapped;
    NestOnionIs(13);
    NestMappedIs(13);
  }

  lemma NestNodeIds(l: nat)
    requires l < 13
    ensures NestNode(l).id == l + 1
  {
  }

  lemma NestPlaces(lp: Loop)
    requires lp.g == NestGraph()
    ensures forall l: nat, n: nat, id :: l < 13 ==> (lp.IsAt(l, n, id) <==> n == 0 && id == l + 1)
  {
    hide NestGraph, NestNode;
    NestLayers();
    forall l: nat | l < 13 ensures NestNode(l).id == l + 1 {
      NestNodeIds(l);
    }
  }

  lemma NestBetween(lp: Loop)
    requires lp.g == NestGraph()
    ensures forall l: nat, l1: nat, id :: l1 <= 13 ==> (lp.Between(l, 0, l1, 0, id) <==> l < id <= l1)
  {
    hide NestGraph;
    NestPlaces(lp);
    forall l: nat, l1: nat, id | l1 <= 13 ensures lp.Between(l, 0, l1, 0, id) <==> l < id <= l1 {
      if l < id <= l1 {
        assert lp.IsAt(id - 1, 0, id);
      }
    }
  }

  lemma NestOuter()
    ensures SmallestNest().outer.Opens() && Closes(SmallestNest().outer)
  {
    hide NestGraph, Loop.Between, Loop.IsAt;
    NestLayers();
    var lp := SmallestNest().outer;
    NestBetween(lp);
    assert lp.Stands();
    forall l: nat, n: nat | lp.head <= l < lp.tail ensures lp.MappedAt(l, n) {
      NestNodeIds(l);
    }
    forall l: nat, n: nat | lp.head < l <= lp.fork ensures lp.ReadsAt(l, n) && lp.OrderedAt(l, n) {
      assert l == 2 || l == 3;
    }
    forall l: nat, n: nat | lp.InCondition(l) ensures lp.PlainAt(l, n) {
      assert l == 2;
    }
  }

  lemma NestInner()
    ensures SmallestNest().inner.WellFormed()
  {
    hide NestGraph, Loop.Between, Loop.IsAt;
    NestLayers();
    var lp := SmallestNest().inner;
    NestBetween(lp);
    NestPlaces(lp);
    assert lp.Stands();
    forall l: nat, n: nat | lp.head <= l < lp.tail ensures lp.MappedAt(l, n) {
      NestNodeIds(l);
    }
    forall l: nat, n: nat | lp.head < l < lp.tail ensures lp.ReadsAt(l, n) && lp.OrderedAt(l, n) {
      assert l == 6 || l == 7 || l == 8 || l == 9;
    }
    forall l: nat, n: nat | lp.InCondition(l) || lp.InBody(l) ensures lp.PlainAt(l, n) {
      assert l == 6 || l == 8;
    }
    forall l: nat, n: nat | lp.fork < l < lp.tail ensures lp.HangsAt(l, n) {
      assert l == 8 || l == 9;
      assert lp.IsAt(8, 0, 9);
      if n < lp.g.LayerSize(l) {
        assert lp.HangsOn(l, lp.g.At(l, n).inputs[0]);
      }
    }
  }

  /** There are such nests: thirteen nodes in as many layers, the inner condition reading its Merge
      and its Enter. */
  lemma SmallestNestFits()
    ensures SmallestNest().WellFormed() && Hangs(SmallestNest())
  {
    hide NestGraph, Loop.Between, Loop.IsAt, Loop.Opens, Loop.WellFormed;
    NestLayers();
    NestOuter();
    NestInner();
    var ns := SmallestNest();
    NestBetween(ns.outer);
    NestBetween(ns.inner);
    assert ns.Layered();
    forall l: nat, n: nat | ns.outer.head <= l <= ns.outer.tail && !ns.Within(l) ensures ns.ApartAt(l, n) {
      NestNodeIds(l);
    }
    forall l: nat, n: nat | ns.outer.fork < l < ns.outer.tail && !ns.Within(l) ensures ns.SourcedAt(l, n) {
      assert l == 4 || l == 11;
    }
    forall l: nat, n: nat | ns.inner.head < l < ns.inner.tail ensures ns.EntersAt(l, n) {
      assert l == 6 || l == 7 || l == 8 || l == 9;
    }
    forall l: nat, n: nat | ns.outer.fork < l < ns.inner.tail && l != ns.inner.head ensures HangsAt(ns, l, n) {
      assert l == 4 || l == 6 || l == 7 || l == 8 || l == 9;
      if n < ns.outer.g.LayerSize(l) {
        assert HangsOn(ns, l, NestNode(l).inputs[|NestNode(l).inputs| - 1]);
      }
    }
  }
}
