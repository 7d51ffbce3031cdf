/** The mesh's guarantees over every run: exactly-once delivery, its exact cost, and no storm. */
module MeshRuns {
  import opened Options
  import opened Text
  import opened Chat
  import opened Proto
  import opened SeenSets
  import opened HubSpec
  import opened RouterSpec
  import opened RelayLaws
  import opened MeshNode
  import opened Sums
  import opened Mesh
  import Flood
  import FloodRuns

  ghost predicate CanRun(x: World, m: Net, steps: seq<Step>)
    requires ValidWorld(x) && ValidNet(x, m)
    decreases |steps|
  {
    steps == [] ||
    (Enabled(x, m, steps[0]) &&
     (NextIsValid(x, m, steps[0]);
      CanRun(x, Next(x, m, steps[0]), steps[1..])))
  }

  ghost function Run(x: World, m: Net, steps: seq<Step>): (r: Net)
    requires ValidWorld(x) && ValidNet(x, m) && CanRun(x, m, steps)
    ensures ValidNet(x, r)
    decreases |steps|
  {
    if steps == [] then m else
      NextIsValid(x, m, steps[0]);
      Run(x, Next(x, m, steps[0]), steps[1..])
  }

  ghost function AbsSteps(steps: seq<Step>): seq<Flood.Step> {
    if steps == [] then [] else [AbsStep(steps[0])] + AbsSteps(steps[1..])
  }

  ghost function Stale(w: Window, nodes: map<string, NodeState>): map<string, set<Key>> {
    map n | n in nodes :: Lingering(w, nodes[n].seen)
  }

  lemma StepRefines(x: World, m: Net, stale: map<string, set<Key>>, step: Step)
    requires ValidWorld(x) && ValidNet(x, m) && Enabled(x, m, step)
    requires stale.Keys == x.g.Keys && Bounded(x.w, m.nodes, stale)
    ensures Refines(x, m, stale, step)
  {
    if step.Arrive? {
      GenuineIsSound(x, m, step);
      ArrivalRefines(x, m, stale, step);
    } else {
      LocalRefines(x, m, stale, step);
    }
  }

  /** Every run of the mesh is a run of the flood. */
  lemma {:induction false} RunRefines(x: World, m: Net, stale: map<string, set<Key>>, steps: seq<Step>)
    requires ValidWorld(x) && ValidNet(x, m) && CanRun(x, m, steps)
    requires stale.Keys == x.g.Keys && Bounded(x.w, m.nodes, stale)
    ensures Flood.ValidNet(x.g, Abs(x.w, m)) && FloodRuns.CanRun(x.g, stale, Abs(x.w, m), AbsSteps(steps))
    ensures FloodRuns.Run(x.g, stale, Abs(x.w, m), AbsSteps(steps)) == Abs(x.w, Run(x, m, steps))
    decreases |steps|
  {
    AbsIsValid(x, m);
    if steps != [] {
      StepRefines(x, m, stale, steps[0]);
      NextIsValid(x, m, steps[0]);
      RunRefines(x, Next(x, m, steps[0]), stale, steps[1..]);
      FloodRuns.RunOneMore(x.g, stale, Abs(x.w, m), AbsStep(steps[0]), AbsSteps(steps[1..]));
    }
  }

  // ---- exactly once ----

  /** Nothing in flight can be taken for `r`, except `r` itself. */
  ghost predicate FlightUnlike(wires: map<Flood.Edge, seq<Record>>, r: Record) {
    forall e, i :: e in wires && 0 <= i < |wires[e]| ==> wires[e][i] == r || Unlike(r, wires[e][i])
  }

  /** Nothing originated can be taken for `r`. */
  ghost predicate OthersUnlike(steps: seq<Step>, r: Record) {
    forall i :: 0 <= i < |steps| && steps[i].Local? ==> Unlike(r, steps[i].rec)
  }

  /** The topic a node has the sender of `r` in, folded. */
  function SenderTopic(n: NodeState, r: Record): string { Lower(TopicOf(n.hub, SenderKey(r))) }

  /** If this delivers the data record `r` to another node than its own, that node still has its
      sender in the topic it had it in at the start. */
  ghost predicate SteadyStep(m: Net, start: map<string, NodeState>, step: Step, r: Record) {
    (step.Arrive? && step.dst != r.node && step.dst in m.nodes && step.dst in start && Flood.Edge(step.src, step.dst) in m.wires
     && m.wires[Flood.Edge(step.src, step.dst)] != [] && m.wires[Flood.Edge(step.src, step.dst)][0] == r
     && r.typ == ID_DATA)
    ==> SenderTopic(m.nodes[step.dst], r) == SenderTopic(start[step.dst], r)
  }

  ghost predicate Steady(x: World, m: Net, start: map<string, NodeState>, steps: seq<Step>, r: Record)
    requires ValidWorld(x) && ValidNet(x, m) && CanRun(x, m, steps)
    decreases |steps|
  {
    steps == [] ||
    (SteadyStep(m, start, steps[0], r) &&
     (NextIsValid(x, m, steps[0]);
      Steady(x, Next(x, m, steps[0]), start, steps[1..], r)))
  }

  /** The record to follow, under the key each node knows it by at the start. */
  ghost function ProbeOf(start: map<string, NodeState>, r: Record): Flood.Probe {
    Flood.Probe(r, map n | n in start :: RecordKey(start[n].hub, r))
  }

  lemma SteadyKey(h: State, h0: State, r: Record)
    requires OnWire(r) && (r.typ == ID_DATA ==> Lower(TopicOf(h, SenderKey(r))) == Lower(TopicOf(h0, SenderKey(r))))
    ensures RecordKey(h, r) == RecordKey(h0, r)
  {
    OnWireIsCanonical(r);
    KeyParts(h, r);
    KeyParts(h0, r);
  }

  /** The outcome of an arrival leaves the followed record's key alone, or is about it. */
  lemma OutcomeUndisturbed(x: World, m: Net, start: map<string, NodeState>, step: Step, r: Record)
    requires ValidWorld(x) && ValidNet(x, m) && Enabled(x, m, step) && step.Arrive? && OnWire(r)
    requires step.dst in start && step.dst != r.node && SteadyStep(m, start, step, r)
    requires
      var rec := m.wires[Flood.Edge(step.src, step.dst)][0];
      rec == r || Unlike(r, rec)
    ensures
      var rec, key := m.wires[Flood.Edge(step.src, step.dst)][0], RecordKey(start[step.dst].hub, r);
      if rec == r then step.out.key == key else step.out.key != key && key !in step.out.extra
  {
    var n, rec := m.nodes[step.dst], m.wires[Flood.Edge(step.src, step.dst)][0];
    if rec == r {
      SteadyKey(n.hub, start[step.dst].hub, r);
    } else {
      UnlikeKeys(r, start[step.dst].hub, rec, n.hub, step.src, step.now);
    }
  }

  /** A local message's id names the local node, so it is no other node's record. */
  lemma OwnKeysDiffer(at: string, own: Option<Key>, h0: State, r: Record)
    requires OnWire(r) && at != r.node && (own.Some? ==> own.value.Synth? && own.value.node == at)
    ensures RecordKey(h0, r) !in OwnKeys(own)
  {
    OnWireIsCanonical(r);
    KeyParts(h0, r);
  }

  lemma OwnStepUndisturbed(g: Flood.Graph, a: Flood.Net, start: map<string, NodeState>, step: Step, r: Record)
    requires Flood.ValidNet(g, a) && !step.Arrive? && step.at in start && OnWire(r) && (step.Local? ==> step.rec != r)
    requires step.own.Some? ==> step.own.value.Synth? && step.own.value.node == step.at
    ensures Flood.Undisturbed(g, a, ProbeOf(start, r), AbsStep(step))
  {
    if step.at != r.node { OwnKeysDiffer(step.at, step.own, start[step.at].hub, r); }
  }

  lemma ArrivalUndisturbed(g: Flood.Graph, a: Flood.Net, start: map<string, NodeState>, step: Step, r: Record)
    requires Flood.ValidNet(g, a) && step.Arrive? && step.dst in start
    requires Flood.Edge(step.src, step.dst) in a.wires && a.wires[Flood.Edge(step.src, step.dst)] != []
    requires
      var rec, key := a.wires[Flood.Edge(step.src, step.dst)][0], RecordKey(start[step.dst].hub, r);
      step.dst != r.node ==> if rec == r then step.out.key == key else step.out.key != key && key !in step.out.extra
    ensures Flood.Undisturbed(g, a, ProbeOf(start, r), AbsStep(step))
  {
  }

  lemma StepUndisturbed(x: World, m: Net, start: map<string, NodeState>, step: Step, r: Record)
    requires ValidWorld(x) && ValidNet(x, m) && Enabled(x, m, step) && start.Keys == x.g.Keys && OnWire(r)
    requires SteadyStep(m, start, step, r) && FlightUnlike(m.wires, r)
    requires step.Local? ==> Unlike(r, step.rec)
    ensures Flood.ValidNet(x.g, Abs(x.w, m)) && Flood.Undisturbed(x.g, Abs(x.w, m), ProbeOf(start, r), AbsStep(step))
  {
    AbsIsValid(x, m);
    if step.Arrive? {
      if step.dst != r.node { OutcomeUndisturbed(x, m, start, step, r); }
      ArrivalUndisturbed(x.g, Abs(x.w, m), start, step, r);
    } else {
      OwnStepUndisturbed(x.g, Abs(x.w, m), start, step, r);
    }
  }

  lemma PushUnlike(wires: map<Flood.Edge, seq<Record>>, n: string, except: Option<string>, rec: Record, r: Record)
    requires FlightUnlike(wires, r) && (rec == r || Unlike(r, rec))
    ensures FlightUnlike(Flood.Pushed(wires, n, except, rec), r)
  {
  }

  lemma PopUnlike(wires: map<Flood.Edge, seq<Record>>, e: Flood.Edge, r: Record)
    requires FlightUnlike(wires, r) && e in wires && wires[e] != []
    ensures (wires[e][0] == r || Unlike(r, wires[e][0])) && FlightUnlike(wires[e := wires[e][1..]], r)
  {
    var popped := wires[e := wires[e][1..]];
    forall f, i | f in popped && 0 <= i < |popped[f]|
      ensures popped[f][i] == r || Unlike(r, popped[f][i])
    {
      assert popped[f][i] == if f == e then wires[e][i + 1] else wires[f][i];
    }
  }

  lemma NextUnlike(x: World, m: Net, step: Step, r: Record)
    requires Shaped(x.g, m) && Ready(x, m, step) && FlightUnlike(m.wires, r)
    requires step.Local? ==> step.rec == r || Unlike(r, step.rec)
    ensures FlightUnlike(Next(x, m, step).wires, r)
  {
    if step.Local? {
      PushUnlike(m.wires, step.at, None, step.rec, r);
    } else if step.Arrive? {
      var e := Flood.Edge(step.src, step.dst);
      PopUnlike(m.wires, e, r);
      if step.out.accept {
        PushUnlike(m.wires[e := m.wires[e][1..]], step.dst, Some(step.src), m.wires[e][0], r);
      }
    }
  }

  lemma OthersUnlikeTail(steps: seq<Step>, r: Record)
    requires OthersUnlike(steps, r) && steps != []
    ensures OthersUnlike(steps[1..], r) && (steps[0].Local? ==> Unlike(r, steps[0].rec))
  {
  }

  /** One step of the run, and the start of the rest. */
  lemma FirstUndisturbed(x: World, m: Net, stale: map<string, set<Key>>, start: map<string, NodeState>, step: Step,
                         r: Record)
    requires ValidWorld(x) && ValidNet(x, m) && Enabled(x, m, step) && OnWire(r)
    requires stale.Keys == x.g.Keys && Bounded(x.w, m.nodes, stale) && start.Keys == x.g.Keys
    requires SteadyStep(m, start, step, r) && FlightUnlike(m.wires, r) && (step.Local? ==> Unlike(r, step.rec))
    ensures
      var a, s := Abs(x.w, m), AbsStep(step);
      && Flood.ValidNet(x.g, a) && Flood.Enabled(x.g, stale, a, s)
      && Flood.Undisturbed(x.g, a, ProbeOf(start, r), s)
      && Abs(x.w, Next(x, m, step)) == Flood.Next(x.g, stale, a, s)
    ensures ValidNet(x, Next(x, m, step)) && Bounded(x.w, Next(x, m, step).nodes, stale)
    ensures FlightUnlike(Next(x, m, step).wires, r)
  {
    StepUndisturbed(x, m, start, step, r);
    StepRefines(x, m, stale, step);
    NextIsValid(x, m, step);
    NextUnlike(x, m, step, r);
  }

  lemma {:induction false} RunUndisturbed(x: World, m: Net, stale: map<string, set<Key>>, start: map<string, NodeState>,
                                          steps: seq<Step>, r: Record)
    requires ValidWorld(x) && ValidNet(x, m) && CanRun(x, m, steps)
    requires stale.Keys == x.g.Keys && Bounded(x.w, m.nodes, stale) && start.Keys == x.g.Keys && OnWire(r)
    requires Steady(x, m, start, steps, r) && FlightUnlike(m.wires, r) && OthersUnlike(steps, r)
    ensures Flood.ValidNet(x.g, Abs(x.w, m)) && FloodRuns.CanRun(x.g, stale, Abs(x.w, m), AbsSteps(steps))
    ensures FloodRuns.AllUndisturbed(x.g, stale, Abs(x.w, m), ProbeOf(start, r), AbsSteps(steps))
    decreases |steps|
  {
    AbsIsValid(x, m);
    if steps != [] {
      OthersUnlikeTail(steps, r);
      FirstUndisturbed(x, m, stale, start, steps[0], r);
      RunUndisturbed(x, Next(x, m, steps[0]), stale, start, steps[1..], r);
      FloodRuns.UndisturbedOneMore(x.g, stale, Abs(x.w, m), ProbeOf(start, r), AbsStep(steps[0]), AbsSteps(steps[1..]));
    }
  }

  /** `r` is news: nowhere in flight or applied, and under its key nowhere live but perhaps at its
      origin. */
  ghost predicate News(x: World, m: Net, r: Record)
    requires ValidNet(x, m)
  {
    && (forall e :: e in m.wires ==> r !in m.wires[e])
    && (forall n :: n in x.g ==> r !in m.applied[n])
    && m.sent[r] == 0
    && forall n :: n in x.g && n != r.node ==> !Live(m.nodes[n].seen, RecordKey(m.nodes[n].hub, r), x.w.start)
  }

  lemma NewsIsUnheard(x: World, m: Net, r: Record)
    requires ValidWorld(x) && ValidNet(x, m) && News(x, m, r)
    ensures Flood.ValidNet(x.g, Abs(x.w, m)) && FloodRuns.Unheard(x.g, Abs(x.w, m), ProbeOf(m.nodes, r))
    ensures forall n :: n in x.g && n != r.node ==> ProbeOf(m.nodes, r).keys[n] !in Stale(x.w, m.nodes)[n]
  {
    AbsIsValid(x, m);
    forall n | n in x.g && n != r.node
      ensures RecordKey(m.nodes[n].hub, r) !in Marked(x.w, m.nodes[n].seen)
      ensures RecordKey(m.nodes[n].hub, r) !in Lingering(x.w, m.nodes[n].seen)
    {
      assert !Live(m.nodes[n].seen, RecordKey(m.nodes[n].hub, r), x.w.start);
    }
  }

  ghost predicate NoneInFlight(m: Net, r: Record) { forall e :: e in m.wires ==> r !in m.wires[e] }

  /** The first step sends the record out to all of its origin's neighbours. */
  lemma SentOut(x: World, m: Net, first: Step)
    requires ValidWorld(x) && ValidNet(x, m) && Enabled(x, m, first) && first.Local?
    requires FlightUnlike(m.wires, first.rec)
    ensures
      var stale, m1 := Stale(x.w, m.nodes), Next(x, m, first);
      && stale.Keys == x.g.Keys && ValidNet(x, m1) && Bounded(x.w, m1.nodes, stale) && FlightUnlike(m1.wires, first.rec)
      && Flood.ValidNet(x.g, Abs(x.w, m)) && Flood.Enabled(x.g, stale, Abs(x.w, m), AbsStep(first))
      && Abs(x.w, m1) == Flood.Next(x.g, stale, Abs(x.w, m), AbsStep(first))
  {
    StepRefines(x, m, Stale(x.w, m.nodes), first);
    NextIsValid(x, m, first);
    NextUnlike(x, m, first, first.rec);
  }

  /** Exactly-once flooding, for every finite graph of nodes and every interleaving of deliveries and
      local actions at all of them. A record that is news, originated at one node in a run within the
      seen-set's time to live whose other records cannot be taken for it, has once no copy of it is
      in flight been applied exactly once at every other reachable node, never at its origin and
      nowhere else; for a data record this holds while each node that gets it still has its sender in
      the topic it had it in at the start. It has cost exactly one copy per link of the origin and one
      per link but one of every other reachable node. */
  lemma ExactlyOnce(x: World, m: Net, first: Step, steps: seq<Step>, r: Record)
    requires ValidWorld(x) && ValidNet(x, m) && Enabled(x, m, first) && first.Local? && first.rec == r
    requires News(x, m, r) && FlightUnlike(m.wires, r) && OthersUnlike(steps, r)
    requires ValidNet(x, Next(x, m, first)) && CanRun(x, Next(x, m, first), steps)
    requires Steady(x, Next(x, m, first), m.nodes, steps, r)
    requires NoneInFlight(Run(x, Next(x, m, first), steps), r)
    ensures
      var final := Run(x, Next(x, m, first), steps);
      && (forall n :: n in x.g ==>
            multiset(final.applied[n])[r] == if n != r.node && FloodRuns.Reachable(x.g, r.node, n) then 1 else 0)
      && final.sent[r] == |x.g[r.node]| + Sum(FloodRuns.Others(x.g, r.node), FloodRuns.RelayCost(x.g))
  {
    var stale, m1 := Stale(x.w, m.nodes), Next(x, m, first);
    SentOut(x, m, first);
    NewsIsUnheard(x, m, r);
    RunUndisturbed(x, m1, stale, m.nodes, steps, r);
    RunRefines(x, m1, stale, steps);
    FloodRuns.FloodsExactlyOnce(x.g, stale, Abs(x.w, m), ProbeOf(m.nodes, r), AbsStep(first).own, AbsSteps(steps));
  }

  function Degree(g: Flood.Graph): string -> int { n => if n in g then |g[n]| else 0 }

  lemma {:induction false} CostOfNodes(g: Flood.Graph, nodes: set<string>)
    requires nodes <= g.Keys
    ensures Sum(nodes, FloodRuns.RelayCost(g)) == Sum(nodes, Degree(g)) - |nodes|
    decreases |nodes|
  {
    if nodes != {} {
      var n :| n in nodes;
      SumTake(nodes, FloodRuns.RelayCost(g), n);
      SumTake(nodes, Degree(g), n);
      CostOfNodes(g, nodes - {n});
    }
  }

  /** On a connected graph that cost is the sum of all degrees less the number of the other nodes:
      whatever the order of delivery, one copy per link and direction less one per node reached. */
  lemma ConnectedCost(g: Flood.Graph, o: string)
    requires o in g && forall n :: n in g ==> FloodRuns.Reachable(g, o, n)
    ensures |g[o]| + Sum(FloodRuns.Others(g, o), FloodRuns.RelayCost(g)) == Sum(g.Keys, Degree(g)) - |g| + 1
  {
    assert FloodRuns.Others(g, o) == g.Keys - {o};
    CostOfNodes(g, g.Keys - {o});
    SumTake(g.Keys, Degree(g), o);
    assert |g.Keys| == |g|;
  }
}
