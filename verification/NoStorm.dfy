/** No storm: the traffic any finite set of originations can cause is bounded, topic changes that
    re-key data records in mid-flight included. */
module NoStorm {
  import opened Options
  import opened Text
  import opened Chat
  import opened Proto
  import opened SeenSets
  import opened HubSpec
  import opened RouterSpec
  import opened RelayLaws
  import opened MeshNode
  import opened Mesh
  import opened MeshRuns
  import Flood
  import FloodRuns

  // ---- the keys a record can have ----

  /** Every key a node can check `rec` under, if its sender's topic there folds into `folds`. */
  function KeysFor(rec: Record, folds: set<string>): set<Key> {
    if rec.typ == ID_DATA then set f | f in folds :: Synth(rec.node, rec.user, TopicKind, f, rec.Tail(0))
    else if rec.typ == ID_SEND then {Synth(rec.node, rec.user, PrivateKind, Lower(rec.Field(0)), rec.Tail(1))}
    else {Raw(rec.typ, rec.raw)}
  }

  function Universe(recs: set<Record>, folds: set<string>): set<Key> {
    set rec, k | rec in recs && k in KeysFor(rec, folds) :: k
  }

  /** The remote users' topics at a node fold into `folds`. */
  ghost predicate NodeFolds(our: string, h: State, folds: set<string>) {
    forall k :: k in h.users && k.node != our ==> Lower(h.users[k].topic) in folds
  }

  /** A topic record names a topic of `folds`. */
  predicate Named(rec: Record, folds: set<string>) { rec.typ == ID_TOPIC ==> TopicKey(rec.Field(0)) in folds }

  lemma KeyIsDrawn(our: string, h: State, rec: Record, folds: set<string>)
    requires Canonical(rec) && rec.node != our && NodeFolds(our, h, folds) && Lower(DEFAULT_TOPIC) in folds
    ensures RecordKey(h, rec) in KeysFor(rec, folds)
  {
    KeyParts(h, rec);
    assert CanonKey(SenderKey(rec)) == SenderKey(rec);
  }

  lemma DisplayNameFolds(h: State, k: UserKey)
    requires Valid(h) && k in h.users
    ensures Lower(h.users[k].topic) == TopicKey(h.users[k].topic)
  {
    assert UserValid(h.users[k], k, h.topics);
  }

  lemma ApplyFoldsAt(h: State, rec: Record, from: string, now: int, folds: set<string>, k: UserKey)
    requires Valid(h) && Valid(ApplyState(h, rec, from, now)) && k in ApplyState(h, rec, from, now).users
    requires k in h.users ==> Lower(h.users[k].topic) in folds
    requires Named(rec, folds) && Lower(DEFAULT_TOPIC) in folds
    ensures Lower(ApplyState(h, rec, from, now).users[k].topic) in folds
  {
    ApplyIsLocal(h, rec, from, now, k);
    DisplayNameFolds(ApplyState(h, rec, from, now), k);
    TrimClean(DEFAULT_TOPIC);
  }

  /** An inbound record brings in no topic but the default one and the one it names. */
  lemma IngestFolds(our: string, ttl: int, n: NodeState, rec: Record, from: string, now: int, folds: set<string>)
    requires Valid(n.hub) && NodeFolds(our, n.hub, folds) && Named(rec, folds) && Lower(DEFAULT_TOPIC) in folds
    ensures NodeFolds(our, Ingest(our, ttl, n, rec, from, now).hub, folds)
  {
    if Accepts(our, n, rec, now) {
      ApplyKeeps(n.hub, rec, from, now);
      var h' := ApplyState(n.hub, rec, from, now);
      forall k | k in h'.users && k.node != our
        ensures Lower(h'.users[k].topic) in folds
      {
        ApplyFoldsAt(n.hub, rec, from, now, folds, k);
      }
    }
  }

  // ---- whole runs ----

  /** Everything in flight is one of `recs`. */
  ghost predicate FlightIn(wires: map<Flood.Edge, seq<Record>>, recs: set<Record>) {
    forall e, i :: e in wires && 0 <= i < |wires[e]| ==> wires[e][i] in recs
  }

  ghost predicate OriginatedIn(steps: seq<Step>, recs: set<Record>) {
    forall i :: 0 <= i < |steps| && steps[i].Local? ==> steps[i].rec in recs
  }

  ghost predicate AllFolds(nodes: map<string, NodeState>, folds: set<string>) {
    forall n :: n in nodes ==> NodeFolds(n, nodes[n].hub, folds)
  }

  ghost predicate AllNamed(recs: set<Record>, folds: set<string>) {
    Lower(DEFAULT_TOPIC) in folds && forall rec :: rec in recs ==> Named(rec, folds)
  }

  lemma LocalFolds(at: string, h: State, h': State, folds: set<string>)
    requires NodeFolds(at, h, folds) && LocalChange(at, h, h')
    ensures NodeFolds(at, h', folds)
  {
  }

  lemma FoldsPut(nodes: map<string, NodeState>, n: string, after: NodeState, folds: set<string>)
    requires AllFolds(nodes, folds) && NodeFolds(n, after.hub, folds)
    ensures AllFolds(nodes[n := after], folds)
  {
  }

  lemma NextFolds(x: World, m: Net, step: Step, recs: set<Record>, folds: set<string>)
    requires ValidWorld(x) && ValidNet(x, m) && Enabled(x, m, step)
    requires AllFolds(m.nodes, folds) && AllNamed(recs, folds) && FlightIn(m.wires, recs)
    ensures AllFolds(Next(x, m, step).nodes, folds)
  {
    if !step.Arrive? {
      LocalFolds(step.at, m.nodes[step.at].hub, step.after.hub, folds);
      FoldsPut(m.nodes, step.at, step.after, folds);
    } else {
      ArrivalFolds(x, m, step, folds);
      FoldsPut(m.nodes, step.dst, step.out.after, folds);
    }
  }

  lemma ArrivalFolds(x: World, m: Net, step: Step, folds: set<string>)
    requires ValidWorld(x) && ValidNet(x, m) && Enabled(x, m, step) && step.Arrive? && AllFolds(m.nodes, folds)
    requires Named(m.wires[Flood.Edge(step.src, step.dst)][0], folds) && Lower(DEFAULT_TOPIC) in folds
    ensures NodeFolds(step.dst, step.out.after.hub, folds)
  {
    IngestFolds(step.dst, x.w.ttl, m.nodes[step.dst], m.wires[Flood.Edge(step.src, step.dst)][0], step.src, step.now, folds);
  }

  lemma PushIn(wires: map<Flood.Edge, seq<Record>>, n: string, except: Option<string>, rec: Record, recs: set<Record>)
    requires FlightIn(wires, recs) && rec in recs
    ensures FlightIn(Flood.Pushed(wires, n, except, rec), recs)
  {
  }

  lemma PopIn(wires: map<Flood.Edge, seq<Record>>, e: Flood.Edge, recs: set<Record>)
    requires FlightIn(wires, recs) && e in wires && wires[e] != []
    ensures wires[e][0] in recs && FlightIn(wires[e := wires[e][1..]], recs)
  {
    var popped := wires[e := wires[e][1..]];
    forall f, i | f in popped && 0 <= i < |popped[f]|
      ensures popped[f][i] in recs
    {
      assert popped[f][i] == if f == e then wires[e][i + 1] else wires[f][i];
    }
  }

  lemma NextIn(x: World, m: Net, step: Step, recs: set<Record>)
    requires Shaped(x.g, m) && Ready(x, m, step) && FlightIn(m.wires, recs) && (step.Local? ==> step.rec in recs)
    ensures FlightIn(Next(x, m, step).wires, recs)
  {
    if step.Local? {
      PushIn(m.wires, step.at, None, step.rec, recs);
    } else if step.Arrive? {
      var e := Flood.Edge(step.src, step.dst);
      PopIn(m.wires, e, recs);
      if step.out.accept { PushIn(m.wires[e := m.wires[e][1..]], step.dst, Some(step.src), m.wires[e][0], recs); }
    }
  }

  lemma StepIsDrawn(x: World, m: Net, step: Step, recs: set<Record>, folds: set<string>)
    requires ValidWorld(x) && ValidNet(x, m) && Enabled(x, m, step)
    requires AllFolds(m.nodes, folds) && Lower(DEFAULT_TOPIC) in folds && FlightIn(m.wires, recs)
    ensures FloodRuns.Drawn(Abs(x.w, m), AbsStep(step), Universe(recs, folds))
  {
    if step.Arrive? {
      var n, rec := m.nodes[step.dst], m.wires[Flood.Edge(step.src, step.dst)][0];
      if rec.node != step.dst {
        OnWireIsCanonical(rec);
        KeyIsDrawn(step.dst, n.hub, rec, folds);
      }
    }
  }

  lemma FirstIsDrawn(x: World, m: Net, stale: map<string, set<Key>>, step: Step, recs: set<Record>, folds: set<string>)
    requires ValidWorld(x) && ValidNet(x, m) && Enabled(x, m, step)
    requires stale.Keys == x.g.Keys && Bounded(x.w, m.nodes, stale)
    requires AllFolds(m.nodes, folds) && AllNamed(recs, folds) && FlightIn(m.wires, recs)
    requires step.Local? ==> step.rec in recs
    ensures
      var a, s := Abs(x.w, m), AbsStep(step);
      && Flood.ValidNet(x.g, a) && Flood.Enabled(x.g, stale, a, s) && FloodRuns.Drawn(a, s, Universe(recs, folds))
      && Abs(x.w, Next(x, m, step)) == Flood.Next(x.g, stale, a, s)
    ensures ValidNet(x, Next(x, m, step)) && Bounded(x.w, Next(x, m, step).nodes, stale)
    ensures AllFolds(Next(x, m, step).nodes, folds) && FlightIn(Next(x, m, step).wires, recs)
  {
    StepRefines(x, m, stale, step);
    NextIsValid(x, m, step);
    StepIsDrawn(x, m, step, recs, folds);
    NextFolds(x, m, step, recs, folds);
    NextIn(x, m, step, recs);
  }

  lemma OriginatedInTail(steps: seq<Step>, recs: set<Record>)
    requires OriginatedIn(steps, recs) && steps != []
    ensures OriginatedIn(steps[1..], recs) && (steps[0].Local? ==> steps[0].rec in recs)
  {
  }

  lemma {:induction false} RunIsDrawn(x: World, m: Net, stale: map<string, set<Key>>, steps: seq<Step>,
                                      recs: set<Record>, folds: set<string>)
    requires ValidWorld(x) && ValidNet(x, m) && CanRun(x, m, steps)
    requires stale.Keys == x.g.Keys && Bounded(x.w, m.nodes, stale)
    requires AllFolds(m.nodes, folds) && AllNamed(recs, folds) && FlightIn(m.wires, recs) && OriginatedIn(steps, recs)
    ensures Flood.ValidNet(x.g, Abs(x.w, m)) && FloodRuns.CanRun(x.g, stale, Abs(x.w, m), AbsSteps(steps))
    ensures FloodRuns.AllDrawn(x.g, stale, Abs(x.w, m), AbsSteps(steps), Universe(recs, folds))
    decreases |steps|
  {
    AbsIsValid(x, m);
    if steps != [] {
      OriginatedInTail(steps, recs);
      FirstIsDrawn(x, m, stale, steps[0], recs, folds);
      RunIsDrawn(x, Next(x, m, steps[0]), stale, steps[1..], recs, folds);
      FloodRuns.DrawnOneMore(x.g, stale, Abs(x.w, m), AbsStep(steps[0]), AbsSteps(steps[1..]), Universe(recs, folds));
    }
  }

  // ---- the bound ----

  function Arrivals(steps: seq<Step>): nat {
    if steps == [] then 0 else (if steps[0].Arrive? then 1 else 0) + Arrivals(steps[1..])
  }

  /** The records a run deals with: those in flight at the start, and those originated in it. */
  ghost function Recs(m: Net, steps: seq<Step>): set<Record> {
    (set e, i | e in m.wires && 0 <= i < |m.wires[e]| :: m.wires[e][i])
    + (set i | 0 <= i < |steps| && steps[i].Local? :: steps[i].rec)
  }

  /** The topics it deals with: the default one, the remote users' at the start, and those named. */
  ghost function Folds(m: Net, recs: set<Record>): set<string> {
    {Lower(DEFAULT_TOPIC)}
    + (set n, k | n in m.nodes && k in m.nodes[n].hub.users :: Lower(m.nodes[n].hub.users[k].topic))
    + (set rec | rec in recs && rec.typ == ID_TOPIC :: TopicKey(rec.Field(0)))
  }

  lemma RecsCover(m: Net, steps: seq<Step>)
    ensures FlightIn(m.wires, Recs(m, steps)) && OriginatedIn(steps, Recs(m, steps))
  {
  }

  lemma FoldsCover(m: Net, recs: set<Record>)
    ensures AllFolds(m.nodes, Folds(m, recs)) && AllNamed(recs, Folds(m, recs))
  {
  }

  lemma {:induction false} ArrivalsAreDeliveries(steps: seq<Step>)
    ensures FloodRuns.Deliveries(AbsSteps(steps)) == Arrivals(steps)
  {
    if steps != [] {
      ArrivalsAreDeliveries(steps[1..]);
      assert AbsSteps(steps)[1..] == AbsSteps(steps[1..]);
    }
  }

  /** No storm: whatever is originated in a run within the seen-set's time to live, and however its
      steps interleave, the deliveries it makes number at most the copies in flight at the start,
      plus every node's degree for every key it could still record, plus the degree of the node of
      every origination. */
  lemma TrafficIsBounded(x: World, m: Net, steps: seq<Step>)
    requires ValidWorld(x) && ValidNet(x, m) && CanRun(x, m, steps)
    ensures
      var recs := Recs(m, steps);
      Arrivals(steps) <= FloodRuns.Measure(x.g, Abs(x.w, m), Universe(recs, Folds(m, recs)))
                         + FloodRuns.Injected(x.g, AbsSteps(steps))
  {
    var recs, stale := Recs(m, steps), Stale(x.w, m.nodes);
    var folds := Folds(m, recs);
    RecsCover(m, steps);
    FoldsCover(m, recs);
    RunIsDrawn(x, m, stale, steps, recs, folds);
    FloodRuns.DeliveriesAreBounded(x.g, stale, Abs(x.w, m), AbsSteps(steps), Universe(recs, folds));
    ArrivalsAreDeliveries(steps);
  }

  /** ... and a run can always go on while anything is in flight, so every run drains. */
  lemma InFlightCanArrive(x: World, m: Net, e: Flood.Edge, now: int)
    requires ValidWorld(x) && ValidNet(x, m) && e in m.wires && m.wires[e] != [] && During(x.w, now)
    ensures e.dst in m.nodes && Valid(m.nodes[e.dst].hub)
    ensures Enabled(x, m, Arrive(e.src, e.dst, OutcomeOf(x.w, e.dst, m.nodes[e.dst], m.wires[e][0], e.src, now), now))
  {
    assert Flood.IsEdge(x.g, e);
    assert e == Flood.Edge(e.src, e.dst);
    OutcomesAreSound(x.w, e.dst, m.nodes[e.dst], m.wires[e][0], e.src, now);
  }
}
