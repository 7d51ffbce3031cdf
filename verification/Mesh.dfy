/** A mesh of relay nodes: every node runs the relay on its own hub, records travel over FIFO links,
    and local users act at any time. */
module Mesh {
  import opened Options
  import opened Text
  import opened Chat
  import opened Proto
  import opened SeenSets
  import opened HubSpec
  import opened RouterSpec
  import opened RelayLaws
  import opened MeshNode
  import Flood

  /** The link graph, and the stretch of time the run takes place in. */
  datatype World = World(g: Flood.Graph, w: Window)

  datatype Net = Net(nodes: map<string, NodeState>, wires: map<Flood.Edge, seq<Record>>,
                     applied: map<string, seq<Record>>, sent: multiset<Record>)

  /** What a node makes of an inbound record: its state afterwards, whether it accepted, the key it
      checked and the ids of the message it put out. */
  datatype Outcome = Outcome(after: NodeState, accept: bool, key: Key, extra: set<Key>)

  ghost function OutcomeOf(w: Window, our: string, n: NodeState, rec: Record, from: string, now: int): Outcome
    requires Tabled(n.hub)
  {
    Outcome(Ingest(our, w.ttl, n, rec, from, now), Accepts(our, n, rec, now), RecordKey(n.hub, rec),
            SentIds(n.hub, rec, from, now))
  }

  /** A local action with `own` recorded as seen, announced to the peers as `rec` or, having no
      announcement or losing it to a full queue, silent; or the arrival of the oldest record on a
      link, with what the node makes of it. */
  datatype Step =
    | Silent(at: string, after: NodeState, own: Option<Key>, now: int)
    | Local(at: string, rec: Record, after: NodeState, own: Option<Key>, now: int)
    | Arrive(src: string, dst: string, out: Outcome, now: int)

  ghost predicate ValidWorld(x: World) {
    Flood.ValidGraph(x.g) && x.w.ttl > 0 && forall n :: n in x.g ==> NormCall(n) == n
  }

  ghost predicate WiresValid(wires: map<Flood.Edge, seq<Record>>) {
    forall e, i :: e in wires && 0 <= i < |wires[e]| ==> OnWire(wires[e][i])
  }

  ghost predicate HubsValid(nodes: map<string, NodeState>) {
    forall n :: n in nodes ==> Valid(nodes[n].hub)
  }

  /** The net has the graph's nodes and links. */
  ghost predicate Shaped(g: Flood.Graph, m: Net) {
    && m.nodes.Keys == g.Keys && m.applied.Keys == g.Keys
    && forall e :: e in m.wires <==> Flood.IsEdge(g, e)
  }

  ghost predicate ValidNet(x: World, m: Net) {
    Shaped(x.g, m) && HubsValid(m.nodes) && WiresValid(m.wires)
  }

  /** The user, present or not, is the same in both. */
  ghost predicate SameUser(h: State, h': State, k: UserKey) {
    (k in h'.users <==> k in h.users) && (k in h.users ==> h'.users[k] == h.users[k])
  }

  /** What a local action may do to the hub: anything but touch the users of other nodes. */
  ghost predicate LocalChange(at: string, h: State, h': State) {
    Valid(h') && forall k: UserKey :: k.node != at ==> SameUser(h, h', k)
  }

  /** What a local action does to the seen-set: it records an id of its own, or nothing. */
  ghost predicate OwnRecorded(w: Window, at: string, n: NodeState, after: NodeState, own: Option<Key>, now: int) {
    && after.seen == (if own.Some? then SeenSets.Record(n.seen, w.ttl, own.value, now) else n.seen)
    && (own.Some? ==> own.value.Synth? && own.value.node == at)
  }

  /** The step is possible: there is something to deliver, or the local node announces itself. */
  ghost predicate Ready(x: World, m: Net, step: Step)
    requires Shaped(x.g, m)
  {
    && During(x.w, step.now)
    && match step
       case Local(at, rec, after, own, now) =>
         at in x.g && rec.node == at && OwnRecorded(x.w, at, m.nodes[at], after, own, now)
       case Silent(at, after, own, now) =>
         at in x.g && OwnRecorded(x.w, at, m.nodes[at], after, own, now)
       case Arrive(src, dst, out, now) =>
         && Flood.IsEdge(x.g, Flood.Edge(src, dst)) && dst in x.g && m.wires[Flood.Edge(src, dst)] != []
         && (m.wires[Flood.Edge(src, dst)][0].node == dst ==> !out.accept)
  }

  /** ... and its outcome is what the hub or the relay really does. */
  ghost predicate Genuine(x: World, m: Net, step: Step)
    requires Shaped(x.g, m) && HubsValid(m.nodes) && Ready(x, m, step)
  {
    match step
    case Local(at, rec, after, own, now) => OnWire(rec) && LocalChange(at, m.nodes[at].hub, after.hub)
    case Silent(at, after, own, now) => LocalChange(at, m.nodes[at].hub, after.hub)
    case Arrive(src, dst, out, now) =>
      assert Valid(m.nodes[dst].hub);
      out == OutcomeOf(x.w, dst, m.nodes[dst], m.wires[Flood.Edge(src, dst)][0], src, now)
  }

  ghost predicate Enabled(x: World, m: Net, step: Step)
    requires ValidNet(x, m)
  {
    Ready(x, m, step) && Genuine(x, m, step)
  }

  ghost function Next(x: World, m: Net, step: Step): Net
    requires Shaped(x.g, m) && Ready(x, m, step)
  {
    match step
    case Local(at, rec, after, own, now) =>
      Net(m.nodes[at := after], Flood.Pushed(m.wires, at, None, rec), m.applied,
          m.sent[rec := m.sent[rec] + |x.g[at]|])
    case Silent(at, after, own, now) => m.(nodes := m.nodes[at := after])
    case Arrive(src, dst, out, now) =>
      var rec := m.wires[Flood.Edge(src, dst)][0];
      Net(m.nodes[dst := out.after], Flood.DeliveredWires(m.wires, src, dst, out.accept),
          if out.accept then m.applied[dst := m.applied[dst] + [rec]] else m.applied,
          if out.accept then m.sent[rec := m.sent[rec] + (|x.g[dst]| - if src in x.g[dst] then 1 else 0)] else m.sent)
  }

  // ---- validity ----

  lemma PushValid(wires: map<Flood.Edge, seq<Record>>, n: string, except: Option<string>, rec: Record)
    requires WiresValid(wires) && OnWire(rec)
    ensures WiresValid(Flood.Pushed(wires, n, except, rec))
  {
  }

  lemma PopValid(wires: map<Flood.Edge, seq<Record>>, e: Flood.Edge)
    requires WiresValid(wires) && e in wires && wires[e] != []
    ensures OnWire(wires[e][0]) && WiresValid(wires[e := wires[e][1..]])
  {
    var popped := wires[e := wires[e][1..]];
    forall f, i | f in popped && 0 <= i < |popped[f]|
      ensures OnWire(popped[f][i])
    {
      assert popped[f][i] == if f == e then wires[e][i + 1] else wires[f][i];
    }
  }

  lemma DeliveredValid(wires: map<Flood.Edge, seq<Record>>, src: string, dst: string, relay: bool)
    requires WiresValid(wires) && Flood.Edge(src, dst) in wires && wires[Flood.Edge(src, dst)] != []
    ensures WiresValid(Flood.DeliveredWires(wires, src, dst, relay))
  {
    var e := Flood.Edge(src, dst);
    PopValid(wires, e);
    if relay { PushValid(wires[e := wires[e][1..]], dst, Some(src), wires[e][0]); }
  }

  lemma HubPut(nodes: map<string, NodeState>, n: string, after: NodeState)
    requires HubsValid(nodes) && Valid(after.hub)
    ensures HubsValid(nodes[n := after])
  {
  }

  lemma NextIsShaped(x: World, m: Net, step: Step)
    requires Shaped(x.g, m) && Ready(x, m, step)
    ensures Shaped(x.g, Next(x, m, step))
  {
  }

  /** What the rest of the argument uses of a genuine outcome. */
  ghost predicate Sound(w: Window, our: string, n: NodeState, rec: Record, out: Outcome) {
    && Lingering(w, out.after.seen) <= Lingering(w, n.seen)
    && if rec.node == our then Marked(w, out.after.seen) == Marked(w, n.seen) && !out.accept
       else if out.accept then
         out.key !in Marked(w, n.seen) && Marked(w, out.after.seen) == Marked(w, n.seen) + {out.key} + out.extra
       else
         out.key in Marked(w, n.seen) + Lingering(w, n.seen) && Marked(w, out.after.seen) == Marked(w, n.seen) + {out.key}
  }

  lemma OutcomesAreSound(w: Window, our: string, n: NodeState, rec: Record, from: string, now: int)
    requires Valid(n.hub) && During(w, now) && OnWire(rec) && NormCall(our) == our
    ensures Valid(OutcomeOf(w, our, n, rec, from, now).after.hub)
    ensures Sound(w, our, n, rec, OutcomeOf(w, our, n, rec, from, now))
  {
    OnWireIsCanonical(rec);
    IngestKeeps(our, w.ttl, n, rec, from, now);
    IngestMarks(w, our, n, rec, from, now);
  }

  lemma GenuineIsSound(x: World, m: Net, step: Step)
    requires ValidWorld(x) && ValidNet(x, m) && Enabled(x, m, step) && step.Arrive?
    ensures Valid(step.out.after.hub)
    ensures Sound(x.w, step.dst, m.nodes[step.dst], m.wires[Flood.Edge(step.src, step.dst)][0], step.out)
  {
    OutcomesAreSound(x.w, step.dst, m.nodes[step.dst], m.wires[Flood.Edge(step.src, step.dst)][0], step.src, step.now);
  }

  lemma NextIsValid(x: World, m: Net, step: Step)
    requires ValidWorld(x) && ValidNet(x, m) && Enabled(x, m, step)
    ensures ValidNet(x, Next(x, m, step))
  {
    NextIsShaped(x, m, step);
    if step.Local? {
      PushValid(m.wires, step.at, None, step.rec);
      HubPut(m.nodes, step.at, step.after);
    } else if step.Silent? {
      HubPut(m.nodes, step.at, step.after);
    } else {
      GenuineIsSound(x, m, step);
      HubPut(m.nodes, step.dst, step.out.after);
      DeliveredValid(m.wires, step.src, step.dst, step.out.accept);
    }
  }

  // ---- the mesh refines the flood ----

  /** The keys every node has recorded in the window. */
  ghost function AllMarked(w: Window, nodes: map<string, NodeState>): map<string, set<Key>> {
    map n | n in nodes :: Marked(w, nodes[n].seen)
  }

  ghost function Abs(w: Window, m: Net): Flood.Net {
    Flood.Net(AllMarked(w, m.nodes), m.wires, m.applied, m.sent)
  }

  function OwnKeys(own: Option<Key>): set<Key> { if own.Some? then {own.value} else {} }

  /** The step, in the flood's terms. */
  ghost function AbsStep(step: Step): Flood.Step {
    match step
    case Local(at, rec, after, own, now) => Flood.Originate(at, rec, OwnKeys(own))
    case Silent(at, after, own, now) => Flood.Note(at, OwnKeys(own))
    case Arrive(src, dst, out, now) => Flood.Deliver(src, dst, out.key, out.extra, out.accept)
  }

  /** The keys that outlived the time before the run. */
  ghost predicate Bounded(w: Window, nodes: map<string, NodeState>, stale: map<string, set<Key>>) {
    forall n :: n in nodes && n in stale ==> Lingering(w, nodes[n].seen) <= stale[n]
  }

  lemma AbsIsValid(x: World, m: Net)
    requires Shaped(x.g, m)
    ensures Flood.ValidNet(x.g, Abs(x.w, m))
  {
  }

  lemma AbsPut(w: Window, nodes: map<string, NodeState>, n: string, after: NodeState)
    requires n in nodes
    ensures AllMarked(w, nodes[n := after]) == AllMarked(w, nodes)[n := Marked(w, after.seen)]
  {
  }

  lemma MarkedUnchanged(w: Window, nodes: map<string, NodeState>, n: string, after: NodeState)
    requires n in nodes && Marked(w, after.seen) == Marked(w, nodes[n].seen)
    ensures AllMarked(w, nodes[n := after]) == AllMarked(w, nodes)
  {
  }

  lemma BoundedPut(w: Window, nodes: map<string, NodeState>, stale: map<string, set<Key>>, n: string, after: NodeState)
    requires n in nodes && Bounded(w, nodes, stale) && Lingering(w, after.seen) <= Lingering(w, nodes[n].seen)
    ensures Bounded(w, nodes[n := after], stale)
  {
  }

  lemma OwnMarks(w: Window, at: string, n: NodeState, after: NodeState, own: Option<Key>, now: int)
    requires During(w, now) && OwnRecorded(w, at, n, after, own, now)
    ensures Marked(w, after.seen) == Marked(w, n.seen) + OwnKeys(own)
    ensures Lingering(w, after.seen) <= Lingering(w, n.seen)
  {
    if own.Some? { RecordMarks(w, n.seen, own.value, now); }
  }

  /** The step is a step of the flood, and leaves no more behind from before the run. */
  ghost predicate Refines(x: World, m: Net, stale: map<string, set<Key>>, step: Step)
    requires Flood.ValidGraph(x.g) && Shaped(x.g, m) && Ready(x, m, step) && stale.Keys == x.g.Keys
  {
    var a, s := Abs(x.w, m), AbsStep(step);
    && Flood.ValidNet(x.g, a) && Flood.Enabled(x.g, stale, a, s)
    && Abs(x.w, Next(x, m, step)) == Flood.Next(x.g, stale, a, s)
    && Bounded(x.w, Next(x, m, step).nodes, stale)
  }

  lemma AnnouncedRefines(x: World, m: Net, stale: map<string, set<Key>>, step: Step)
    requires Flood.ValidGraph(x.g) && Shaped(x.g, m) && Ready(x, m, step) && step.Local? && stale.Keys == x.g.Keys
    requires Flood.ValidNet(x.g, Abs(x.w, m))
    requires Marked(x.w, step.after.seen) == Marked(x.w, m.nodes[step.at].seen) + OwnKeys(step.own)
    ensures Flood.Enabled(x.g, stale, Abs(x.w, m), AbsStep(step))
    ensures Abs(x.w, Next(x, m, step)) == Flood.Next(x.g, stale, Abs(x.w, m), AbsStep(step))
  {
    AbsPut(x.w, m.nodes, step.at, step.after);
  }

  lemma SilentRefines(x: World, m: Net, stale: map<string, set<Key>>, step: Step)
    requires Flood.ValidGraph(x.g) && Shaped(x.g, m) && Ready(x, m, step) && step.Silent? && stale.Keys == x.g.Keys
    requires Flood.ValidNet(x.g, Abs(x.w, m))
    requires Marked(x.w, step.after.seen) == Marked(x.w, m.nodes[step.at].seen) + OwnKeys(step.own)
    ensures Flood.Enabled(x.g, stale, Abs(x.w, m), AbsStep(step))
    ensures Abs(x.w, Next(x, m, step)) == Flood.Next(x.g, stale, Abs(x.w, m), AbsStep(step))
  {
    AbsPut(x.w, m.nodes, step.at, step.after);
  }

  lemma LocalRefines(x: World, m: Net, stale: map<string, set<Key>>, step: Step)
    requires Flood.ValidGraph(x.g) && Shaped(x.g, m) && Ready(x, m, step) && !step.Arrive?
    requires stale.Keys == x.g.Keys && Bounded(x.w, m.nodes, stale)
    ensures Refines(x, m, stale, step)
  {
    AbsIsValid(x, m);
    OwnMarks(x.w, step.at, m.nodes[step.at], step.after, step.own, step.now);
    BoundedPut(x.w, m.nodes, stale, step.at, step.after);
    if step.Local? { AnnouncedRefines(x, m, stale, step); } else { SilentRefines(x, m, stale, step); }
  }

  ghost predicate SoundArrival(x: World, m: Net, step: Step)
    requires Shaped(x.g, m) && Ready(x, m, step) && step.Arrive?
  {
    Sound(x.w, step.dst, m.nodes[step.dst], m.wires[Flood.Edge(step.src, step.dst)][0], step.out)
  }

  lemma ArrivalIsEnabled(x: World, m: Net, stale: map<string, set<Key>>, step: Step)
    requires Flood.ValidGraph(x.g) && Shaped(x.g, m) && Ready(x, m, step) && step.Arrive?
    requires stale.Keys == x.g.Keys && Bounded(x.w, m.nodes, stale) && SoundArrival(x, m, step)
    ensures Flood.ValidNet(x.g, Abs(x.w, m)) && Flood.Enabled(x.g, stale, Abs(x.w, m), AbsStep(step))
  {
    AbsIsValid(x, m);
  }

  /** A node's own record comes back to it. */
  lemma ReturnRefines(x: World, m: Net, stale: map<string, set<Key>>, step: Step)
    requires Flood.ValidGraph(x.g) && Shaped(x.g, m) && Ready(x, m, step) && step.Arrive? && stale.Keys == x.g.Keys
    requires Flood.ValidNet(x.g, Abs(x.w, m)) && Flood.Enabled(x.g, stale, Abs(x.w, m), AbsStep(step))
    requires m.wires[Flood.Edge(step.src, step.dst)][0].node == step.dst && SoundArrival(x, m, step)
    ensures Abs(x.w, Next(x, m, step)) == Flood.Next(x.g, stale, Abs(x.w, m), AbsStep(step))
  {
    MarkedUnchanged(x.w, m.nodes, step.dst, step.out.after);
  }

  lemma RefusalRefines(x: World, m: Net, stale: map<string, set<Key>>, step: Step)
    requires Flood.ValidGraph(x.g) && Shaped(x.g, m) && Ready(x, m, step) && step.Arrive? && stale.Keys == x.g.Keys
    requires Flood.ValidNet(x.g, Abs(x.w, m)) && Flood.Enabled(x.g, stale, Abs(x.w, m), AbsStep(step))
    requires m.wires[Flood.Edge(step.src, step.dst)][0].node != step.dst && !step.out.accept && SoundArrival(x, m, step)
    ensures Abs(x.w, Next(x, m, step)) == Flood.Next(x.g, stale, Abs(x.w, m), AbsStep(step))
  {
    AbsPut(x.w, m.nodes, step.dst, step.out.after);
  }

  lemma AcceptanceRefines(x: World, m: Net, stale: map<string, set<Key>>, step: Step)
    requires Flood.ValidGraph(x.g) && Shaped(x.g, m) && Ready(x, m, step) && step.Arrive? && stale.Keys == x.g.Keys
    requires Flood.ValidNet(x.g, Abs(x.w, m)) && Flood.Enabled(x.g, stale, Abs(x.w, m), AbsStep(step))
    requires m.wires[Flood.Edge(step.src, step.dst)][0].node != step.dst && step.out.accept && SoundArrival(x, m, step)
    ensures Abs(x.w, Next(x, m, step)) == Flood.Next(x.g, stale, Abs(x.w, m), AbsStep(step))
  {
    AbsPut(x.w, m.nodes, step.dst, step.out.after);
  }

  lemma ArrivalRefines(x: World, m: Net, stale: map<string, set<Key>>, step: Step)
    requires Flood.ValidGraph(x.g) && Shaped(x.g, m) && Ready(x, m, step) && step.Arrive?
    requires stale.Keys == x.g.Keys && Bounded(x.w, m.nodes, stale) && SoundArrival(x, m, step)
    ensures Refines(x, m, stale, step)
  {
    ArrivalIsEnabled(x, m, stale, step);
    BoundedPut(x.w, m.nodes, stale, step.dst, step.out.after);
    if m.wires[Flood.Edge(step.src, step.dst)][0].node == step.dst {
      ReturnRefines(x, m, stale, step);
    } else if step.out.accept {
      AcceptanceRefines(x, m, stale, step);
    } else {
      RefusalRefines(x, m, stale, step);
    }
  }
}
