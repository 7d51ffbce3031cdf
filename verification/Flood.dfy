/** Flooding with duplicate suppression over an arbitrary finite graph, down to what its
    guarantees rest on: which keys a node has recorded, what is in flight on each directed
    link, and what each node has applied. */
module Flood {
  import opened Options
  import opened Chat
  import opened Proto

  /** The nodes and, for each, its neighbours. */
  type Graph = map<string, set<string>>

  datatype Edge = Edge(src: string, dst: string)

  /** Links join two different nodes and work both ways. */
  ghost predicate ValidGraph(g: Graph) {
    forall a :: a in g ==> a !in g[a] && forall b :: b in g[a] ==> b in g && a in g[b]
  }

  ghost predicate IsEdge(g: Graph, e: Edge) { e.src in g && e.dst in g[e.src] }

  /** `recorded` are the keys recorded since the run began; `applied` and `sent` are history. */
  datatype Net = Net(recorded: map<string, set<Key>>, wires: map<Edge, seq<Record>>,
                     applied: map<string, seq<Record>>, sent: multiset<Record>)

  ghost predicate ValidNet(g: Graph, net: Net) {
    && net.recorded.Keys == g.Keys && net.applied.Keys == g.Keys
    && forall e :: e in net.wires <==> IsEdge(g, e)
  }

  /** A node sends a record of its own out, or only records keys of its own; or a record arrives:
      `key` is what `dst` checks the record under, `extra` what applying it records besides. */
  datatype Step =
    | Originate(at: string, rec: Record, own: set<Key>)
    | Note(at: string, own: set<Key>)
    | Deliver(src: string, dst: string, key: Key, extra: set<Key>, accept: bool)

  /** A copy of `rec` queued on every link out of `n`, but not towards `except`. */
  function Pushed(wires: map<Edge, seq<Record>>, n: string, except: Option<string>, rec: Record)
    : map<Edge, seq<Record>>
  {
    map e | e in wires :: if e.src == n && Some(e.dst) != except then wires[e] + [rec] else wires[e]
  }

  /** A step is possible. A node never accepts its own record or a recorded key; a key it
      refuses is recorded or among `stale`, the keys still live from before the run. */
  ghost predicate Enabled(g: Graph, stale: map<string, set<Key>>, net: Net, step: Step)
    requires ValidNet(g, net) && stale.Keys == g.Keys
  {
    match step
    case Originate(at, rec, own) =>
      at in g && rec.node == at && forall k :: k in own ==> k.Synth? && k.node == at
    case Note(at, own) => at in g && forall k :: k in own ==> k.Synth? && k.node == at
    case Deliver(src, dst, key, extra, accept) =>
      && IsEdge(g, Edge(src, dst)) && dst in g && net.wires[Edge(src, dst)] != []
      && (if net.wires[Edge(src, dst)][0].node == dst then !accept
          else if accept then key !in net.recorded[dst]
          else key in net.recorded[dst] || key in stale[dst])
  }

  ghost function Next(g: Graph, stale: map<string, set<Key>>, net: Net, step: Step): Net
    requires ValidGraph(g) && ValidNet(g, net) && stale.Keys == g.Keys && Enabled(g, stale, net, step)
  {
    match step
    case Originate(at, rec, own) =>
      net.(recorded := net.recorded[at := net.recorded[at] + own],
           wires := Pushed(net.wires, at, None, rec),
           sent := net.sent[rec := net.sent[rec] + |g[at]|])
    case Note(at, own) => net.(recorded := net.recorded[at := net.recorded[at] + own])
    case Deliver(src, dst, key, extra, accept) =>
      var e := Edge(src, dst);
      var rec := net.wires[e][0];
      var popped := net.wires[e := net.wires[e][1..]];
      if rec.node == dst then net.(wires := popped)
      else if !accept then
        net.(wires := popped, recorded := net.recorded[dst := net.recorded[dst] + {key}])
      else
        Net(net.recorded[dst := net.recorded[dst] + {key} + extra], Pushed(popped, dst, Some(src), rec),
            net.applied[dst := net.applied[dst] + [rec]],
            net.sent[rec := net.sent[rec] + (|g[dst]| - 1)])
  }

  lemma NextIsValid(g: Graph, stale: map<string, set<Key>>, net: Net, step: Step)
    requires ValidGraph(g) && ValidNet(g, net) && stale.Keys == g.Keys && Enabled(g, stale, net, step)
    ensures ValidNet(g, Next(g, stale, net, step))
  {
  }

  // ---- one record, followed through a run ----

  /** The record under observation: the record, and the key each node knows it by. */
  datatype Probe = Probe(rec: Record, keys: map<string, Key>)

  /** The origin, and every node that has recorded the record. */
  ghost predicate Reached(net: Net, p: Probe, n: string) {
    n == p.rec.node || (n in p.keys && n in net.recorded && p.keys[n] in net.recorded[n])
  }

  function Occurrences(s: seq<Record>, r: Record): nat { multiset(s)[r] }

  ghost predicate InFlight(net: Net, r: Record, e: Edge) { e in net.wires && r in net.wires[e] }

  /** Applied once where recorded, never at the origin. */
  ghost predicate AppliedRight(g: Graph, net: Net, p: Probe)
    requires ValidNet(g, net)
  {
    forall n :: n in g ==>
      Occurrences(net.applied[n], p.rec) == if n != p.rec.node && Reached(net, p, n) then 1 else 0
  }

  /** Every link out of a reached node leads to a reached node or has the record in flight. */
  ghost predicate Covered(g: Graph, net: Net, p: Probe)
    requires ValidNet(g, net)
  {
    forall e :: IsEdge(g, e) && Reached(net, p, e.src) ==> Reached(net, p, e.dst) || InFlight(net, p.rec, e)
  }

  /** Only reached nodes have sent the record. */
  ghost predicate Sourced(net: Net, p: Probe) {
    forall e :: InFlight(net, p.rec, e) ==> Reached(net, p, e.src)
  }

  ghost predicate Tracked(g: Graph, net: Net, p: Probe)
    requires ValidNet(g, net)
  {
    AppliedRight(g, net, p) && Covered(g, net, p) && Sourced(net, p)
  }

  /** The step does not confuse the record with another: a delivery of it is checked under its own
      key, and no other record or local message records that key at the node. */
  ghost predicate Undisturbed(g: Graph, net: Net, p: Probe, step: Step)
    requires ValidNet(g, net)
  {
    match step
    case Originate(at, rec, own) => rec != p.rec && (at in p.keys && at != p.rec.node ==> p.keys[at] !in own)
    case Note(at, own) => at in p.keys && at != p.rec.node ==> p.keys[at] !in own
    case Deliver(src, dst, key, extra, accept) =>
      Edge(src, dst) in net.wires && net.wires[Edge(src, dst)] != [] && dst in p.keys && dst != p.rec.node ==>
        var rec := net.wires[Edge(src, dst)][0];
        if rec == p.rec then key == p.keys[dst] else key != p.keys[dst] && p.keys[dst] !in extra
  }

  lemma PushSeen(wires: map<Edge, seq<Record>>, n: string, except: Option<string>, rec: Record, r: Record, e: Edge)
    requires e in wires
    ensures r in Pushed(wires, n, except, rec)[e] <==> r in wires[e] || (r == rec && e.src == n && Some(e.dst) != except)
  {
  }

  lemma PopSeen(s: seq<Record>, r: Record)
    requires s != []
    ensures r in s[1..] ==> r in s
    ensures s[0] != r && r in s ==> r in s[1..]
  {
  }

  lemma AppliedOneMore(s: seq<Record>, r: Record, x: Record)
    ensures Occurrences(s + [x], r) == Occurrences(s, r) + if x == r then 1 else 0
  {
  }

  /** Nothing newly reached, nothing applied. */
  ghost predicate SameNodes(g: Graph, net: Net, net': Net, p: Probe)
    requires ValidNet(g, net) && ValidNet(g, net')
  {
    forall n :: n in g ==>
      && (Reached(net', p, n) <==> Reached(net, p, n))
      && Occurrences(net'.applied[n], p.rec) == Occurrences(net.applied[n], p.rec)
  }

  /** Nothing newly in flight, and no copy gone except towards a reached node. */
  ghost predicate NoCopyLost(net: Net, net': Net, p: Probe) {
    forall e :: e in net.wires ==>
      && (InFlight(net', p.rec, e) ==> InFlight(net, p.rec, e))
      && (InFlight(net, p.rec, e) ==> InFlight(net', p.rec, e) || Reached(net, p, e.dst))
  }

  /** What a step may do without being noticed. */
  ghost predicate Unnoticed(g: Graph, net: Net, net': Net, p: Probe)
    requires ValidNet(g, net) && ValidNet(g, net')
  {
    SameNodes(g, net, net', p) && NoCopyLost(net, net', p)
  }

  lemma UnnoticedKeepsTracked(g: Graph, net: Net, net': Net, p: Probe)
    requires ValidGraph(g) && ValidNet(g, net) && ValidNet(g, net') && Unnoticed(g, net, net', p) && Tracked(g, net, p)
    ensures Tracked(g, net', p)
  {
  }

  lemma OriginationIsUnnoticed(g: Graph, stale: map<string, set<Key>>, net: Net, p: Probe, step: Step)
    requires ValidGraph(g) && ValidNet(g, net) && stale.Keys == g.Keys && Enabled(g, stale, net, step)
    requires step.Originate? && Undisturbed(g, net, p, step)
    ensures
      var net' := Next(g, stale, net, step);
      ValidNet(g, net') && Unnoticed(g, net, net', p)
  {
    NextIsValid(g, stale, net, step);
    forall e | e in net.wires
      ensures p.rec in Pushed(net.wires, step.at, None, step.rec)[e] <==> p.rec in net.wires[e]
    {
      PushSeen(net.wires, step.at, None, step.rec, p.rec, e);
    }
  }

  lemma NoteIsUnnoticed(g: Graph, stale: map<string, set<Key>>, net: Net, p: Probe, step: Step)
    requires ValidGraph(g) && ValidNet(g, net) && stale.Keys == g.Keys && Enabled(g, stale, net, step)
    requires step.Note? && Undisturbed(g, net, p, step)
    ensures
      var net' := Next(g, stale, net, step);
      ValidNet(g, net') && Unnoticed(g, net, net', p) && net'.sent == net.sent
  {
    NextIsValid(g, stale, net, step);
  }

  /** The queues after a delivery. */
  function DeliveredWires(wires: map<Edge, seq<Record>>, src: string, dst: string, relay: bool): map<Edge, seq<Record>>
    requires Edge(src, dst) in wires && wires[Edge(src, dst)] != []
  {
    var e := Edge(src, dst);
    var popped := wires[e := wires[e][1..]];
    if relay then Pushed(popped, dst, Some(src), wires[e][0]) else popped
  }

  lemma DeliverySeen(wires: map<Edge, seq<Record>>, src: string, dst: string, relay: bool, r: Record, e: Edge)
    requires Edge(src, dst) in wires && wires[Edge(src, dst)] != [] && e in wires && src != dst
    ensures
      var after, rec := DeliveredWires(wires, src, dst, relay), wires[Edge(src, dst)][0];
      && (r in after[e] ==> r in wires[e] || (relay && r == rec && e.src == dst && e.dst != src))
      && (r in wires[e] && (r != rec || e != Edge(src, dst)) ==> r in after[e])
      && (relay && r == rec && e.src == dst && e.dst != src ==> r in after[e])
  {
    var d := Edge(src, dst);
    PopSeen(wires[d], r);
    var popped := wires[d := wires[d][1..]];
    PushSeen(popped, dst, Some(src), wires[d][0], r, e);
  }

  /** Which nodes are reached after a delivery. */
  lemma DeliveryReaches(g: Graph, stale: map<string, set<Key>>, net: Net, p: Probe, step: Step, n: string)
    requires ValidGraph(g) && ValidNet(g, net) && stale.Keys == g.Keys && Enabled(g, stale, net, step)
    requires step.Deliver? && n in g && p.keys.Keys == g.Keys
    ensures
      var rec, net' := net.wires[Edge(step.src, step.dst)][0], Next(g, stale, net, step);
      var gained := if rec.node == step.dst then {} else if step.accept then {step.key} + step.extra else {step.key};
      Reached(net', p, n) <==> Reached(net, p, n) || (n == step.dst && p.keys[n] in gained)
  {
  }

  lemma DeliveryApplies(g: Graph, stale: map<string, set<Key>>, net: Net, step: Step, r: Record, n: string)
    requires ValidGraph(g) && ValidNet(g, net) && stale.Keys == g.Keys && Enabled(g, stale, net, step)
    requires step.Deliver? && n in g
    ensures
      var rec, net' := net.wires[Edge(step.src, step.dst)][0], Next(g, stale, net, step);
      && net'.wires == DeliveredWires(net.wires, step.src, step.dst, step.accept)
      && n in net'.applied
      && Occurrences(net'.applied[n], r)
         == Occurrences(net.applied[n], r) + if n == step.dst && step.accept && rec == r then 1 else 0
  {
    AppliedOneMore(net.applied[step.dst], r, net.wires[Edge(step.src, step.dst)][0]);
  }

  lemma DeliveryUnnoticedAtNode(g: Graph, stale: map<string, set<Key>>, net: Net, p: Probe, step: Step, n: string)
    requires ValidGraph(g) && ValidNet(g, net) && stale.Keys == g.Keys && Enabled(g, stale, net, step)
    requires step.Deliver? && p.keys.Keys == g.Keys && Undisturbed(g, net, p, step)
    requires net.wires[Edge(step.src, step.dst)][0] == p.rec ==> Reached(net, p, step.dst)
    requires n in g
    ensures
      var net' := Next(g, stale, net, step);
      && n in net'.applied && (Reached(net', p, n) <==> Reached(net, p, n))
      && Occurrences(net'.applied[n], p.rec) == Occurrences(net.applied[n], p.rec)
  {
    DeliveryReaches(g, stale, net, p, step, n);
    DeliveryApplies(g, stale, net, step, p.rec, n);
  }

  lemma DeliveryUnnoticedOnEdge(g: Graph, stale: map<string, set<Key>>, net: Net, p: Probe, step: Step, e: Edge)
    requires ValidGraph(g) && ValidNet(g, net) && stale.Keys == g.Keys && Enabled(g, stale, net, step)
    requires step.Deliver? && p.keys.Keys == g.Keys && Undisturbed(g, net, p, step)
    requires net.wires[Edge(step.src, step.dst)][0] == p.rec ==> Reached(net, p, step.dst)
    requires e in net.wires
    ensures
      var net' := Next(g, stale, net, step);
      && (InFlight(net', p.rec, e) ==> InFlight(net, p.rec, e))
      && (InFlight(net, p.rec, e) ==> InFlight(net', p.rec, e) || Reached(net, p, e.dst))
  {
    DeliveryApplies(g, stale, net, step, p.rec, step.dst);
    DeliverySeen(net.wires, step.src, step.dst, step.accept, p.rec, e);
  }

  lemma DeliveryKeepsNodes(g: Graph, stale: map<string, set<Key>>, net: Net, p: Probe, step: Step)
    requires ValidGraph(g) && ValidNet(g, net) && stale.Keys == g.Keys && Enabled(g, stale, net, step)
    requires step.Deliver? && p.keys.Keys == g.Keys && Undisturbed(g, net, p, step)
    requires net.wires[Edge(step.src, step.dst)][0] == p.rec ==> Reached(net, p, step.dst)
    requires ValidNet(g, Next(g, stale, net, step))
    ensures SameNodes(g, net, Next(g, stale, net, step), p)
  {
    forall n | n in g
      ensures Reached(Next(g, stale, net, step), p, n) <==> Reached(net, p, n)
      ensures Occurrences(Next(g, stale, net, step).applied[n], p.rec) == Occurrences(net.applied[n], p.rec)
    {
      DeliveryUnnoticedAtNode(g, stale, net, p, step, n);
    }
  }

  lemma DeliveryKeepsCopies(g: Graph, stale: map<string, set<Key>>, net: Net, p: Probe, step: Step)
    requires ValidGraph(g) && ValidNet(g, net) && stale.Keys == g.Keys && Enabled(g, stale, net, step)
    requires step.Deliver? && p.keys.Keys == g.Keys && Undisturbed(g, net, p, step)
    requires net.wires[Edge(step.src, step.dst)][0] == p.rec ==> Reached(net, p, step.dst)
    ensures NoCopyLost(net, Next(g, stale, net, step), p)
  {
    forall e | e in net.wires
      ensures InFlight(Next(g, stale, net, step), p.rec, e) ==> InFlight(net, p.rec, e)
      ensures InFlight(net, p.rec, e) ==> InFlight(Next(g, stale, net, step), p.rec, e) || Reached(net, p, e.dst)
    {
      DeliveryUnnoticedOnEdge(g, stale, net, p, step, e);
    }
  }

  /** Delivering some other record, or this one where it is already known, goes unnoticed. */
  lemma DeliveryIsUnnoticed(g: Graph, stale: map<string, set<Key>>, net: Net, p: Probe, step: Step)
    requires ValidGraph(g) && ValidNet(g, net) && stale.Keys == g.Keys && Enabled(g, stale, net, step)
    requires step.Deliver? && p.keys.Keys == g.Keys && Undisturbed(g, net, p, step)
    requires net.wires[Edge(step.src, step.dst)][0] == p.rec ==> Reached(net, p, step.dst)
    ensures
      var net' := Next(g, stale, net, step);
      ValidNet(g, net') && Unnoticed(g, net, net', p)
  {
    NextIsValid(g, stale, net, step);
    DeliveryKeepsNodes(g, stale, net, p, step);
    DeliveryKeepsCopies(g, stale, net, p, step);
  }

  /** `dst` alone becomes reached, and applies the record. */
  ghost predicate NodeGained(g: Graph, net: Net, net': Net, p: Probe, dst: string)
    requires ValidNet(g, net) && ValidNet(g, net')
  {
    forall n :: n in g ==>
      && (Reached(net', p, n) <==> Reached(net, p, n) || n == dst)
      && Occurrences(net'.applied[n], p.rec) == Occurrences(net.applied[n], p.rec) + if n == dst then 1 else 0
  }

  /** Copies go out from `dst` to everyone but `src`; the others stay in flight, except towards `dst`. */
  ghost predicate CopiesSpread(net: Net, net': Net, p: Probe, src: string, dst: string) {
    forall e :: e in net.wires ==>
      && (InFlight(net', p.rec, e) ==> InFlight(net, p.rec, e) || e.src == dst)
      && (InFlight(net, p.rec, e) && e.dst != dst ==> InFlight(net', p.rec, e))
      && (e.src == dst && e.dst != src ==> InFlight(net', p.rec, e))
  }

  /** The record arrives at `dst` from `src` and goes on to all of its other neighbours. */
  ghost predicate Spread(g: Graph, net: Net, net': Net, p: Probe, src: string, dst: string)
    requires ValidNet(g, net) && ValidNet(g, net')
  {
    NodeGained(g, net, net', p, dst) && CopiesSpread(net, net', p, src, dst)
  }

  lemma SpreadKeepsTracked(g: Graph, net: Net, net': Net, p: Probe, src: string, dst: string)
    requires ValidGraph(g) && ValidNet(g, net) && ValidNet(g, net') && Tracked(g, net, p)
    requires !Reached(net, p, dst) && InFlight(net, p.rec, Edge(src, dst)) && Spread(g, net, net', p, src, dst)
    ensures Tracked(g, net', p)
  {
  }

  /** The node must accept: the key is neither recorded nor stale. */
  lemma NewsIsAccepted(g: Graph, stale: map<string, set<Key>>, net: Net, p: Probe, step: Step)
    requires ValidGraph(g) && ValidNet(g, net) && stale.Keys == g.Keys && Enabled(g, stale, net, step)
    requires step.Deliver? && net.wires[Edge(step.src, step.dst)][0] == p.rec && !Reached(net, p, step.dst)
    requires p.keys.Keys == g.Keys && p.keys[step.dst] !in stale[step.dst] && Undisturbed(g, net, p, step)
    ensures step.accept && step.key == p.keys[step.dst]
  {
  }

  lemma AcceptanceGainsNode(g: Graph, stale: map<string, set<Key>>, net: Net, p: Probe, step: Step)
    requires ValidGraph(g) && ValidNet(g, net) && stale.Keys == g.Keys && Enabled(g, stale, net, step)
    requires step.Deliver? && net.wires[Edge(step.src, step.dst)][0] == p.rec && step.dst != p.rec.node
    requires p.keys.Keys == g.Keys && step.accept && step.key == p.keys[step.dst]
    requires ValidNet(g, Next(g, stale, net, step))
    ensures NodeGained(g, net, Next(g, stale, net, step), p, step.dst)
  {
    forall n | n in g
      ensures Reached(Next(g, stale, net, step), p, n) <==> Reached(net, p, n) || n == step.dst
      ensures Occurrences(Next(g, stale, net, step).applied[n], p.rec)
           == Occurrences(net.applied[n], p.rec) + if n == step.dst then 1 else 0
    {
      DeliveryReaches(g, stale, net, p, step, n);
      DeliveryApplies(g, stale, net, step, p.rec, n);
    }
  }

  lemma AcceptanceSpreadsCopies(g: Graph, stale: map<string, set<Key>>, net: Net, p: Probe, step: Step)
    requires ValidGraph(g) && ValidNet(g, net) && stale.Keys == g.Keys && Enabled(g, stale, net, step)
    requires step.Deliver? && net.wires[Edge(step.src, step.dst)][0] == p.rec && step.accept
    ensures CopiesSpread(net, Next(g, stale, net, step), p, step.src, step.dst)
  {
    var after := DeliveredWires(net.wires, step.src, step.dst, true);
    DeliveryApplies(g, stale, net, step, p.rec, step.dst);
    forall e | e in net.wires
      ensures p.rec in after[e] ==> p.rec in net.wires[e] || e.src == step.dst
      ensures p.rec in net.wires[e] && e.dst != step.dst ==> p.rec in after[e]
      ensures e.src == step.dst && e.dst != step.src ==> p.rec in after[e]
    {
      DeliverySeen(net.wires, step.src, step.dst, true, p.rec, e);
    }
  }

  /** Delivering it where it is new: the node accepts and spreads it. */
  lemma AcceptanceSpreads(g: Graph, stale: map<string, set<Key>>, net: Net, p: Probe, step: Step)
    requires ValidGraph(g) && ValidNet(g, net) && stale.Keys == g.Keys && Enabled(g, stale, net, step)
    requires step.Deliver? && net.wires[Edge(step.src, step.dst)][0] == p.rec && !Reached(net, p, step.dst)
    requires p.keys.Keys == g.Keys && p.keys[step.dst] !in stale[step.dst] && Undisturbed(g, net, p, step)
    ensures step.accept
    ensures
      var net' := Next(g, stale, net, step);
      ValidNet(g, net') && Spread(g, net, net', p, step.src, step.dst)
  {
    NewsIsAccepted(g, stale, net, p, step);
    NextIsValid(g, stale, net, step);
    AcceptanceGainsNode(g, stale, net, p, step);
    AcceptanceSpreadsCopies(g, stale, net, p, step);
  }
}
