/** Whole runs of the flood: exactly-once delivery, the exact cost of a record, and termination. */
module FloodRuns {
  import opened Options
  import opened Chat
  import opened Proto
  import opened Sums
  import opened Flood

  // ---- runs ----

  ghost predicate CanRun(g: Graph, stale: map<string, set<Key>>, net: Net, steps: seq<Step>)
    requires ValidGraph(g) && ValidNet(g, net) && stale.Keys == g.Keys
    decreases |steps|
  {
    steps == [] ||
    (Enabled(g, stale, net, steps[0]) &&
     (NextIsValid(g, stale, net, steps[0]);
      CanRun(g, stale, Next(g, stale, net, steps[0]), steps[1..])))
  }

  ghost function Run(g: Graph, stale: map<string, set<Key>>, net: Net, steps: seq<Step>): (r: Net)
    requires ValidGraph(g) && ValidNet(g, net) && stale.Keys == g.Keys && CanRun(g, stale, net, steps)
    ensures ValidNet(g, r)
    decreases |steps|
  {
    if steps == [] then net else
      NextIsValid(g, stale, net, steps[0]);
      Run(g, stale, Next(g, stale, net, steps[0]), steps[1..])
  }

  ghost predicate AllUndisturbed(g: Graph, stale: map<string, set<Key>>, net: Net, p: Probe, steps: seq<Step>)
    requires ValidGraph(g) && ValidNet(g, net) && stale.Keys == g.Keys && CanRun(g, stale, net, steps)
    decreases |steps|
  {
    steps == [] ||
    (Undisturbed(g, net, p, steps[0]) &&
     (NextIsValid(g, stale, net, steps[0]);
      AllUndisturbed(g, stale, Next(g, stale, net, steps[0]), p, steps[1..])))
  }

  /** One more step in front. */
  lemma RunOneMore(g: Graph, stale: map<string, set<Key>>, net: Net, step: Step, rest: seq<Step>)
    requires ValidGraph(g) && ValidNet(g, net) && stale.Keys == g.Keys && Enabled(g, stale, net, step)
    requires ValidNet(g, Next(g, stale, net, step)) && CanRun(g, stale, Next(g, stale, net, step), rest)
    ensures CanRun(g, stale, net, [step] + rest)
    ensures Run(g, stale, net, [step] + rest) == Run(g, stale, Next(g, stale, net, step), rest)
  {
    assert ([step] + rest)[1..] == rest;
  }

  lemma UndisturbedOneMore(g: Graph, stale: map<string, set<Key>>, net: Net, p: Probe, step: Step, rest: seq<Step>)
    requires ValidGraph(g) && ValidNet(g, net) && stale.Keys == g.Keys && Enabled(g, stale, net, step)
    requires ValidNet(g, Next(g, stale, net, step)) && CanRun(g, stale, Next(g, stale, net, step), rest)
    requires Undisturbed(g, net, p, step) && AllUndisturbed(g, stale, Next(g, stale, net, step), p, rest)
    ensures CanRun(g, stale, net, [step] + rest) && AllUndisturbed(g, stale, net, p, [step] + rest)
  {
    assert ([step] + rest)[1..] == rest;
  }

  // ---- reachability ----

  ghost predicate IsPath(g: Graph, path: seq<string>) {
    && path != [] && path[0] in g
    && forall i :: 0 <= i < |path| - 1 ==> path[i] in g && path[i + 1] in g[path[i]]
  }

  ghost predicate Reachable(g: Graph, a: string, b: string) {
    exists path :: IsPath(g, path) && path[0] == a && path[|path| - 1] == b
  }

  lemma ReachableStep(g: Graph, a: string, b: string, c: string)
    requires Reachable(g, a, b) && b in g && c in g[b]
    ensures Reachable(g, a, c)
  {
    var path :| IsPath(g, path) && path[0] == a && path[|path| - 1] == b;
    assert IsPath(g, path + [c]);
    assert (path + [c])[|path|] == c;
  }

  lemma ReachableSelf(g: Graph, a: string)
    requires a in g
    ensures Reachable(g, a, a)
  {
    assert IsPath(g, [a]);
  }

  /** A set of nodes closed under links contains whatever is reachable from it. */
  lemma {:induction false} ClosedContains(g: Graph, closed: set<string>, path: seq<string>)
    requires ValidGraph(g) && IsPath(g, path) && path[0] in closed
    requires forall a, b :: a in closed && a in g && b in g[a] ==> b in closed
    ensures path[|path| - 1] in closed
  {
    if |path| > 1 {
      assert path[1] in g[path[0]];
      ClosedContains(g, closed, path[1..]);
    }
  }

  // ---- the invariant of a followed record ----

  /** The nodes other than the origin that have the record. */
  ghost function Hits(g: Graph, net: Net, p: Probe): set<string> {
    set n | n in g && n != p.rec.node && Reached(net, p, n)
  }

  /** A relaying node sends one copy fewer than it has links. */
  ghost function RelayCost(g: Graph): string -> int { n => if n in g then |g[n]| - 1 else 0 }

  /** Followed: applied and covered as it should be, reached only by links, and paid for. */
  ghost predicate Followed(g: Graph, net: Net, p: Probe)
    requires ValidNet(g, net)
  {
    && p.rec.node in g && Tracked(g, net, p)
    && (forall n :: n in g && Reached(net, p, n) ==> Reachable(g, p.rec.node, n))
    && net.sent[p.rec] == |g[p.rec.node]| + Sum(Hits(g, net, p), RelayCost(g))
  }

  lemma UnnoticedKeepsFollowed(g: Graph, net: Net, net': Net, p: Probe)
    requires ValidGraph(g) && ValidNet(g, net) && ValidNet(g, net') && Followed(g, net, p)
    requires Unnoticed(g, net, net', p) && net'.sent[p.rec] == net.sent[p.rec]
    ensures Followed(g, net', p)
  {
    UnnoticedKeepsTracked(g, net, net', p);
    assert Hits(g, net', p) == Hits(g, net, p);
  }

  lemma SpreadKeepsFollowed(g: Graph, net: Net, net': Net, p: Probe, src: string, dst: string)
    requires ValidGraph(g) && ValidNet(g, net) && ValidNet(g, net') && Followed(g, net, p)
    requires !Reached(net, p, dst) && InFlight(net, p.rec, Edge(src, dst)) && Spread(g, net, net', p, src, dst)
    requires net'.sent[p.rec] == net.sent[p.rec] + |g[dst]| - 1
    ensures Followed(g, net', p)
  {
    SpreadKeepsTracked(g, net, net', p, src, dst);
    assert IsEdge(g, Edge(src, dst)) && Reached(net, p, src);
    ReachableStep(g, p.rec.node, src, dst);
    assert Hits(g, net', p) == Hits(g, net, p) + {dst};
    SumAdd(Hits(g, net, p), RelayCost(g), dst);
  }

  lemma OwnStepKeepsFollowed(g: Graph, stale: map<string, set<Key>>, net: Net, p: Probe, step: Step)
    requires ValidGraph(g) && ValidNet(g, net) && stale.Keys == g.Keys && Enabled(g, stale, net, step)
    requires !step.Deliver? && Followed(g, net, p) && Undisturbed(g, net, p, step)
    ensures ValidNet(g, Next(g, stale, net, step)) && Followed(g, Next(g, stale, net, step), p)
  {
    if step.Originate? {
      OriginationIsUnnoticed(g, stale, net, p, step);
    } else {
      NoteIsUnnoticed(g, stale, net, p, step);
    }
    UnnoticedKeepsFollowed(g, net, Next(g, stale, net, step), p);
  }

  /** The record arrives where it is new. */
  lemma NewsKeepsFollowed(g: Graph, stale: map<string, set<Key>>, net: Net, p: Probe, step: Step)
    requires ValidGraph(g) && ValidNet(g, net) && stale.Keys == g.Keys && Enabled(g, stale, net, step)
    requires p.keys.Keys == g.Keys && step.Deliver? && p.keys[step.dst] !in stale[step.dst]
    requires Followed(g, net, p) && Undisturbed(g, net, p, step)
    requires net.wires[Edge(step.src, step.dst)][0] == p.rec && !Reached(net, p, step.dst)
    ensures ValidNet(g, Next(g, stale, net, step)) && Followed(g, Next(g, stale, net, step), p)
  {
    AcceptanceSpreads(g, stale, net, p, step);
    assert InFlight(net, p.rec, Edge(step.src, step.dst));
    SpreadKeepsFollowed(g, net, Next(g, stale, net, step), p, step.src, step.dst);
  }

  /** A known record is refused, and another record is another's cost. */
  lemma OldNewsCostsNothing(g: Graph, stale: map<string, set<Key>>, net: Net, p: Probe, step: Step)
    requires ValidGraph(g) && ValidNet(g, net) && stale.Keys == g.Keys && Enabled(g, stale, net, step)
    requires p.keys.Keys == g.Keys && step.Deliver? && Undisturbed(g, net, p, step)
    requires net.wires[Edge(step.src, step.dst)][0] == p.rec ==> Reached(net, p, step.dst)
    ensures Next(g, stale, net, step).sent[p.rec] == net.sent[p.rec]
  {
  }

  /** Any other arrival. */
  lemma OldNewsKeepsFollowed(g: Graph, stale: map<string, set<Key>>, net: Net, p: Probe, step: Step)
    requires ValidGraph(g) && ValidNet(g, net) && stale.Keys == g.Keys && Enabled(g, stale, net, step)
    requires p.keys.Keys == g.Keys && step.Deliver? && Followed(g, net, p) && Undisturbed(g, net, p, step)
    requires net.wires[Edge(step.src, step.dst)][0] == p.rec ==> Reached(net, p, step.dst)
    ensures ValidNet(g, Next(g, stale, net, step)) && Followed(g, Next(g, stale, net, step), p)
  {
    var net' := Next(g, stale, net, step);
    DeliveryIsUnnoticed(g, stale, net, p, step);
    OldNewsCostsNothing(g, stale, net, p, step);
    UnnoticedKeepsFollowed(g, net, net', p);
  }

  lemma StepKeepsFollowed(g: Graph, stale: map<string, set<Key>>, net: Net, p: Probe, step: Step)
    requires ValidGraph(g) && ValidNet(g, net) && stale.Keys == g.Keys && Enabled(g, stale, net, step)
    requires p.keys.Keys == g.Keys && forall n :: n in g && n != p.rec.node ==> p.keys[n] !in stale[n]
    requires Followed(g, net, p) && Undisturbed(g, net, p, step)
    ensures ValidNet(g, Next(g, stale, net, step)) && Followed(g, Next(g, stale, net, step), p)
  {
    if !step.Deliver? {
      OwnStepKeepsFollowed(g, stale, net, p, step);
    } else if net.wires[Edge(step.src, step.dst)][0] == p.rec && !Reached(net, p, step.dst) {
      NewsKeepsFollowed(g, stale, net, p, step);
    } else {
      OldNewsKeepsFollowed(g, stale, net, p, step);
    }
  }

  /** Not heard of yet: nowhere in flight, applied nowhere, known nowhere. */
  ghost predicate Unheard(g: Graph, net: Net, p: Probe)
    requires ValidNet(g, net)
  {
    && (forall e :: e in net.wires ==> p.rec !in net.wires[e])
    && (forall n :: n in g ==> p.rec !in net.applied[n])
    && (forall n :: n in g && n in p.keys && n != p.rec.node ==> p.keys[n] !in net.recorded[n])
    && net.sent[p.rec] == 0
  }

  lemma OriginationReaches(g: Graph, stale: map<string, set<Key>>, net: Net, p: Probe, own: set<Key>)
    requires ValidGraph(g) && ValidNet(g, net) && stale.Keys == g.Keys && p.keys.Keys == g.Keys
    requires Enabled(g, stale, net, Originate(p.rec.node, p.rec, own)) && Unheard(g, net, p)
    requires ValidNet(g, Next(g, stale, net, Originate(p.rec.node, p.rec, own)))
    ensures
      var net' := Next(g, stale, net, Originate(p.rec.node, p.rec, own));
      && (forall n :: n in g ==> (Reached(net', p, n) <==> n == p.rec.node))
      && (forall e :: e in net.wires ==> (InFlight(net', p.rec, e) <==> e.src == p.rec.node))
  {
    forall e | e in net.wires
      ensures p.rec in Pushed(net.wires, p.rec.node, None, p.rec)[e] <==> e.src == p.rec.node
    {
      PushSeen(net.wires, p.rec.node, None, p.rec, p.rec, e);
    }
  }

  /** The record is sent out by its origin to all of its neighbours. */
  lemma OriginationFollows(g: Graph, stale: map<string, set<Key>>, net: Net, p: Probe, own: set<Key>)
    requires ValidGraph(g) && ValidNet(g, net) && stale.Keys == g.Keys && p.keys.Keys == g.Keys
    requires Enabled(g, stale, net, Originate(p.rec.node, p.rec, own)) && Unheard(g, net, p)
    ensures
      var net' := Next(g, stale, net, Originate(p.rec.node, p.rec, own));
      ValidNet(g, net') && Followed(g, net', p)
  {
    NextIsValid(g, stale, net, Originate(p.rec.node, p.rec, own));
    OriginationReaches(g, stale, net, p, own);
    ReachableSelf(g, p.rec.node);
    assert Hits(g, Next(g, stale, net, Originate(p.rec.node, p.rec, own)), p) == {};
  }

  lemma {:induction false} RunKeepsFollowed(g: Graph, stale: map<string, set<Key>>, net: Net, p: Probe, steps: seq<Step>)
    requires ValidGraph(g) && ValidNet(g, net) && stale.Keys == g.Keys && CanRun(g, stale, net, steps)
    requires p.keys.Keys == g.Keys && forall n :: n in g && n != p.rec.node ==> p.keys[n] !in stale[n]
    requires Followed(g, net, p) && AllUndisturbed(g, stale, net, p, steps)
    ensures Followed(g, Run(g, stale, net, steps), p)
    decreases |steps|
  {
    if steps != [] {
      StepKeepsFollowed(g, stale, net, p, steps[0]);
      RunKeepsFollowed(g, stale, Next(g, stale, net, steps[0]), p, steps[1..]);
    }
  }

  ghost predicate Quiet(net: Net, r: Record) { forall e :: e in net.wires ==> r !in net.wires[e] }

  /** Once no copy is in flight, the reached nodes are exactly the reachable ones. */
  lemma QuietMeansDone(g: Graph, net: Net, p: Probe, n: string)
    requires ValidGraph(g) && ValidNet(g, net) && Followed(g, net, p) && Quiet(net, p.rec) && n in g
    ensures Reached(net, p, n) <==> Reachable(g, p.rec.node, n)
  {
    if Reachable(g, p.rec.node, n) {
      var reached := set m | m in g && Reached(net, p, m);
      forall a, b | a in reached && a in g && b in g[a]
        ensures b in reached
      {
        assert IsEdge(g, Edge(a, b));
        assert !InFlight(net, p.rec, Edge(a, b));
      }
      var path :| IsPath(g, path) && path[0] == p.rec.node && path[|path| - 1] == n;
      ClosedContains(g, reached, path);
    }
  }

  /** Exactly-once flooding: a record its origin sends out, in a run that does not confuse it with
      another, has once no copy is in flight been applied exactly once at every other node reachable
      from its origin and nowhere else. Its cost is exactly one copy per link of the origin and one
      per link but one of every node it reached. */
  lemma FloodsExactlyOnce(g: Graph, stale: map<string, set<Key>>, net: Net, p: Probe, own: set<Key>, steps: seq<Step>)
    requires ValidGraph(g) && ValidNet(g, net) && stale.Keys == g.Keys && p.keys.Keys == g.Keys
    requires forall n :: n in g && n != p.rec.node ==> p.keys[n] !in stale[n]
    requires Unheard(g, net, p) && Enabled(g, stale, net, Originate(p.rec.node, p.rec, own))
    requires
      var net1 := Next(g, stale, net, Originate(p.rec.node, p.rec, own));
      ValidNet(g, net1) && CanRun(g, stale, net1, steps) && AllUndisturbed(g, stale, net1, p, steps)
      && Quiet(Run(g, stale, net1, steps), p.rec)
    ensures
      var final := Run(g, stale, Next(g, stale, net, Originate(p.rec.node, p.rec, own)), steps);
      && (forall n :: n in g ==>
            Occurrences(final.applied[n], p.rec) == if n != p.rec.node && Reachable(g, p.rec.node, n) then 1 else 0)
      && final.sent[p.rec] == |g[p.rec.node]| + Sum(Others(g, p.rec.node), RelayCost(g))
  {
    OriginationFollows(g, stale, net, p, own);
    var net1 := Next(g, stale, net, Originate(p.rec.node, p.rec, own));
    RunKeepsFollowed(g, stale, net1, p, steps);
    DoneIsRight(g, Run(g, stale, net1, steps), p);
  }

  /** The nodes reachable from `o`, `o` itself aside. */
  ghost function Others(g: Graph, o: string): set<string> { set n | n in g && n != o && Reachable(g, o, n) }

  lemma DoneIsRight(g: Graph, net: Net, p: Probe)
    requires ValidGraph(g) && ValidNet(g, net) && Followed(g, net, p) && Quiet(net, p.rec)
    ensures forall n :: n in g ==>
              Occurrences(net.applied[n], p.rec) == if n != p.rec.node && Reachable(g, p.rec.node, n) then 1 else 0
    ensures net.sent[p.rec] == |g[p.rec.node]| + Sum(Others(g, p.rec.node), RelayCost(g))
  {
    forall n | n in g
      ensures Reached(net, p, n) <==> Reachable(g, p.rec.node, n)
    {
      QuietMeansDone(g, net, p, n);
    }
    assert Hits(g, net, p) == Others(g, p.rec.node);
  }

  // ---- termination ----

  ghost function QueueLength(wires: map<Edge, seq<Record>>): Edge -> int { e => if e in wires then |wires[e]| else 0 }

  /** Copies in flight. */
  ghost function Copies(wires: map<Edge, seq<Record>>): int { Sum(wires.Keys, QueueLength(wires)) }

  /** The degree of a node, once for every key it could still record. */
  ghost function RoomAt(g: Graph, recorded: map<string, set<Key>>, universe: set<Key>): string -> int {
    n => if n in g && n in recorded then |g[n]| * |universe - recorded[n]| else 0
  }

  ghost function Room(g: Graph, recorded: map<string, set<Key>>, universe: set<Key>): int {
    Sum(g.Keys, RoomAt(g, recorded, universe))
  }

  /** The measure every delivery decreases. */
  ghost function Measure(g: Graph, net: Net, universe: set<Key>): int {
    Copies(net.wires) + Room(g, net.recorded, universe)
  }

  lemma MeasureIsNatural(g: Graph, net: Net, universe: set<Key>)
    ensures Measure(g, net, universe) >= 0
  {
    SumNonNegative(net.wires.Keys, QueueLength(net.wires));
    SumNonNegative(g.Keys, RoomAt(g, net.recorded, universe));
  }

  lemma {:induction false} SpokesCount(n: string, ends: set<string>)
    ensures |set m | m in ends :: Edge(n, m)| == |ends|
  {
    var spokes := set m | m in ends :: Edge(n, m);
    if ends != {} {
      var m :| m in ends;
      var rest := set x | x in ends - {m} :: Edge(n, x);
      SpokesCount(n, ends - {m});
      assert spokes == rest + {Edge(n, m)} && Edge(n, m) !in rest;
    } else {
      assert spokes == {};
    }
  }

  /** Pushing a record adds one copy per link it goes out on. */
  lemma PushCopies(g: Graph, wires: map<Edge, seq<Record>>, n: string, except: Option<string>, rec: Record)
    requires n in g && forall e :: e in wires <==> IsEdge(g, e)
    ensures Copies(Pushed(wires, n, except, rec))
         == Copies(wires) + |if except.Some? then g[n] - {except.value} else g[n]|
  {
    var ends := if except.Some? then g[n] - {except.value} else g[n];
    var spokes := set m | m in ends :: Edge(n, m);
    var out := e => if e in spokes then 1 else 0;
    assert Pushed(wires, n, except, rec).Keys == wires.Keys;
    assert spokes <= wires.Keys;
    forall e | e in wires
      ensures e in spokes <==> e.src == n && Some(e.dst) != except
    {
      assert IsEdge(g, e);
    }
    SumPlus(wires.Keys, QueueLength(wires), out, QueueLength(Pushed(wires, n, except, rec)));
    SumIndicator(wires.Keys, spokes, out);
    SpokesCount(n, ends);
  }

  lemma PopCopies(wires: map<Edge, seq<Record>>, e: Edge)
    requires e in wires && wires[e] != []
    ensures Copies(wires[e := wires[e][1..]]) == Copies(wires) - 1
  {
    var popped := wires[e := wires[e][1..]];
    assert popped.Keys == wires.Keys;
    SumChange(wires.Keys, QueueLength(wires), QueueLength(popped), e);
  }

  lemma DeliveryCopies(g: Graph, wires: map<Edge, seq<Record>>, src: string, dst: string, relay: bool)
    requires ValidGraph(g) && (forall e :: e in wires <==> IsEdge(g, e))
    requires Edge(src, dst) in wires && wires[Edge(src, dst)] != []
    ensures dst in g && src in g[dst]
    ensures Copies(DeliveredWires(wires, src, dst, relay)) == Copies(wires) - 1 + if relay then |g[dst]| - 1 else 0
  {
    var e := Edge(src, dst);
    assert IsEdge(g, e);
    PopCopies(wires, e);
    if relay {
      var popped := wires[e := wires[e][1..]];
      assert forall x :: x in popped <==> IsEdge(g, x);
      PushCopies(g, popped, dst, Some(src), wires[e][0]);
    }
  }

  /** Recording more keys at one node never makes room, and a new key of the universe costs the
      node at least its degree. */
  lemma RecordingRoom(g: Graph, recorded: map<string, set<Key>>, universe: set<Key>, n: string, more: set<Key>)
    requires n in g && n in recorded
    ensures
      var after := Room(g, recorded[n := recorded[n] + more], universe);
      && after <= Room(g, recorded, universe)
      && (!(more * universe <= recorded[n]) ==> after <= Room(g, recorded, universe) - |g[n]|)
  {
    var recorded' := recorded[n := recorded[n] + more];
    var left, left' := universe - recorded[n], universe - recorded'[n];
    SumChange(g.Keys, RoomAt(g, recorded, universe), RoomAt(g, recorded', universe), n);
    SubsetSize(left', left);
    if !(more * universe <= recorded[n]) {
      var k :| k in more * universe && k !in recorded[n];
      assert left' <= left - {k};
      SubsetSize(left', left - {k});
      MultiplyLess(|g[n]|, |left'|, |left|);
    }
    MultiplyOrdered(|g[n]|, |left'|, |left|);
  }

  lemma {:induction false} SubsetSize<T>(a: set<T>, b: set<T>)
    requires a <= b
    ensures |a| <= |b|
  {
    if a != {} {
      var x :| x in a;
      SubsetSize(a - {x}, b - {x});
    }
  }

  lemma MultiplyOrdered(d: nat, a: nat, b: nat)
    requires a <= b
    ensures d * a <= d * b
  {
  }

  lemma MultiplyLess(d: nat, a: nat, b: nat)
    requires a < b
    ensures d * a <= d * b - d
  {
    MultiplyOrdered(d, a, b - 1);
    assert d * (b - 1) == d * b - d;
  }

  /** The keys a delivery checks come from the universe. */
  ghost predicate Drawn(net: Net, step: Step, universe: set<Key>) {
    (step.Deliver? && Edge(step.src, step.dst) in net.wires && net.wires[Edge(step.src, step.dst)] != []
     && net.wires[Edge(step.src, step.dst)][0].node != step.dst)
    ==> step.key in universe
  }

  /** Every delivery decreases the measure. */
  lemma DeliveryDecreases(g: Graph, stale: map<string, set<Key>>, net: Net, step: Step, universe: set<Key>)
    requires ValidGraph(g) && ValidNet(g, net) && stale.Keys == g.Keys && Enabled(g, stale, net, step)
    requires step.Deliver? && Drawn(net, step, universe)
    ensures Measure(g, Next(g, stale, net, step), universe) < Measure(g, net, universe)
  {
    var rec := net.wires[Edge(step.src, step.dst)][0];
    DeliveryApplies(g, stale, net, step, rec, step.dst);
    DeliveryCopies(g, net.wires, step.src, step.dst, step.accept);
    if rec.node != step.dst {
      var more := if step.accept then {step.key} + step.extra else {step.key};
      RecordingRoom(g, net.recorded, universe, step.dst, more);
      assert net.recorded[step.dst] + {step.key} + step.extra == net.recorded[step.dst] + ({step.key} + step.extra);
      if step.accept { assert step.key in more * universe; }
    }
  }

  /** An origination adds at most its node's degree. */
  lemma OriginationAdds(g: Graph, stale: map<string, set<Key>>, net: Net, step: Step, universe: set<Key>)
    requires ValidGraph(g) && ValidNet(g, net) && stale.Keys == g.Keys && Enabled(g, stale, net, step)
    requires step.Originate?
    ensures Measure(g, Next(g, stale, net, step), universe) <= Measure(g, net, universe) + |g[step.at]|
  {
    PushCopies(g, net.wires, step.at, None, step.rec);
    RecordingRoom(g, net.recorded, universe, step.at, step.own);
  }

  /** Recording keys adds nothing. */
  lemma NoteAddsNothing(g: Graph, stale: map<string, set<Key>>, net: Net, step: Step, universe: set<Key>)
    requires ValidGraph(g) && ValidNet(g, net) && stale.Keys == g.Keys && Enabled(g, stale, net, step)
    requires step.Note?
    ensures Measure(g, Next(g, stale, net, step), universe) <= Measure(g, net, universe)
  {
    RecordingRoom(g, net.recorded, universe, step.at, step.own);
  }

  ghost predicate AllDrawn(g: Graph, stale: map<string, set<Key>>, net: Net, steps: seq<Step>, universe: set<Key>)
    requires ValidGraph(g) && ValidNet(g, net) && stale.Keys == g.Keys && CanRun(g, stale, net, steps)
    decreases |steps|
  {
    steps == [] ||
    (Drawn(net, steps[0], universe) &&
     (NextIsValid(g, stale, net, steps[0]);
      AllDrawn(g, stale, Next(g, stale, net, steps[0]), steps[1..], universe)))
  }

  lemma DrawnOneMore(g: Graph, stale: map<string, set<Key>>, net: Net, step: Step, rest: seq<Step>, universe: set<Key>)
    requires ValidGraph(g) && ValidNet(g, net) && stale.Keys == g.Keys && Enabled(g, stale, net, step)
    requires ValidNet(g, Next(g, stale, net, step)) && CanRun(g, stale, Next(g, stale, net, step), rest)
    requires Drawn(net, step, universe) && AllDrawn(g, stale, Next(g, stale, net, step), rest, universe)
    ensures CanRun(g, stale, net, [step] + rest) && AllDrawn(g, stale, net, [step] + rest, universe)
  {
    assert ([step] + rest)[1..] == rest;
  }

  function Deliveries(steps: seq<Step>): nat {
    if steps == [] then 0 else (if steps[0].Deliver? then 1 else 0) + Deliveries(steps[1..])
  }

  /** The degrees of the originating nodes, summed over the originations. */
  function Injected(g: Graph, steps: seq<Step>): nat {
    if steps == [] then 0
    else (if steps[0].Originate? && steps[0].at in g then |g[steps[0].at]| else 0) + Injected(g, steps[1..])
  }

  /** No storm: the deliveries a run can make are bounded by what it starts with and what is
      originated in it. */
  lemma {:induction false} DeliveriesAreBounded(g: Graph, stale: map<string, set<Key>>, net: Net, steps: seq<Step>,
                                                universe: set<Key>)
    requires ValidGraph(g) && ValidNet(g, net) && stale.Keys == g.Keys && CanRun(g, stale, net, steps)
    requires AllDrawn(g, stale, net, steps, universe)
    ensures Deliveries(steps) <= Measure(g, net, universe) + Injected(g, steps)
    decreases |steps|
  {
    if steps == [] {
      MeasureIsNatural(g, net, universe);
    } else {
      NextIsValid(g, stale, net, steps[0]);
      if steps[0].Deliver? {
        DeliveryDecreases(g, stale, net, steps[0], universe);
      } else if steps[0].Note? {
        NoteAddsNothing(g, stale, net, steps[0], universe);
      } else {
        OriginationAdds(g, stale, net, steps[0], universe);
      }
      DeliveriesAreBounded(g, stale, Next(g, stale, net, steps[0]), steps[1..], universe);
    }
  }
}
