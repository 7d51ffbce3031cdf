/** Exactly-once fails for data records on a cycle of three nodes when the sender changes topic while
    copies are in flight: the run, and a concrete start for it. */
module Cycle {
  import opened Options
  import opened Text
  import opened Chat
  import opened Proto
  import opened SeenSets
  import opened HubSpec
  import opened RouterSpec
  import opened RelayLaws
  import opened MeshNode
  import opened Mesh
  import opened MeshRuns
  import opened Mirror
  import opened Rekeyed
  import opened NoStorm
  import opened Origination
  import Flood

  // ---- runs as trails ----

  ghost predicate LinkAt(x: World, ms: seq<Net>, ss: seq<Step>, i: nat)
    requires ValidWorld(x) && i < |ss| < |ms|
  {
    ValidNet(x, ms[i]) && Enabled(x, ms[i], ss[i]) && ms[i + 1] == Next(x, ms[i], ss[i])
  }

  /** The nets a run goes through, with its steps in between. */
  ghost predicate Trail(x: World, ms: seq<Net>, ss: seq<Step>) {
    ValidWorld(x) && |ms| == |ss| + 1 && forall i :: 0 <= i < |ss| ==> LinkAt(x, ms, ss, i)
  }

  lemma TrailGrows(x: World, ms: seq<Net>, ss: seq<Step>, step: Step, m: Net)
    requires Trail(x, ms, ss) && ValidNet(x, ms[|ss|]) && Enabled(x, ms[|ss|], step) && m == Next(x, ms[|ss|], step)
    ensures Trail(x, ms + [m], ss + [step])
  {
    forall i | 0 <= i < |ss| + 1
      ensures LinkAt(x, ms + [m], ss + [step], i)
    {
      if i < |ss| { assert LinkAt(x, ms, ss, i); }
    }
  }

  lemma RunOneMore(x: World, m: Net, step: Step, rest: seq<Step>)
    requires ValidWorld(x) && ValidNet(x, m) && Enabled(x, m, step)
    requires ValidNet(x, Next(x, m, step)) && CanRun(x, Next(x, m, step), rest)
    ensures CanRun(x, m, [step] + rest)
    ensures Run(x, m, [step] + rest) == Run(x, Next(x, m, step), rest)
  {
    assert ([step] + rest)[1..] == rest;
  }

  /** The steps lead from one net to another. */
  ghost predicate Leads(x: World, m: Net, steps: seq<Step>, final: Net) {
    ValidWorld(x) && ValidNet(x, m) && CanRun(x, m, steps) && Run(x, m, steps) == final
  }

  lemma LeadsOneMore(x: World, m: Net, step: Step, m1: Net, rest: seq<Step>, final: Net)
    requires ValidWorld(x) && ValidNet(x, m) && Enabled(x, m, step) && m1 == Next(x, m, step) && Leads(x, m1, rest, final)
    ensures Leads(x, m, [step] + rest, final)
  {
    RunOneMore(x, m, step, rest);
  }

  lemma LinkLeads(x: World, ms: seq<Net>, ss: seq<Step>, i: nat, rest: seq<Step>, final: Net)
    requires Trail(x, ms, ss) && i < |ss| && Leads(x, ms[i + 1], rest, final)
    ensures Leads(x, ms[i], [ss[i]] + rest, final)
  {
    assert LinkAt(x, ms, ss, i);
    LeadsOneMore(x, ms[i], ss[i], ms[i + 1], rest, final);
  }

  lemma LeadsNowhere(x: World, m: Net)
    requires ValidWorld(x) && ValidNet(x, m)
    ensures Leads(x, m, [], m)
  {
  }

  lemma {:induction false} TrailLeads(x: World, ms: seq<Net>, ss: seq<Step>, i: nat) returns (rest: seq<Step>)
    requires Trail(x, ms, ss) && i <= |ss| && ValidNet(x, ms[|ss|])
    ensures rest == ss[i..] && Leads(x, ms[i], rest, ms[|ss|])
    decreases |ss| - i
  {
    if i == |ss| {
      LeadsNowhere(x, ms[i]);
      rest := [];
    } else {
      var more := TrailLeads(x, ms, ss, i + 1);
      LinkLeads(x, ms, ss, i, more, ms[|ss|]);
      rest := [ss[i]] + more;
    }
  }

  // ---- what one node takes ----

  datatype Taken = Taken(rec: Record, from: string)

  ghost predicate TookAt(w: Window, our: string, now: int, ns: seq<NodeState>, ts: seq<Taken>, i: nat)
    requires i < |ts| < |ns|
  {
    && Valid(ns[i].hub) && Accepts(our, ns[i], ts[i].rec, now)
    && ns[i + 1] == Ingest(our, w.ttl, ns[i], ts[i].rec, ts[i].from, now)
  }

  /** The states a node goes through as it accepts one record after another. */
  ghost predicate History(w: Window, our: string, now: int, ns: seq<NodeState>, ts: seq<Taken>) {
    |ns| == |ts| + 1 && forall i :: 0 <= i < |ts| ==> TookAt(w, our, now, ns, ts, i)
  }

  // ---- one delivery ----

  /** The net after `dst` has accepted the oldest record from `src` and come to state `after`. */
  ghost predicate Delivered(m: Net, m': Net, src: string, dst: string, rec: Record, after: NodeState) {
    && Flood.Edge(src, dst) in m.wires && m.wires[Flood.Edge(src, dst)] != [] && dst in m.applied
    && m.wires[Flood.Edge(src, dst)][0] == rec
    && m'.wires == Flood.DeliveredWires(m.wires, src, dst, true)
    && m'.nodes == m.nodes[dst := after] && m'.applied == m.applied[dst := m.applied[dst] + [rec]]
  }

  lemma Hop(x: World, ms: seq<Net>, ss: seq<Step>, src: string, dst: string, now: int,
            ns: seq<NodeState>, ts: seq<Taken>, j: nat)
      returns (step: Step, m': Net)
    requires Trail(x, ms, ss) && ValidNet(x, ms[|ss|]) && During(x.w, now)
    requires Flood.Edge(src, dst) in ms[|ss|].wires && dst in ms[|ss|].nodes
    requires j < |ts| && History(x.w, dst, now, ns, ts) && ts[j].from == src
    requires ms[|ss|].nodes[dst] == ns[j] && ms[|ss|].wires[Flood.Edge(src, dst)] != []
    requires ms[|ss|].wires[Flood.Edge(src, dst)][0] == ts[j].rec
    ensures Trail(x, ms + [m'], ss + [step]) && ValidNet(x, m')
    ensures Delivered(ms[|ss|], m', src, dst, ts[j].rec, ns[j + 1])
  {
    var m := ms[|ss|];
    InFlightCanArrive(x, m, Flood.Edge(src, dst), now);
    assert TookAt(x.w, dst, now, ns, ts, j);
    step := Arrive(src, dst, OutcomeOf(x.w, dst, ns[j], ts[j].rec, src, now), now);
    m' := Next(x, m, step);
    NextIsValid(x, m, step);
    TrailGrows(x, ms, ss, step, m');
  }

  lemma Originates(x: World, ms: seq<Net>, ss: seq<Step>, step: Step) returns (m': Net)
    requires Trail(x, ms, ss) && ValidNet(x, ms[|ss|]) && Enabled(x, ms[|ss|], step) && step.Local?
    ensures Trail(x, ms + [m'], ss + [step]) && ValidNet(x, m')
    ensures
      var m := ms[|ss|];
      m'.wires == Flood.Pushed(m.wires, step.at, None, step.rec) && m'.nodes == m.nodes[step.at := step.after]
      && m'.applied == m.applied
  {
    var m := ms[|ss|];
    m' := Next(x, m, step);
    NextIsValid(x, m, step);
    TrailGrows(x, ms, ss, step, m');
  }

  // ---- three mutually linked nodes ----

  /** Who takes part: three nodes, the states they go through, and what the second and the third take. */
  datatype Cast = Cast(a: string, b: string, c: string, sa: seq<NodeState>, sb: seq<NodeState>, sc: seq<NodeState>,
                       tb: seq<Taken>, tc: seq<Taken>)

  ghost predicate ValidCast(x: World, p: Cast, now: int) {
    && p.a != p.b && p.b != p.c && p.a != p.c && During(x.w, now)
    && History(x.w, p.b, now, p.sb, p.tb) && History(x.w, p.c, now, p.sc, p.tc)
  }

  /** The part of a net the run is about: the queues from the first node to the others and from the third
      to the second, how far each node has come, and what the second has applied. */
  datatype Scene = Scene(ab: seq<Record>, ac: seq<Record>, cb: seq<Record>, a: nat, b: nat, c: nat, applied: seq<Record>)

  ghost predicate Shows(m: Net, p: Cast, s: Scene) {
    && Flood.Edge(p.a, p.b) in m.wires && Flood.Edge(p.a, p.c) in m.wires && Flood.Edge(p.c, p.b) in m.wires
    && p.a in m.nodes && p.b in m.nodes && p.c in m.nodes && p.b in m.applied && p.c in m.applied
    && s.a < |p.sa| && s.b < |p.sb| && s.c < |p.sc|
    && m.wires[Flood.Edge(p.a, p.b)] == s.ab && m.wires[Flood.Edge(p.a, p.c)] == s.ac && m.wires[Flood.Edge(p.c, p.b)] == s.cb
    && m.nodes[p.a] == p.sa[s.a] && m.nodes[p.b] == p.sb[s.b] && m.nodes[p.c] == p.sc[s.c] && m.applied[p.b] == s.applied
  }

  /** A record goes out from the first node; the oldest one from the first arrives at the second, or at
      the third, which passes it on; the oldest one from the third arrives at the second. */
  function GoneOut(s: Scene, rec: Record): Scene { s.(ab := s.ab + [rec], ac := s.ac + [rec], a := s.a + 1) }

  function AtB(s: Scene): Scene
    requires s.ab != []
  {
    s.(ab := s.ab[1..], b := s.b + 1, applied := s.applied + [s.ab[0]])
  }

  function AtC(s: Scene): Scene
    requires s.ac != []
  {
    s.(ac := s.ac[1..], cb := s.cb + [s.ac[0]], c := s.c + 1)
  }

  function FromC(s: Scene): Scene
    requires s.cb != []
  {
    s.(cb := s.cb[1..], b := s.b + 1, applied := s.applied + [s.cb[0]])
  }

  lemma OriginationShows(m: Net, m': Net, p: Cast, s: Scene, rec: Record)
    requires Shows(m, p, s) && p.a != p.b && p.b != p.c && p.a != p.c && s.a + 1 < |p.sa|
    requires m'.wires == Flood.Pushed(m.wires, p.a, None, rec)
    requires m'.nodes == m.nodes[p.a := p.sa[s.a + 1]] && m'.applied == m.applied
    ensures Shows(m', p, GoneOut(s, rec))
  {
  }

  lemma ArrivalAtBShows(m: Net, m': Net, p: Cast, s: Scene)
    requires Shows(m, p, s) && p.a != p.b && p.b != p.c && p.a != p.c && s.b + 1 < |p.sb| && s.ab != []
    requires Delivered(m, m', p.a, p.b, s.ab[0], p.sb[s.b + 1])
    ensures Shows(m', p, AtB(s))
  {
  }

  lemma ArrivalAtCShows(m: Net, m': Net, p: Cast, s: Scene)
    requires Shows(m, p, s) && p.a != p.b && p.b != p.c && p.a != p.c && s.c + 1 < |p.sc| && s.ac != []
    requires Delivered(m, m', p.a, p.c, s.ac[0], p.sc[s.c + 1])
    ensures Shows(m', p, AtC(s))
  {
  }

  lemma ArrivalFromCShows(m: Net, m': Net, p: Cast, s: Scene)
    requires Shows(m, p, s) && p.a != p.b && p.b != p.c && p.a != p.c && s.b + 1 < |p.sb| && s.cb != []
    requires Delivered(m, m', p.c, p.b, s.cb[0], p.sb[s.b + 1])
    ensures Shows(m', p, FromC(s))
  {
  }

  /** A run so far from `m`, and what it shows. */
  ghost predicate Shot(x: World, m: Net, ms: seq<Net>, ss: seq<Step>, p: Cast, s: Scene) {
    Trail(x, ms, ss) && ms[0] == m && ValidNet(x, ms[|ss|]) && Shows(ms[|ss|], p, s)
  }

  /** `step` is something node `a` can do once it is in state `na`. */
  ghost predicate LocalFrom(x: World, na: NodeState, step: Step, a: string) {
    && step.Local? && step.at == a && step.rec.node == a && OnWire(step.rec) && During(x.w, step.now)
    && OwnRecorded(x.w, a, na, step.after, step.own, step.now) && LocalChange(a, na.hub, step.after.hub)
  }

  lemma LocalIsEnabled(x: World, m: Net, step: Step, a: string)
    requires ValidNet(x, m) && a in m.nodes && LocalFrom(x, m.nodes[a], step, a)
    ensures Enabled(x, m, step)
  {
  }

  lemma ShootOrigination(x: World, m: Net, ms: seq<Net>, ss: seq<Step>, p: Cast, s: Scene, now: int, step: Step)
      returns (ms': seq<Net>, ss': seq<Step>)
    requires Shot(x, m, ms, ss, p, s) && ValidCast(x, p, now) && s.a + 1 < |p.sa|
    requires LocalFrom(x, p.sa[s.a], step, p.a) && step.after == p.sa[s.a + 1]
    ensures Shot(x, m, ms', ss', p, GoneOut(s, step.rec))
  {
    LocalIsEnabled(x, ms[|ss|], step, p.a);
    var m' := Originates(x, ms, ss, step);
    OriginationShows(ms[|ss|], m', p, s, step.rec);
    ms', ss' := ms + [m'], ss + [step];
  }

  lemma ShootArrivalAtB(x: World, m: Net, ms: seq<Net>, ss: seq<Step>, p: Cast, s: Scene, now: int)
      returns (ms': seq<Net>, ss': seq<Step>)
    requires Shot(x, m, ms, ss, p, s) && ValidCast(x, p, now) && s.b < |p.tb|
    requires s.ab != [] && p.tb[s.b] == Taken(s.ab[0], p.a)
    ensures Shot(x, m, ms', ss', p, AtB(s))
  {
    var step, m' := Hop(x, ms, ss, p.a, p.b, now, p.sb, p.tb, s.b);
    ArrivalAtBShows(ms[|ss|], m', p, s);
    ms', ss' := ms + [m'], ss + [step];
  }

  lemma ShootArrivalAtC(x: World, m: Net, ms: seq<Net>, ss: seq<Step>, p: Cast, s: Scene, now: int)
      returns (ms': seq<Net>, ss': seq<Step>)
    requires Shot(x, m, ms, ss, p, s) && ValidCast(x, p, now) && s.c < |p.tc|
    requires s.ac != [] && p.tc[s.c] == Taken(s.ac[0], p.a)
    ensures Shot(x, m, ms', ss', p, AtC(s))
  {
    var step, m' := Hop(x, ms, ss, p.a, p.c, now, p.sc, p.tc, s.c);
    ArrivalAtCShows(ms[|ss|], m', p, s);
    ms', ss' := ms + [m'], ss + [step];
  }

  lemma ShootArrivalFromC(x: World, m: Net, ms: seq<Net>, ss: seq<Step>, p: Cast, s: Scene, now: int)
      returns (ms': seq<Net>, ss': seq<Step>)
    requires Shot(x, m, ms, ss, p, s) && ValidCast(x, p, now) && s.b < |p.tb|
    requires s.cb != [] && p.tb[s.b] == Taken(s.cb[0], p.c)
    ensures Shot(x, m, ms', ss', p, FromC(s))
  {
    var step, m' := Hop(x, ms, ss, p.c, p.b, now, p.sb, p.tb, s.b);
    ArrivalFromCShows(ms[|ss|], m', p, s);
    ms', ss' := ms + [m'], ss + [step];
  }

  /** The scenes of the run: the data record goes out and reaches the second node; so does the topic
      change; the data record reaches the third, which passes it on to the second. */
  function Script(d: Record, t: Record, applied: seq<Record>, i: nat): Scene {
    match i
    case 0 => Scene([], [], [], 0, 0, 0, applied)
    case 1 => Scene([d], [d], [], 1, 0, 0, applied)
    case 2 => Scene([], [d], [], 1, 1, 0, applied + [d])
    case 3 => Scene([t], [d, t], [], 2, 1, 0, applied + [d])
    case 4 => Scene([], [d, t], [], 2, 2, 0, applied + [d] + [t])
    case 5 => Scene([], [t], [d], 2, 2, 1, applied + [d] + [t])
    case _ => Scene([], [t], [], 2, 3, 1, applied + [d] + [t] + [d])
  }

  lemma ScriptIsFollowed(d: Record, t: Record, applied: seq<Record>)
    ensures GoneOut(Script(d, t, applied, 0), d) == Script(d, t, applied, 1)
    ensures AtB(Script(d, t, applied, 1)) == Script(d, t, applied, 2)
    ensures GoneOut(Script(d, t, applied, 2), t) == Script(d, t, applied, 3)
    ensures AtB(Script(d, t, applied, 3)) == Script(d, t, applied, 4)
    ensures AtC(Script(d, t, applied, 4)) == Script(d, t, applied, 5)
    ensures FromC(Script(d, t, applied, 5)) == Script(d, t, applied, 6)
  {
  }

  lemma ScriptEnds(d: Record, t: Record, applied: seq<Record>)
    ensures Script(d, t, applied, 6).applied == applied + [d] + [t] + [d]
  {
  }

  /** The cast plays this script. */
  ghost predicate Plays(x: World, p: Cast, now: int, d: Step, t: Step) {
    && ValidCast(x, p, now) && |p.sa| == 3
    && LocalFrom(x, p.sa[0], d, p.a) && d.after == p.sa[1] && LocalFrom(x, p.sa[1], t, p.a) && t.after == p.sa[2]
    && |p.tb| == 3 && p.tb[0] == Taken(d.rec, p.a) && p.tb[1] == Taken(t.rec, p.a) && p.tb[2] == Taken(d.rec, p.c)
    && |p.tc| == 1 && p.tc[0] == Taken(d.rec, p.a)
  }

  /** A run from `m` gets to scene `i`. */
  ghost predicate Gets(x: World, m: Net, p: Cast, d: Record, t: Record, applied: seq<Record>, i: nat) {
    exists ms, ss :: Shot(x, m, ms, ss, p, Script(d, t, applied, i))
  }

  lemma DataGoesOut(x: World, m: Net, p: Cast, now: int, d: Step, t: Step, applied: seq<Record>)
    requires Plays(x, p, now, d, t) && Gets(x, m, p, d.rec, t.rec, applied, 0)
    ensures Gets(x, m, p, d.rec, t.rec, applied, 1)
  {
    var ms, ss :| Shot(x, m, ms, ss, p, Script(d.rec, t.rec, applied, 0));
    ScriptIsFollowed(d.rec, t.rec, applied);
    var ms', ss' := ShootOrigination(x, m, ms, ss, p, Script(d.rec, t.rec, applied, 0), now, d);
    assert Shot(x, m, ms', ss', p, Script(d.rec, t.rec, applied, 1));
  }

  lemma DataReachesB(x: World, m: Net, p: Cast, now: int, d: Step, t: Step, applied: seq<Record>)
    requires Plays(x, p, now, d, t) && Gets(x, m, p, d.rec, t.rec, applied, 1)
    ensures Gets(x, m, p, d.rec, t.rec, applied, 2)
  {
    var ms, ss :| Shot(x, m, ms, ss, p, Script(d.rec, t.rec, applied, 1));
    ScriptIsFollowed(d.rec, t.rec, applied);
    var ms', ss' := ShootArrivalAtB(x, m, ms, ss, p, Script(d.rec, t.rec, applied, 1), now);
    assert Shot(x, m, ms', ss', p, Script(d.rec, t.rec, applied, 2));
  }

  lemma TopicGoesOut(x: World, m: Net, p: Cast, now: int, d: Step, t: Step, applied: seq<Record>)
    requires Plays(x, p, now, d, t) && Gets(x, m, p, d.rec, t.rec, applied, 2)
    ensures Gets(x, m, p, d.rec, t.rec, applied, 3)
  {
    var ms, ss :| Shot(x, m, ms, ss, p, Script(d.rec, t.rec, applied, 2));
    ScriptIsFollowed(d.rec, t.rec, applied);
    var ms', ss' := ShootOrigination(x, m, ms, ss, p, Script(d.rec, t.rec, applied, 2), now, t);
    assert Shot(x, m, ms', ss', p, Script(d.rec, t.rec, applied, 3));
  }

  lemma TopicReachesB(x: World, m: Net, p: Cast, now: int, d: Step, t: Step, applied: seq<Record>)
    requires Plays(x, p, now, d, t) && Gets(x, m, p, d.rec, t.rec, applied, 3)
    ensures Gets(x, m, p, d.rec, t.rec, applied, 4)
  {
    var ms, ss :| Shot(x, m, ms, ss, p, Script(d.rec, t.rec, applied, 3));
    ScriptIsFollowed(d.rec, t.rec, applied);
    var ms', ss' := ShootArrivalAtB(x, m, ms, ss, p, Script(d.rec, t.rec, applied, 3), now);
    assert Shot(x, m, ms', ss', p, Script(d.rec, t.rec, applied, 4));
  }

  lemma DataReachesC(x: World, m: Net, p: Cast, now: int, d: Step, t: Step, applied: seq<Record>)
    requires Plays(x, p, now, d, t) && Gets(x, m, p, d.rec, t.rec, applied, 4)
    ensures Gets(x, m, p, d.rec, t.rec, applied, 5)
  {
    var ms, ss :| Shot(x, m, ms, ss, p, Script(d.rec, t.rec, applied, 4));
    ScriptIsFollowed(d.rec, t.rec, applied);
    var ms', ss' := ShootArrivalAtC(x, m, ms, ss, p, Script(d.rec, t.rec, applied, 4), now);
    assert Shot(x, m, ms', ss', p, Script(d.rec, t.rec, applied, 5));
  }

  lemma DataReachesBAgain(x: World, m: Net, p: Cast, now: int, d: Step, t: Step, applied: seq<Record>)
    requires Plays(x, p, now, d, t) && Gets(x, m, p, d.rec, t.rec, applied, 5)
    ensures Gets(x, m, p, d.rec, t.rec, applied, 6)
  {
    var ms, ss :| Shot(x, m, ms, ss, p, Script(d.rec, t.rec, applied, 5));
    ScriptIsFollowed(d.rec, t.rec, applied);
    var ms', ss' := ShootArrivalFromC(x, m, ms, ss, p, Script(d.rec, t.rec, applied, 5), now);
    assert Shot(x, m, ms', ss', p, Script(d.rec, t.rec, applied, 6));
  }

  lemma StartsFromScratch(x: World, m: Net, p: Cast, d: Record, t: Record, applied: seq<Record>)
    requires ValidWorld(x) && ValidNet(x, m) && Shows(m, p, Script(d, t, applied, 0))
    ensures Gets(x, m, p, d, t, applied, 0)
  {
    var ms: seq<Net>, ss: seq<Step> := [m], [];
    assert Shot(x, m, ms, ss, p, Script(d, t, applied, 0));
  }

  lemma PlayedThrough(x: World, m: Net, p: Cast, now: int, d: Step, t: Step, applied: seq<Record>)
    requires Plays(x, p, now, d, t) && Gets(x, m, p, d.rec, t.rec, applied, 0)
    ensures Gets(x, m, p, d.rec, t.rec, applied, 6)
  {
    DataGoesOut(x, m, p, now, d, t, applied);
    DataReachesB(x, m, p, now, d, t, applied);
    TopicGoesOut(x, m, p, now, d, t, applied);
    TopicReachesB(x, m, p, now, d, t, applied);
    DataReachesC(x, m, p, now, d, t, applied);
    DataReachesBAgain(x, m, p, now, d, t, applied);
  }

  lemma TrailIsRun(x: World, m: Net, ms: seq<Net>, ss: seq<Step>, final: Net)
    requires Trail(x, ms, ss) && ms[0] == m && ms[|ss|] == final && ValidNet(x, final)
    ensures Leads(x, m, ss, final)
  {
    var steps := TrailLeads(x, ms, ss, 0);
    assert steps == ss;
  }

  lemma LastShot(x: World, m: Net, ms: seq<Net>, ss: seq<Step>, p: Cast, s: Scene) returns (final: Net)
    requires Shot(x, m, ms, ss, p, s)
    ensures Leads(x, m, ss, final) && p.b in final.applied && final.applied[p.b] == s.applied
  {
    final := ms[|ss|];
    TrailIsRun(x, m, ms, ss, final);
  }

  /** A run from `m` by whose end `b` has applied `d`, `t` and `d` again. */
  ghost predicate Twice(x: World, m: Net, b: string, d: Record, t: Record, steps: seq<Step>, final: Net) {
    Leads(x, m, steps, final) && b in m.applied && b in final.applied && final.applied[b] == m.applied[b] + [d] + [t] + [d]
  }

  ghost predicate AppliesTwice(x: World, m: Net, b: string, d: Record, t: Record) {
    exists steps, final :: Twice(x, m, b, d, t, steps, final)
  }

  lemma TheEnd(x: World, m: Net, p: Cast, d: Record, t: Record, ms: seq<Net>, ss: seq<Step>, s: Scene)
    requires p.b in m.applied && Shot(x, m, ms, ss, p, s) && s.applied == m.applied[p.b] + [d] + [t] + [d]
    ensures AppliesTwice(x, m, p.b, d, t)
  {
    var final := LastShot(x, m, ms, ss, p, s);
    assert Twice(x, m, p.b, d, t, ss, final);
  }

  lemma GetsThere(x: World, m: Net, p: Cast, d: Record, t: Record)
    requires p.b in m.applied && Gets(x, m, p, d, t, m.applied[p.b], 6)
    ensures AppliesTwice(x, m, p.b, d, t)
  {
    var s := Script(d, t, m.applied[p.b], 6);
    ScriptEnds(d, t, m.applied[p.b]);
    var ms, ss :| Shot(x, m, ms, ss, p, s);
    TheEnd(x, m, p, d, t, ms, ss, s);
  }

  // ---- a data record applied twice ----

  /** Three nodes, each linked to the other two. */
  ghost predicate Corners(g: Flood.Graph, a: string, b: string, c: string) {
    && a in g && b in g && c in g && a != b && b != c && a != c
    && b in g[a] && c in g[a] && a in g[b] && c in g[b] && a in g[c] && b in g[c]
  }

  ghost predicate Idle(m: Net) { forall e :: e in m.wires ==> m.wires[e] == [] }

  lemma HistoryGrows(w: Window, our: string, now: int, ns: seq<NodeState>, ts: seq<Taken>, rec: Record, from: string)
      returns (ns': seq<NodeState>, ts': seq<Taken>)
    requires History(w, our, now, ns, ts) && Valid(ns[|ts|].hub) && Accepts(our, ns[|ts|], rec, now)
    ensures History(w, our, now, ns', ts') && ts' == ts + [Taken(rec, from)] && ns'[0] == ns[0]
    ensures ns' == ns + [Ingest(our, w.ttl, ns[|ts|], rec, from, now)]
  {
    ns' := ns + [Ingest(our, w.ttl, ns[|ts|], rec, from, now)];
    ts' := ts + [Taken(rec, from)];
    forall i | 0 <= i < |ts'|
      ensures TookAt(w, our, now, ns', ts', i)
    {
      if i < |ts| { assert TookAt(w, our, now, ns, ts, i); }
    }
  }

  /** The facts the second and third record rest on. */
  ghost predicate AfterData(w: Window, our: string, n: NodeState, n1: NodeState, d: Record, t: Record, a: string, now: int)
    requires Valid(n.hub)
  {
    && n1 == Ingest(our, w.ttl, n, d, a, now) && Accepts(our, n, d, now) && Valid(n1.hub)
    && RecordKey(n1.hub, t) !in Marked(w, n1.seen) && RecordKey(n1.hub, t) !in Lingering(w, n1.seen)
    && RekeyedBy(d, t) !in Lingering(w, n1.seen)
    && (RekeyedBy(d, t) != RecordKey(n.hub, d) ==> RekeyedBy(d, t) !in Marked(w, n1.seen))
  }

  lemma TopicAfterData(w: Window, our: string, n: NodeState, n1: NodeState, n2: NodeState, d: Record, t: Record, a: string,
                       now: int)
    requires During(w, now) && Valid(n.hub) && Canonical(d) && Canonical(t) && NormCall(our) == our && d.node != our
    requires SamePair(d, t) && TopicKey(t.Field(0)) != SenderTopic(n, d) && AfterData(w, our, n, n1, d, t, a, now)
    requires n2 == Ingest(our, w.ttl, n1, t, a, now)
    ensures Accepts(our, n1, t, now) && Valid(n2.hub) && Accepts(our, n2, d, now)
  {
    SecondIsTaken(w, our, n1, t, a, now, RekeyedBy(d, t));
    ThirdIsTaken(w, our, n, n1, n2, d, t, a, now, now);
  }

  lemma HistoryOfTwo(w: Window, our: string, n: NodeState, d: Record, t: Record, a: string, now: int)
      returns (ns: seq<NodeState>, ts: seq<Taken>)
    requires During(w, now) && Valid(n.hub) && Canonical(d) && Canonical(t) && NormCall(our) == our && d.node != our
    requires SamePair(d, t) && BothNew(w, n, d, t) && TopicKey(t.Field(0)) != SenderTopic(n, d)
    ensures History(w, our, now, ns, ts) && ns[0] == n && |ts| == 2 && ts[0] == Taken(d, a) && ts[1] == Taken(t, a)
    ensures Valid(ns[2].hub) && Accepts(our, ns[2], d, now)
  {
    FirstIsTaken(w, our, n, d, t, a, now);
    var n1 := Ingest(our, w.ttl, n, d, a, now);
    var n2 := Ingest(our, w.ttl, n1, t, a, now);
    TopicAfterData(w, our, n, n1, n2, d, t, a, now);
    ns, ts := [n, n1, n2], [Taken(d, a), Taken(t, a)];
    TwoTaken(w, our, now, n, n1, n2, d, t, a);
  }

  lemma TookIs(w: Window, our: string, now: int, ns: seq<NodeState>, ts: seq<Taken>, i: nat)
    requires i < |ts| < |ns| && Valid(ns[i].hub) && Accepts(our, ns[i], ts[i].rec, now)
    requires ns[i + 1] == Ingest(our, w.ttl, ns[i], ts[i].rec, ts[i].from, now)
    ensures TookAt(w, our, now, ns, ts, i)
  {
  }

  lemma TwoTaken(w: Window, our: string, now: int, n: NodeState, n1: NodeState, n2: NodeState, d: Record, t: Record, a: string)
    requires Valid(n.hub) && Accepts(our, n, d, now) && n1 == Ingest(our, w.ttl, n, d, a, now)
    requires Valid(n1.hub) && Accepts(our, n1, t, now) && n2 == Ingest(our, w.ttl, n1, t, a, now)
    ensures History(w, our, now, [n, n1, n2], [Taken(d, a), Taken(t, a)])
  {
    var ns, ts := [n, n1, n2], [Taken(d, a), Taken(t, a)];
    TookIs(w, our, now, ns, ts, 0);
    TookIs(w, our, now, ns, ts, 1);
  }

  /** The second node takes the data record, the topic change, and the data record again. */
  lemma HistoryOfB(w: Window, our: string, n: NodeState, d: Record, t: Record, a: string, c: string, now: int)
      returns (ns: seq<NodeState>, ts: seq<Taken>)
    requires During(w, now) && Valid(n.hub) && Canonical(d) && Canonical(t) && NormCall(our) == our && d.node != our
    requires SamePair(d, t) && BothNew(w, n, d, t) && TopicKey(t.Field(0)) != SenderTopic(n, d)
    ensures History(w, our, now, ns, ts) && ns[0] == n
    ensures |ts| == 3 && ts[0] == Taken(d, a) && ts[1] == Taken(t, a) && ts[2] == Taken(d, c)
  {
    var ns1, ts1 := HistoryOfTwo(w, our, n, d, t, a, now);
    ns, ts := HistoryGrows(w, our, now, ns1, ts1, d, c);
  }

  lemma HistoryOfC(w: Window, our: string, n: NodeState, d: Record, t: Record, a: string, now: int)
      returns (ns: seq<NodeState>, ts: seq<Taken>)
    requires During(w, now) && Valid(n.hub) && Canonical(d) && Canonical(t) && NormCall(our) == our && d.node != our
    requires SamePair(d, t) && BothNew(w, n, d, t)
    ensures History(w, our, now, ns, ts) && ns[0] == n && |ts| == 1 && ts[0] == Taken(d, a)
  {
    FirstIsTaken(w, our, n, d, t, a, now);
    ns, ts := HistoryGrows(w, our, now, [n], [], d, a);
  }

  lemma CornersShow(x: World, m: Net, p: Cast, d: Record, t: Record)
    requires Shaped(x.g, m) && Corners(x.g, p.a, p.b, p.c) && Idle(m) && p.sa != [] && p.sb != [] && p.sc != []
    requires m.nodes[p.a] == p.sa[0] && m.nodes[p.b] == p.sb[0] && m.nodes[p.c] == p.sc[0]
    ensures p.b in m.applied && Shows(m, p, Script(d, t, m.applied[p.b], 0))
  {
    assert Flood.IsEdge(x.g, Flood.Edge(p.a, p.b)) && Flood.IsEdge(x.g, Flood.Edge(p.a, p.c));
    assert Flood.IsEdge(x.g, Flood.Edge(p.c, p.b));
  }

  /** On any graph, whatever else it holds: among three mutually linked nodes, a data record of the
      first and then a topic change of its sender can be delivered so that the second applies the
      data record twice, if the change is a change there. */
  lemma AppliedTwiceOnCycle(x: World, m: Net, a: string, b: string, c: string, d: Step, t: Step, now: int)
    requires ValidWorld(x) && ValidNet(x, m) && Corners(x.g, a, b, c) && Idle(m) && During(x.w, now)
    requires LocalFrom(x, m.nodes[a], d, a) && LocalFrom(x, d.after, t, a) && SamePair(d.rec, t.rec)
    requires BothNew(x.w, m.nodes[b], d.rec, t.rec) && BothNew(x.w, m.nodes[c], d.rec, t.rec)
    requires TopicKey(t.rec.Field(0)) != SenderTopic(m.nodes[b], d.rec)
    ensures AppliesTwice(x, m, b, d.rec, t.rec)
  {
    var p := CastFor(x, m, a, b, c, d, t, now);
    CornersShow(x, m, p, d.rec, t.rec);
    StartsFromScratch(x, m, p, d.rec, t.rec, m.applied[b]);
    PlayedThrough(x, m, p, now, d, t, m.applied[b]);
    GetsThere(x, m, p, d.rec, t.rec);
  }

  lemma CastFor(x: World, m: Net, a: string, b: string, c: string, d: Step, t: Step, now: int) returns (p: Cast)
    requires ValidWorld(x) && ValidNet(x, m) && Corners(x.g, a, b, c) && During(x.w, now)
    requires LocalFrom(x, m.nodes[a], d, a) && LocalFrom(x, d.after, t, a) && SamePair(d.rec, t.rec)
    requires BothNew(x.w, m.nodes[b], d.rec, t.rec) && BothNew(x.w, m.nodes[c], d.rec, t.rec)
    requires TopicKey(t.rec.Field(0)) != SenderTopic(m.nodes[b], d.rec)
    ensures Plays(x, p, now, d, t) && p.a == a && p.b == b && p.c == c && p.sa != [] && p.sb != [] && p.sc != []
    ensures m.nodes[a] == p.sa[0] && m.nodes[b] == p.sb[0] && m.nodes[c] == p.sc[0]
  {
    OnWireIsCanonical(d.rec);
    OnWireIsCanonical(t.rec);
    assert Valid(m.nodes[b].hub) && Valid(m.nodes[c].hub);
    var sb, tb := HistoryOfB(x.w, b, m.nodes[b], d.rec, t.rec, a, c, now);
    var sc, tc := HistoryOfC(x.w, c, m.nodes[c], d.rec, t.rec, a, now);
    p := Cast(a, b, c, [m.nodes[a], d.after, t.after], sb, sc, tb, tc);
  }

  // ---- a concrete start ----

  ghost function Triangle(a: string, b: string, c: string): Flood.Graph { map[a := {b, c}, b := {a, c}, c := {a, b}] }

  ghost function Today(a: string, b: string, c: string): World { World(Triangle(a, b, c), Window(0, 10)) }

  function Fresh(h: State): NodeState { NodeState(h, map[], []) }

  ghost function Edges(g: Flood.Graph): set<Flood.Edge> { set a, b | a in g && b in g[a] :: Flood.Edge(a, b) }

  /** Nothing in flight, nothing applied. */
  ghost function Still(g: Flood.Graph, nodes: map<string, NodeState>): Net {
    Net(nodes, map e | e in Edges(g) :: [], map n | n in g :: [], multiset{})
  }

  ghost function Corner(a: string, b: string, c: string, home: State, away: State): map<string, NodeState> {
    map[a := Fresh(home), b := Fresh(away), c := Fresh(away)]
  }

  lemma TriangleIsValid(a: string, b: string, c: string)
    requires a != b && b != c && a != c && NormCall(a) == a && NormCall(b) == b && NormCall(c) == c
    ensures ValidWorld(Today(a, b, c)) && Corners(Triangle(a, b, c), a, b, c)
  {
  }

  lemma StillIsValid(x: World, nodes: map<string, NodeState>)
    requires nodes.Keys == x.g.Keys && HubsValid(nodes)
    ensures ValidNet(x, Still(x.g, nodes)) && Idle(Still(x.g, nodes))
  {
    forall e: Flood.Edge
      ensures e in Edges(x.g) <==> Flood.IsEdge(x.g, e)
    {
      assert e == Flood.Edge(e.src, e.dst);
    }
  }

  lemma Letter(s: string)
    requires |s| == 1 && 'A' <= s[0] <= 'Z'
    ensures Word(s) && Plain(s) && Upper(s) == s && NormCall(s) == s && Trim(s) == s && Clean(s)
    ensures |TopicKey(s)| == 1
  {
    WordIsClean(s);
    LowerAt(s);
  }

  /** What the first node does: its user posts, and then changes topic. */
  ghost function Posting(a: string, home: State, key: UserKey, text: string): Step
    requires Post(home, key, text, 0).reply.Ok? && Carried(a, TopicMessage(Post(home, key, text, 0).reply.value)).Some?
  {
    var e := Post(home, key, text, 0);
    var id := e.reply.value.id;
    Local(a, Carried(a, TopicMessage(e.reply.value)).value,
          NodeState(e.state, SeenSets.Record(map[], 10, id, 0), [e.reply.value]), Some(id), 0)
  }

  lemma PostingIsLocal(a: string, b: string, c: string, home: State, key: UserKey, text: string)
    requires NormCall(a) == a && Word(a) && Plain(a) && CanonKey(key) == key && key.node == a && key in home.users
    requires Word(key.call) && Plain(key.call) && Plain(text) && Clean(text) && text != "" && |text| <= MAX_TEXT && Valid(home)
    ensures Post(home, key, text, 0).reply.Ok? && Carried(a, TopicMessage(Post(home, key, text, 0).reply.value)).Some?
    ensures
      var d := Posting(a, home, key, text);
      && LocalFrom(Today(a, b, c), Fresh(home), d, a) && d.rec.typ == ID_DATA && SenderKey(d.rec) == key
      && d.after.hub == Post(home, key, text, 0).state
  {
    CleanTextIsKept(text);
    PostOriginates(a, home, key, text, 0);
    OwnOpsAreLocalChanges(a, home, OpPost(key, text), 0);
  }

  /** ... and then changes topic, to be user `u`, which makes the tables `h`. */
  ghost function Moving(a: string, n: NodeState, h: State, u: User, was: string): Step
    requires Carried(a, TopicChanged(u, was)).Some?
  {
    Local(a, Carried(a, TopicChanged(u, was)).value, n.(hub := h), None, 0)
  }

  lemma MovingIsLocal(x: World, a: string, n: NodeState, h: State, u: User, was: string)
    requires LocalUser(a, u) && Word(u.topic) && Plain(u.topic) && LocalChange(a, n.hub, h) && During(x.w, 0)
    ensures Carried(a, TopicChanged(u, was)).Some?
    ensures
      var t := Moving(a, n, h, u, was);
      && LocalFrom(x, n, t, a) && t.rec.typ == ID_TOPIC && SenderKey(t.rec) == KeyOf(u)
      && TopicKey(t.rec.Field(0)) == TopicKey(u.topic) != ""
  {
    WordIsClean(u.topic);
    TopicIsCarried(a, u, was);
    DecodedIsCanonical(EncodeLocal(a, TopicChanged(u, was)).value);
  }

  lemma NewTopicIsEntered(h: State, key: UserKey, name: string)
    requires Valid(h) && CanonKey(key) == key && key in h.users && Word(name) && TopicKey(name) != "" && TopicKey(name) !in h.topics
    ensures
      var h' := SetTopic(h, key, name).state;
      key in h'.users && h'.users[key] == h.users[key].(topic := name)
  {
    WordIsClean(name);
    assert UserValid(h.users[key], key, h.topics);
  }

  /** The first node's user, in the default topic. */
  const USER := User("U", "", "", Origin("A", true, ""), "", 0, 0, Flags(false, false, false, false, false))

  const KEY := UserKey("U", "A")

  ghost function Home(): State { HubSpec.Join(NewState(), USER, 0).state }

  lemma HomeIsValid()
    ensures Valid(Home()) && KEY in Home().users && LocalUser("A", Home().users[KEY]) && KeyOf(Home().users[KEY]) == KEY
    ensures CanonKey(KEY) == KEY && Home().topics == NewState().topics
  {
    Letter("A");
    Letter("U");
    JoinKeeps(NewState(), USER, 0);
  }

  /** The default topic is the only one, and is not called after a letter. */
  lemma OnlyDefault(s: string)
    requires |TopicKey(s)| == 1
    ensures TopicKey(s) !in NewState().topics && TopicKey(s) != Lower(DEFAULT_TOPIC)
  {
    TrimClean(DEFAULT_TOPIC);
    LowerAt(DEFAULT_TOPIC);
  }

  lemma AwayIsFresh(d: Record)
    requires Canonical(d)
    ensures SenderTopic(Fresh(NewState()), d) == Lower(DEFAULT_TOPIC)
  {
  }

  ghost function Posted(): State { Post(Home(), KEY, "H", 0).state }

  lemma DataStep() returns (d: Step)
    ensures LocalFrom(Today("A", "B", "C"), Fresh(Home()), d, "A") && d.rec.typ == ID_DATA && SenderKey(d.rec) == KEY
    ensures d.after.hub == Posted()
  {
    HomeIsValid();
    Letter("A");
    Letter("U");
    Letter("H");
    PostingIsLocal("A", "B", "C", Home(), KEY, "H");
    d := Posting("A", Home(), KEY, "H");
  }

  lemma PostedIsValid()
    ensures Valid(Posted()) && KEY in Posted().users && LocalUser("A", Posted().users[KEY]) && KeyOf(Posted().users[KEY]) == KEY
    ensures Posted().topics == NewState().topics && CanonKey(KEY) == KEY
  {
    HomeIsValid();
    PostKeeps(Home(), KEY, "H", 0);
  }

  lemma TopicStep(n: NodeState) returns (t: Step)
    requires n.hub == Posted()
    ensures LocalFrom(Today("A", "B", "C"), n, t, "A") && t.rec.typ == ID_TOPIC && SenderKey(t.rec) == KEY
    ensures TopicKey(t.rec.Field(0)) == TopicKey("X") != ""
  {
    PostedIsValid();
    Letter("X");
    OnlyDefault("X");
    NewTopicIsEntered(n.hub, KEY, "X");
    OwnOpsAreLocalChanges("A", n.hub, OpSetTopic(KEY, "X"), 0);
    var h := SetTopic(n.hub, KEY, "X").state;
    MovingIsLocal(Today("A", "B", "C"), "A", n, h, h.users[KEY], n.hub.users[KEY].topic);
    t := Moving("A", n, h, h.users[KEY], n.hub.users[KEY].topic);
  }

  lemma CornersAreValid()
    ensures HubsValid(Corner("A", "B", "C", Home(), NewState()))
  {
    HomeIsValid();
  }

  lemma FreshIsNew(w: Window, h: State, d: Record, t: Record)
    ensures BothNew(w, Fresh(h), d, t)
  {
  }

  /** The cycle of three nodes, nothing seen and nothing in flight, one user at A. */
  ghost function Start(): Net { Still(Triangle("A", "B", "C"), Corner("A", "B", "C", Home(), NewState())) }

  lemma StartIsValid()
    ensures ValidWorld(Today("A", "B", "C")) && ValidNet(Today("A", "B", "C"), Start()) && Idle(Start())
    ensures Corners(Triangle("A", "B", "C"), "A", "B", "C")
    ensures Start().nodes == Corner("A", "B", "C", Home(), NewState())
  {
    Letter("A");
    Letter("B");
    Letter("C");
    TriangleIsValid("A", "B", "C");
    CornersAreValid();
    StillIsValid(Today("A", "B", "C"), Corner("A", "B", "C", Home(), NewState()));
  }

  lemma StartHasAppliedNothing()
    ensures "B" in Start().applied && Start().applied["B"] == []
  {
  }

  lemma TwoSteps() returns (d: Step, t: Step)
    ensures LocalFrom(Today("A", "B", "C"), Fresh(Home()), d, "A") && LocalFrom(Today("A", "B", "C"), d.after, t, "A")
    ensures SamePair(d.rec, t.rec) && TopicKey(t.rec.Field(0)) != SenderTopic(Fresh(NewState()), d.rec)
  {
    d := DataStep();
    t := TopicStep(d.after);
    OnWireIsCanonical(d.rec);
    AwayIsFresh(d.rec);
    Letter("X");
    OnlyDefault("X");
  }

  /** The input that exactly-once fails on: a user of A posts H and then changes topic to X; B gets the
      post from A, the topic change from A and the post again from C, and applies the post twice. */
  lemma ExactlyOnceFailsHere() returns (d: Record, t: Record)
    ensures ValidWorld(Today("A", "B", "C")) && ValidNet(Today("A", "B", "C"), Start()) && Idle(Start())
    ensures "B" in Start().applied && Start().applied["B"] == []
    ensures d.typ == ID_DATA && AppliesTwice(Today("A", "B", "C"), Start(), "B", d, t)
  {
    StartIsValid();
    StartHasAppliedNothing();
    var ds, ts := TwoSteps();
    d, t := ds.rec, ts.rec;
    FreshIsNew(Today("A", "B", "C").w, NewState(), d, t);
    AppliedTwiceOnCycle(Today("A", "B", "C"), Start(), "A", "B", "C", ds, ts, 0);
  }
}
