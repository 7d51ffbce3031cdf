/** When nodes keep the sender of a data record in its topic: a condition on the records of a run alone,
    which a record's exactly-once delivery can be read off before the run. */
module SteadyMesh {
  import opened Options
  import opened Text
  import opened Chat
  import opened Proto
  import opened Sums
  import opened HubSpec
  import opened RouterSpec
  import opened RelayLaws
  import opened MeshNode
  import opened Mesh
  import opened MeshRuns
  import opened NoStorm
  import Flood
  import FloodRuns

  /** `rec` cannot move the sender of `r` to another topic: it is no topic change and no leave of that
      user, and drops no node. */
  predicate LeavesTopic(r: Record, rec: Record) {
    rec.typ != ID_UNLINK && (rec.typ == ID_TOPIC || rec.typ == ID_LEAVE ==> SenderKey(rec) != SenderKey(r))
  }

  // ---- one record ----

  lemma EnsureKeepsTopic(h: State, rec: Record, from: string, now: int, r: Record)
    requires Tabled(h) && Canonical(rec) && Canonical(r)
    ensures Lower(TopicOf(EnsureUser(h, rec, from, now).state, SenderKey(r))) == Lower(TopicOf(h, SenderKey(r)))
  {
    EnsureUserIsLocal(h, rec, from, now, SenderKey(r));
    SenderPresent(h, rec, from, now);
  }

  lemma ActKeepsTopic(h: State, rec: Record, now: int, r: Record)
    requires Tabled(h) && Canonical(rec) && Canonical(r) && LeavesTopic(r, rec)
    ensures TopicOf(Act(h, rec, now).state, SenderKey(r)) == TopicOf(h, SenderKey(r))
  {
    ActIsLocal(h, rec, now, SenderKey(r));
  }

  lemma LeaveKeepsTopic(h: State, key: UserKey, k: UserKey)
    requires CanonKey(key) != CanonKey(k)
    ensures TopicOf(Leave(h, key).0, k) == TopicOf(h, k)
  {
  }

  lemma OthersKeepTopic(h: State, rec: Record, from: string, now: int, k: UserKey)
    requires Tabled(h) && !UserRecord(rec) && rec.typ != ID_UNLINK
    ensures TopicOf(ApplyState(h, rec, from, now), k) == TopicOf(h, k)
  {
  }

  lemma ApplyKeepsTopic(h: State, rec: Record, from: string, now: int, r: Record)
    requires Tabled(h) && Canonical(rec) && Canonical(r) && LeavesTopic(r, rec)
    ensures Lower(TopicOf(ApplyState(h, rec, from, now), SenderKey(r))) == Lower(TopicOf(h, SenderKey(r)))
  {
    if !UserRecord(rec) {
      OthersKeepTopic(h, rec, from, now, SenderKey(r));
    } else if rec.typ == ID_LEAVE {
      LeaveKeepsTopic(h, SenderKey(rec), SenderKey(r));
    } else {
      AppliedInStages(h, rec, from, now);
      EnsureKeepsTopic(h, rec, from, now, r);
      ActKeepsTopic(EnsureUser(h, rec, from, now).state, rec, now, r);
    }
  }

  /** An inbound record that cannot move the sender of `r` does not. */
  lemma IngestKeepsTopic(our: string, ttl: int, n: NodeState, rec: Record, from: string, now: int, r: Record)
    requires Tabled(n.hub) && Canonical(rec) && Canonical(r) && LeavesTopic(r, rec)
    ensures SenderTopic(Ingest(our, ttl, n, rec, from, now), r) == SenderTopic(n, r)
  {
    ApplyKeepsTopic(n.hub, rec, from, now, r);
  }

  // ---- whole runs ----

  /** Every node but its own has the sender of `r` in the topic it had it in at the start. */
  ghost predicate Unmoved(nodes: map<string, NodeState>, start: map<string, NodeState>, r: Record) {
    forall n :: n in nodes && n in start && n != r.node ==> SenderTopic(nodes[n], r) == SenderTopic(start[n], r)
  }

  ghost predicate AllLeaveTopic(recs: set<Record>, r: Record) { forall rec :: rec in recs ==> LeavesTopic(r, rec) }

  lemma UnmovedPut(nodes: map<string, NodeState>, start: map<string, NodeState>, n: string, after: NodeState, r: Record)
    requires Unmoved(nodes, start, r) && n in nodes && (n != r.node ==> SenderTopic(after, r) == SenderTopic(nodes[n], r))
    ensures Unmoved(nodes[n := after], start, r)
  {
  }

  lemma LocalKeepsTopic(at: string, n: NodeState, after: NodeState, r: Record)
    requires LocalChange(at, n.hub, after.hub) && at != r.node && Canonical(r)
    ensures SenderTopic(after, r) == SenderTopic(n, r)
  {
    assert CanonKey(SenderKey(r)) == SenderKey(r);
    assert SameUser(n.hub, after.hub, SenderKey(r));
  }

  lemma ArrivalKeepsTopic(x: World, m: Net, step: Step, r: Record)
    requires ValidWorld(x) && ValidNet(x, m) && Enabled(x, m, step) && step.Arrive? && OnWire(r)
    requires LeavesTopic(r, m.wires[Flood.Edge(step.src, step.dst)][0])
    ensures SenderTopic(step.out.after, r) == SenderTopic(m.nodes[step.dst], r)
  {
    var rec := m.wires[Flood.Edge(step.src, step.dst)][0];
    OnWireIsCanonical(rec);
    OnWireIsCanonical(r);
    IngestKeepsTopic(step.dst, x.w.ttl, m.nodes[step.dst], rec, step.src, step.now, r);
  }

  lemma StepKeepsUnmoved(x: World, m: Net, start: map<string, NodeState>, step: Step, recs: set<Record>, r: Record)
    requires ValidWorld(x) && ValidNet(x, m) && Enabled(x, m, step) && OnWire(r)
    requires Unmoved(m.nodes, start, r) && FlightIn(m.wires, recs) && AllLeaveTopic(recs, r)
    ensures Unmoved(Next(x, m, step).nodes, start, r)
  {
    OnWireIsCanonical(r);
    if step.Arrive? {
      ArrivalKeepsTopic(x, m, step, r);
      UnmovedPut(m.nodes, start, step.dst, step.out.after, r);
    } else {
      if step.at != r.node { LocalKeepsTopic(step.at, m.nodes[step.at], step.after, r); }
      UnmovedPut(m.nodes, start, step.at, step.after, r);
    }
  }

  lemma {:induction false} RunIsSteady(x: World, m: Net, start: map<string, NodeState>, steps: seq<Step>,
                                       recs: set<Record>, r: Record)
    requires ValidWorld(x) && ValidNet(x, m) && CanRun(x, m, steps) && OnWire(r)
    requires Unmoved(m.nodes, start, r) && FlightIn(m.wires, recs) && OriginatedIn(steps, recs) && AllLeaveTopic(recs, r)
    ensures Steady(x, m, start, steps, r)
    decreases |steps|
  {
    if steps != [] {
      OriginatedInTail(steps, recs);
      NextIsValid(x, m, steps[0]);
      StepKeepsUnmoved(x, m, start, steps[0], recs, r);
      NextIn(x, m, steps[0], recs);
      RunIsSteady(x, Next(x, m, steps[0]), start, steps[1..], recs, r);
    }
  }

  lemma SendingKeepsUnmoved(x: World, m: Net, first: Step, r: Record)
    requires ValidWorld(x) && ValidNet(x, m) && Enabled(x, m, first) && first.Local? && first.rec == r
    ensures Unmoved(Next(x, m, first).nodes, m.nodes, r)
  {
    UnmovedPut(m.nodes, m.nodes, r.node, first.after, r);
  }

  /** Exactly-once flooding, from the records of the run alone: as ExactlyOnce, for a data record
      provided no topic change or leave of its sender, and no unlinking of a node, is in flight when
      it is sent out or originated afterwards. */
  lemma ExactlyOnceByRecords(x: World, m: Net, first: Step, steps: seq<Step>, r: Record)
    requires ValidWorld(x) && ValidNet(x, m) && Enabled(x, m, first) && first.Local? && first.rec == r
    requires News(x, m, r) && FlightUnlike(m.wires, r) && OthersUnlike(steps, r)
    requires ValidNet(x, Next(x, m, first)) && CanRun(x, Next(x, m, first), steps)
    requires r.typ == ID_DATA ==> AllLeaveTopic(Recs(Next(x, m, first), steps), r)
    requires NoneInFlight(Run(x, Next(x, m, first), steps), r)
    ensures
      var final := Run(x, Next(x, m, first), steps);
      && (forall n :: n in x.g ==>
            multiset(final.applied[n])[r] == if n != r.node && FloodRuns.Reachable(x.g, r.node, n) then 1 else 0)
      && final.sent[r] == |x.g[r.node]| + Sum(FloodRuns.Others(x.g, r.node), FloodRuns.RelayCost(x.g))
  {
    var m1 := Next(x, m, first);
    if r.typ == ID_DATA {
      var recs := Recs(m1, steps);
      RecsCover(m1, steps);
      SendingKeepsUnmoved(x, m, first, r);
      RunIsSteady(x, m1, m.nodes, steps, recs, r);
    } else {
      OtherKindsAreSteady(x, m1, m.nodes, steps, r);
    }
    ExactlyOnce(x, m, first, steps, r);
  }

  lemma {:induction false} OtherKindsAreSteady(x: World, m: Net, start: map<string, NodeState>, steps: seq<Step>, r: Record)
    requires ValidWorld(x) && ValidNet(x, m) && CanRun(x, m, steps) && r.typ != ID_DATA
    ensures Steady(x, m, start, steps, r)
    decreases |steps|
  {
    if steps != [] {
      NextIsValid(x, m, steps[0]);
      OtherKindsAreSteady(x, Next(x, m, steps[0]), start, steps[1..], r);
    }
  }
}
