/** How a topic change in mid-flight makes a node apply a data record twice. */
module Rekeyed {
  import opened Options
  import opened Text
  import opened Chat
  import opened Proto
  import opened SeenSets
  import opened HubSpec
  import opened RouterSpec
  import opened RelayLaws
  import opened MeshNode
  import opened Mesh
  import opened MeshRuns
  import opened Mirror
  import NoStorm
  import Origination
  import Flood

  // ---- at one node ----

  /** The key of data record `d` at a node that has its sender in the topic `t` names. */
  function RekeyedBy(d: Record, t: Record): Key {
    Synth(d.node, d.user, TopicKind, TopicKey(t.Field(0)), d.Tail(0))
  }

  /** A data record, and a topic change of its sender. */
  predicate SamePair(d: Record, t: Record) {
    d.typ == ID_DATA && t.typ == ID_TOPIC && SenderKey(d) == SenderKey(t) && TopicKey(t.Field(0)) != ""
  }

  lemma NotLiveIsUnknown(w: Window, seen: map<Key, int>, id: Key)
    requires w.ttl > 0 && !Live(seen, id, w.start)
    ensures id !in Marked(w, seen) && id !in Lingering(w, seen)
  {
  }

  lemma UnknownIsNotLive(w: Window, seen: map<Key, int>, id: Key, now: int)
    requires id !in Marked(w, seen) && id !in Lingering(w, seen) && During(w, now)
    ensures !Live(seen, id, now)
  {
    LiveIsKnown(w, seen, id, now);
  }

  /** An unknown key of another node's record means it is accepted, and then its key and the id it
      puts out are the only ones recorded. */
  lemma UnknownIsAccepted(w: Window, our: string, n: NodeState, rec: Record, from: string, now: int)
    requires During(w, now) && Tabled(n.hub) && Canonical(rec) && NormCall(our) == our && rec.node != our
    requires RecordKey(n.hub, rec) !in Marked(w, n.seen) && RecordKey(n.hub, rec) !in Lingering(w, n.seen)
    ensures
      var n' := Ingest(our, w.ttl, n, rec, from, now);
      && Accepts(our, n, rec, now)
      && Marked(w, n'.seen) == Marked(w, n.seen) + {RecordKey(n.hub, rec)} + SentIds(n.hub, rec, from, now)
      && Lingering(w, n'.seen) <= Lingering(w, n.seen)
  {
    UnknownIsNotLive(w, n.seen, RecordKey(n.hub, rec), now);
    DifferentNodes(our, rec);
    IngestMarks(w, our, n, rec, from, now);
  }

  /** The message a data record puts out has the record's own key, or other text. */
  lemma SentIsKeyOrClipped(h: State, d: Record, from: string, now: int, id: Key)
    requires Tabled(h) && Canonical(d) && d.typ == ID_DATA && id in SentIds(h, d, from, now)
    ensures id.Synth? && (id == RecordKey(h, d) || |id.text| < |d.Tail(0)|)
  {
    SentParts(h, d, from, now, id);
    DataKeyIsMessageId(h, d, from, now);
    ClipKeepsText(d.Tail(0));
  }

  lemma TopicsSendNothing(h: State, t: Record, from: string, now: int)
    requires Tabled(h) && t.typ == ID_TOPIC
    ensures SentIds(h, t, from, now) == {}
  {
    if Sent(h, t, from, now).Some? { OnlyMessagesSend(h, t, from, now); }
  }

  /** An accepted topic change puts its sender in the topic it names. */
  lemma TopicIsTaken(our: string, ttl: int, n: NodeState, t: Record, from: string, now: int)
    requires Valid(n.hub) && Canonical(t) && t.typ == ID_TOPIC && TopicKey(t.Field(0)) != "" && Accepts(our, n, t, now)
    ensures SenderTopic(Ingest(our, ttl, n, t, from, now), t) == TopicKey(t.Field(0))
  {
    TopicIsApplied(n.hub, t, from, now);
    ApplyKeeps(n.hub, t, from, now);
    NoStorm.DisplayNameFolds(ApplyState(n.hub, t, from, now), SenderKey(t));
  }

  /** What a node has once it has taken both, and how it now takes the data record. */
  ghost predicate TakesAgain(w: Window, our: string, n: NodeState, d: Record, t: Record, from: string, now: int)
    requires Valid(n.hub)
  {
    var n1 := Ingest(our, w.ttl, n, d, from, now);
    && Valid(n1.hub) && Accepts(our, n, d, now) && Accepts(our, n1, t, now)
    && var n2 := Ingest(our, w.ttl, n1, t, from, now);
    && Valid(n2.hub)
    && forall again :: During(w, again) ==>
         (Accepts(our, n2, d, again) <==> TopicKey(t.Field(0)) != SenderTopic(n, d))
  }

  /** Neither record nor the re-keyed one is known when the window opens. */
  predicate BothNew(w: Window, n: NodeState, d: Record, t: Record) {
    && !Live(n.seen, RecordKey(n.hub, d), w.start) && !Live(n.seen, RecordKey(n.hub, t), w.start)
    && !Live(n.seen, RekeyedBy(d, t), w.start)
  }

  /** A data record, then a topic change of its sender, then the data record again, at one node: the
      first two are accepted, and so is the third exactly when the change was a change. */
  lemma TopicMoveReopens(w: Window, our: string, n: NodeState, d: Record, t: Record, from: string, now: int)
    requires During(w, now) && Valid(n.hub) && Canonical(d) && Canonical(t) && NormCall(our) == our && d.node != our
    requires SamePair(d, t) && BothNew(w, n, d, t)
    ensures TakesAgain(w, our, n, d, t, from, now)
  {
    FirstIsTaken(w, our, n, d, t, from, now);
    var n1 := Ingest(our, w.ttl, n, d, from, now);
    SecondIsTaken(w, our, n1, t, from, now, RekeyedBy(d, t));
    var n2 := Ingest(our, w.ttl, n1, t, from, now);
    forall again | During(w, again)
      ensures Accepts(our, n2, d, again) <==> TopicKey(t.Field(0)) != SenderTopic(n, d)
    {
      ThirdIsTaken(w, our, n, n1, n2, d, t, from, now, again);
    }
  }

  /** Accepting the data record leaves an unknown key unknown, unless it is the record's own. */
  lemma StillUnknown(w: Window, our: string, n: NodeState, d: Record, from: string, now: int, id: Key)
    requires During(w, now) && Tabled(n.hub) && Canonical(d) && NormCall(our) == our && d.node != our && d.typ == ID_DATA
    requires RecordKey(n.hub, d) !in Marked(w, n.seen) && RecordKey(n.hub, d) !in Lingering(w, n.seen)
    requires id !in Marked(w, n.seen) && id !in Lingering(w, n.seen) && id != RecordKey(n.hub, d)
    requires id.Synth? ==> |id.text| >= |d.Tail(0)|
    ensures
      var n1 := Ingest(our, w.ttl, n, d, from, now);
      id !in Marked(w, n1.seen) && id !in Lingering(w, n1.seen)
  {
    UnknownIsAccepted(w, our, n, d, from, now);
    if id in SentIds(n.hub, d, from, now) { SentIsKeyOrClipped(n.hub, d, from, now, id); }
  }

  lemma FirstIsTaken(w: Window, our: string, n: NodeState, d: Record, t: Record, from: string, now: int)
    requires During(w, now) && Valid(n.hub) && Canonical(d) && Canonical(t) && NormCall(our) == our && d.node != our
    requires SamePair(d, t) && BothNew(w, n, d, t)
    ensures
      var n1 := Ingest(our, w.ttl, n, d, from, now);
      && Accepts(our, n, d, now) && Valid(n1.hub)
      && RecordKey(n1.hub, t) !in Marked(w, n1.seen) && RecordKey(n1.hub, t) !in Lingering(w, n1.seen)
      && RekeyedBy(d, t) !in Lingering(w, n1.seen)
      && (RekeyedBy(d, t) != RecordKey(n.hub, d) ==> RekeyedBy(d, t) !in Marked(w, n1.seen))
  {
    var n1 := Ingest(our, w.ttl, n, d, from, now);
    NotLiveIsUnknown(w, n.seen, RecordKey(n.hub, d));
    NotLiveIsUnknown(w, n.seen, RecordKey(n.hub, t));
    NotLiveIsUnknown(w, n.seen, RekeyedBy(d, t));
    UnknownIsAccepted(w, our, n, d, from, now);
    IngestKeeps(our, w.ttl, n, d, from, now);
    KeyParts(n.hub, d);
    assert RecordKey(n1.hub, t) == RecordKey(n.hub, t) == Raw(t.typ, t.raw);
    StillUnknown(w, our, n, d, from, now, Raw(t.typ, t.raw));
    if RekeyedBy(d, t) != RecordKey(n.hub, d) { StillUnknown(w, our, n, d, from, now, RekeyedBy(d, t)); }
  }

  lemma SecondIsTaken(w: Window, our: string, n1: NodeState, t: Record, from: string, now: int, other: Key)
    requires During(w, now) && Valid(n1.hub) && Canonical(t) && NormCall(our) == our && t.node != our
    requires t.typ == ID_TOPIC && TopicKey(t.Field(0)) != "" && other.Synth?
    requires RecordKey(n1.hub, t) !in Marked(w, n1.seen) && RecordKey(n1.hub, t) !in Lingering(w, n1.seen)
    ensures
      var n2 := Ingest(our, w.ttl, n1, t, from, now);
      && Accepts(our, n1, t, now) && Valid(n2.hub) && SenderTopic(n2, t) == TopicKey(t.Field(0))
      && Marked(w, n1.seen) <= Marked(w, n2.seen) && Lingering(w, n2.seen) <= Lingering(w, n1.seen)
      && (other !in Marked(w, n1.seen) ==> other !in Marked(w, n2.seen))
  {
    UnknownIsAccepted(w, our, n1, t, from, now);
    IngestKeeps(our, w.ttl, n1, t, from, now);
    TopicsSendNothing(n1.hub, t, from, now);
    TopicIsTaken(our, w.ttl, n1, t, from, now);
  }

  lemma ThirdIsTaken(w: Window, our: string, n: NodeState, n1: NodeState, n2: NodeState, d: Record, t: Record,
                     from: string, now: int, again: int)
    requires During(w, now) && During(w, again) && Tabled(n.hub) && Canonical(d) && NormCall(our) == our
    requires SamePair(d, t) && Accepts(our, n, d, now) && n1 == Ingest(our, w.ttl, n, d, from, now)
    requires Marked(w, n1.seen) <= Marked(w, n2.seen) && SenderTopic(n2, t) == TopicKey(t.Field(0))
    requires RekeyedBy(d, t) !in Lingering(w, n2.seen)
    requires RekeyedBy(d, t) != RecordKey(n.hub, d) ==> RekeyedBy(d, t) !in Marked(w, n2.seen)
    ensures Accepts(our, n2, d, again) <==> TopicKey(t.Field(0)) != SenderTopic(n, d)
  {
    KeyParts(n2.hub, d);
    KeyParts(n.hub, d);
    if RekeyedBy(d, t) != RecordKey(n.hub, d) { UnknownIsNotLive(w, n2.seen, RekeyedBy(d, t), again); }
    SecondCopy(w, our, n, d, from, now, n2, again);
  }
}
