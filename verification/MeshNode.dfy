/** What the flood needs to know of one relay node: which keys an inbound record makes it record. */
module MeshNode {
  import opened Options
  import opened Text
  import opened Chat
  import opened Proto
  import opened SeenSets
  import opened HubSpec
  import opened RouterSpec
  import opened RelayLaws

  /** A stretch of time shorter than the seen-set's time to live: nothing recorded in it expires
      in it. */
  datatype Window = Window(start: int, ttl: int)

  predicate During(w: Window, now: int) { w.start <= now < w.start + w.ttl }

  /** The keys recorded since the window opened. */
  function Marked(w: Window, seen: map<Key, int>): set<Key> {
    set id | id in seen && seen[id] >= w.start + w.ttl
  }

  /** The keys recorded before the window opened that were still live then. */
  function Lingering(w: Window, seen: map<Key, int>): set<Key> {
    set id | id in seen && w.start < seen[id] < w.start + w.ttl
  }

  lemma RecordMarks(w: Window, seen: map<Key, int>, id: Key, now: int)
    requires During(w, now)
    ensures Marked(w, SeenSets.Record(seen, w.ttl, id, now)) == Marked(w, seen) + {id}
    ensures Lingering(w, SeenSets.Record(seen, w.ttl, id, now)) <= Lingering(w, seen)
  {
  }

  lemma LiveIsKnown(w: Window, seen: map<Key, int>, id: Key, now: int)
    requires During(w, now)
    ensures id in Marked(w, seen) ==> Live(seen, id, now)
    ensures Live(seen, id, now) ==> id in Marked(w, seen) || id in Lingering(w, seen)
  {
  }

  /** The ids of the message a record puts out, if any. */
  function SentIds(h: State, rec: Record, from: string, now: int): set<Key>
    requires Tabled(h)
  {
    var m := Sent(h, rec, from, now);
    if m.Some? then {m.value.id} else {}
  }

  /** The seen-set after a record is accepted, from the message it puts out. */
  lemma PublishMarks(w: Window, n: NodeState, c: Change, now: int)
    requires During(w, now)
    ensures Marked(w, Publish(n, w.ttl, c, now).seen)
         == Marked(w, n.seen) + if c.sent.Some? then {c.sent.value.id} else {}
    ensures Lingering(w, Publish(n, w.ttl, c, now).seen) <= Lingering(w, n.seen)
  {
    if c.sent.Some? { RecordMarks(w, n.seen, c.sent.value.id, now); }
  }

  lemma ApplyMarks(w: Window, n: NodeState, rec: Record, from: string, now: int)
    requires During(w, now) && Tabled(n.hub)
    ensures Marked(w, Apply(n, w.ttl, rec, from, now).seen) == Marked(w, n.seen) + SentIds(n.hub, rec, from, now)
    ensures Lingering(w, Apply(n, w.ttl, rec, from, now).seen) <= Lingering(w, n.seen)
  {
    PublishMarks(w, n, Change(ApplyState(n.hub, rec, from, now), [], Sent(n.hub, rec, from, now)), now);
  }

  /** An inbound record, seen from the seen-set: our own records leave no trace; any other has its
      key recorded, is refused only if the key was known, and if accepted also has the id of the
      message it puts out recorded. */
  lemma IngestMarks(w: Window, our: string, n: NodeState, rec: Record, from: string, now: int)
    requires During(w, now) && Tabled(n.hub) && Canonical(rec) && NormCall(our) == our
    ensures
      var key, n' := RecordKey(n.hub, rec), Ingest(our, w.ttl, n, rec, from, now);
      && Lingering(w, n'.seen) <= Lingering(w, n.seen)
      && if rec.node == our then n' == n && !Accepts(our, n, rec, now)
         else if Accepts(our, n, rec, now) then
           && key !in Marked(w, n.seen)
           && Marked(w, n'.seen) == Marked(w, n.seen) + {key} + SentIds(n.hub, rec, from, now)
         else
           && key in Marked(w, n.seen) + Lingering(w, n.seen)
           && Marked(w, n'.seen) == Marked(w, n.seen) + {key} && n'.hub == n.hub
  {
    DifferentNodes(our, rec);
    var key := RecordKey(n.hub, rec);
    RecordMarks(w, n.seen, key, now);
    LiveIsKnown(w, n.seen, key, now);
    if rec.node != our && !Live(n.seen, key, now) {
      ApplyMarks(w, n.(seen := SeenSets.Record(n.seen, w.ttl, key, now)), rec, from, now);
    }
  }

  // ---- telling records apart ----

  /** A record as it travels: what decoding its line gives. */
  predicate OnWire(rec: Record) { Decode(rec.raw) == Some(rec) }

  lemma OnWireIsCanonical(rec: Record)
    requires OnWire(rec)
    ensures Canonical(rec)
  {
    DecodedIsCanonical(rec.raw);
  }

  lemma SameLineSameRecord(r: Record, rec: Record)
    requires OnWire(r) && OnWire(rec) && r.raw == rec.raw
    ensures r == rec
  {
  }

  /** No node can take `rec` for `r`: they differ, and two messages of the same kind from the same
      sender also differ in text, before and after clipping, or in target. */
  predicate Unlike(r: Record, rec: Record) {
    && r != rec
    && (r.typ == rec.typ == ID_DATA && r.node == rec.node && r.user == rec.user ==>
          r.Tail(0) != rec.Tail(0) && r.Tail(0) != Clip(rec.Tail(0)))
    && (r.typ == rec.typ == ID_SEND && r.node == rec.node && r.user == rec.user
        && Lower(r.Field(0)) == Lower(rec.Field(0)) ==>
          r.Tail(1) != rec.Tail(1) && r.Tail(1) != Clip(rec.Tail(1)))
  }

  /** The key of a record: its sender, kind and text do not depend on the node. */
  lemma KeyParts(h: State, rec: Record)
    requires Canonical(rec)
    ensures
      var k := RecordKey(h, rec);
      && (rec.typ == ID_DATA ==> k == Synth(rec.node, rec.user, TopicKind, Lower(TopicOf(h, SenderKey(rec))), rec.Tail(0)))
      && (rec.typ == ID_SEND ==> k == Synth(rec.node, rec.user, PrivateKind, Lower(rec.Field(0)), rec.Tail(1)))
      && (rec.typ != ID_DATA && rec.typ != ID_SEND ==> k == Raw(rec.typ, rec.raw))
  {
    TailIsClean(rec, 0);
    TailIsClean(rec, 1);
    TrimClean(rec.Tail(0));
    TrimClean(rec.Tail(1));
  }

  lemma PostIdParts(h: State, key: UserKey, text: string, now: int)
    requires CanonKey(key) == key
    ensures
      var m := Publishing(Post(h, key, text, now)).sent;
      m.Some? ==>
        m.value.id.Synth? && m.value.id.node == key.node && m.value.id.call == key.call
        && m.value.id.kind == TopicKind && m.value.id.text == Clip(text)
  {
    ClipKeepsText(text);
    TrimClean(Clip(text));
  }

  lemma PrivateIdParts(h: State, key: UserKey, to: string, text: string, now: int)
    requires CanonKey(key) == key && (to == "" || Word(to))
    ensures
      var m := Publishing(Private(h, key, to, text, now)).sent;
      m.Some? ==>
        m.value.id.Synth? && m.value.id.node == key.node && m.value.id.call == key.call
        && m.value.id.kind == PrivateKind && m.value.id.scope == Lower(to) && m.value.id.text == Clip(text)
  {
    ClipKeepsText(text);
    TrimClean(Clip(text));
    if to != "" { TargetFolds(to); } else { TrimClean(""); }
  }

  /** What a record puts out carries its sender, kind, target and clipped text. */
  lemma SentParts(h: State, rec: Record, from: string, now: int, id: Key)
    requires Tabled(h) && Canonical(rec) && id in SentIds(h, rec, from, now)
    ensures id.Synth? && id.node == rec.node && id.call == rec.user
    ensures rec.typ == ID_DATA || rec.typ == ID_SEND
    ensures rec.typ == ID_DATA ==> id.kind == TopicKind && id.text == Clip(rec.Tail(0))
    ensures rec.typ == ID_SEND ==> id.kind == PrivateKind && id.scope == Lower(rec.Field(0)) && id.text == Clip(rec.Tail(1))
  {
    OnlyMessagesSend(h, rec, from, now);
    SentIsActed(h, rec, from, now);
    var h1 := EnsureUser(h, rec, from, now).state;
    if rec.typ == ID_DATA {
      ActedByData(h1, rec, now);
      PostIdParts(h1, SenderKey(rec), rec.Tail(0), now);
    } else {
      ActedBySend(h1, rec, now);
      PrivateIdParts(h1, SenderKey(rec), rec.Field(0), rec.Tail(1), now);
    }
  }

  lemma OnlyMessagesSend(h: State, rec: Record, from: string, now: int)
    requires Tabled(h) && Sent(h, rec, from, now).Some?
    ensures rec.typ == ID_DATA || rec.typ == ID_SEND
  {
  }

  /** Unlike records never share a key, at whatever nodes and however applied. */
  lemma UnlikeKeys(r: Record, h0: State, rec: Record, h: State, from: string, now: int)
    requires OnWire(r) && OnWire(rec) && Unlike(r, rec) && Tabled(h)
    ensures RecordKey(h, rec) != RecordKey(h0, r)
    ensures RecordKey(h0, r) !in SentIds(h, rec, from, now)
  {
    OnWireIsCanonical(r);
    OnWireIsCanonical(rec);
    KeyParts(h0, r);
    KeyParts(h, rec);
    if r.raw == rec.raw { SameLineSameRecord(r, rec); }
    if RecordKey(h0, r) in SentIds(h, rec, from, now) {
      SentParts(h, rec, from, now, RecordKey(h0, r));
    }
  }

  /** Why a data record needs its sender's topic to hold still: a node that has accepted one, whatever
      it has recorded since, accepts a second copy exactly when it has the sender in another topic by
      then, one in which it has not seen this text. */
  lemma SecondCopy(w: Window, our: string, n: NodeState, rec: Record, from: string, now: int, later: NodeState, again: int)
    requires During(w, now) && During(w, again) && Tabled(n.hub) && Canonical(rec) && NormCall(our) == our
    requires rec.typ == ID_DATA && Accepts(our, n, rec, now)
    requires Marked(w, Ingest(our, w.ttl, n, rec, from, now).seen) <= Marked(w, later.seen)
    requires !Live(later.seen, RecordKey(later.hub, rec), again) || RecordKey(later.hub, rec) == RecordKey(n.hub, rec)
    ensures Accepts(our, later, rec, again)
       <==> Lower(TopicOf(later.hub, SenderKey(rec))) != Lower(TopicOf(n.hub, SenderKey(rec)))
  {
    DifferentNodes(our, rec);
    IngestMarks(w, our, n, rec, from, now);
    LiveIsKnown(w, later.seen, RecordKey(n.hub, rec), again);
    KeyParts(n.hub, rec);
    KeyParts(later.hub, rec);
  }
}
