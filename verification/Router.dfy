/** The relay at one node: inbound records are checked, applied to the hub and passed on. */
module Routers {
  import opened Options
  import opened Text
  import opened Chat
  import opened Proto
  import opened SeenSets
  import opened FanOuts
  import opened Hubs
  import HubSpec
  import RouterSpec
  import Flood

  /** Each link has been written `lines` more, but for one that has been written nothing. */
  ghost predicate Written(links: map<string, seq<string>>, links': map<string, seq<string>>, lines: seq<string>, except: string) {
    && links'.Keys == links.Keys
    && forall id :: id in links ==> links'[id] == links[id] + if id == except then [] else lines
  }

  lemma NothingWritten(links: map<string, seq<string>>, except: string)
    ensures Written(links, links, [], except)
  {
    assert forall id :: id in links ==> links[id] + [] == links[id];
  }

  lemma WrittenTwice(a: map<string, seq<string>>, b: map<string, seq<string>>, c: map<string, seq<string>>,
                     first: seq<string>, second: seq<string>, except: string)
    requires Written(a, b, first, except) && Written(b, c, second, except)
    ensures Written(a, c, first + second, except)
  {
    forall id | id in a
      ensures c[id] == a[id] + if id == except then [] else first + second
    {
      assert a[id] + first + second == a[id] + (first + second);
    }
  }

  /** The wire records of a list of events, in order; events of other nodes have none. */
  function Announcements(our: string, events: seq<Event>): seq<string> {
    if events == [] then []
    else
      var before, raw := Announcements(our, events[..|events| - 1]), RouterSpec.EncodeLocal(our, events[|events| - 1]);
      if raw.Some? then before + [raw.value] else before
  }

  /** One event's wire record, and then the rest: nothing is left out, added or moved. */
  lemma {:induction false} AnnouncementsInOrder(our: string, a: seq<Event>, b: seq<Event>)
    ensures Announcements(our, a + b) == Announcements(our, a) + Announcements(our, b)
    ensures |a| == 1 ==> Announcements(our, a) == match RouterSpec.EncodeLocal(our, a[0]) case Some(raw) => [raw] case None => []
    decreases |b|
  {
    if |a| == 1 { assert a[..0] == []; }
    if b == [] {
      assert a + b == a;
    } else {
      var init, e := b[..|b| - 1], b[|b| - 1];
      AnnouncementsInOrder(our, a, init);
      assert (a + b)[..|a + b| - 1] == a + init;
    }
  }

  // ---- the links and the mesh ----

  function Lines(recs: seq<Record>): seq<string> { seq(|recs|, i requires 0 <= i < |recs| => recs[i].raw) }

  /** The lines written to each link are the records on the node's way to that neighbour, and there
      are no other neighbours. */
  ghost predicate InStep(our: string, links: map<string, seq<string>>, wires: map<Flood.Edge, seq<Record>>) {
    && (forall id :: id in links <==> Flood.Edge(our, id) in wires)
    && forall id :: id in links ==> links[id] == Lines(wires[Flood.Edge(our, id)])
  }

  lemma LinesOneMore(recs: seq<Record>, rec: Record)
    ensures Lines(recs + [rec]) == Lines(recs) + [rec.raw]
  {
  }

  /** Writing a record to every link but one is what the flood calls pushing it. */
  lemma WritingIsPushing(our: string, links: map<string, seq<string>>, links': map<string, seq<string>>,
                         wires: map<Flood.Edge, seq<Record>>, rec: Record, from: string)
    requires InStep(our, links, wires) && Written(links, links', [rec.raw], from)
    ensures InStep(our, links', Flood.Pushed(wires, our, Some(from), rec))
    ensures from !in links ==> InStep(our, links', Flood.Pushed(wires, our, None, rec))
  {
    forall id | id in links
      ensures Lines(wires[Flood.Edge(our, id)] + [rec]) == links[id] + [rec.raw] && links[id] + [] == links[id]
    {
      LinesOneMore(wires[Flood.Edge(our, id)], rec);
    }
  }

  class Router {
    const hub: Hub
    const ourNode: string

    /** The registered links, each with the lines written to it. */
    var links: map<string, seq<string>>

    ghost function View(): RouterSpec.NodeState
      reads hub, hub.seen, hub.store
    {
      RouterSpec.NodeState(hub.State(), hub.seen.entries, hub.store.msgs)
    }

    constructor (hub: Hub)
      ensures this.hub == hub && ourNode == hub.ourNode && links == map[]
    {
      this.hub := hub;
      ourNode := hub.ourNode;
      links := map[];
    }

    method Add(id: string)
      modifies this
      ensures links == old(links)[id := []]
    {
      links := links[id := []];
    }

    method Remove(id: string)
      modifies this
      ensures links == old(links) - {id}
    {
      links := links - {id};
    }

    /** Sends `raw`, once, to every registered link except `except`. */
    method Forward(raw: string, except: string)
      modifies this
      ensures Written(old(links), links, [raw], except)
    {
      var targets: set<string> := {};
      var todo := links.Keys;
      while todo != {}
        invariant todo <= links.Keys && targets == (links.Keys - todo) - {except}
        decreases |todo|
      {
        var id :| id in todo;
        if id != except { targets := targets + {id}; }
        todo := todo - {id};
      }
      SendEach(targets, raw);
    }

    /** The sends themselves, outside the lock. */
    method SendEach(targets: set<string>, raw: string)
      requires targets <= links.Keys
      modifies this
      ensures links.Keys == old(links).Keys
      ensures forall id :: id in links ==> links[id] == old(links)[id] + if id in targets then [raw] else []
    {
      var todo := targets;
      assert forall id :: id in links ==> links[id] == links[id] + [];
      while todo != {}
        invariant todo <= targets && links.Keys == old(links).Keys
        invariant forall id :: id in links ==> links[id] == old(links)[id] + if id in targets && id !in todo then [raw] else []
        decreases |todo|
      {
        var id :| id in todo;
        assert links[id] == old(links)[id];
        links := links[id := links[id] + [raw]];
        todo := todo - {id};
      }
    }

    /** One local event on its way to the peers; events of other nodes go no further. */
    method FanOutLocal(ev: Event) returns (sent: bool)
      modifies this
      ensures sent == RouterSpec.EncodeLocal(ourNode, ev).Some?
      ensures sent ==> Written(old(links), links, [RouterSpec.EncodeLocal(ourNode, ev).value], "")
      ensures !sent ==> links == old(links)
      ensures sent && "" !in links ==>
        forall wires, rec: Record ::
          InStep(ourNode, old(links), wires) && rec.raw == RouterSpec.EncodeLocal(ourNode, ev).value
          ==> InStep(ourNode, links, Flood.Pushed(wires, ourNode, None, rec))
    {
      var raw := RouterSpec.EncodeLocal(ourNode, ev);
      if raw.None? { return false; }
      Forward(raw.value, "");
      forall wires, rec: Record | InStep(ourNode, old(links), wires) && rec.raw == raw.value
        ensures "" !in links ==> InStep(ourNode, links, Flood.Pushed(wires, ourNode, None, rec))
      {
        WritingIsPushing(ourNode, old(links), links, wires, rec, "");
      }
      return true;
    }

    /** The loop over the hub's event subscription: every local event goes out, in order. */
    method FanOutAll(events: seq<Event>)
      modifies this
      ensures Written(old(links), links, Announcements(ourNode, events), "")
    {
      assert events[..0] == [];
      NothingWritten(links, "");
      for i := 0 to |events|
        invariant Written(old(links), links, Announcements(ourNode, events[..i]), "")
      {
        assert events[..i + 1][..i] == events[..i];
        ghost var before := links;
        var sent := FanOutLocal(events[i]);
        if sent {
          WrittenTwice(old(links), before, links, Announcements(ourNode, events[..i]),
                       [RouterSpec.EncodeLocal(ourNode, events[i]).value], "");
        }
      }
      assert events[..|events|] == events;
    }

    method TopicOf(key: UserKey) returns (topic: string)
      ensures topic == RouterSpec.TopicOf(hub.State(), key)
    {
      var found, u := hub.UserOf(key);
      if found { return u.topic; }
      return DEFAULT_TOPIC;
    }

    method RecordID(rec: Record) returns (id: Key)
      ensures id == RouterSpec.RecordKey(hub.State(), rec)
    {
      if rec.typ == ID_DATA {
        var topic := TopicOf(UserKey(rec.user, rec.node));
        return SynthID(rec.node, rec.user, TopicKind, topic, rec.Tail(0));
      } else if rec.typ == ID_SEND {
        return SynthID(rec.node, rec.user, PrivateKind, rec.Field(0), rec.Tail(1));
      }
      return Raw(rec.typ, rec.raw);
    }

    method EnsureUser(rec: Record, from: string, now: int) returns (events: seq<Event>)
      requires hub.Valid()
      modifies hub, hub.bus
      ensures hub.Valid()
      ensures
        var e := RouterSpec.EnsureUser(old(hub.State()), rec, from, now);
        hub.State() == e.state && events == e.events
      ensures hub.bus.State() == EmittedAll(old(hub.bus.State()), events)
    {
      var found, _ := hub.UserOf(UserKey(rec.user, rec.node));
      if found { return []; }
      var name, qth := "", "";
      if rec.typ == ID_JOIN || rec.typ == ID_USER {
        name, qth := UnDash(rec.Field(0)), UnDash(rec.Field(1));
      }
      var u := User(rec.user, name, qth, Origin(rec.node, false, from), "", 0, 0,
                    Flags(false, false, false, false, false));
      var _, evs := hub.Join(u, now);
      return evs;
    }

    /** What a record does once its sender is present. */
    method Act(rec: Record, now: int) returns (events: seq<Event>)
      requires hub.Valid() && RouterSpec.UserRecord(rec) && rec.typ != ID_LEAVE
      modifies hub, hub.seen, hub.store, hub.bus
      ensures hub.Valid()
      ensures
        var c := RouterSpec.Act(old(hub.State()), rec, now);
        && hub.State() == c.state && events == c.events
        && View() == RouterSpec.Publish(old(View()), hub.seen.ttl, c, now)
      ensures hub.bus.State() == EmittedAll(old(hub.bus.State()), events)
    {
      var key := UserKey(rec.user, rec.node);
      if rec.typ == ID_JOIN || rec.typ == ID_USER {
        var name, qth := UnDash(rec.Field(0)), UnDash(rec.Field(1));
        if rec.typ == ID_JOIN && name == "" && qth == "" { return []; }
        var _, evs := hub.SetInfo(key, name, qth);
        return evs;
      } else if rec.typ == ID_TOPIC {
        var _, evs := hub.SetTopic(key, rec.Field(0));
        return evs;
      } else if rec.typ == ID_DATA {
        var _, evs := hub.Post(key, rec.Tail(0), now);
        return evs;
      } else {
        var _, evs := hub.Private(key, rec.Field(0), rec.Tail(1), now);
        return evs;
      }
    }

    method ApplyUser(rec: Record, from: string, now: int) returns (events: seq<Event>)
      requires hub.Valid() && RouterSpec.UserRecord(rec)
      modifies hub, hub.seen, hub.store, hub.bus
      ensures hub.Valid()
      ensures
        var c := RouterSpec.ApplyUser(old(hub.State()), rec, from, now);
        events == c.events && View() == RouterSpec.Publish(old(View()), hub.seen.ttl, c, now)
      ensures hub.bus.State() == EmittedAll(old(hub.bus.State()), events)
    {
      if rec.typ == ID_LEAVE {
        events := hub.Leave(UserKey(rec.user, rec.node));
        return;
      }
      var first := EnsureUser(rec, from, now);
      var second := Act(rec, now);
      EmittedTwice(old(hub.bus.State()), first, second);
      return first + second;
    }

    method Apply(rec: Record, from: string, now: int) returns (events: seq<Event>)
      requires hub.Valid()
      modifies hub, hub.seen, hub.store, hub.bus
      ensures hub.Valid()
      ensures View() == RouterSpec.Apply(old(View()), hub.seen.ttl, rec, from, now)
      ensures RouterSpec.ApplyEvents(old(hub.State()), rec, from, now, events)
      ensures hub.bus.State() == EmittedAll(old(hub.bus.State()), events)
    {
      events := [];
      if RouterSpec.UserRecord(rec) {
        events := ApplyUser(rec, from, now);
      } else if rec.typ == ID_LINK {
        var _, evs := hub.LinkNode(rec.Field(0), UnDash(rec.Field(1)), rec.Field(2), now);
        events := evs;
      } else if rec.typ == ID_UNLINK {
        var _, evs := hub.UnlinkNode(rec.Field(0));
        events := evs;
      }
    }

    /** One inbound record: dropped if it is our own or already seen, otherwise applied and sent
        on verbatim, once, to every link but the one it came in on. */
    method Ingest(rec: Record, from: string, now: int) returns (accepted: bool, events: seq<Event>)
      requires hub.Valid()
      modifies this, hub, hub.seen, hub.store, hub.bus
      ensures hub.Valid()
      ensures accepted == RouterSpec.Accepts(ourNode, old(View()), rec, now)
      ensures View() == RouterSpec.Ingest(ourNode, hub.seen.ttl, old(View()), rec, from, now)
      ensures accepted ==> Written(old(links), links, [rec.raw], from)
      ensures !accepted ==> links == old(links)
      ensures accepted ==>
        forall wires ::
          InStep(ourNode, old(links), wires) ==> InStep(ourNode, links, Flood.Pushed(wires, ourNode, Some(from), rec))
      ensures if accepted then RouterSpec.ApplyEvents(old(hub.State()), rec, from, now, events) else events == []
      ensures hub.bus.State() == EmittedAll(old(hub.bus.State()), events)
    {
      if rec.node == "" || EqualFold(rec.node, ourNode) { return false, []; }
      var id := RecordID(rec);
      var dup := hub.seen.Seen(id, now);
      if dup { return false, []; }
      events := Apply(rec, from, now);
      Forward(rec.raw, from);
      forall wires | InStep(ourNode, old(links), wires)
        ensures InStep(ourNode, links, Flood.Pushed(wires, ourNode, Some(from), rec))
      {
        WritingIsPushing(ourNode, old(links), links, wires, rec, from);
      }
      accepted := true;
    }
  }
}
