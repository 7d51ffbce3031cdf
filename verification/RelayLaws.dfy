/** The relay's guarantees at one node. */
module RelayLaws {
  import opened Options
  import opened Text
  import opened Chat
  import opened Proto
  import opened HubSpec
  import opened RouterSpec

  // ---- relay and local fan-out never double-send ----

  /** The home node of the user or message an event is about. */
  function NodeOf(ev: Event): Option<string> {
    match ev
    case TopicMessage(m) => Some(m.originNode)
    case PrivateMessage(m) => Some(m.originNode)
    case UserJoined(u) => Some(u.origin.node)
    case UserLeft(u) => Some(u.origin.node)
    case TopicChanged(u, _) => Some(u.origin.node)
    case UserInfoChanged(u) => Some(u.origin.node)
    case NodeLinked(_) => None
    case NodeUnlinked(_) => None
  }

  predicate AllFrom(node: string, events: seq<Event>) {
    forall i :: 0 <= i < |events| ==> NodeOf(events[i]) == Some(node)
  }

  /** Every user's record names the home node it is filed under. */
  predicate Homed(users: map<UserKey, User>) {
    forall k :: k in users ==> users[k].origin.node == k.node
  }

  lemma ValidIsHomed(h: State)
    requires Valid(h)
    ensures Homed(h.users)
  {
    forall k | k in h.users
      ensures h.users[k].origin.node == k.node
    {
      assert UserValid(h.users[k], k, h.topics);
    }
  }

  lemma InfoEventsAreSenders(h: State, key: UserKey, name: string, qth: string)
    requires Homed(h.users)
    ensures AllFrom(NormCall(key.node), SetInfo(h, key, name, qth).events)
  {
  }

  lemma TopicEventsAreSenders(h: State, key: UserKey, name: string)
    requires Homed(h.users) && Tabled(h)
    ensures AllFrom(NormCall(key.node), SetTopic(h, key, name).events)
  {
  }

  lemma MessageEventsAreSenders(h: State, key: UserKey, to: string, text: string, now: int)
    ensures AllFrom(NormCall(key.node), Post(h, key, text, now).events)
    ensures AllFrom(NormCall(key.node), Private(h, key, to, text, now).events)
  {
  }

  lemma ActEventsAreSenders(h: State, rec: Record, now: int)
    requires Homed(h.users) && Tabled(h)
    ensures AllFrom(NormCall(rec.node), Act(h, rec, now).events)
  {
    var key := SenderKey(rec);
    InfoEventsAreSenders(h, key, UnDash(rec.Field(0)), UnDash(rec.Field(1)));
    TopicEventsAreSenders(h, key, rec.Field(0));
    MessageEventsAreSenders(h, key, rec.Field(0), if rec.typ == ID_DATA then rec.Tail(0) else rec.Tail(1), now);
  }

  lemma EnsureUserEventsAreSenders(h: State, rec: Record, from: string, now: int)
    requires Tabled(h)
    ensures AllFrom(NormCall(rec.node), EnsureUser(h, rec, from, now).events)
  {
  }

  lemma LeaveEventsAreSenders(h: State, key: UserKey)
    requires Homed(h.users)
    ensures AllFrom(NormCall(key.node), Leave(h, key).1)
  {
  }

  lemma AllFromBoth(node: string, a: seq<Event>, b: seq<Event>)
    requires AllFrom(node, a) && AllFrom(node, b)
    ensures AllFrom(node, a + b)
  {
  }

  lemma ApplyEventsAreSenders(h: State, rec: Record, from: string, now: int)
    requires Valid(h)
    ensures AllFrom(NormCall(rec.node), ApplyUser(h, rec, from, now).events)
  {
    ValidIsHomed(h);
    if rec.typ == ID_LEAVE {
      LeaveEventsAreSenders(h, SenderKey(rec));
    } else {
      EnsureUserKeeps(h, rec, from, now);
      var e := EnsureUser(h, rec, from, now);
      ValidIsHomed(e.state);
      EnsureUserEventsAreSenders(h, rec, from, now);
      ActEventsAreSenders(e.state, rec, now);
      AllFromBoth(NormCall(rec.node), e.events, Act(e.state, rec, now).events);
    }
  }

  lemma OthersAreNotEncoded(our: string, node: string, events: seq<Event>)
    requires AllFrom(node, events) && node != our
    ensures forall i :: 0 <= i < |events| ==> EncodeLocal(our, events[i]) == None
  {
  }

  lemma DifferentNodes(our: string, rec: Record)
    requires Canonical(rec) && NormCall(our) == our
    ensures OwnOrNobody(our, rec) <==> rec.node == our
  {
    FoldLaws(Trim(rec.node));
    FoldLaws(Trim(our));
  }

  /** Every hub event that applying another node's user record causes is one the local fan-out
      leaves alone, so the verbatim relay is the only copy sent. */
  lemma RelayNeverDoubleSends(our: string, h: State, rec: Record, from: string, now: int, events: seq<Event>)
    requires Valid(h) && NormCall(our) == our
    requires Canonical(rec) && UserRecord(rec) && !OwnOrNobody(our, rec)
    requires ApplyEvents(h, rec, from, now, events)
    ensures forall i :: 0 <= i < |events| ==> EncodeLocal(our, events[i]) == None
  {
    DifferentNodes(our, rec);
    ApplyEventsAreSenders(h, rec, from, now);
    OthersAreNotEncoded(our, NormCall(rec.node), events);
  }

  // ---- the key that is checked is the id that is stored ----

  /** After `EnsureUser` the sender of a decoded record is present, under the default topic if
      it was new and under its old topic otherwise. */
  lemma SenderPresent(h: State, rec: Record, from: string, now: int)
    requires Tabled(h) && Canonical(rec)
    ensures
      var k, h1 := SenderKey(rec), EnsureUser(h, rec, from, now).state;
      && CanonKey(k) == k && k in h1.users
      && Lower(h1.users[k].topic) == Lower(TopicOf(h, k))
  {
    if SenderKey(rec) !in h.users {
      EnsureTopicTabled(h, DEFAULT_TOPIC);
      TrimClean(DEFAULT_TOPIC);
    }
  }

  lemma TailIsClean(rec: Record, i: nat)
    requires Canonical(rec)
    ensures Clean(rec.Tail(i)) && (rec.Tail(i) != "" <==> i < |rec.args|)
  {
    if i < |rec.args| { JoinShape(rec.args[i..]); }
  }

  lemma ClipsNonEmpty(s: string)
    requires Clean(s) && s != ""
    ensures Clip(s) != ""
  {
    var cut := CutLineEnd(s);
    assert cut == s;
    var kept := if |cut| > MAX_TEXT then cut[..MAX_TEXT] else cut;
    BlankTrims(kept);
    assert kept[0] == s[0];
  }

  /** A post of clean text by a present user: put out exactly when there is text, under an id that
      agrees with the unclipped content exactly when the text fits the cap. */
  lemma PostId(h: State, k: UserKey, text: string, now: int, scope: string)
    requires k in h.users && CanonKey(k) == k && Clean(text) && Lower(h.users[k].topic) == Lower(scope)
    ensures
      var r := Post(h, k, text, now).reply;
      && (r.Ok? <==> text != "")
      && (r.Ok? ==> (r.value.id == SynthID(k.node, k.call, TopicKind, scope, text) <==> |text| <= MAX_TEXT))
      && (r.Ok? ==> r.value.originNode == k.node && r.value.fromCall == k.call)
  {
    ClipKeepsText(text);
    if text != "" { ClipsNonEmpty(text); } else { TrimClean(""); }
  }

  lemma PrivateId(h: State, k: UserKey, to: string, text: string, now: int)
    requires k in h.users && CanonKey(k) == k && Clean(text) && Word(to)
    ensures
      var r := Private(h, k, to, text, now).reply;
      && (r.Ok? <==> text != "" && CallPresent(h, NormCall(to)))
      && (r.Ok? ==> (r.value.id == SynthID(k.node, k.call, PrivateKind, to, text) <==> |text| <= MAX_TEXT))
      && (r.Ok? ==> r.value.originNode == k.node && r.value.fromCall == k.call)
  {
    ClipKeepsText(text);
    TargetFolds(to);
    if text != "" { ClipsNonEmpty(text); } else { TrimClean(""); }
  }

  lemma TargetFolds(t: string)
    requires Word(t)
    ensures Lower(NormCall(t)) == Lower(t)
  {
    WordIsClean(t);
    FoldLaws(t);
  }

  lemma SentIsActed(h: State, rec: Record, from: string, now: int)
    requires Tabled(h) && UserRecord(rec) && rec.typ != ID_LEAVE
    ensures
      var h1 := EnsureUser(h, rec, from, now).state;
      Tabled(h1) && Sent(h, rec, from, now) == Act(h1, rec, now).sent
  {
    EnsureUserTabled(h, rec, from, now);
  }

  /** Every record but a leave is applied in two stages: its sender is made present, and then it acts. */
  lemma AppliedInStages(h: State, rec: Record, from: string, now: int)
    requires Tabled(h) && UserRecord(rec) && rec.typ != ID_LEAVE
    ensures
      var h1 := EnsureUser(h, rec, from, now).state;
      Tabled(h1) && ApplyState(h, rec, from, now) == Act(h1, rec, now).state
  {
    EnsureUserTabled(h, rec, from, now);
  }

  lemma ActedByData(h: State, rec: Record, now: int)
    requires Tabled(h) && rec.typ == ID_DATA
    ensures Act(h, rec, now).sent == Publishing(Post(h, SenderKey(rec), rec.Tail(0), now)).sent
  {
  }

  lemma ActedBySend(h: State, rec: Record, now: int)
    requires Tabled(h) && rec.typ == ID_SEND
    ensures Act(h, rec, now).sent == Publishing(Private(h, SenderKey(rec), rec.Field(0), rec.Tail(1), now)).sent
  {
  }

  /** A data record is put out exactly when it has text, and then the id the hub stores is the
      key the relay checked exactly when the text fits the hub's cap. */
  lemma DataKeyIsMessageId(h: State, rec: Record, from: string, now: int)
    requires Tabled(h) && Canonical(rec) && rec.typ == ID_DATA
    ensures
      var m := Sent(h, rec, from, now);
      && (m.Some? <==> rec.args != [])
      && (m.Some? ==> (m.value.id == RecordKey(h, rec) <==> |rec.Tail(0)| <= MAX_TEXT))
      && (m.Some? ==> m.value.originNode == rec.node && m.value.fromCall == rec.user)
  {
    SenderPresent(h, rec, from, now);
    TailIsClean(rec, 0);
    var k := SenderKey(rec);
    PostId(EnsureUser(h, rec, from, now).state, k, rec.Tail(0), now, TopicOf(h, k));
    SentIsActed(h, rec, from, now);
    ActedByData(EnsureUser(h, rec, from, now).state, rec, now);
  }

  /** What a private record puts out once its sender is present. */
  lemma SendActs(h: State, rec: Record, now: int)
    requires Tabled(h) && Canonical(rec) && rec.typ == ID_SEND && SenderKey(rec) in h.users
    ensures
      var m := Publishing(Private(h, SenderKey(rec), rec.Field(0), rec.Tail(1), now)).sent;
      && (m.Some? <==> |rec.args| >= 2 && CallPresent(h, NormCall(rec.Field(0))))
      && (m.Some? ==>
            (m.value.id == SynthID(rec.node, rec.user, PrivateKind, rec.Field(0), rec.Tail(1))
             <==> |rec.Tail(1)| <= MAX_TEXT))
      && (m.Some? ==> m.value.originNode == rec.node && m.value.fromCall == rec.user)
  {
    TailIsClean(rec, 1);
    if |rec.args| >= 2 {
      PrivateId(h, SenderKey(rec), rec.Field(0), rec.Tail(1), now);
    } else {
      ClipKeepsText("");
      TrimClean("");
    }
  }

  /** The same for a private record, which also needs its target to be present. */
  lemma SendKeyIsMessageId(h: State, rec: Record, from: string, now: int)
    requires Tabled(h) && Canonical(rec) && rec.typ == ID_SEND
    ensures
      var m := Sent(h, rec, from, now);
      && (m.Some? <==> |rec.args| >= 2
                       && CallPresent(EnsureUser(h, rec, from, now).state, NormCall(rec.Field(0))))
      && (m.Some? ==> (m.value.id == RecordKey(h, rec) <==> |rec.Tail(1)| <= MAX_TEXT))
      && (m.Some? ==> m.value.originNode == rec.node && m.value.fromCall == rec.user)
  {
    var h1 := EnsureUser(h, rec, from, now).state;
    SenderPresent(h, rec, from, now);
    SentIsActed(h, rec, from, now);
    ActedBySend(h1, rec, now);
    SendActs(h1, rec, now);
  }

  // ---- provenance ----

  /** The user table's part of a change. */
  lemma EnsureUserIsLocal(h: State, rec: Record, from: string, now: int, k: UserKey)
    requires Tabled(h)
    ensures
      var h1 := EnsureUser(h, rec, from, now).state;
      && (k in h.users ==> k in h1.users && h1.users[k] == h.users[k])
      && (k in h1.users && k !in h.users ==>
            && k == CanonKey(SenderKey(rec)) && h1.users[k].origin == Origin(k.node, false, from)
            && TopicKey(h1.users[k].topic) == TopicKey(DEFAULT_TOPIC))
  {
    EnsureTopicTabled(h, DEFAULT_TOPIC);
  }

  /** The part of a hub operation that concerns one user: it stays or stays away, and keeps its
      origin and topic. */
  predicate KeepsUser(h: State, h': State, k: UserKey) {
    && (k in h'.users <==> k in h.users)
    && (k in h.users ==> h'.users[k].origin == h.users[k].origin && h'.users[k].topic == h.users[k].topic)
  }

  lemma InfoKeepsUser(h: State, key: UserKey, name: string, qth: string, k: UserKey)
    ensures KeepsUser(h, SetInfo(h, key, name, qth).state, k)
  {
  }

  lemma MessagesKeepUser(h: State, key: UserKey, to: string, text: string, now: int, k: UserKey)
    ensures KeepsUser(h, Post(h, key, text, now).state, k)
    ensures KeepsUser(h, Private(h, key, to, text, now).state, k)
  {
  }

  lemma MovedUser(h: State, s: UserKey, name: string, k: UserKey)
    requires Tabled(h) && s in h.users
    ensures
      var h' := Moved(h, s, name).state;
      if k == s then k in h'.users && h'.users[k].origin == h.users[k].origin && TopicKey(h'.users[k].topic) == TopicKey(name)
      else KeepsUser(h, h', k)
  {
    EnsureTopicTabled(Unfiled(h, s), name);
  }

  lemma TopicMovesUser(h: State, key: UserKey, name: string, k: UserKey)
    requires Tabled(h)
    ensures
      var h' := SetTopic(h, key, name).state;
      || KeepsUser(h, h', k)
      || (k == CanonKey(key) && k in h.users && k in h'.users
          && h'.users[k].origin == h.users[k].origin && TopicKey(h'.users[k].topic) == TopicKey(name))
  {
    if CanonKey(key) in h.users { MovedUser(h, CanonKey(key), name, k); }
  }

  lemma ActIsLocal(h: State, rec: Record, now: int, k: UserKey)
    requires Tabled(h)
    ensures
      var h' := Act(h, rec, now).state;
      || KeepsUser(h, h', k)
      || (rec.typ == ID_TOPIC && k == CanonKey(SenderKey(rec)) && k in h.users && k in h'.users
          && h'.users[k].origin == h.users[k].origin && TopicKey(h'.users[k].topic) == TopicKey(rec.Field(0)))
  {
    var key := SenderKey(rec);
    if CarriesInfo(rec) {
      InfoKeepsUser(h, key, UnDash(rec.Field(0)), UnDash(rec.Field(1)), k);
    } else if rec.typ == ID_TOPIC {
      TopicMovesUser(h, key, rec.Field(0), k);
    } else {
      MessagesKeepUser(h, key, rec.Field(0), if rec.typ == ID_DATA then rec.Tail(0) else rec.Tail(1), now, k);
    }
  }

  /** Relay traffic never rewrites a present user's origin, and changes a topic only to the
      default one for a newcomer or to the one a topic record names for its sender. */
  lemma ApplyIsLocal(h: State, rec: Record, from: string, now: int, k: UserKey)
    requires Tabled(h) && k in ApplyState(h, rec, from, now).users
    ensures
      var u := ApplyState(h, rec, from, now).users[k];
      && (k in h.users ==> u.origin == h.users[k].origin)
      && (k !in h.users ==> k == CanonKey(SenderKey(rec)) && u.origin.link == from)
      && (|| (k in h.users && u.topic == h.users[k].topic)
          || TopicKey(u.topic) == TopicKey(DEFAULT_TOPIC)
          || (rec.typ == ID_TOPIC && k == CanonKey(SenderKey(rec)) && TopicKey(u.topic) == TopicKey(rec.Field(0))))
  {
    if UserRecord(rec) && rec.typ != ID_LEAVE {
      EnsureUserIsLocal(h, rec, from, now, k);
      EnsureUserTabled(h, rec, from, now);
      ActIsLocal(EnsureUser(h, rec, from, now).state, rec, now, k);
    }
  }

  /** A user made known by a peer's record: its home and ingress link from the record and the link, its
      name and QTH only from a join or an information record, no flags, in the default topic. */
  lemma NewcomerIs(h: State, rec: Record, from: string, now: int)
    requires Tabled(h) && Canonical(rec) && SenderKey(rec) !in h.users
    ensures
      var e := EnsureUser(h, rec, from, now);
      && e.reply.Ok? && e.events == [UserJoined(e.reply.value)] && e.state.users == h.users[SenderKey(rec) := e.reply.value]
      && e.reply.value.(topic := "") ==
         User(rec.user, if rec.typ in {'J', 'I'} then UnDash(rec.Field(0)) else "",
              if rec.typ in {'J', 'I'} then UnDash(rec.Field(1)) else "",
              Origin(rec.node, false, from), "", now, now, Flags(false, false, false, false, false))
      && TopicKey(e.reply.value.topic) == TopicKey("General")
  {
    EnsureTopicTabled(h, JoinTopic(Newcomer(rec, from)));
  }

  /** A link record enters the node it names, and an unlink record drops it with everybody learned
      through it; neither makes anybody present or puts anything out. */
  lemma NodeRecordsApply(h: State, rec: Record, from: string, now: int)
    requires Tabled(h)
    ensures
      var h', c := ApplyState(h, rec, from, now), NormCall(rec.Field(0));
      && (rec.typ == 'N' && c != "" ==>
            && h'.users == h.users && c in h'.nodes && h'.nodes.Keys == h.nodes.Keys + {c} && h'.nodes[c].linked == now
            && (c !in h.nodes ==> h'.nodes[c] == Node(c, UnDash(rec.Field(1)), rec.Field(2), now)))
      && (rec.typ == 'Q' ==>
            && h'.nodes.Keys == h.nodes.Keys - {c}
            && forall k :: k in h'.users
                 <==> k in h.users && (c in h.nodes ==> h.users[k].origin.link != c && h.users[k].origin.node != c))
      && (rec.typ in {'N', 'Q'} ==> Sent(h, rec, from, now) == None)
  {
  }

  /** An event is announced to peers exactly when it is about one of our own users or messages. */
  lemma OwnEventsAreEncoded(our: string, ev: Event)
    ensures EncodeLocal(our, ev).Some? <==> NodeOf(ev) == Some(our)
  {
  }

  datatype Arrival = Arrival(rec: Record, from: string, now: int)

  function IngestAll(our: string, ttl: int, n: NodeState, arrivals: seq<Arrival>): NodeState
    requires Valid(n.hub)
    decreases |arrivals|
  {
    if arrivals == [] then n else
      var a := arrivals[0];
      IngestKeeps(our, ttl, n, a.rec, a.from, a.now);
      IngestAll(our, ttl, Ingest(our, ttl, n, a.rec, a.from, a.now), arrivals[1..])
  }

  /** `k` is present throughout the traffic. */
  predicate StaysPresent(our: string, ttl: int, n: NodeState, arrivals: seq<Arrival>, k: UserKey)
    requires Valid(n.hub)
    decreases |arrivals|
  {
    k in n.hub.users &&
    (arrivals == [] ||
     var a := arrivals[0];
     IngestKeeps(our, ttl, n, a.rec, a.from, a.now);
     StaysPresent(our, ttl, Ingest(our, ttl, n, a.rec, a.from, a.now), arrivals[1..], k))
  }

  /** A remote user's ingress link stays what it was for as long as the user is present, whatever
      records arrive on whatever links: the provenance the link-drop cascade goes by. */
  lemma {:induction false} ProvenanceIsStable(our: string, ttl: int, n: NodeState, arrivals: seq<Arrival>, k: UserKey)
    requires Valid(n.hub) && StaysPresent(our, ttl, n, arrivals, k)
    ensures
      var n' := IngestAll(our, ttl, n, arrivals);
      k in n'.hub.users && n'.hub.users[k].origin == n.hub.users[k].origin
    decreases |arrivals|
  {
    if arrivals != [] {
      var a := arrivals[0];
      IngestKeeps(our, ttl, n, a.rec, a.from, a.now);
      var n1 := Ingest(our, ttl, n, a.rec, a.from, a.now);
      if Accepts(our, n, a.rec, a.now) { ApplyIsLocal(n.hub, a.rec, a.from, a.now, k); }
      ProvenanceIsStable(our, ttl, n1, arrivals[1..], k);
    }
  }
}
