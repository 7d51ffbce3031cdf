/** The hub over whole runs, from what was done and what was announced. */
module HubHistory {
  import opened Options
  import opened Text
  import opened Chat
  import opened Proto
  import opened HubSpec
  import opened RouterSpec
  import HubLaws

  // ---- what an operation announces ----

  /** The events of an operation; a link drop announces its departures in the order of its sweep. */
  ghost predicate Announces(h: State, op: Op, now: int, events: seq<Event>)
    requires Tabled(h)
  {
    match op
    case OpJoin(u) => events == HubSpec.Join(h, u, now).events
    case OpLeave(k) => events == Leave(h, k).1
    case OpPost(k, text) => events == Post(h, k, text, now).events
    case OpPrivate(k, to, text) => events == Private(h, k, to, text, now).events
    case OpSetTopic(k, name) => events == SetTopic(h, k, name).events
    case OpSetInfo(k, name, qth) => events == SetInfo(h, k, name, qth).events
    case OpSetFlags(k, flags) => events == SetFlags(h, k, flags).events
    case OpLink(call, alias, version) => events == LinkNode(h, call, alias, version, now).events
    case OpUnlink(call) => UnlinkEvents(h, call, events)
  }

  // ---- the tables, rebuilt from the announcements ----

  /** What a subscriber who knows nothing of the hub makes of the user table. */
  function Heard(users: map<UserKey, User>, e: Event): map<UserKey, User> {
    match e
    case UserJoined(u) => users[KeyOf(u) := u]
    case TopicChanged(u, _) => users[KeyOf(u) := u]
    case UserInfoChanged(u) => users[KeyOf(u) := u]
    case UserLeft(u) => users - {KeyOf(u)}
    case TopicMessage(m) =>
      var k := UserKey(m.fromCall, m.originNode);
      if k in users then users[k := users[k].(lastActive := m.time)] else users
    case _ => users
  }

  function HeardAll(users: map<UserKey, User>, events: seq<Event>): map<UserKey, User> {
    if events == [] then users else Heard(HeardAll(users, events[..|events| - 1]), events[|events| - 1])
  }

  /** ... and of which nodes are linked. */
  function Linked(nodes: set<string>, e: Event): set<string> {
    match e
    case NodeLinked(n) => nodes + {n.call}
    case NodeUnlinked(n) => nodes - {n.call}
    case _ => nodes
  }

  function LinkedAll(nodes: set<string>, events: seq<Event>): set<string> {
    if events == [] then nodes else Linked(LinkedAll(nodes, events[..|events| - 1]), events[|events| - 1])
  }

  lemma HeardOne(users: map<UserKey, User>, e: Event)
    ensures HeardAll(users, [e]) == Heard(users, e)
  {
    assert [e][..0] == [];
  }

  lemma LinkedOne(nodes: set<string>, e: Event)
    ensures LinkedAll(nodes, [e]) == Linked(nodes, e)
  {
    assert [e][..0] == [];
  }

  lemma {:induction false} HeardBoth(users: map<UserKey, User>, a: seq<Event>, b: seq<Event>)
    ensures HeardAll(users, a + b) == HeardAll(HeardAll(users, a), b)
    decreases |b|
  {
    if b == [] {
      assert a + b == a;
    } else {
      HeardBoth(users, a, b[..|b| - 1]);
      assert (a + b)[..|a + b| - 1] == a + b[..|b| - 1];
    }
  }

  lemma {:induction false} LinkedBoth(nodes: set<string>, a: seq<Event>, b: seq<Event>)
    ensures LinkedAll(nodes, a + b) == LinkedAll(LinkedAll(nodes, a), b)
    decreases |b|
  {
    if b == [] {
      assert a + b == a;
    } else {
      LinkedBoth(nodes, a, b[..|b| - 1]);
      assert (a + b)[..|a + b| - 1] == a + b[..|b| - 1];
    }
  }

  // ---- one operation ----

  /** The users of `h`, told the events, are those of `h'`; and so with the linked nodes. */
  ghost predicate Agrees(h: State, events: seq<Event>, h': State) {
    HeardAll(h.users, events) == h'.users && LinkedAll(h.nodes.Keys, events) == h'.nodes.Keys
  }

  lemma NothingAgrees(h: State)
    ensures Agrees(h, [], h)
  {
  }

  lemma OneAgrees(h: State, e: Event, h': State)
    requires Heard(h.users, e) == h'.users && Linked(h.nodes.Keys, e) == h'.nodes.Keys
    ensures Agrees(h, [e], h')
  {
    HeardOne(h.users, e);
    LinkedOne(h.nodes.Keys, e);
  }

  lemma JoinAgrees(h: State, u: User, now: int)
    requires Tabled(h)
    ensures Agrees(h, HubSpec.Join(h, u, now).events, HubSpec.Join(h, u, now).state)
  {
    HubLaws.JoinPuts(h, u, now);
    var e := HubSpec.Join(h, u, now);
    if e.reply.Ok? { OneAgrees(h, UserJoined(e.reply.value), e.state); }
  }

  /** The user, if present, is filed under its own key. */
  predicate Filed(h: State, k: UserKey) { k in h.users ==> KeyOf(h.users[k]) == k }

  lemma ValidIsFiled(h: State, k: UserKey)
    requires Valid(h)
    ensures Filed(h, k)
  {
    if k in h.users { assert UserValid(h.users[k], k, h.topics); }
  }

  lemma LeaveAgrees(h: State, key: UserKey)
    requires Filed(h, CanonKey(key))
    ensures Agrees(h, Leave(h, key).1, Leave(h, key).0)
  {
    if CanonKey(key) in h.users { OneAgrees(h, UserLeft(h.users[CanonKey(key)]), Leave(h, key).0); }
  }

  lemma PostAgrees(h: State, key: UserKey, text: string, now: int)
    ensures Agrees(h, Post(h, key, text, now).events, Post(h, key, text, now).state)
  {
    var e := Post(h, key, text, now);
    if e.reply.Ok? { OneAgrees(h, TopicMessage(e.reply.value), e.state); }
  }

  lemma PrivateAgrees(h: State, from: UserKey, to: string, text: string, now: int)
    ensures Agrees(h, Private(h, from, to, text, now).events, Private(h, from, to, text, now).state)
  {
    var e := Private(h, from, to, text, now);
    if e.reply.Ok? { OneAgrees(h, PrivateMessage(e.reply.value), e.state); }
  }

  lemma SetTopicAgrees(h: State, key: UserKey, name: string)
    requires Tabled(h) && Filed(h, CanonKey(key))
    ensures Agrees(h, SetTopic(h, key, name).events, SetTopic(h, key, name).state)
  {
    var e := SetTopic(h, key, name);
    if e.reply == Ok(true) { OneAgrees(h, e.events[0], e.state); }
  }

  lemma SetInfoAgrees(h: State, key: UserKey, name: string, qth: string)
    requires Filed(h, CanonKey(key))
    ensures Agrees(h, SetInfo(h, key, name, qth).events, SetInfo(h, key, name, qth).state)
  {
    var e := SetInfo(h, key, name, qth);
    if e.reply == Ok(true) { OneAgrees(h, e.events[0], e.state); }
  }

  lemma SetFlagsAgrees(h: State, key: UserKey, flags: Flags)
    requires Filed(h, CanonKey(key))
    ensures Agrees(h, SetFlags(h, key, flags).events, SetFlags(h, key, flags).state)
  {
    var e := SetFlags(h, key, flags);
    if e.reply == Ok(true) { OneAgrees(h, e.events[0], e.state); }
  }

  lemma LinkAgrees(h: State, call: string, alias: string, version: string, now: int)
    ensures Agrees(h, LinkNode(h, call, alias, version, now).events, LinkNode(h, call, alias, version, now).state)
  {
    var e := LinkNode(h, call, alias, version, now);
    if e.reply == Ok(true) {
      OneAgrees(h, e.events[0], e.state);
    } else if NormCall(call) != "" {
      assert e.state.nodes.Keys == h.nodes.Keys;
    }
  }

  /** Departures remove exactly the departed. */
  lemma {:induction false} DeparturesHeard(users: map<UserKey, User>, nodes: set<string>, events: seq<Event>, k: UserKey)
    requires forall i :: 0 <= i < |events| ==> events[i].UserLeft?
    ensures LinkedAll(nodes, events) == nodes
    ensures k in HeardAll(users, events)
      <==> k in users && forall i :: 0 <= i < |events| ==> KeyOf(events[i].user) != k
    ensures k in HeardAll(users, events) ==> HeardAll(users, events)[k] == users[k]
    decreases |events|
  {
    if events != [] {
      var init := events[..|events| - 1];
      DeparturesHeard(users, nodes, init, k);
      assert forall i :: 0 <= i < |init| ==> init[i] == events[i];
    }
  }

  /** The departures of a link drop: one for each lost user and for nobody else. */
  ghost predicate Departures(h: State, gone: set<UserKey>, left: seq<Event>) {
    && |left| == |gone| && gone <= h.users.Keys
    && (forall k :: k in gone ==> KeyOf(h.users[k]) == k && UserLeft(h.users[k]) in left)
  }

  /** As many events as lost users, each user's among them: then there are no others. */
  lemma {:induction false} NoOtherDepartures(h: State, gone: set<UserKey>, left: seq<Event>, i: nat)
    requires Departures(h, gone, left) && i < |left|
    ensures left[i].UserLeft? && KeyOf(left[i].user) in gone
    decreases |gone|
  {
    var k :| k in gone;
    var j :| 0 <= j < |left| && left[j] == UserLeft(h.users[k]);
    if j != i {
      var rest := left[..j] + left[j + 1..];
      forall m | m in gone - {k}
        ensures UserLeft(h.users[m]) in rest
      {
        var n :| 0 <= n < |left| && left[n] == UserLeft(h.users[m]);
        assert n != j;
        assert rest[if n < j then n else n - 1] == left[n];
      }
      NoOtherDepartures(h, gone - {k}, rest, if i < j then i else i - 1);
      assert rest[if i < j then i else i - 1] == left[i];
    }
  }

  lemma DeparturesAgree(h: State, gone: set<UserKey>, left: seq<Event>)
    requires Departures(h, gone, left)
    ensures HeardAll(h.users, left) == h.users - gone && LinkedAll(h.nodes.Keys, left) == h.nodes.Keys
  {
    forall i | 0 <= i < |left|
      ensures left[i].UserLeft? && KeyOf(left[i].user) in gone
    {
      NoOtherDepartures(h, gone, left, i);
    }
    forall k
      ensures k in HeardAll(h.users, left) <==> k in h.users && k !in gone
      ensures k in HeardAll(h.users, left) ==> HeardAll(h.users, left)[k] == h.users[k]
    {
      DeparturesHeard(h.users, h.nodes.Keys, left, k);
      if k in gone {
        var i :| 0 <= i < |left| && left[i] == UserLeft(h.users[k]);
        assert KeyOf(left[i].user) == k;
      }
    }
    DeparturesHeard(h.users, h.nodes.Keys, left, UserKey("", ""));
  }

  lemma UnlinkAgrees(h: State, call: string, events: seq<Event>)
    requires UnlinkEvents(h, call, events) && forall k :: k in LearnedVia(h, NormCall(call)) ==> Filed(h, k)
    requires forall c :: c in h.nodes ==> h.nodes[c].call == c
    ensures Agrees(h, events, UnlinkNode(h, call))
  {
    var c := NormCall(call);
    if c in h.nodes {
      var n := |events| - 1;
      DeparturesAgree(h, LearnedVia(h, c), events[..n]);
      assert events == events[..n] + [events[n]];
    }
  }

  /** A node is filed under its own callsign. */
  predicate NodesFiled(nodes: map<string, Node>) {
    forall c :: c in nodes ==> c != "" && NormCall(c) == c && nodes[c].call == c
  }

  lemma LinkKeepsFiled(h: State, call: string, alias: string, version: string, now: int)
    requires NodesFiled(h.nodes)
    ensures NodesFiled(LinkNode(h, call, alias, version, now).state.nodes)
  {
    NormCallIdempotent(call);
  }

  /** Only links and unlinks touch the node table. */
  lemma OthersKeepNodes(h: State, op: Op, now: int)
    requires Tabled(h) && !op.OpLink? && !op.OpUnlink?
    ensures Perform(h, op, now).nodes == h.nodes
  {
  }

  lemma PerformKeepsFiled(h: State, op: Op, now: int)
    requires Tabled(h) && NodesFiled(h.nodes)
    ensures NodesFiled(Perform(h, op, now).nodes)
  {
    match op
    case OpLink(call, alias, version) => LinkKeepsFiled(h, call, alias, version, now);
    case OpUnlink(call) =>
    case _ => OthersKeepNodes(h, op, now);
  }

  predicate AllFiled(h: State) { forall k :: k in h.users ==> KeyOf(h.users[k]) == k }

  lemma ValidIsTidy(h: State)
    requires Valid(h)
    ensures Tabled(h) && AllFiled(h)
  {
    forall k | k in h.users
      ensures KeyOf(h.users[k]) == k
    {
      assert UserValid(h.users[k], k, h.topics);
    }
  }

  lemma PerformAgrees(h: State, op: Op, now: int, events: seq<Event>)
    requires Tabled(h) && AllFiled(h) && NodesFiled(h.nodes) && Announces(h, op, now, events)
    ensures Agrees(h, events, Perform(h, op, now))
  {
    match op
    case OpJoin(u) => JoinAgrees(h, u, now);
    case OpLeave(k) => LeaveAgrees(h, k);
    case OpPost(k, text) => PostAgrees(h, k, text, now);
    case OpPrivate(k, to, text) => PrivateAgrees(h, k, to, text, now);
    case OpSetTopic(k, name) => SetTopicAgrees(h, k, name);
    case OpSetInfo(k, name, qth) => SetInfoAgrees(h, k, name, qth);
    case OpSetFlags(k, flags) => SetFlagsAgrees(h, k, flags);
    case OpLink(call, alias, version) => LinkAgrees(h, call, alias, version, now);
    case OpUnlink(call) => UnlinkAgrees(h, call, events);
  }

  // ---- every run ----

  /** `told[i]` is what the i-th operation of the run announces. */
  ghost predicate Announced(h: State, ops: seq<Timed>, told: seq<seq<Event>>)
    requires Valid(h)
    decreases |ops|
  {
    && |told| == |ops|
    && (ops != [] ==>
          && Announces(h, ops[0].op, ops[0].now, told[0])
          && (PerformKeeps(h, ops[0].op, ops[0].now);
              Announced(Perform(h, ops[0].op, ops[0].now), ops[1..], told[1..])))
  }

  function Flat(told: seq<seq<Event>>): seq<Event> {
    if told == [] then [] else told[0] + Flat(told[1..])
  }

  lemma AgreesInTurn(h: State, first: seq<Event>, h1: State, rest: seq<Event>, h2: State)
    requires Agrees(h, first, h1) && Agrees(h1, rest, h2)
    ensures Agrees(h, first + rest, h2)
  {
    HeardBoth(h.users, first, rest);
    LinkedBoth(h.nodes.Keys, first, rest);
  }

  lemma {:induction false} RunAgrees(h: State, ops: seq<Timed>, told: seq<seq<Event>>)
    requires Valid(h) && NodesFiled(h.nodes) && Announced(h, ops, told)
    ensures Agrees(h, Flat(told), RunOps(h, ops))
    decreases |ops|
  {
    if ops == [] {
      NothingAgrees(h);
    } else {
      var t := ops[0];
      PerformKeeps(h, t.op, t.now);
      ValidIsTidy(h);
      PerformAgrees(h, t.op, t.now, told[0]);
      PerformKeepsFiled(h, t.op, t.now);
      RunAgrees(Perform(h, t.op, t.now), ops[1..], told[1..]);
      AgreesInTurn(h, told[0], Perform(h, t.op, t.now), Flat(told[1..]), RunOps(h, ops));
    }
  }

  /** A subscriber that has heard every announcement of a new hub, and applies what it hears to
      an empty table, holds exactly the hub's users and knows exactly its linked nodes. */
  lemma SubscribersKnowTheHub(ops: seq<Timed>, told: seq<seq<Event>>)
    requires Announced(NewState(), ops, told)
    ensures
      var h := RunOps(NewState(), ops);
      HeardAll(map[], Flat(told)) == h.users && LinkedAll({}, Flat(told)) == h.nodes.Keys
  {
    assert NewState().nodes.Keys == {};
    RunAgrees(NewState(), ops, told);
  }

  /** An operation that announces nothing changes no user, and no node is linked or lost. */
  lemma SilenceChangesNoUser(h: State, op: Op, now: int)
    requires Valid(h) && NodesFiled(h.nodes) && Announces(h, op, now, [])
    ensures Perform(h, op, now).users == h.users && Perform(h, op, now).nodes.Keys == h.nodes.Keys
  {
    ValidIsTidy(h);
    PerformAgrees(h, op, now, []);
  }

  // ---- records from peers ----

  lemma EnsureUserAgrees(h: State, rec: Record, from: string, now: int)
    requires Tabled(h)
    ensures Agrees(h, EnsureUser(h, rec, from, now).events, EnsureUser(h, rec, from, now).state)
  {
    if CanonKey(SenderKey(rec)) !in h.users { JoinAgrees(h, Newcomer(rec, from), now); } else { NothingAgrees(h); }
  }

  lemma InfoActAgrees(h: State, rec: Record, now: int)
    requires Tabled(h) && AllFiled(h) && CarriesInfo(rec)
    ensures Agrees(h, Act(h, rec, now).events, Act(h, rec, now).state)
  {
    SetInfoAgrees(h, SenderKey(rec), UnDash(rec.Field(0)), UnDash(rec.Field(1)));
  }

  lemma TopicActAgrees(h: State, rec: Record, now: int)
    requires Tabled(h) && AllFiled(h) && rec.typ == ID_TOPIC
    ensures Agrees(h, Act(h, rec, now).events, Act(h, rec, now).state)
  {
    SetTopicAgrees(h, SenderKey(rec), rec.Field(0));
  }

  lemma MessageActAgrees(h: State, rec: Record, now: int)
    requires Tabled(h) && (rec.typ == ID_DATA || rec.typ == ID_SEND)
    ensures Agrees(h, Act(h, rec, now).events, Act(h, rec, now).state)
  {
    if rec.typ == ID_DATA {
      PostAgrees(h, SenderKey(rec), rec.Tail(0), now);
    } else {
      PrivateAgrees(h, SenderKey(rec), rec.Field(0), rec.Tail(1), now);
    }
  }

  lemma ActAgrees(h: State, rec: Record, now: int)
    requires Tabled(h) && AllFiled(h) && UserRecord(rec) && rec.typ != ID_LEAVE
    ensures Agrees(h, Act(h, rec, now).events, Act(h, rec, now).state)
  {
    if CarriesInfo(rec) {
      InfoActAgrees(h, rec, now);
    } else if rec.typ == ID_TOPIC {
      TopicActAgrees(h, rec, now);
    } else {
      MessageActAgrees(h, rec, now);
    }
  }

  lemma UserRecordAgrees(h: State, rec: Record, from: string, now: int)
    requires Valid(h) && UserRecord(rec) && rec.typ != ID_LEAVE
    ensures Agrees(h, ApplyUser(h, rec, from, now).events, ApplyUser(h, rec, from, now).state)
  {
    EnsureUserKeeps(h, rec, from, now);
    EnsureUserAgrees(h, rec, from, now);
    var e := EnsureUser(h, rec, from, now);
    ValidIsTidy(e.state);
    ActAgrees(e.state, rec, now);
    AgreesInTurn(h, e.events, e.state, Act(e.state, rec, now).events, Act(e.state, rec, now).state);
  }

  /** What a peer's record changes is announced like any other change. */
  lemma RecordAgrees(h: State, rec: Record, from: string, now: int, events: seq<Event>)
    requires Valid(h) && NodesFiled(h.nodes) && ApplyEvents(h, rec, from, now, events)
    ensures Agrees(h, events, ApplyState(h, rec, from, now))
  {
    ValidIsTidy(h);
    if UserRecord(rec) && rec.typ == ID_LEAVE {
      LeaveAgrees(h, SenderKey(rec));
    } else if UserRecord(rec) {
      UserRecordAgrees(h, rec, from, now);
    } else if rec.typ == ID_LINK {
      LinkAgrees(h, rec.Field(0), UnDash(rec.Field(1)), rec.Field(2), now);
    } else if rec.typ == ID_UNLINK {
      UnlinkAgrees(h, rec.Field(0), events);
    } else {
      NothingAgrees(h);
    }
  }
}
