/** What the relay makes of one inbound record, as a function of a node's state. */
module RouterSpec {
  import opened Options
  import opened Text
  import opened Chat
  import opened Proto
  import opened SeenSets
  import opened Stores
  import opened HubSpec

  /** A node's relevant state: the hub tables, the seen-set entries and the message log. */
  datatype NodeState = NodeState(hub: State, seen: map<Key, int>, log: seq<Message>)

  function SenderKey(rec: Record): UserKey { UserKey(rec.user, rec.node) }

  function TopicOf(h: State, key: UserKey): string {
    if CanonKey(key) in h.users then h.users[CanonKey(key)].topic else DEFAULT_TOPIC
  }

  /** The duplicate-suppression key of a record at a node. */
  function RecordKey(h: State, rec: Record): Key {
    if rec.typ == ID_DATA then
      SynthID(rec.node, rec.user, TopicKind, TopicOf(h, SenderKey(rec)), rec.Tail(0))
    else if rec.typ == ID_SEND then
      SynthID(rec.node, rec.user, PrivateKind, rec.Field(0), rec.Tail(1))
    else Raw(rec.typ, rec.raw)
  }

  predicate CarriesInfo(rec: Record) { rec.typ == ID_JOIN || rec.typ == ID_USER }

  /** The user an unknown sender is made present as; the ingress link is its provenance. */
  function Newcomer(rec: Record, from: string): User {
    User(rec.user, if CarriesInfo(rec) then UnDash(rec.Field(0)) else "",
         if CarriesInfo(rec) then UnDash(rec.Field(1)) else "",
         Origin(rec.node, false, from), "", 0, 0, Flags(false, false, false, false, false))
  }

  function EnsureUser(h: State, rec: Record, from: string, now: int): Effect<User>
    requires Tabled(h)
  {
    if CanonKey(SenderKey(rec)) in h.users then Effect(h, [], Ok(h.users[CanonKey(SenderKey(rec))]))
    else HubSpec.Join(h, Newcomer(rec, from), now)
  }

  lemma EnsureUserTabled(h: State, rec: Record, from: string, now: int)
    requires Tabled(h)
    ensures Tabled(EnsureUser(h, rec, from, now).state)
  {
    EnsureTopicTabled(h, JoinTopic(Newcomer(rec, from)));
  }

  lemma EnsureUserKeeps(h: State, rec: Record, from: string, now: int)
    requires Valid(h)
    ensures Valid(EnsureUser(h, rec, from, now).state)
    ensures Indexed(h) ==> Indexed(EnsureUser(h, rec, from, now).state)
  {
    if CanonKey(SenderKey(rec)) !in h.users { JoinKeeps(h, Newcomer(rec, from), now); }
  }

  /** A hub change: the new tables, the announcements, and the message put out, if any. */
  datatype Change = Change(state: State, events: seq<Event>, sent: Option<Message>)

  function Quietly<R>(e: Effect<R>): Change { Change(e.state, e.events, None) }

  function Publishing(e: Effect<Message>): Change {
    Change(e.state, e.events, match e.reply case Ok(m) => Some(m) case Err(_) => None)
  }

  /** The record types that speak for a user. */
  predicate UserRecord(rec: Record) {
    rec.typ in {ID_JOIN, ID_LEAVE, ID_USER, ID_TOPIC, ID_DATA, ID_SEND}
  }

  /** What a record does once its sender is present. */
  function Act(h: State, rec: Record, now: int): Change
    requires Tabled(h)
  {
    var key := SenderKey(rec);
    if rec.typ == ID_JOIN && UnDash(rec.Field(0)) == "" && UnDash(rec.Field(1)) == "" then Change(h, [], None)
    else if CarriesInfo(rec) then Quietly(SetInfo(h, key, UnDash(rec.Field(0)), UnDash(rec.Field(1))))
    else if rec.typ == ID_TOPIC then Quietly(SetTopic(h, key, rec.Field(0)))
    else if rec.typ == ID_DATA then Publishing(Post(h, key, rec.Tail(0), now))
    else if rec.typ == ID_SEND then Publishing(Private(h, key, rec.Field(0), rec.Tail(1), now))
    else Change(h, [], None)
  }

  lemma ActKeeps(h: State, rec: Record, now: int)
    requires Valid(h)
    ensures Valid(Act(h, rec, now).state)
    ensures Indexed(h) ==> Indexed(Act(h, rec, now).state)
  {
    var key := SenderKey(rec);
    if CarriesInfo(rec) {
      SetInfoKeeps(h, key, UnDash(rec.Field(0)), UnDash(rec.Field(1)));
    } else if rec.typ == ID_TOPIC {
      SetTopicKeeps(h, key, rec.Field(0));
    } else if rec.typ == ID_DATA {
      PostKeeps(h, key, rec.Tail(0), now);
    }
  }

  /** The effect of a user record. */
  function ApplyUser(h: State, rec: Record, from: string, now: int): Change
    requires Tabled(h)
  {
    if rec.typ == ID_LEAVE then
      var left := Leave(h, SenderKey(rec));
      Change(left.0, left.1, None)
    else
      EnsureUserTabled(h, rec, from, now);
      var e := EnsureUser(h, rec, from, now);
      var c := Act(e.state, rec, now);
      c.(events := e.events + c.events)
  }

  lemma ApplyUserKeeps(h: State, rec: Record, from: string, now: int)
    requires Valid(h)
    ensures Valid(ApplyUser(h, rec, from, now).state)
    ensures Indexed(h) ==> Indexed(ApplyUser(h, rec, from, now).state)
  {
    if rec.typ == ID_LEAVE {
      LeaveKeeps(h, SenderKey(rec));
    } else {
      EnsureUserKeeps(h, rec, from, now);
      ActKeeps(EnsureUser(h, rec, from, now).state, rec, now);
    }
  }

  /** The tables after a record is applied. */
  function ApplyState(h: State, rec: Record, from: string, now: int): State
    requires Tabled(h)
  {
    if UserRecord(rec) then ApplyUser(h, rec, from, now).state
    else if rec.typ == ID_LINK then LinkNode(h, rec.Field(0), UnDash(rec.Field(1)), rec.Field(2), now).state
    else if rec.typ == ID_UNLINK then UnlinkNode(h, rec.Field(0))
    else h
  }

  predicate ApplyEvents(h: State, rec: Record, from: string, now: int, events: seq<Event>)
    requires Tabled(h)
  {
    if UserRecord(rec) then events == ApplyUser(h, rec, from, now).events
    else if rec.typ == ID_LINK then
      events == LinkNode(h, rec.Field(0), UnDash(rec.Field(1)), rec.Field(2), now).events
    else if rec.typ == ID_UNLINK then UnlinkEvents(h, rec.Field(0), events)
    else events == []
  }

  /** The message a record puts out, if any. */
  function Sent(h: State, rec: Record, from: string, now: int): Option<Message>
    requires Tabled(h)
  {
    if UserRecord(rec) then ApplyUser(h, rec, from, now).sent else None
  }

  /** The node after a change: a message put out is also recorded as seen and logged. */
  function Publish(n: NodeState, ttl: int, c: Change, now: int): NodeState {
    NodeState(c.state,
              if c.sent.Some? then SeenSets.Record(n.seen, ttl, c.sent.value.id, now) else n.seen,
              if c.sent.Some? then Saved(n.log, c.sent.value) else n.log)
  }

  function Apply(n: NodeState, ttl: int, rec: Record, from: string, now: int): NodeState
    requires Tabled(n.hub)
  {
    Publish(n, ttl, Change(ApplyState(n.hub, rec, from, now), [], Sent(n.hub, rec, from, now)), now)
  }

  /** A record that comes from ourselves, or from nobody. */
  predicate OwnOrNobody(our: string, rec: Record) { rec.node == "" || EqualFold(rec.node, our) }

  /** Whether a record is applied and relayed. */
  predicate Accepts(our: string, n: NodeState, rec: Record, now: int) {
    !OwnOrNobody(our, rec) && !Live(n.seen, RecordKey(n.hub, rec), now)
  }

  function Ingest(our: string, ttl: int, n: NodeState, rec: Record, from: string, now: int): NodeState
    requires Tabled(n.hub)
  {
    if OwnOrNobody(our, rec) then n
    else
      var noted := n.(seen := SeenSets.Record(n.seen, ttl, RecordKey(n.hub, rec), now));
      if Live(n.seen, RecordKey(n.hub, rec), now) then noted else Apply(noted, ttl, rec, from, now)
  }

  /** The wire record a local event is announced to peers with; events of other nodes' users
      and messages have none. */
  function EncodeLocal(our: string, ev: Event): Option<string> {
    match ev
    case TopicMessage(m) => if m.originNode == our then Some(EncodeData(our, m.fromCall, m.text)) else None
    case PrivateMessage(m) => if m.originNode == our then Some(EncodeSend(our, m.fromCall, m.toCall, m.text)) else None
    case UserJoined(u) => if u.origin.node == our then Some(EncodeJoin(our, u.call, u.name, u.qth)) else None
    case UserLeft(u) => if u.origin.node == our then Some(EncodeLeave(our, u.call, u.name, u.qth)) else None
    case TopicChanged(u, _) => if u.origin.node == our then Some(EncodeTopic(our, u.call, u.topic)) else None
    case UserInfoChanged(u) => if u.origin.node == our then Some(EncodeUser(our, u.call, u.name, u.qth)) else None
    case NodeLinked(_) => None
    case NodeUnlinked(_) => None
  }

  // ---- validity ----

  lemma ApplyKeeps(h: State, rec: Record, from: string, now: int)
    requires Valid(h)
    ensures Valid(ApplyState(h, rec, from, now))
    ensures Indexed(h) ==> Indexed(ApplyState(h, rec, from, now))
  {
    if UserRecord(rec) {
      ApplyUserKeeps(h, rec, from, now);
    } else if rec.typ == ID_LINK {
      LinkNodeKeeps(h, rec.Field(0), UnDash(rec.Field(1)), rec.Field(2), now);
    } else if rec.typ == ID_UNLINK {
      UnlinkNodeKeeps(h, rec.Field(0));
    }
  }

  lemma IngestKeeps(our: string, ttl: int, n: NodeState, rec: Record, from: string, now: int)
    requires Valid(n.hub)
    ensures Valid(Ingest(our, ttl, n, rec, from, now).hub)
    ensures Indexed(n.hub) ==> Indexed(Ingest(our, ttl, n, rec, from, now).hub)
  {
    ApplyKeeps(n.hub, rec, from, now);
  }
}
