/** The state a node tells a peer when a link comes up, and what the peer has of it afterwards. */
module Resyncs {
  import opened Options
  import opened Text
  import opened Chat
  import opened Proto
  import opened SeenSets
  import opened HubSpec
  import opened RouterSpec
  import opened RelayLaws
  import opened Mirror
  import HubLaws

  // ---- what is told ----

  /** A join for a local user, and its topic unless that is the default one. */
  function TellUser(our: string, u: User): seq<string> {
    [EncodeJoin(our, u.call, u.name, u.qth)]
    + if EqualFold(u.topic, DEFAULT_TOPIC) then [] else [EncodeTopic(our, u.call, u.topic)]
  }

  function Tell(our: string, users: seq<User>): seq<string> {
    if users == [] then []
    else (if users[0].origin.node == our then TellUser(our, users[0]) else []) + Tell(our, users[1..])
  }

  /** The lines sent on link-up: of the listed users only our own. */
  method StateTell(our: string, users: seq<User>) returns (sent: seq<string>)
    ensures sent == Tell(our, users)
  {
    sent := [];
    for i := 0 to |users|
      invariant sent + Tell(our, users[i..]) == Tell(our, users)
    {
      var u := users[i];
      assert users[i..][0] == u && users[i..][1..] == users[i + 1..];
      var lines := [];
      if u.origin.node == our {
        lines := [EncodeJoin(our, u.call, u.name, u.qth)];
        if !EqualFold(u.topic, DEFAULT_TOPIC) {
          lines := lines + [EncodeTopic(our, u.call, u.topic)];
        }
      }
      OneMoreTold(our, sent, u, lines, users[i + 1..]);
      sent := sent + lines;
    }
  }

  lemma OneMoreTold(our: string, sent: seq<string>, u: User, lines: seq<string>, rest: seq<User>)
    requires lines == if u.origin.node == our then TellUser(our, u) else []
    ensures sent + Tell(our, [u] + rest) == sent + lines + Tell(our, rest)
  {
    assert ([u] + rest)[1..] == rest;
  }

  // ---- how it is taken ----

  /** A line from a link: ingested if it is a record. */
  function Take(at: string, ttl: int, n: NodeState, raw: string, from: string, now: int): (n': NodeState)
    requires Valid(n.hub)
    ensures Valid(n'.hub)
  {
    match Decode(raw)
    case None => n
    case Some(rec) =>
      IngestKeeps(at, ttl, n, rec, from, now);
      Ingest(at, ttl, n, rec, from, now)
  }

  function TakeAll(at: string, ttl: int, n: NodeState, raws: seq<string>, from: string, now: int): (n': NodeState)
    requires Valid(n.hub)
    ensures Valid(n'.hub)
    decreases |raws|
  {
    if raws == [] then n else TakeAll(at, ttl, Take(at, ttl, n, raws[0], from, now), raws[1..], from, now)
  }

  lemma {:induction false} TakeBoth(at: string, ttl: int, n: NodeState, a: seq<string>, b: seq<string>, from: string, now: int)
    requires Valid(n.hub)
    ensures TakeAll(at, ttl, n, a + b, from, now) == TakeAll(at, ttl, TakeAll(at, ttl, n, a, from, now), b, from, now)
    decreases |a|
  {
    if a == [] {
      assert a + b == b;
    } else {
      assert (a + b)[1..] == a[1..] + b;
      TakeBoth(at, ttl, Take(at, ttl, n, a[0], from, now), a[1..], b, from, now);
    }
  }

  /** A line that tells of user `k`: a join or a topic change. */
  predicate Tells(raw: string, k: UserKey) {
    var r := Decode(raw);
    && r.Some? && Canonical(r.value) && SenderKey(r.value) == k && r.value.raw == raw
    && (r.value.typ == ID_JOIN || r.value.typ == ID_TOPIC)
  }

  function LineKey(raw: string): Key
    requires |raw| >= 2
  {
    Raw(raw[1], raw)
  }

  lemma TellsItsKey(h: State, raw: string, k: UserKey)
    requires Tells(raw, k)
    ensures |raw| >= 2 && RecordKey(h, Decode(raw).value) == LineKey(raw)
  {
  }

  /** A user's entry, or absence, is the same in both tables. */
  predicate SameAt(users: map<UserKey, User>, users': map<UserKey, User>, k: UserKey) {
    (k in users <==> k in users') && (k in users ==> users'[k] == users[k])
  }

  lemma EnsureTouchesSender(h: State, rec: Record, from: string, now: int, j: UserKey)
    requires Tabled(h) && Canonical(rec) && j != SenderKey(rec)
    ensures SameAt(h.users, EnsureUser(h, rec, from, now).state.users, j)
  {
    if SenderKey(rec) !in h.users { NewcomerIs(h, rec, from, now); }
  }

  lemma MoveTouchesSender(h: State, key: UserKey, name: string, j: UserKey)
    requires Tabled(h) && j != CanonKey(key)
    ensures SameAt(h.users, SetTopic(h, key, name).state.users, j)
  {
  }

  lemma ActTouchesSender(h: State, rec: Record, now: int, j: UserKey)
    requires Tabled(h) && Canonical(rec) && j != SenderKey(rec) && (rec.typ == ID_JOIN || rec.typ == ID_TOPIC)
    ensures SameAt(h.users, Act(h, rec, now).state.users, j)
  {
    if rec.typ == ID_TOPIC {
      MoveTouchesSender(h, SenderKey(rec), rec.Field(0), j);
    } else {
      HubLaws.SetInfoSets(h, SenderKey(rec), UnDash(rec.Field(0)), UnDash(rec.Field(1)));
    }
  }

  lemma ApplyTouchesSender(h: State, rec: Record, from: string, now: int, j: UserKey)
    requires Tabled(h) && Canonical(rec) && j != SenderKey(rec) && (rec.typ == ID_JOIN || rec.typ == ID_TOPIC)
    ensures SameAt(h.users, ApplyState(h, rec, from, now).users, j)
  {
    AppliedInStages(h, rec, from, now);
    EnsureTouchesSender(h, rec, from, now, j);
    ActTouchesSender(EnsureUser(h, rec, from, now).state, rec, now, j);
  }

  lemma TellsSendNothing(h: State, rec: Record, from: string, now: int)
    requires Tabled(h) && (rec.typ == ID_JOIN || rec.typ == ID_TOPIC)
    ensures Sent(h, rec, from, now) == None
  {
    SentIsActed(h, rec, from, now);
  }

  /** The hub after a telling line: unchanged if the line was seen within the time to live, and
      otherwise what applying it makes; the line counts as seen from now either way. */
  lemma TakeTells(at: string, ttl: int, n: NodeState, raw: string, k: UserKey, from: string, now: int)
    requires Valid(n.hub) && Tells(raw, k) && NormCall(at) == at && k.node != at
    ensures
      var n' := Take(at, ttl, n, raw, from, now);
      && n'.hub == (if Live(n.seen, LineKey(raw), now) then n.hub else ApplyState(n.hub, Decode(raw).value, from, now))
      && n'.seen == SeenSets.Record(n.seen, ttl, LineKey(raw), now)
  {
    var rec := Decode(raw).value;
    TellsItsKey(n.hub, raw, k);
    DifferentNodes(at, rec);
    TellsSendNothing(n.hub, rec, from, now);
  }

  lemma TakeTouchesSender(at: string, ttl: int, n: NodeState, raw: string, k: UserKey, from: string, now: int, j: UserKey)
    requires Valid(n.hub) && Tells(raw, k) && NormCall(at) == at && k.node != at && j != k
    ensures SameAt(n.hub.users, Take(at, ttl, n, raw, from, now).hub.users, j)
  {
    TakeTells(at, ttl, n, raw, k, from, now);
    ApplyTouchesSender(n.hub, Decode(raw).value, from, now, j);
  }

  // ---- one user ----

  /** A local user whose name, QTH and topic the wire carries. */
  predicate Tellable(our: string, u: User) {
    LocalUser(our, u) && Dashable(u.name) && Dashable(u.qth) && Word(u.topic) && Plain(u.topic)
  }

  /** A peer knows the user: under its name and QTH, in its topic, learned over the link. */
  predicate Known(users: map<UserKey, User>, u: User, from: string) {
    KeyOf(u) in users && var v := users[KeyOf(u)];
      && v.name == u.name && v.qth == u.qth && v.origin == Origin(u.origin.node, false, from)
      && TopicKey(v.topic) == TopicKey(u.topic)
  }

  lemma JoinTells(our: string, u: User)
    requires Tellable(our, u)
    ensures Tells(EncodeJoin(our, u.call, u.name, u.qth), KeyOf(u))
    ensures Decode(EncodeJoin(our, u.call, u.name, u.qth)).value.typ == ID_JOIN
  {
    PresenceIsCarried(our, u, UserJoined(u), ID_JOIN);
    DecodedIsCanonical(EncodeJoin(our, u.call, u.name, u.qth));
  }

  lemma TopicTells(our: string, u: User)
    requires Tellable(our, u)
    ensures Tells(EncodeTopic(our, u.call, u.topic), KeyOf(u))
    ensures Decode(EncodeTopic(our, u.call, u.topic)).value.typ == ID_TOPIC
    ensures TopicKey(Decode(EncodeTopic(our, u.call, u.topic)).value.Field(0)) == TopicKey(u.topic) != ""
  {
    WordIsClean(u.topic);
    TopicIsCarried(our, u, "");
    DecodedIsCanonical(EncodeTopic(our, u.call, u.topic));
  }

  lemma JoinTakes(h: State, our: string, u: User, from: string, now: int)
    requires Tabled(h) && Tellable(our, u) && KeyOf(u) !in h.users
    ensures
      var line := EncodeJoin(our, u.call, u.name, u.qth);
      && Decode(line).Some?
      && Known(ApplyState(h, Decode(line).value, from, now).users, u.(topic := DEFAULT_TOPIC), from)
  {
    JoinTravels(our, u, h, from, now);
    ApplyIsLocal(h, Carried(our, UserJoined(u)).value, from, now, KeyOf(u));
  }

  lemma TopicActsAlone(h: State, rec: Record, now: int)
    requires Tabled(h) && Canonical(rec) && rec.typ == ID_TOPIC && SenderKey(rec) in h.users
    ensures
      var k, h' := SenderKey(rec), Act(h, rec, now).state;
      k in h'.users && h'.users[k] == h.users[k].(topic := h'.users[k].topic)
  {
  }

  lemma TopicTakes(h: State, our: string, u: User, from: string, now: int)
    requires Tabled(h) && Tellable(our, u) && Known(h.users, u.(topic := DEFAULT_TOPIC), from)
    ensures
      var line := EncodeTopic(our, u.call, u.topic);
      && Decode(line).Some?
      && Known(ApplyState(h, Decode(line).value, from, now).users, u, from)
  {
    TopicTells(our, u);
    var rec := Decode(EncodeTopic(our, u.call, u.topic)).value;
    AppliedInStages(h, rec, from, now);
    TopicIsApplied(h, rec, from, now);
    TopicActsAlone(h, rec, now);
  }

  lemma DefaultNeedsNoTopic(users: map<UserKey, User>, u: User, from: string)
    requires Known(users, u.(topic := DEFAULT_TOPIC), from) && Word(u.topic) && EqualFold(u.topic, DEFAULT_TOPIC)
    ensures Known(users, u, from)
  {
    FoldsTheSame(u.topic, DEFAULT_TOPIC);
    WordIsClean(u.topic);
    TrimClean(DEFAULT_TOPIC);
  }

  lemma TakeOne(at: string, ttl: int, n: NodeState, a: string, from: string, now: int)
    requires Valid(n.hub)
    ensures TakeAll(at, ttl, n, [a], from, now) == Take(at, ttl, n, a, from, now)
  {
    assert [a][1..] == [];
  }

  lemma JoinIsTaken(at: string, ttl: int, n: NodeState, our: string, u: User, from: string, now: int)
    requires Valid(n.hub) && NormCall(at) == at && our != at && Tellable(our, u) && KeyOf(u) !in n.hub.users
    requires Fresh(n.seen, [EncodeJoin(our, u.call, u.name, u.qth)], now)
    ensures
      Known(Take(at, ttl, n, EncodeJoin(our, u.call, u.name, u.qth), from, now).hub.users, u.(topic := DEFAULT_TOPIC), from)
  {
    var join := EncodeJoin(our, u.call, u.name, u.qth);
    assert [join][0] == join;
    JoinTells(our, u);
    JoinTakes(n.hub, our, u, from, now);
    TakeTells(at, ttl, n, join, KeyOf(u), from, now);
  }

  lemma TopicIsTaken(at: string, ttl: int, n: NodeState, our: string, u: User, from: string, now: int)
    requires Valid(n.hub) && NormCall(at) == at && our != at && Tellable(our, u)
    requires Known(n.hub.users, u.(topic := DEFAULT_TOPIC), from)
    requires Fresh(n.seen, [EncodeTopic(our, u.call, u.topic)], now)
    ensures Known(Take(at, ttl, n, EncodeTopic(our, u.call, u.topic), from, now).hub.users, u, from)
  {
    var topic := EncodeTopic(our, u.call, u.topic);
    assert [topic][0] == topic;
    TopicTells(our, u);
    TopicTakes(n.hub, our, u, from, now);
    TakeTells(at, ttl, n, topic, KeyOf(u), from, now);
  }

  lemma FreshAfterJoin(at: string, ttl: int, n: NodeState, our: string, u: User, from: string, now: int)
    requires Valid(n.hub) && NormCall(at) == at && our != at && Tellable(our, u)
    requires Fresh(n.seen, [EncodeTopic(our, u.call, u.topic)], now)
    ensures Fresh(Take(at, ttl, n, EncodeJoin(our, u.call, u.name, u.qth), from, now).seen,
                  [EncodeTopic(our, u.call, u.topic)], now)
  {
    var join, topic := EncodeJoin(our, u.call, u.name, u.qth), EncodeTopic(our, u.call, u.topic);
    JoinTells(our, u);
    TopicTells(our, u);
    TellsItsKey(n.hub, join, KeyOf(u));
    TakeTells(at, ttl, n, join, KeyOf(u), from, now);
    assert [topic][0] == topic;
    StillFresh(n.seen, ttl, now, join, topic);
  }

  lemma TakeTwo(at: string, ttl: int, n: NodeState, a: string, b: string, from: string, now: int)
    requires Valid(n.hub)
    ensures TakeAll(at, ttl, n, [a, b], from, now) == Take(at, ttl, Take(at, ttl, n, a, from, now), b, from, now)
  {
    assert [a] + [b] == [a, b];
    TakeBoth(at, ttl, n, [a], [b], from, now);
    TakeOne(at, ttl, n, a, from, now);
    TakeOne(at, ttl, Take(at, ttl, n, a, from, now), b, from, now);
  }

  lemma BothAreTaken(at: string, ttl: int, n: NodeState, our: string, u: User, from: string, now: int)
    requires Valid(n.hub) && NormCall(at) == at && our != at && Tellable(our, u) && KeyOf(u) !in n.hub.users
    requires Fresh(n.seen, [EncodeJoin(our, u.call, u.name, u.qth)], now)
    requires Fresh(n.seen, [EncodeTopic(our, u.call, u.topic)], now)
    ensures
      var lines := [EncodeJoin(our, u.call, u.name, u.qth), EncodeTopic(our, u.call, u.topic)];
      Known(TakeAll(at, ttl, n, lines, from, now).hub.users, u, from)
  {
    var join, topic := EncodeJoin(our, u.call, u.name, u.qth), EncodeTopic(our, u.call, u.topic);
    JoinIsTaken(at, ttl, n, our, u, from, now);
    FreshAfterJoin(at, ttl, n, our, u, from, now);
    TopicIsTaken(at, ttl, Take(at, ttl, n, join, from, now), our, u, from, now);
    TakeTwo(at, ttl, n, join, topic, from, now);
  }

  lemma FreshEach(seen: map<Key, int>, raws: seq<string>, now: int, i: nat)
    requires Fresh(seen, raws, now) && i < |raws|
    ensures Fresh(seen, [raws[i]], now)
  {
  }

  /** What a user is told by, taken in full. */
  lemma UserIsTaken(at: string, ttl: int, n: NodeState, our: string, u: User, from: string, now: int)
    requires Valid(n.hub) && NormCall(at) == at && our != at && Tellable(our, u) && KeyOf(u) !in n.hub.users
    requires Fresh(n.seen, TellUser(our, u), now)
    ensures Known(TakeAll(at, ttl, n, TellUser(our, u), from, now).hub.users, u, from)
  {
    var join := EncodeJoin(our, u.call, u.name, u.qth);
    FreshEach(n.seen, TellUser(our, u), now, 0);
    if EqualFold(u.topic, DEFAULT_TOPIC) {
      JoinIsTaken(at, ttl, n, our, u, from, now);
      DefaultNeedsNoTopic(Take(at, ttl, n, join, from, now).hub.users, u, from);
      TakeOne(at, ttl, n, join, from, now);
    } else {
      FreshEach(n.seen, TellUser(our, u), now, 1);
      BothAreTaken(at, ttl, n, our, u, from, now);
    }
  }

  // ---- the seen-set ----

  /** None of the lines was seen within the time to live. */
  ghost predicate Fresh(seen: map<Key, int>, raws: seq<string>, now: int) {
    forall i :: 0 <= i < |raws| ==> |raws[i]| >= 2 && !Live(seen, LineKey(raws[i]), now)
  }

  lemma StillFresh(seen: map<Key, int>, ttl: int, now: int, line: string, other: string)
    requires |line| >= 2 && |other| >= 2 && line != other
    ensures Live(SeenSets.Record(seen, ttl, LineKey(line), now), LineKey(other), now) <==> Live(seen, LineKey(other), now)
  {
  }

  // ---- the whole list ----

  /** The line tells of one of the users. */
  ghost predicate TellsOf(raw: string, keys: set<UserKey>) { exists k :: k in keys && Tells(raw, k) }

  ghost predicate AllTellOf(raws: seq<string>, keys: set<UserKey>) {
    forall i :: 0 <= i < |raws| ==> TellsOf(raws[i], keys)
  }

  predicate NoneOf(at: string, keys: set<UserKey>) { forall k :: k in keys ==> k.node != at }

  /** Lines that tell of some users touch no other. */
  lemma {:induction false} TakeAllTouches(at: string, ttl: int, n: NodeState, raws: seq<string>, keys: set<UserKey>,
                                          from: string, now: int, j: UserKey)
    requires Valid(n.hub) && NormCall(at) == at && NoneOf(at, keys) && AllTellOf(raws, keys) && j !in keys
    ensures SameAt(n.hub.users, TakeAll(at, ttl, n, raws, from, now).hub.users, j)
    decreases |raws|
  {
    if raws != [] {
      assert TellsOf(raws[0], keys);
      var k :| k in keys && Tells(raws[0], k);
      TakeTouchesSender(at, ttl, n, raws[0], k, from, now, j);
      RestTells(raws, keys);
      TakeAllTouches(at, ttl, Take(at, ttl, n, raws[0], from, now), raws[1..], keys, from, now, j);
    }
  }

  lemma RestTells(raws: seq<string>, keys: set<UserKey>)
    requires AllTellOf(raws, keys) && raws != []
    ensures AllTellOf(raws[1..], keys)
  {
    forall i | 0 <= i < |raws[1..]|
      ensures TellsOf(raws[1..][i], keys)
    {
      assert raws[1..][i] == raws[i + 1];
    }
  }

  lemma FirstTells(raws: seq<string>, keys: set<UserKey>) returns (k: UserKey)
    requires AllTellOf(raws, keys) && raws != []
    ensures k in keys && Tells(raws[0], k) && |raws[0]| >= 2
  {
    assert TellsOf(raws[0], keys);
    k :| k in keys && Tells(raws[0], k);
  }

  /** They are recorded as seen from now, and no other line is. */
  lemma {:induction false} TakeAllMarks(at: string, ttl: int, n: NodeState, raws: seq<string>, keys: set<UserKey>,
                                        from: string, now: int, line: string)
    requires Valid(n.hub) && NormCall(at) == at && NoneOf(at, keys) && AllTellOf(raws, keys) && |line| >= 2 && ttl > 0
    ensures
      var seen' := TakeAll(at, ttl, n, raws, from, now).seen;
      if line in raws then LineKey(line) in seen' && seen'[LineKey(line)] == now + ttl
      else Live(seen', LineKey(line), now) <==> Live(n.seen, LineKey(line), now)
    decreases |raws|
  {
    if raws != [] {
      var k := FirstTells(raws, keys);
      TakeTells(at, ttl, n, raws[0], k, from, now);
      var n1 := Take(at, ttl, n, raws[0], from, now);
      RestTells(raws, keys);
      TakeAllMarks(at, ttl, n1, raws[1..], keys, from, now, line);
      if line != raws[0] {
        StillFresh(n.seen, ttl, now, raws[0], line);
      } else if line !in raws[1..] {
        KeepsMark(at, ttl, n1, raws[1..], keys, from, now, line, now + ttl);
      }
    }
  }

  /** An entry that has not expired is left alone by other lines. */
  lemma {:induction false} KeepsMark(at: string, ttl: int, n: NodeState, raws: seq<string>, keys: set<UserKey>,
                                     from: string, now: int, line: string, until: int)
    requires Valid(n.hub) && NormCall(at) == at && NoneOf(at, keys) && AllTellOf(raws, keys)
    requires |line| >= 2 && line !in raws && LineKey(line) in n.seen && n.seen[LineKey(line)] == until > now
    ensures
      var seen' := TakeAll(at, ttl, n, raws, from, now).seen;
      LineKey(line) in seen' && seen'[LineKey(line)] == until
    decreases |raws|
  {
    if raws != [] {
      var k := FirstTells(raws, keys);
      TakeTells(at, ttl, n, raws[0], k, from, now);
      RestTells(raws, keys);
      KeepsMark(at, ttl, Take(at, ttl, n, raws[0], from, now), raws[1..], keys, from, now, line, until);
    }
  }

  function OwnKeys(our: string, users: seq<User>): set<UserKey> {
    set i | 0 <= i < |users| && users[i].origin.node == our :: KeyOf(users[i])
  }

  /** Each user is listed once, and those of ours the wire carries. */
  predicate Listing(our: string, users: seq<User>) {
    && (forall i, j :: 0 <= i < j < |users| ==> KeyOf(users[i]) != KeyOf(users[j]))
    && (forall i :: 0 <= i < |users| && users[i].origin.node == our ==> Tellable(our, users[i]))
  }

  lemma BothTell(a: seq<string>, b: seq<string>, keys: set<UserKey>)
    requires AllTellOf(a, keys) && AllTellOf(b, keys)
    ensures AllTellOf(a + b, keys)
  {
  }

  lemma OneTells(raw: string, k: UserKey)
    requires Tells(raw, k)
    ensures AllTellOf([raw], {k})
  {
  }

  lemma TellUserTells(our: string, u: User)
    requires Tellable(our, u)
    ensures AllTellOf(TellUser(our, u), {KeyOf(u)})
  {
    JoinTells(our, u);
    TopicTells(our, u);
    OneTells(EncodeJoin(our, u.call, u.name, u.qth), KeyOf(u));
    OneTells(EncodeTopic(our, u.call, u.topic), KeyOf(u));
    BothTell([EncodeJoin(our, u.call, u.name, u.qth)], [EncodeTopic(our, u.call, u.topic)], {KeyOf(u)});
  }

  lemma MoreKeys(raws: seq<string>, keys: set<UserKey>, more: set<UserKey>)
    requires AllTellOf(raws, keys) && keys <= more
    ensures AllTellOf(raws, more)
  {
    forall i | 0 <= i < |raws|
      ensures TellsOf(raws[i], more)
    {
      assert TellsOf(raws[i], keys);
    }
  }

  lemma RestIsListing(our: string, users: seq<User>)
    requires Listing(our, users) && users != []
    ensures Listing(our, users[1..])
    ensures OwnKeys(our, users) == OwnKeys(our, users[1..]) + if users[0].origin.node == our then {KeyOf(users[0])} else {}
    ensures KeyOf(users[0]) !in OwnKeys(our, users[1..])
  {
    assert forall i :: 0 <= i < |users| - 1 ==> users[1..][i] == users[i + 1];
    forall k
      ensures k in OwnKeys(our, users)
        <==> k in OwnKeys(our, users[1..]) || (users[0].origin.node == our && k == KeyOf(users[0]))
    {
      if k in OwnKeys(our, users) {
        var i :| 0 <= i < |users| && users[i].origin.node == our && KeyOf(users[i]) == k;
        assert i > 0 ==> users[1..][i - 1] == users[i];
      }
      if k in OwnKeys(our, users[1..]) {
        var i :| 0 <= i < |users[1..]| && users[1..][i].origin.node == our && KeyOf(users[1..][i]) == k;
        assert users[i + 1] == users[1..][i];
      }
    }
  }

  lemma {:induction false} TellTells(our: string, users: seq<User>)
    requires Listing(our, users)
    ensures AllTellOf(Tell(our, users), OwnKeys(our, users))
    decreases |users|
  {
    if users != [] {
      RestIsListing(our, users);
      TellTells(our, users[1..]);
      MoreKeys(Tell(our, users[1..]), OwnKeys(our, users[1..]), OwnKeys(our, users));
      if users[0].origin.node == our {
        TellUserTells(our, users[0]);
        MoreKeys(TellUser(our, users[0]), {KeyOf(users[0])}, OwnKeys(our, users));
        BothTell(TellUser(our, users[0]), Tell(our, users[1..]), OwnKeys(our, users));
      }
    }
  }

  /** A line tells of one user only. */
  lemma TellsOfOne(raw: string, k: UserKey, other: string, keys: set<UserKey>)
    requires TellsOf(raw, {k}) && TellsOf(other, keys) && k !in keys
    ensures raw != other
  {
  }

  lemma NotAmong(raws: seq<string>, k: UserKey, other: string, keys: set<UserKey>)
    requires AllTellOf(raws, {k}) && TellsOf(other, keys) && k !in keys
    ensures other !in raws
  {
    forall i | 0 <= i < |raws|
      ensures raws[i] != other
    {
      TellsOfOne(raws[i], k, other, keys);
    }
  }

  lemma FreshParts(seen: map<Key, int>, a: seq<string>, b: seq<string>, now: int)
    requires Fresh(seen, a + b, now)
    ensures Fresh(seen, a, now) && Fresh(seen, b, now)
  {
    assert forall i :: 0 <= i < |a| ==> (a + b)[i] == a[i];
    assert forall i :: 0 <= i < |b| ==> (a + b)[|a| + i] == b[i];
  }

  lemma FreshAfterUser(at: string, ttl: int, n: NodeState, raws: seq<string>, k: UserKey, rest: seq<string>,
                       keys: set<UserKey>, from: string, now: int)
    requires Valid(n.hub) && NormCall(at) == at && k.node != at && AllTellOf(raws, {k}) && ttl > 0
    requires AllTellOf(rest, keys) && k !in keys && Fresh(n.seen, rest, now)
    ensures Fresh(TakeAll(at, ttl, n, raws, from, now).seen, rest, now)
  {
    forall i | 0 <= i < |rest|
      ensures |rest[i]| >= 2 && !Live(TakeAll(at, ttl, n, raws, from, now).seen, LineKey(rest[i]), now)
    {
      assert TellsOf(rest[i], keys);
      NotAmong(raws, k, rest[i], keys);
      TakeAllMarks(at, ttl, n, raws, {k}, from, now, rest[i]);
    }
  }

  /** Nobody of the list is known yet. */
  ghost predicate AllAbsent(users: map<UserKey, User>, our: string, told: seq<User>) {
    forall i :: 0 <= i < |told| && told[i].origin.node == our ==> KeyOf(told[i]) !in users
  }

  ghost predicate AllKnown(users: map<UserKey, User>, our: string, told: seq<User>, from: string) {
    forall i :: 0 <= i < |told| && told[i].origin.node == our ==> Known(users, told[i], from)
  }

  lemma AbsentAfterUser(at: string, ttl: int, n: NodeState, our: string, users: seq<User>, from: string, now: int)
    requires Valid(n.hub) && NormCall(at) == at && our != at && Listing(our, users) && users != []
    requires users[0].origin.node == our && AllAbsent(n.hub.users, our, users)
    ensures AllAbsent(TakeAll(at, ttl, n, TellUser(our, users[0]), from, now).hub.users, our, users[1..])
  {
    var u, rest := users[0], users[1..];
    TellUserTells(our, u);
    forall i | 0 <= i < |rest| && rest[i].origin.node == our
      ensures KeyOf(rest[i]) !in TakeAll(at, ttl, n, TellUser(our, u), from, now).hub.users
    {
      assert rest[i] == users[i + 1];
      TakeAllTouches(at, ttl, n, TellUser(our, u), {KeyOf(u)}, from, now, KeyOf(rest[i]));
    }
  }

  lemma KnownAfterRest(at: string, ttl: int, n: NodeState, our: string, users: seq<User>, from: string, now: int)
    requires Valid(n.hub) && NormCall(at) == at && our != at && Listing(our, users) && users != []
    requires users[0].origin.node == our && Known(n.hub.users, users[0], from)
    ensures Known(TakeAll(at, ttl, n, Tell(our, users[1..]), from, now).hub.users, users[0], from)
  {
    RestIsListing(our, users);
    TellTells(our, users[1..]);
    TakeAllTouches(at, ttl, n, Tell(our, users[1..]), OwnKeys(our, users[1..]), from, now, KeyOf(users[0]));
  }

  lemma AllKnownOneMore(users: map<UserKey, User>, our: string, told: seq<User>, from: string)
    requires told != [] && AllKnown(users, our, told[1..], from)
    requires told[0].origin.node == our ==> Known(users, told[0], from)
    ensures AllKnown(users, our, told, from)
  {
    assert forall i :: 0 < i < |told| ==> told[i] == told[1..][i - 1];
  }

  lemma AbsentRest(users: map<UserKey, User>, our: string, told: seq<User>)
    requires told != [] && AllAbsent(users, our, told)
    ensures AllAbsent(users, our, told[1..])
    ensures told[0].origin.node == our ==> KeyOf(told[0]) !in users
  {
    assert forall i :: 0 < i < |told| ==> told[i] == told[1..][i - 1];
  }

  /** Told on a link of users it does not know, by lines it has not seen within the time to live, a
      peer then knows every one of them. */
  lemma {:induction false} TellIsTaken(at: string, ttl: int, n: NodeState, our: string, users: seq<User>, from: string, now: int)
    requires Valid(n.hub) && NormCall(at) == at && our != at && ttl > 0 && Listing(our, users)
    requires Fresh(n.seen, Tell(our, users), now) && AllAbsent(n.hub.users, our, users)
    ensures AllKnown(TakeAll(at, ttl, n, Tell(our, users), from, now).hub.users, our, users, from)
    decreases |users|
  {
    if users != [] {
      RestIsListing(our, users);
      AbsentRest(n.hub.users, our, users);
      if users[0].origin.node == our {
        FirstIsTaken(at, ttl, n, our, users, from, now);
        var n1 := TakeAll(at, ttl, n, TellUser(our, users[0]), from, now);
        TellIsTaken(at, ttl, n1, our, users[1..], from, now);
        KnownAfterRest(at, ttl, n1, our, users, from, now);
        TakeBoth(at, ttl, n, TellUser(our, users[0]), Tell(our, users[1..]), from, now);
      } else {
        assert Tell(our, users) == Tell(our, users[1..]);
        TellIsTaken(at, ttl, n, our, users[1..], from, now);
      }
      AllKnownOneMore(TakeAll(at, ttl, n, Tell(our, users), from, now).hub.users, our, users, from);
    }
  }

  lemma FirstIsTaken(at: string, ttl: int, n: NodeState, our: string, users: seq<User>, from: string, now: int)
    requires Valid(n.hub) && NormCall(at) == at && our != at && ttl > 0 && Listing(our, users) && users != []
    requires users[0].origin.node == our
    requires Fresh(n.seen, Tell(our, users), now) && AllAbsent(n.hub.users, our, users)
    ensures
      var n1 := TakeAll(at, ttl, n, TellUser(our, users[0]), from, now);
      && Known(n1.hub.users, users[0], from) && AllAbsent(n1.hub.users, our, users[1..])
      && Fresh(n1.seen, Tell(our, users[1..]), now)
  {
    var u := users[0];
    FreshParts(n.seen, TellUser(our, u), Tell(our, users[1..]), now);
    UserIsTaken(at, ttl, n, our, u, from, now);
    AbsentAfterUser(at, ttl, n, our, users, from, now);
    TellUserTells(our, u);
    RestIsListing(our, users);
    TellTells(our, users[1..]);
    FreshAfterUser(at, ttl, n, TellUser(our, u), KeyOf(u), Tell(our, users[1..]), OwnKeys(our, users[1..]), from, now);
  }

  // ---- a link that comes back ----

  /** All of the lines were seen within the time to live. */
  ghost predicate Stale(seen: map<Key, int>, raws: seq<string>, now: int) {
    forall i :: 0 <= i < |raws| ==> |raws[i]| >= 2 && Live(seen, LineKey(raws[i]), now)
  }

  lemma {:induction false} StaleTellsNothing(at: string, ttl: int, n: NodeState, raws: seq<string>, keys: set<UserKey>,
                                             from: string, now: int)
    requires Valid(n.hub) && NormCall(at) == at && NoneOf(at, keys) && AllTellOf(raws, keys) && ttl > 0
    requires Stale(n.seen, raws, now)
    ensures TakeAll(at, ttl, n, raws, from, now).hub == n.hub
    decreases |raws|
  {
    if raws != [] {
      var k := FirstTells(raws, keys);
      TakeTells(at, ttl, n, raws[0], k, from, now);
      RestTells(raws, keys);
      var n1 := Take(at, ttl, n, raws[0], from, now);
      forall i | 0 <= i < |raws[1..]|
        ensures |raws[1..][i]| >= 2 && Live(n1.seen, LineKey(raws[1..][i]), now)
      {
        assert raws[1..][i] == raws[i + 1];
      }
      StaleTellsNothing(at, ttl, n1, raws[1..], keys, from, now);
    }
  }

  lemma EnsureKeepsNodes(h: State, rec: Record, from: string, now: int)
    requires Tabled(h)
    ensures EnsureUser(h, rec, from, now).state.nodes == h.nodes
  {
  }

  lemma MoveKeepsNodes(h: State, key: UserKey, name: string)
    requires Tabled(h)
    ensures SetTopic(h, key, name).state.nodes == h.nodes
  {
  }

  lemma ActKeepsNodes(h: State, rec: Record, now: int)
    requires Tabled(h) && (rec.typ == ID_JOIN || rec.typ == ID_TOPIC)
    ensures Act(h, rec, now).state.nodes == h.nodes
  {
    if rec.typ == ID_TOPIC {
      MoveKeepsNodes(h, SenderKey(rec), rec.Field(0));
    } else {
      HubLaws.SetInfoSets(h, SenderKey(rec), UnDash(rec.Field(0)), UnDash(rec.Field(1)));
    }
  }

  lemma ApplyKeepsNodes(h: State, rec: Record, from: string, now: int)
    requires Tabled(h) && (rec.typ == ID_JOIN || rec.typ == ID_TOPIC)
    ensures ApplyState(h, rec, from, now).nodes == h.nodes
  {
    AppliedInStages(h, rec, from, now);
    EnsureKeepsNodes(h, rec, from, now);
    ActKeepsNodes(EnsureUser(h, rec, from, now).state, rec, now);
  }

  lemma {:induction false} TakeAllKeepsNodes(at: string, ttl: int, n: NodeState, raws: seq<string>, keys: set<UserKey>,
                                             from: string, now: int)
    requires Valid(n.hub) && NormCall(at) == at && NoneOf(at, keys) && AllTellOf(raws, keys)
    ensures TakeAll(at, ttl, n, raws, from, now).hub.nodes == n.hub.nodes
    decreases |raws|
  {
    if raws != [] {
      var k := FirstTells(raws, keys);
      TakeTells(at, ttl, n, raws[0], k, from, now);
      ApplyKeepsNodes(n.hub, Decode(raws[0]).value, from, now);
      RestTells(raws, keys);
      TakeAllKeepsNodes(at, ttl, Take(at, ttl, n, raws[0], from, now), raws[1..], keys, from, now);
    }
  }

  /** A link to `our` comes up: the node is entered and what it tells is taken. */
  function LinkUp(at: string, ttl: int, n: NodeState, our: string, version: string, users: seq<User>, now: int): (n': NodeState)
    requires Valid(n.hub)
    ensures Valid(n'.hub)
  {
    LinkNodeKeeps(n.hub, our, "", version, now);
    TakeAll(at, ttl, n.(hub := LinkNode(n.hub, our, "", version, now).state), Tell(our, users), our, now)
  }

  /** It goes down: the node is dropped with everybody learned through it. */
  function LinkDown(n: NodeState, our: string): (n': NodeState)
    requires Valid(n.hub)
    ensures Valid(n'.hub)
  {
    UnlinkNodeKeeps(n.hub, our);
    n.(hub := UnlinkNode(n.hub, our))
  }

  lemma OwnAreElsewhere(at: string, our: string, users: seq<User>)
    requires our != at
    ensures NoneOf(at, OwnKeys(our, users))
  {
  }

  lemma UpEntersNode(at: string, ttl: int, n: NodeState, our: string, version: string, users: seq<User>, now: int)
    requires Valid(n.hub) && NormCall(at) == at && our != at && NormCall(our) == our != "" && Listing(our, users)
    ensures our in LinkUp(at, ttl, n, our, version, users, now).hub.nodes
  {
    LinkNodeKeeps(n.hub, our, "", version, now);
    OwnAreElsewhere(at, our, users);
    TellTells(our, users);
    TakeAllKeepsNodes(at, ttl, n.(hub := LinkNode(n.hub, our, "", version, now).state), Tell(our, users),
                      OwnKeys(our, users), our, now);
  }

  /** Every line told is recorded as seen until a time to live later. */
  ghost predicate MarkedUntil(seen: map<Key, int>, raws: seq<string>, until: int) {
    forall i :: 0 <= i < |raws| ==> |raws[i]| >= 2 && LineKey(raws[i]) in seen && seen[LineKey(raws[i])] == until
  }

  lemma TellMarks(at: string, ttl: int, n: NodeState, our: string, users: seq<User>, from: string, now: int)
    requires Valid(n.hub) && NormCall(at) == at && our != at && ttl > 0 && Listing(our, users)
    ensures MarkedUntil(TakeAll(at, ttl, n, Tell(our, users), from, now).seen, Tell(our, users), now + ttl)
  {
    OwnAreElsewhere(at, our, users);
    TellTells(our, users);
    var raws := Tell(our, users);
    forall i | 0 <= i < |raws|
      ensures
        var seen' := TakeAll(at, ttl, n, raws, from, now).seen;
        |raws[i]| >= 2 && LineKey(raws[i]) in seen' && seen'[LineKey(raws[i])] == now + ttl
    {
      assert TellsOf(raws[i], OwnKeys(our, users));
      TakeAllMarks(at, ttl, n, raws, OwnKeys(our, users), from, now, raws[i]);
    }
  }

  lemma MarksDecide(seen: map<Key, int>, raws: seq<string>, until: int, now: int)
    requires MarkedUntil(seen, raws, until)
    ensures if now < until then Stale(seen, raws, now) else Fresh(seen, raws, now)
  {
  }

  lemma DownForgets(n: NodeState, our: string, k: UserKey)
    requires Valid(n.hub) && NormCall(our) == our && our in n.hub.nodes && k.node == our
    ensures k !in LinkDown(n, our).hub.users
  {
    ValidIsHomed(n.hub);
  }

  lemma DownForgetsAll(n: NodeState, our: string, users: seq<User>)
    requires Valid(n.hub) && NormCall(our) == our && our in n.hub.nodes
    ensures AllAbsent(LinkDown(n, our).hub.users, our, users)
  {
    forall i | 0 <= i < |users| && users[i].origin.node == our
      ensures KeyOf(users[i]) !in LinkDown(n, our).hub.users
    {
      DownForgets(n, our, KeyOf(users[i]));
    }
  }

  lemma UpMarks(at: string, ttl: int, n: NodeState, our: string, version: string, users: seq<User>, now: int)
    requires Valid(n.hub) && NormCall(at) == at && our != at && ttl > 0 && Listing(our, users)
    ensures MarkedUntil(LinkUp(at, ttl, n, our, version, users, now).seen, Tell(our, users), now + ttl)
  {
    LinkNodeKeeps(n.hub, our, "", version, now);
    TellMarks(at, ttl, n.(hub := LinkNode(n.hub, our, "", version, now).state), our, users, our, now);
  }

  lemma EnteringTouchesNobody(h: State, our: string, version: string, now: int)
    requires Valid(h)
    ensures
      var h' := LinkNode(h, our, "", version, now).state;
      Valid(h') && h'.users == h.users
  {
    LinkNodeKeeps(h, our, "", version, now);
  }

  /** A link-up within the time to live of the last: nothing it tells is taken. */
  lemma UpTooSoon(at: string, ttl: int, n: NodeState, our: string, version: string, users: seq<User>, now: int)
    requires Valid(n.hub) && NormCall(at) == at && our != at && ttl > 0 && Listing(our, users)
    requires Stale(n.seen, Tell(our, users), now)
    ensures LinkUp(at, ttl, n, our, version, users, now).hub.users == n.hub.users
  {
    EnteringTouchesNobody(n.hub, our, version, now);
    OwnAreElsewhere(at, our, users);
    TellTells(our, users);
    StaleTellsNothing(at, ttl, n.(hub := LinkNode(n.hub, our, "", version, now).state), Tell(our, users),
                      OwnKeys(our, users), our, now);
  }

  /** One that tells of nobody known, by lines not seen: everybody is known. */
  lemma UpInTime(at: string, ttl: int, n: NodeState, our: string, version: string, users: seq<User>, now: int)
    requires Valid(n.hub) && NormCall(at) == at && our != at && ttl > 0 && Listing(our, users)
    requires Fresh(n.seen, Tell(our, users), now) && AllAbsent(n.hub.users, our, users)
    ensures AllKnown(LinkUp(at, ttl, n, our, version, users, now).hub.users, our, users, our)
  {
    EnteringTouchesNobody(n.hub, our, version, now);
    TellIsTaken(at, ttl, n.(hub := LinkNode(n.hub, our, "", version, now).state), our, users, our, now);
  }

  /** A node's users at a peer: those told, and no others. */
  ghost predicate Mirrors(before: map<UserKey, User>, users: map<UserKey, User>, our: string, told: seq<User>) {
    && AllKnown(users, our, told, our)
    && (forall k: UserKey :: k.node == our ==> (k in users <==> k in OwnKeys(our, told)))
    && (forall k: UserKey :: k.node != our ==> SameAt(before, users, k))
  }

  /** The promise of a link-up: a peer that knows nobody of a node, and has not seen the lines within
      the time to live, ends up with exactly the users it is told, each with name, QTH and topic, and
      with everybody else as before. */
  lemma UpMirrors(at: string, ttl: int, n: NodeState, our: string, version: string, users: seq<User>, now: int)
    requires Valid(n.hub) && NormCall(at) == at && our != at && ttl > 0 && Listing(our, users)
    requires Fresh(n.seen, Tell(our, users), now) && forall k :: k in n.hub.users ==> k.node != our
    ensures Mirrors(n.hub.users, LinkUp(at, ttl, n, our, version, users, now).hub.users, our, users)
  {
    UpInTime(at, ttl, n, our, version, users, now);
    EnteringTouchesNobody(n.hub, our, version, now);
    OwnAreElsewhere(at, our, users);
    TellTells(our, users);
    var up := n.(hub := LinkNode(n.hub, our, "", version, now).state);
    var users' := LinkUp(at, ttl, n, our, version, users, now).hub.users;
    forall k: UserKey | k !in OwnKeys(our, users)
      ensures SameAt(n.hub.users, users', k)
    {
      TakeAllTouches(at, ttl, up, Tell(our, users), OwnKeys(our, users), our, now, k);
    }
    OwnAreKnown(users', our, users);
  }

  lemma OwnAreKnown(users: map<UserKey, User>, our: string, told: seq<User>)
    requires AllKnown(users, our, told, our)
    ensures forall k :: k in OwnKeys(our, told) ==> k in users && k.node == our
  {
  }

  /** A link comes up, goes down and comes up again, and the same users are told both times: the peer
      has them back if and only if the time to live has run out since the first time. Before that the
      told lines are duplicates, and none of those users is there. */
  lemma RelinkRestoresIff(at: string, ttl: int, n: NodeState, our: string, version: string, users: seq<User>, first: int, again: int)
    requires Valid(n.hub) && NormCall(at) == at && our != at && NormCall(our) == our != "" && ttl > 0
    requires Listing(our, users) && OwnKeys(our, users) != {}
    ensures
      var down := LinkDown(LinkUp(at, ttl, n, our, version, users, first), our);
      var users' := LinkUp(at, ttl, down, our, version, users, again).hub.users;
      && (AllKnown(users', our, users, our) <==> again >= first + ttl)
      && (again < first + ttl ==> AllAbsent(users', our, users))
  {
    var up := LinkUp(at, ttl, n, our, version, users, first);
    UpEntersNode(at, ttl, n, our, version, users, first);
    UpMarks(at, ttl, n, our, version, users, first);
    DownForgetsAll(up, our, users);
    MarksDecide(up.seen, Tell(our, users), first + ttl, again);
    if again < first + ttl {
      UpTooSoon(at, ttl, LinkDown(up, our), our, version, users, again);
      SomebodyIsTold(LinkDown(up, our).hub.users, our, users);
    } else {
      UpInTime(at, ttl, LinkDown(up, our), our, version, users, again);
    }
  }

  lemma SomebodyIsTold(users: map<UserKey, User>, our: string, told: seq<User>)
    requires OwnKeys(our, told) != {} && AllAbsent(users, our, told)
    ensures !AllKnown(users, our, told, our)
  {
    var k :| k in OwnKeys(our, told);
  }
}
