/** The hub's state as a value, and what each operation makes of it. */
module HubSpec {
  import opened Text
  import opened Chat
  import opened Sums
  import opened Index

  /** The present users, topic display names by key, members by topic key, and known nodes. */
  datatype State = State(users: map<UserKey, User>, topics: map<string, string>,
                         member: map<string, set<UserKey>>, nodes: map<string, Node>)

  datatype Effect<R> = Effect(state: State, events: seq<Event>, reply: Reply<R>)

  // ---- invariants ----

  /** A topic's display name folds to its key. */
  predicate TopicsValid(topics: map<string, string>) {
    forall t :: t in topics ==> TopicKey(topics[t]) == t && Lower(topics[t]) == t
  }

  /** A user is filed under its own canonical key and carries a topic's display name. */
  predicate UserValid(u: User, k: UserKey, topics: map<string, string>) {
    && KeyOf(u) == k && CanonKey(k) == k && k.call != "" && k.node != ""
    && TopicKey(u.topic) in topics && topics[TopicKey(u.topic)] == u.topic
  }

  predicate UsersValid(users: map<UserKey, User>, topics: map<string, string>) {
    forall k :: k in users ==> UserValid(users[k], k, topics)
  }

  /** The topic key of every present user. */
  function Homes(users: map<UserKey, User>): map<UserKey, string> {
    map k | k in users :: TopicKey(users[k].topic)
  }

  /** What every run keeps, re-joins included. */
  predicate Valid(h: State) {
    && h.topics.Keys == h.member.Keys
    && TopicsValid(h.topics)
    && UsersValid(h.users, h.topics)
    && Files(Homes(h.users), h.member)
  }

  /** The membership index holds nothing but the present users of each topic. */
  predicate Indexed(h: State) {
    Valid(h) && Exact(Homes(h.users), h.member)
  }

  /** The users whose topic folds to `t`. */
  function InTopic(h: State, t: string): set<UserKey> {
    set k | k in h.users && TopicKey(h.users[k].topic) == t
  }

  // ---- operations ----

  /** Whether the topic table and the member sets are in step. */
  predicate Tabled(h: State) { h.topics.Keys == h.member.Keys && TopicsValid(h.topics) }

  function EnsureTopic(h: State, name: string): State {
    var t := TopicKey(name);
    if t in h.topics then h else h.(topics := h.topics[t := Trim(name)], member := h.member[t := {}])
  }

  lemma EnsureTopicTabled(h: State, name: string)
    requires Tabled(h)
    ensures
      var r := EnsureTopic(h, name);
      Tabled(r) && TopicKey(name) in r.topics && TopicKey(r.topics[TopicKey(name)]) == TopicKey(name)
  {
    TrimIdempotent(name);
  }

  function NewState(): (h: State)
    ensures Indexed(h) && h.users == map[] && h.nodes == map[]
  {
    EnsureTopicTabled(State(map[], map[], map[], map[]), DEFAULT_TOPIC);
    EnsureTopic(State(map[], map[], map[], map[]), DEFAULT_TOPIC)
  }

  /** `u` written under `k` into the user table and into its topic's member set. */
  function FileUser(h: State, k: UserKey, u: User): State
    requires TopicKey(u.topic) in h.member
  {
    var t := TopicKey(u.topic);
    h.(users := h.users[k := u], member := h.member[t := h.member[t] + {k}])
  }

  /** `k` taken out of the user table and out of its topic's member set. */
  function Without(h: State, k: UserKey): State
    requires k in h.users
  {
    var t := TopicKey(h.users[k].topic);
    h.(users := h.users - {k},
       member := if t in h.member then h.member[t := h.member[t] - {k}] else h.member)
  }

  /** `k` taken out of its topic's member set only. */
  function Unfiled(h: State, k: UserKey): State
    requires k in h.users
  {
    var t := TopicKey(h.users[k].topic);
    h.(member := if t in h.member then h.member[t := h.member[t] - {k}] else h.member)
  }

  /** A blank topic means the default one. */
  function JoinTopic(u: User): string { if u.topic == "" then DEFAULT_TOPIC else u.topic }

  function Join(h: State, u: User, now: int): Effect<User>
    requires Tabled(h)
  {
    if NormCall(u.call) == "" || NormCall(u.origin.node) == "" then Effect(h, [], Err(NoSuchUser))
    else
      EnsureTopicTabled(h, JoinTopic(u));
      var h1 := EnsureTopic(h, JoinTopic(u));
      var stored := u.(call := NormCall(u.call), origin := u.origin.(node := NormCall(u.origin.node)),
                       topic := h1.topics[TopicKey(JoinTopic(u))], joined := now, lastActive := now);
      Effect(FileUser(h1, KeyOf(stored), stored), [UserJoined(stored)], Ok(stored))
  }

  function Leave(h: State, key: UserKey): (State, seq<Event>) {
    var k := CanonKey(key);
    if k in h.users then (Without(h, k), [UserLeft(h.users[k])]) else (h, [])
  }

  function TopicPost(u: User, k: UserKey, text: string, now: int): Message {
    Message(SynthID(k.node, k.call, TopicKind, u.topic, text), k.node, k.call, TopicKind, u.topic, "", now, text)
  }

  /** A post: the message that is recorded as seen, stored and announced. */
  function Post(h: State, key: UserKey, text: string, now: int): Effect<Message> {
    var k := CanonKey(key);
    if Clip(text) == "" then Effect(h, [], Err(EmptyText))
    else if k !in h.users then Effect(h, [], Err(NoSuchUser))
    else
      var m := TopicPost(h.users[k], k, Clip(text), now);
      Effect(h.(users := h.users[k := h.users[k].(lastActive := now)]), [TopicMessage(m)], Ok(m))
  }

  predicate CallPresent(h: State, call: string) {
    exists k :: k in h.users && k.call == call
  }

  function Private(h: State, from: UserKey, toCall: string, text: string, now: int): Effect<Message> {
    var k := CanonKey(from);
    var target := NormCall(toCall);
    if Clip(text) == "" then Effect(h, [], Err(EmptyText))
    else if k !in h.users || !CallPresent(h, target) then Effect(h, [], Err(NoSuchUser))
    else
      var m := Message(SynthID(k.node, k.call, PrivateKind, target, Clip(text)), k.node, k.call, PrivateKind,
                       "", target, now, Clip(text));
      Effect(h, [PrivateMessage(m)], Ok(m))
  }

  function SetTopic(h: State, key: UserKey, name: string): Effect<bool>
    requires Tabled(h)
  {
    var k := CanonKey(key);
    if TopicKey(name) == "" then Effect(h, [], Err(NoSuchTopic))
    else if k !in h.users then Effect(h, [], Err(NoSuchUser))
    else if TopicKey(h.users[k].topic) == TopicKey(name) then Effect(h, [], Ok(false))
    else Moved(h, k, name)
  }

  /** User `k` taken out of its topic and filed under another, which is made if need be. */
  function Moved(h: State, k: UserKey, name: string): Effect<bool>
    requires Tabled(h) && k in h.users
  {
    var h1 := EnsureTopic(Unfiled(h, k), name);
    EnsureTopicTabled(Unfiled(h, k), name);
    var moved := h.users[k].(topic := h1.topics[TopicKey(name)]);
    Effect(FileUser(h1, k, moved), [TopicChanged(moved, h.users[k].topic)], Ok(true))
  }

  function SetInfo(h: State, key: UserKey, name: string, qth: string): Effect<bool> {
    var k := CanonKey(key);
    if k !in h.users then Effect(h, [], Err(NoSuchUser))
    else if h.users[k].name == name && h.users[k].qth == qth then Effect(h, [], Ok(false))
    else
      var u := h.users[k].(name := name, qth := qth);
      Effect(h.(users := h.users[k := u]), [UserInfoChanged(u)], Ok(true))
  }

  function SetFlags(h: State, key: UserKey, flags: Flags): Effect<bool> {
    var k := CanonKey(key);
    if k !in h.users then Effect(h, [], Err(NoSuchUser))
    else if h.users[k].flags == flags then Effect(h, [], Ok(false))
    else
      var u := h.users[k].(flags := flags);
      Effect(h.(users := h.users[k := u]), [UserInfoChanged(u)], Ok(true))
  }

  function LinkNode(h: State, call: string, alias: string, version: string, now: int): Effect<bool> {
    var c := NormCall(call);
    if c == "" then Effect(h, [], Ok(false))
    else if c in h.nodes then
      var n := h.nodes[c].(linked := now, version := if version != "" then version else h.nodes[c].version);
      Effect(h.(nodes := h.nodes[c := n]), [], Ok(false))
    else
      var n := Node(c, alias, version, now);
      Effect(h.(nodes := h.nodes[c := n]), [NodeLinked(n)], Ok(true))
  }

  /** The users a dropped link takes with it. */
  function LearnedVia(h: State, c: string): set<UserKey> {
    set k | k in h.users && (h.users[k].origin.link == c || h.users[k].origin.node == c)
  }

  /** The state after a node is dropped: exactly the users learned via it are gone, each from
      its own topic's member set. */
  function UnlinkNode(h: State, call: string): State {
    var c := NormCall(call);
    if c !in h.nodes then h else
      var gone := LearnedVia(h, c);
      State(h.users - gone, h.topics, Cut(h.member, Homes(h.users), gone), h.nodes - {c})
  }

  /** A sweep of the user table that has dealt with every user but `todo`: the lost ones are
      out of the table and of their topics, and `left` has a record for each. */
  predicate Swept(h: State, c: string, todo: set<UserKey>, users: map<UserKey, User>,
                  member: map<string, set<UserKey>>, left: seq<User>)
  {
    var gone := LearnedVia(h, c) - todo;
    && users == h.users - gone
    && member == Cut(h.member, Homes(h.users), gone)
    && |left| == |gone| && forall k :: k in gone ==> h.users[k] in left
  }

  lemma SweepStarts(h: State, c: string)
    ensures Swept(h, c, h.users.Keys, h.users, h.member, [])
  {
    CutNone(h.member, Homes(h.users));
    assert LearnedVia(h, c) - h.users.Keys == {};
  }

  lemma SweepGoesOn(h: State, c: string, todo: set<UserKey>, users: map<UserKey, User>,
                    member: map<string, set<UserKey>>, left: seq<User>, k: UserKey)
    requires todo <= h.users.Keys && k in todo && Swept(h, c, todo, users, member, left)
    ensures k in users && users[k] == h.users[k]
    ensures
      var u, t := h.users[k], TopicKey(h.users[k].topic);
      if u.origin.link == c || u.origin.node == c
      then Swept(h, c, todo - {k}, users - {k}, if t in member then member[t := member[t] - {k}] else member,
                 left + [u])
      else Swept(h, c, todo - {k}, users, member, left)
  {
    var gone := LearnedVia(h, c) - todo;
    CutOneMore(h.member, Homes(h.users), gone, k);
    if k in LearnedVia(h, c) {
      assert LearnedVia(h, c) - (todo - {k}) == gone + {k};
      assert h.users - (gone + {k}) == h.users - gone - {k};
    } else {
      assert LearnedVia(h, c) - (todo - {k}) == gone;
    }
  }

  /** One departure per lost user, in whatever order the user table yields them, then the node. */
  predicate UnlinkEvents(h: State, call: string, events: seq<Event>) {
    var c := NormCall(call);
    if c !in h.nodes then events == [] else
      && |events| == |LearnedVia(h, c)| + 1
      && (forall k :: k in LearnedVia(h, c) ==> UserLeft(h.users[k]) in events[..|events| - 1])
      && events[|events| - 1] == NodeUnlinked(h.nodes[c])
  }

  // ---- preservation ----

  lemma UsersPut(users: map<UserKey, User>, topics: map<string, string>, k: UserKey, u: User)
    requires UsersValid(users, topics) && UserValid(u, k, topics)
    ensures UsersValid(users[k := u], topics)
    ensures Homes(users[k := u]) == Homes(users)[k := TopicKey(u.topic)]
  {
  }

  lemma UsersCut(users: map<UserKey, User>, topics: map<string, string>, gone: set<UserKey>)
    requires UsersValid(users, topics)
    ensures UsersValid(users - gone, topics)
    ensures Homes(users - gone) == Homes(users) - gone
  {
  }

  lemma NewTopicKeepsUsers(users: map<UserKey, User>, topics: map<string, string>, t: string, name: string)
    requires UsersValid(users, topics) && t !in topics
    ensures UsersValid(users, topics[t := name])
  {
  }

  lemma EnsureTopicKeeps(h: State, name: string)
    requires Valid(h)
    ensures Valid(EnsureTopic(h, name))
    ensures Indexed(h) ==> Indexed(EnsureTopic(h, name))
  {
    EnsureTopicTabled(h, name);
    if TopicKey(name) !in h.topics {
      NewTopicKeepsUsers(h.users, h.topics, TopicKey(name), Trim(name));
      Opened(Homes(h.users), h.member, TopicKey(name));
    }
  }

  lemma FileUserKeeps(h: State, u: User)
    requires Valid(h) && UserValid(u, KeyOf(u), h.topics)
    ensures Valid(FileUser(h, KeyOf(u), u))
    ensures Indexed(h) && KeyOf(u) !in h.users ==> Indexed(FileUser(h, KeyOf(u), u))
  {
    UsersPut(h.users, h.topics, KeyOf(u), u);
    Inserted(Homes(h.users), h.member, KeyOf(u), TopicKey(u.topic));
  }

  lemma WithoutKeeps(h: State, k: UserKey)
    requires Valid(h) && k in h.users
    ensures Valid(Without(h, k))
    ensures Indexed(h) ==> Indexed(Without(h, k))
  {
    UsersCut(h.users, h.topics, {k});
    Removed(Homes(h.users), h.member, k);
  }

  /** A join keeps every user filed; it keeps the index exact when the identity was absent. */
  lemma JoinKeeps(h: State, u: User, now: int)
    requires Valid(h)
    ensures Valid(Join(h, u, now).state)
    ensures Indexed(h) && CanonKey(KeyOf(u)) !in h.users ==> Indexed(Join(h, u, now).state)
  {
    var e := Join(h, u, now);
    if e.reply.Ok? {
      EnsureTopicTabled(h, JoinTopic(u));
      EnsureTopicKeeps(h, JoinTopic(u));
      NormCallIdempotent(u.call);
      NormCallIdempotent(u.origin.node);
      FileUserKeeps(EnsureTopic(h, JoinTopic(u)), e.reply.value);
    }
  }

  lemma LeaveKeeps(h: State, key: UserKey)
    requires Valid(h)
    ensures Valid(Leave(h, key).0)
    ensures Indexed(h) ==> Indexed(Leave(h, key).0)
  {
    if CanonKey(key) in h.users { WithoutKeeps(h, CanonKey(key)); }
  }

  lemma SameHome(home: map<UserKey, string>, k: UserKey, t: string)
    requires k in home && home[k] == t
    ensures home[k := t] == home
  {
  }

  /** Replacing a user record without touching identity or topic. */
  lemma RewriteKeeps(h: State, k: UserKey, u: User)
    requires Valid(h) && k in h.users && KeyOf(u) == k && u.topic == h.users[k].topic
    ensures Valid(h.(users := h.users[k := u]))
    ensures Indexed(h) ==> Indexed(h.(users := h.users[k := u]))
  {
    UsersPut(h.users, h.topics, k, u);
    SameHome(Homes(h.users), k, TopicKey(u.topic));
  }

  lemma PostKeeps(h: State, key: UserKey, text: string, now: int)
    requires Valid(h)
    ensures Valid(Post(h, key, text, now).state)
    ensures Indexed(h) ==> Indexed(Post(h, key, text, now).state)
  {
    var k := CanonKey(key);
    if k in h.users { RewriteKeeps(h, k, h.users[k].(lastActive := now)); }
  }

  lemma SetInfoKeeps(h: State, key: UserKey, name: string, qth: string)
    requires Valid(h)
    ensures Valid(SetInfo(h, key, name, qth).state)
    ensures Indexed(h) ==> Indexed(SetInfo(h, key, name, qth).state)
  {
    var k := CanonKey(key);
    if k in h.users { RewriteKeeps(h, k, h.users[k].(name := name, qth := qth)); }
  }

  lemma SetFlagsKeeps(h: State, key: UserKey, flags: Flags)
    requires Valid(h)
    ensures Valid(SetFlags(h, key, flags).state)
    ensures Indexed(h) ==> Indexed(SetFlags(h, key, flags).state)
  {
    var k := CanonKey(key);
    if k in h.users { RewriteKeeps(h, k, h.users[k].(flags := flags)); }
  }

  lemma PutAfterCut(users: map<UserKey, User>, k: UserKey, u: User)
    ensures (users - {k})[k := u] == users[k := u]
  {
  }

  lemma SetTopicKeeps(h: State, key: UserKey, name: string)
    requires Valid(h)
    ensures Valid(SetTopic(h, key, name).state)
    ensures Indexed(h) ==> Indexed(SetTopic(h, key, name).state)
  {
    var k := CanonKey(key);
    if SetTopic(h, key, name).reply == Ok(true) {
      var h0 := Without(h, k);
      WithoutKeeps(h, k);
      EnsureTopicTabled(h0, name);
      EnsureTopicKeeps(h0, name);
      var h1 := EnsureTopic(h0, name);
      FileUserKeeps(h1, h.users[k].(topic := h1.topics[TopicKey(name)]));
      PutAfterCut(h.users, k, h.users[k].(topic := h1.topics[TopicKey(name)]));
    }
  }

  lemma LinkNodeKeeps(h: State, call: string, alias: string, version: string, now: int)
    requires Valid(h)
    ensures Valid(LinkNode(h, call, alias, version, now).state)
    ensures Indexed(h) ==> Indexed(LinkNode(h, call, alias, version, now).state)
  {
  }

  lemma UnlinkNodeKeeps(h: State, call: string)
    requires Valid(h)
    ensures Valid(UnlinkNode(h, call))
    ensures Indexed(h) ==> Indexed(UnlinkNode(h, call))
  {
    if NormCall(call) in h.nodes {
      var gone := LearnedVia(h, NormCall(call));
      UsersCut(h.users, h.topics, gone);
      RemovedAll(Homes(h.users), h.member, gone);
    }
  }

  // ---- whole runs ----

  datatype Op =
    | OpJoin(user: User)
    | OpLeave(key: UserKey)
    | OpPost(key: UserKey, text: string)
    | OpPrivate(key: UserKey, to: string, text: string)
    | OpSetTopic(key: UserKey, name: string)
    | OpSetInfo(key: UserKey, name: string, qth: string)
    | OpSetFlags(key: UserKey, flags: Flags)
    | OpLink(call: string, alias: string, version: string)
    | OpUnlink(call: string)

  function Perform(h: State, op: Op, now: int): State
    requires Tabled(h)
  {
    match op
    case OpJoin(u) => Join(h, u, now).state
    case OpLeave(k) => Leave(h, k).0
    case OpPost(k, text) => Post(h, k, text, now).state
    case OpPrivate(k, to, text) => Private(h, k, to, text, now).state
    case OpSetTopic(k, name) => SetTopic(h, k, name).state
    case OpSetInfo(k, name, qth) => SetInfo(h, k, name, qth).state
    case OpSetFlags(k, flags) => SetFlags(h, k, flags).state
    case OpLink(call, alias, version) => LinkNode(h, call, alias, version, now).state
    case OpUnlink(call) => UnlinkNode(h, call)
  }

  /** `op` does not join an identity that is already present. */
  predicate JoinsAbsent(h: State, op: Op) {
    op.OpJoin? ==> CanonKey(KeyOf(op.user)) !in h.users
  }

  lemma PrivateKeeps(h: State, from: UserKey, to: string, text: string, now: int)
    ensures Private(h, from, to, text, now).state == h
  {
  }

  lemma PerformKeeps(h: State, op: Op, now: int)
    requires Valid(h)
    ensures Valid(Perform(h, op, now))
    ensures Indexed(h) && JoinsAbsent(h, op) ==> Indexed(Perform(h, op, now))
  {
    match op
    case OpJoin(u) => JoinKeeps(h, u, now);
    case OpLeave(k) => LeaveKeeps(h, k);
    case OpPost(k, text) => PostKeeps(h, k, text, now);
    case OpPrivate(k, to, text) => PrivateKeeps(h, k, to, text, now);
    case OpSetTopic(k, name) => SetTopicKeeps(h, k, name);
    case OpSetInfo(k, name, qth) => SetInfoKeeps(h, k, name, qth);
    case OpSetFlags(k, flags) => SetFlagsKeeps(h, k, flags);
    case OpLink(call, alias, version) => LinkNodeKeeps(h, call, alias, version, now);
    case OpUnlink(call) => UnlinkNodeKeeps(h, call);
  }

  datatype Timed = Timed(op: Op, now: int)

  function RunOps(h: State, ops: seq<Timed>): State
    requires Valid(h)
    decreases |ops|
  {
    if ops == [] then h else
      PerformKeeps(h, ops[0].op, ops[0].now);
      RunOps(Perform(h, ops[0].op, ops[0].now), ops[1..])
  }

  /** Every join in the run is of an identity absent at that point. */
  predicate OnlyAbsentJoin(h: State, ops: seq<Timed>)
    requires Valid(h)
    decreases |ops|
  {
    if ops == [] then true else
      PerformKeeps(h, ops[0].op, ops[0].now);
      JoinsAbsent(h, ops[0].op) && OnlyAbsentJoin(Perform(h, ops[0].op, ops[0].now), ops[1..])
  }

  lemma {:induction false} RunKeepsIndex(h: State, ops: seq<Timed>)
    requires Valid(h)
    ensures Valid(RunOps(h, ops))
    ensures Indexed(h) && OnlyAbsentJoin(h, ops) ==> Indexed(RunOps(h, ops))
    decreases |ops|
  {
    if ops != [] {
      PerformKeeps(h, ops[0].op, ops[0].now);
      RunKeepsIndex(Perform(h, ops[0].op, ops[0].now), ops[1..]);
    }
  }

  /** The size of a topic's member set. */
  ghost function SizeIn(member: map<string, set<UserKey>>): string -> int {
    t => if t in member then |member[t]| else 0
  }

  /** In an exact index every member set is its topic's present users, and the member counts
      add up to the number of users. */
  lemma IndexCountsUsers(h: State)
    requires Indexed(h)
    ensures forall t :: t in h.topics ==> h.member[t] == InTopic(h, t)
    ensures Sum(h.topics.Keys, SizeIn(h.member)) == |h.users|
  {
    var home := Homes(h.users);
    forall t | t in h.topics
      ensures h.member[t] == Under(home, t) == InTopic(h, t)
    {
      ExactMembers(home, h.member, t);
      assert Under(home, t) == InTopic(h, t);
    }
    assert h.users.Keys == home.Keys;
    HeadingsCoverKeys(home, h.topics.Keys);
    SumSame(h.topics.Keys, SizeIn(h.member), SizeUnder(home));
  }

  /** In an exact index a topic's member set, empty for an unknown topic, is its users. */
  lemma MembersAreInTopic(h: State, t: string, found: set<UserKey>)
    requires Indexed(h) && found == if t in h.member then h.member[t] else {}
    ensures found == InTopic(h, t)
  {
    if t in h.member {
      ExactMembers(Homes(h.users), h.member, t);
      assert Under(Homes(h.users), t) == InTopic(h, t);
    }
  }

  /** From a new hub, every run that joins only absent identities keeps topics and member sets
      in step, each member set being exactly the users of its topic; with re-joins every user
      is still in its own topic's set. */
  lemma EveryRunKeepsTheIndex(ops: seq<Timed>)
    ensures
      var h := RunOps(NewState(), ops);
      && h.topics.Keys == h.member.Keys
      && (forall k :: k in h.users ==> TopicKey(h.users[k].topic) in h.member && k in h.member[TopicKey(h.users[k].topic)])
      && (OnlyAbsentJoin(NewState(), ops) ==>
            && (forall t :: t in h.topics ==> h.member[t] == InTopic(h, t))
            && Sum(h.topics.Keys, SizeIn(h.member)) == |h.users|)
  {
    RunKeepsIndex(NewState(), ops);
    var h := RunOps(NewState(), ops);
    var home := Homes(h.users);
    assert forall k :: k in h.users ==> k in home && home[k] == TopicKey(h.users[k].topic);
    if OnlyAbsentJoin(NewState(), ops) { IndexCountsUsers(h); }
  }

  /** Exactly when a join keeps the index exact: the identity was absent, or re-joins the
      topic it was already in. */
  lemma JoinKeepsIndexIff(h: State, u: User, now: int)
    requires Indexed(h) && Join(h, u, now).reply.Ok?
    ensures
      var k := CanonKey(KeyOf(u));
      Indexed(Join(h, u, now).state)
      <==> k !in h.users || TopicKey(h.users[k].topic) == TopicKey(JoinTopic(u))
  {
    var k, t := CanonKey(KeyOf(u)), TopicKey(JoinTopic(u));
    var h' := Join(h, u, now).state;
    JoinKeeps(h, u, now);
    EnsureTopicTabled(h, JoinTopic(u));
    EnsureTopicKeeps(h, JoinTopic(u));
    var h1 := EnsureTopic(h, JoinTopic(u));
    assert h1.users == h.users;
    var v := Join(h, u, now).reply.value;
    NormCallIdempotent(u.call);
    NormCallIdempotent(u.origin.node);
    UsersPut(h1.users, h1.topics, k, v);
    assert Homes(h'.users) == Homes(h.users)[k := t];
    if k in h.users {
      RejoinedIndex(Homes(h.users), h1.member, k, t);
    }
  }

  /** The link-drop cascade takes exactly the users learned via the node, leaves every other
      user record alone and forgets the node. */
  lemma UnlinkDropsExactly(h: State, call: string)
    requires NormCall(call) in h.nodes
    ensures
      var c, h' := NormCall(call), UnlinkNode(h, call);
      && c !in h'.nodes && h'.topics == h.topics
      && (forall k :: k in h'.users <==> k in h.users && h.users[k].origin.link != c && h.users[k].origin.node != c)
      && (forall k :: k in h'.users ==> h'.users[k] == h.users[k])
      && (forall n :: n in h.nodes && n != c ==> n in h'.nodes && h'.nodes[n] == h.nodes[n])
  {
  }
}
