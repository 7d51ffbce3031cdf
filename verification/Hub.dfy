/** The hub: the live chat state, updated in place, every change announced on the event bus. */
module Hubs {
  import opened Text
  import opened Chat
  import opened Sums
  import opened SeenSets
  import opened FanOuts
  import opened Stores
  import opened Sorting
  import HubSpec

  datatype Topic = Topic(name: string, members: nat)

  /** The total of a topic listing's member counts. */
  function Total(topics: seq<Topic>): nat {
    if topics == [] then 0 else Total(topics[..|topics| - 1]) + topics[|topics| - 1].members
  }

  function NameOf(t: Topic): string { t.name }

  function CallOf(u: User): string { u.call }

  /** The counts in any order have the same total. */
  lemma {:induction false} TotalFirst(s: seq<Topic>)
    requires s != []
    ensures Total(s) == s[0].members + Total(s[1..])
  {
    var n := |s| - 1;
    if n > 0 {
      TotalFirst(s[..n]);
      assert s[..n][1..] == s[1..][..n - 1];
    }
  }

  lemma {:induction false} TotalInserted(x: Topic, s: seq<Topic>)
    ensures Total(InsertBy(x, s, NameOf)) == x.members + Total(s)
  {
    var t := InsertBy(x, s, NameOf);
    TotalFirst(t);
    if s != [] { TotalFirst(s); }
    if s == [] || !Less(NameOf(s[0]), NameOf(x)) {
      assert t[1..] == s;
    } else {
      TotalInserted(x, s[1..]);
      assert t[1..] == InsertBy(x, s[1..], NameOf);
    }
  }

  lemma {:induction false} TotalSorted(s: seq<Topic>)
    ensures Total(SortBy(s, NameOf)) == Total(s)
  {
    if s != [] {
      TotalSorted(s[1..]);
      TotalInserted(s[0], SortBy(s[1..], NameOf));
      TotalFirst(s);
    }
  }

  /** `out` lists the topics of `order`, each with its member count. */
  ghost predicate Lists(topics: map<string, string>, member: map<string, set<UserKey>>, order: seq<string>,
                        out: seq<Topic>)
  {
    && |out| == |order|
    && (forall i, j :: 0 <= i < j < |order| ==> order[i] != order[j])
    && forall i :: 0 <= i < |order| ==>
         order[i] in topics && order[i] in member && out[i] == Topic(topics[order[i]], |member[order[i]]|)
  }

  lemma {:induction false} ListingTotals(topics: map<string, string>, member: map<string, set<UserKey>>,
                                         order: seq<string>, out: seq<Topic>)
    requires Lists(topics, member, order, out)
    ensures Total(out) == Sum(Elements(order), HubSpec.SizeIn(member))
    ensures |Elements(order)| == |out|
  {
    if order != [] {
      var n := |order| - 1;
      ListingTotals(topics, member, order[..n], out[..n]);
      ElementsAre(order[..n], order[n]);
      SumAdd(Elements(order[..n]), HubSpec.SizeIn(member), order[n]);
    }
  }

  lemma ListingIsComplete(h: HubSpec.State, order: seq<string>, out: seq<Topic>)
    requires Lists(h.topics, h.member, order, out) && forall t :: t in h.topics ==> t in order
    ensures |out| == |h.topics| && forall t :: t in h.topics && t in h.member ==> Topic(h.topics[t], |h.member[t]|) in out
  {
    ListingTotals(h.topics, h.member, order, out);
    ElementsEqual(order, h.topics.Keys);
    forall t | t in h.topics && t in h.member
      ensures Topic(h.topics[t], |h.member[t]|) in out
    {
      var i :| 0 <= i < |order| && order[i] == t;
      assert out[i] == Topic(h.topics[t], |h.member[t]|);
    }
  }

  lemma ListingCountsUsers(h: HubSpec.State, order: seq<string>, out: seq<Topic>)
    requires Lists(h.topics, h.member, order, out) && forall t :: t in h.topics ==> t in order
    ensures HubSpec.Indexed(h) ==> Total(out) == |h.users|
  {
    ListingTotals(h.topics, h.member, order, out);
    ElementsEqual(order, h.topics.Keys);
    if HubSpec.Indexed(h) { HubSpec.IndexCountsUsers(h); }
  }

  class Hub {
    const ourNode: string
    const seen: SeenSet<Key>
    const store: MemStore
    const bus: FanOut<Event>

    var users: map<UserKey, User>
    var topics: map<string, string>
    var member: map<string, set<UserKey>>
    var nodes: map<string, Node>

    ghost function State(): HubSpec.State
      reads this
    {
      HubSpec.State(users, topics, member, nodes)
    }

    ghost predicate Valid()
      reads this, bus, store
    {
      && HubSpec.Valid(State()) && bus.Valid() && store.Valid()
      && NormCall(ourNode) == ourNode && seen.ttl > 0
    }

    constructor (ourNode: string, store: MemStore)
      requires store.Valid()
      ensures Valid() && State() == HubSpec.NewState() && this.ourNode == NormCall(ourNode) && this.store == store
      ensures fresh(seen) && fresh(bus) && bus.subs == {} && seen.entries == map[] && seen.ttl == DEFAULT_TTL
    {
      this.ourNode := NormCall(ourNode);
      this.store := store;
      this.seen := new SeenSet<Key>(DEFAULT_TTL);
      this.bus := new FanOut<Event>();
      users, topics, member, nodes := map[], map[], map[], map[];
      new;
      NormCallIdempotent(ourNode);
      var canon := EnsureTopic(DEFAULT_TOPIC);
    }

    method EnsureTopic(name: string) returns (canon: string)
      requires HubSpec.Tabled(State())
      modifies this
      ensures State() == HubSpec.EnsureTopic(old(State()), name) && HubSpec.Tabled(State())
      ensures TopicKey(name) in topics && canon == topics[TopicKey(name)] && TopicKey(canon) == TopicKey(name)
    {
      HubSpec.EnsureTopicTabled(State(), name);
      var key := TopicKey(name);
      if key in topics { return topics[key]; }
      canon := Trim(name);
      topics := topics[key := canon];
      member := member[key := {}];
    }

    method JoinLocked(u: User, now: int) returns (r: Reply<User>, events: seq<Event>)
      requires HubSpec.Tabled(State())
      modifies this
      ensures HubSpec.Effect(State(), events, r) == HubSpec.Join(old(State()), u, now)
    {
      var v := u.(call := NormCall(u.call), origin := u.origin.(node := NormCall(u.origin.node)));
      if v.call == "" || v.origin.node == "" { return Err(NoSuchUser), []; }
      if v.topic == "" { v := v.(topic := DEFAULT_TOPIC); }
      v := v.(joined := now, lastActive := now);
      var canon := EnsureTopic(v.topic);
      v := v.(topic := canon);
      users := users[KeyOf(v) := v];
      member := member[TopicKey(canon) := member[TopicKey(canon)] + {KeyOf(v)}];
      return Ok(v), [UserJoined(v)];
    }

    method Join(u: User, now: int) returns (r: Reply<User>, events: seq<Event>)
      requires Valid()
      modifies this, bus
      ensures Valid()
      ensures HubSpec.Effect(State(), events, r) == HubSpec.Join(old(State()), u, now)
      ensures bus.State() == EmittedAll(old(bus.State()), events)
    {
      HubSpec.JoinKeeps(State(), u, now);
      r, events := JoinLocked(u, now);
      bus.Emit(events);
    }

    method LeaveLocked(key: UserKey) returns (events: seq<Event>)
      modifies this
      ensures (State(), events) == HubSpec.Leave(old(State()), key)
    {
      var k := CanonKey(key);
      if k !in users { return []; }
      var left := users[k];
      var t := TopicKey(left.topic);
      users := users - {k};
      if t in member { member := member[t := member[t] - {k}]; }
      return [UserLeft(left)];
    }

    method Leave(key: UserKey) returns (events: seq<Event>)
      requires Valid()
      modifies this, bus
      ensures Valid()
      ensures (State(), events) == HubSpec.Leave(old(State()), key)
      ensures bus.State() == EmittedAll(old(bus.State()), events)
    {
      HubSpec.LeaveKeeps(State(), key);
      events := LeaveLocked(key);
      bus.Emit(events);
    }

    /** A message's way out: recorded as seen, stored, announced. */
    method Publish(m: Message, e: Event, now: int)
      requires bus.Valid() && store.Valid()
      modifies seen, store, bus
      ensures bus.Valid() && store.Valid()
      ensures seen.entries == Record(old(seen.entries), seen.ttl, m.id, now)
      ensures store.msgs == Saved(old(store.msgs), m) && bus.State() == EmittedAll(old(bus.State()), [e])
    {
      var _ := seen.Seen(m.id, now);
      store.SaveMessage(m);
      bus.Emit([e]);
    }

    method PostLocked(key: UserKey, text: string, now: int) returns (r: Reply<Message>)
      modifies this`users
      ensures var e := HubSpec.Post(old(State()), key, text, now); State() == e.state && r == e.reply
    {
      var clipped := Clip(text);
      if clipped == "" { return Err(EmptyText); }
      var k := CanonKey(key);
      if k !in users { return Err(NoSuchUser); }
      var topic := users[k].topic;
      users := users[k := users[k].(lastActive := now)];
      var id := SynthID(k.node, k.call, TopicKind, topic, clipped);
      return Ok(Message(id, k.node, k.call, TopicKind, topic, "", now, clipped));
    }

    method Post(key: UserKey, text: string, now: int) returns (r: Reply<Message>, events: seq<Event>)
      requires Valid()
      modifies this, seen, store, bus
      ensures Valid()
      ensures HubSpec.Effect(State(), events, r) == HubSpec.Post(old(State()), key, text, now)
      ensures bus.State() == EmittedAll(old(bus.State()), events)
      ensures r.Ok? ==> seen.entries == Record(old(seen.entries), seen.ttl, r.value.id, now)
                        && store.msgs == Saved(old(store.msgs), r.value)
      ensures r.Err? ==> seen.entries == old(seen.entries) && store.msgs == old(store.msgs)
    {
      HubSpec.PostKeeps(State(), key, text, now);
      r := PostLocked(key, text, now);
      if r.Err? { return r, []; }
      Publish(r.value, TopicMessage(r.value), now);
      return r, [TopicMessage(r.value)];
    }

    method UserPresent(call: string) returns (present: bool)
      ensures present == HubSpec.CallPresent(State(), call)
    {
      var todo := users.Keys;
      while todo != {}
        invariant todo <= users.Keys
        invariant forall k :: k in users && k !in todo ==> k.call != call
        decreases |todo|
      {
        var k :| k in todo;
        if k.call == call { return true; }
        todo := todo - {k};
      }
      return false;
    }

    method PrivateLocked(from: UserKey, toCall: string, text: string, now: int) returns (r: Reply<Message>)
      ensures r == HubSpec.Private(State(), from, toCall, text, now).reply
    {
      var clipped := Clip(text);
      if clipped == "" { return Err(EmptyText); }
      var k := CanonKey(from);
      var target := NormCall(toCall);
      if k !in users { return Err(NoSuchUser); }
      var present := UserPresent(target);
      if !present { return Err(NoSuchUser); }
      var id := SynthID(k.node, k.call, PrivateKind, target, clipped);
      return Ok(Message(id, k.node, k.call, PrivateKind, "", target, now, clipped));
    }

    method Private(from: UserKey, toCall: string, text: string, now: int)
      returns (r: Reply<Message>, events: seq<Event>)
      requires Valid()
      modifies seen, store, bus
      ensures Valid()
      ensures HubSpec.Effect(State(), events, r) == HubSpec.Private(old(State()), from, toCall, text, now)
      ensures bus.State() == EmittedAll(old(bus.State()), events)
      ensures r.Ok? ==> seen.entries == Record(old(seen.entries), seen.ttl, r.value.id, now)
                        && store.msgs == Saved(old(store.msgs), r.value)
      ensures r.Err? ==> seen.entries == old(seen.entries) && store.msgs == old(store.msgs)
    {
      r := PrivateLocked(from, toCall, text, now);
      if r.Err? { return r, []; }
      Publish(r.value, PrivateMessage(r.value), now);
      return r, [PrivateMessage(r.value)];
    }

    method SetTopicLocked(key: UserKey, name: string) returns (r: Reply<bool>, events: seq<Event>)
      requires HubSpec.Tabled(State())
      modifies this
      ensures HubSpec.Effect(State(), events, r) == HubSpec.SetTopic(old(State()), key, name)
    {
      var k := CanonKey(key);
      if TopicKey(name) == "" { return Err(NoSuchTopic), []; }
      if k !in users { return Err(NoSuchUser), []; }
      if TopicKey(users[k].topic) == TopicKey(name) { return Ok(false), []; }
      var from := users[k].topic;
      Unfile(k);
      var canon := EnsureTopic(name);
      users := users[k := users[k].(topic := canon)];
      member := member[TopicKey(canon) := member[TopicKey(canon)] + {k}];
      return Ok(true), [TopicChanged(users[k], from)];
    }

    method Unfile(k: UserKey)
      requires HubSpec.Tabled(State()) && k in users
      modifies this`member
      ensures State() == HubSpec.Unfiled(old(State()), k) && HubSpec.Tabled(State())
    {
      var t := TopicKey(users[k].topic);
      if t in member { member := member[t := member[t] - {k}]; }
    }

    method SetTopic(key: UserKey, name: string) returns (r: Reply<bool>, events: seq<Event>)
      requires Valid()
      modifies this, bus
      ensures Valid()
      ensures HubSpec.Effect(State(), events, r) == HubSpec.SetTopic(old(State()), key, name)
      ensures bus.State() == EmittedAll(old(bus.State()), events)
    {
      HubSpec.SetTopicKeeps(State(), key, name);
      r, events := SetTopicLocked(key, name);
      bus.Emit(events);
    }

    method SetInfoLocked(key: UserKey, name: string, qth: string) returns (r: Reply<bool>, events: seq<Event>)
      modifies this
      ensures HubSpec.Effect(State(), events, r) == HubSpec.SetInfo(old(State()), key, name, qth)
    {
      var k := CanonKey(key);
      if k !in users { return Err(NoSuchUser), []; }
      if users[k].name == name && users[k].qth == qth { return Ok(false), []; }
      users := users[k := users[k].(name := name, qth := qth)];
      return Ok(true), [UserInfoChanged(users[k])];
    }

    method SetInfo(key: UserKey, name: string, qth: string) returns (r: Reply<bool>, events: seq<Event>)
      requires Valid()
      modifies this, bus
      ensures Valid()
      ensures HubSpec.Effect(State(), events, r) == HubSpec.SetInfo(old(State()), key, name, qth)
      ensures bus.State() == EmittedAll(old(bus.State()), events)
    {
      HubSpec.SetInfoKeeps(State(), key, name, qth);
      r, events := SetInfoLocked(key, name, qth);
      bus.Emit(events);
    }

    method SetFlagsLocked(key: UserKey, flags: Flags) returns (r: Reply<bool>, events: seq<Event>)
      modifies this
      ensures HubSpec.Effect(State(), events, r) == HubSpec.SetFlags(old(State()), key, flags)
    {
      var k := CanonKey(key);
      if k !in users { return Err(NoSuchUser), []; }
      if users[k].flags == flags { return Ok(false), []; }
      users := users[k := users[k].(flags := flags)];
      return Ok(true), [UserInfoChanged(users[k])];
    }

    method SetFlags(key: UserKey, flags: Flags) returns (r: Reply<bool>, events: seq<Event>)
      requires Valid()
      modifies this, bus
      ensures Valid()
      ensures HubSpec.Effect(State(), events, r) == HubSpec.SetFlags(old(State()), key, flags)
      ensures bus.State() == EmittedAll(old(bus.State()), events)
    {
      HubSpec.SetFlagsKeeps(State(), key, flags);
      r, events := SetFlagsLocked(key, flags);
      bus.Emit(events);
    }

    method LinkNode(call: string, alias: string, version: string, now: int)
      returns (added: bool, events: seq<Event>)
      requires Valid()
      modifies this, bus
      ensures Valid()
      ensures HubSpec.Effect(State(), events, Ok(added)) == HubSpec.LinkNode(old(State()), call, alias, version, now)
      ensures bus.State() == EmittedAll(old(bus.State()), events)
    {
      var c := NormCall(call);
      if c == "" { return false, []; }
      if c in nodes {
        var n := nodes[c].(linked := now);
        if version != "" { n := n.(version := version); }
        nodes := nodes[c := n];
        return false, [];
      }
      var n := Node(c, alias, version, now);
      nodes := nodes[c := n];
      bus.Emit([NodeLinked(n)]);
      return true, [NodeLinked(n)];
    }

    /** The cascade's sweep over the user table. */
    method DropLearned(c: string) returns (left: seq<User>)
      modifies this`users, this`member
      ensures HubSpec.Swept(old(State()), c, {}, users, member, left)
    {
      left := [];
      var todo := users.Keys;
      HubSpec.SweepStarts(State(), c);
      while todo != {}
        invariant todo <= old(users).Keys && HubSpec.Swept(old(State()), c, todo, users, member, left)
        decreases |todo|
      {
        var k :| k in todo;
        HubSpec.SweepGoesOn(old(State()), c, todo, users, member, left, k);
        var u := users[k];
        if u.origin.link == c || u.origin.node == c {
          left := left + [u];
          users := users - {k};
          var t := TopicKey(u.topic);
          if t in member { member := member[t := member[t] - {k}]; }
        }
        todo := todo - {k};
      }
    }

    method Departures(left: seq<User>) returns (evs: seq<Event>)
      ensures |evs| == |left| && forall u :: u in left ==> UserLeft(u) in evs
    {
      evs := [];
      for i := 0 to |left|
        invariant |evs| == i && forall j :: 0 <= j < i ==> evs[j] == UserLeft(left[j])
      {
        evs := evs + [UserLeft(left[i])];
      }
      forall u | u in left
        ensures UserLeft(u) in evs
      {
        var i :| 0 <= i < |left| && left[i] == u;
        assert evs[i] == UserLeft(u);
      }
    }

    method UnlinkLocked(c: string) returns (evs: seq<Event>)
      requires c in nodes && NormCall(c) == c
      modifies this
      ensures State() == HubSpec.UnlinkNode(old(State()), c)
      ensures HubSpec.UnlinkEvents(old(State()), c, evs)
    {
      var removed := nodes[c];
      nodes := nodes - {c};
      ghost var before := State();
      var left := DropLearned(c);
      assert HubSpec.LearnedVia(before, c) == HubSpec.LearnedVia(old(State()), c);
      var departures := Departures(left);
      evs := departures + [NodeUnlinked(removed)];
      assert evs[..|evs| - 1] == departures;
    }

    method UnlinkNode(call: string) returns (known: bool, events: seq<Event>)
      requires Valid()
      modifies this, bus
      ensures Valid()
      ensures known == (NormCall(call) in old(nodes))
      ensures State() == HubSpec.UnlinkNode(old(State()), call)
      ensures HubSpec.UnlinkEvents(old(State()), call, events)
      ensures bus.State() == EmittedAll(old(bus.State()), events)
      ensures known ==> forall k ::
        k in users <==> k in old(users) && old(users)[k].origin.link != NormCall(call) && old(users)[k].origin.node != NormCall(call)
      ensures known ==> forall k :: k in users ==> users[k] == old(users)[k]
    {
      if NormCall(call) in nodes { HubSpec.UnlinkDropsExactly(State(), call); }
      HubSpec.UnlinkNodeKeeps(State(), call);
      NormCallIdempotent(call);
      var c := NormCall(call);
      if c !in nodes { return false, []; }
      var evs := UnlinkLocked(c);
      bus.Emit(evs);
      return true, evs;
    }

    method UserOf(key: UserKey) returns (found: bool, u: User)
      ensures found == (CanonKey(key) in users)
      ensures found ==> u == users[CanonKey(key)]
    {
      var k := CanonKey(key);
      if k in users { return true, users[k]; }
      return false, User("", "", "", Origin("", false, ""), "", 0, 0, Flags(false, false, false, false, false));
    }

    /** Every topic with its member count, sorted by name; when the index is exact the counts add up to the users. */
    method Topics() returns (out: seq<Topic>)
      requires topics.Keys == member.Keys
      ensures |out| == |topics| && forall t :: t in topics ==> Topic(topics[t], |member[t]|) in out
      ensures HubSpec.Indexed(State()) ==> Total(out) == |users|
      ensures SortedBy(out, NameOf)
    {
      out := [];
      ghost var order: seq<string> := [];
      var todo := topics.Keys;
      while todo != {}
        invariant todo <= topics.Keys && Lists(topics, member, order, out)
        invariant forall t :: t in topics ==> (t in todo <==> t !in order)
        decreases |todo|
      {
        var t :| t in todo;
        out, order := out + [Topic(topics[t], |member[t]|)], order + [t];
        todo := todo - {t};
      }
      ListingIsComplete(State(), order, out);
      ListingCountsUsers(State(), order, out);
      SortBySorts(out, NameOf);
      SameElements(SortBy(out, NameOf), out);
      TotalSorted(out);
      out := SortBy(out, NameOf);
    }

    /** The users of a topic, each once, sorted by callsign. */
    method UsersInTopic(name: string) returns (out: seq<User>)
      ensures HubSpec.Indexed(State()) ==>
                |out| == |HubSpec.InTopic(State(), TopicKey(name))|
                && forall k :: k in HubSpec.InTopic(State(), TopicKey(name)) ==> users[k] in out
      ensures SortedBy(out, CallOf)
    {
      out := [];
      var t := TopicKey(name);
      var todo := if t in member then member[t] else {};
      ghost var all := todo;
      ghost var done: set<UserKey> := {};
      while todo != {}
        invariant todo + done == all && todo !! done
        invariant forall k :: k in done && k in users ==> users[k] in out
        invariant all <= users.Keys ==> |out| == |done|
        decreases |todo|
      {
        var k :| k in todo;
        if k in users { out := out + [users[k]]; }
        todo, done := todo - {k}, done + {k};
      }
      assert done == all;
      if HubSpec.Indexed(State()) { HubSpec.MembersAreInTopic(State(), t, all); }
      SortBySorts(out, CallOf);
      SameElements(SortBy(out, CallOf), out);
      out := SortBy(out, CallOf);
    }
  }
}
