/** What the hub's operations mean for who is present and who is in which topic. */
module HubLaws {
  import opened Text
  import opened Chat
  import opened HubSpec
  import opened RelayLaws

  lemma MovedInTopic(h: State, k: UserKey, name: string, t: string)
    requires Tabled(h) && k in h.users
    ensures
      InTopic(Moved(h, k, name).state, t)
      == if t == TopicKey(name) then InTopic(h, t) + {k} else InTopic(h, t) - {k}
  {
    var h' := Moved(h, k, name).state;
    forall j
      ensures j in InTopic(h', t) <==> j in (if t == TopicKey(name) then InTopic(h, t) + {k} else InTopic(h, t) - {k})
    {
      MovedUser(h, k, name, j);
    }
  }

  /** A topic change answers true exactly when it is a move, and then takes the user from the topic
      it was in to the named one and nobody else anywhere. */
  lemma SetTopicMoves(h: State, key: UserKey, name: string, t: string)
    requires Tabled(h)
    ensures
      var k, e := CanonKey(key), SetTopic(h, key, name);
      && (e.reply == Ok(true)
          <==> TopicKey(name) != "" && k in h.users && TopicKey(h.users[k].topic) != TopicKey(name))
      && InTopic(e.state, t) == (if e.reply != Ok(true) then InTopic(h, t)
                                 else if t == TopicKey(name) then InTopic(h, t) + {k} else InTopic(h, t) - {k})
      && |e.events| == if e.reply == Ok(true) then 1 else 0
  {
    var k := CanonKey(key);
    if SetTopic(h, key, name).reply == Ok(true) { MovedInTopic(h, k, name, t); }
  }

  /** The topics of `h` are topics of `h'`, under the same display names. */
  predicate KeepsNames(h: State, h': State) {
    forall t :: t in h.topics ==> t in h'.topics && h'.topics[t] == h.topics[t]
  }

  lemma JoinKeepsNames(h: State, u: User, now: int)
    requires Tabled(h)
    ensures KeepsNames(h, HubSpec.Join(h, u, now).state)
  {
  }

  lemma SetTopicKeepsNames(h: State, key: UserKey, name: string)
    requires Tabled(h)
    ensures KeepsNames(h, SetTopic(h, key, name).state)
  {
  }

  lemma OthersKeepTopics(h: State, key: UserKey, to: string, text: string, flags: Flags, now: int)
    ensures Leave(h, key).0.topics == h.topics
    ensures Post(h, key, text, now).state.topics == h.topics
    ensures SetInfo(h, key, to, text).state.topics == h.topics
    ensures SetFlags(h, key, flags).state.topics == h.topics
  {
  }

  lemma NodesKeepTopics(h: State, call: string, alias: string, version: string, now: int)
    ensures LinkNode(h, call, alias, version, now).state.topics == h.topics
    ensures UnlinkNode(h, call).topics == h.topics
  {
  }

  lemma PerformKeepsNames(h: State, op: Op, now: int)
    requires Valid(h)
    ensures KeepsNames(h, Perform(h, op, now))
  {
    var none := Flags(false, false, false, false, false);
    match op
    case OpJoin(u) => JoinKeepsNames(h, u, now);
    case OpLeave(k) => OthersKeepTopics(h, k, "", "", none, now);
    case OpPost(k, text) => OthersKeepTopics(h, k, "", text, none, now);
    case OpPrivate(k, to, text) => PrivateKeeps(h, k, to, text, now);
    case OpSetTopic(k, name) => SetTopicKeepsNames(h, k, name);
    case OpSetInfo(k, name, qth) => OthersKeepTopics(h, k, name, qth, none, now);
    case OpSetFlags(k, flags) => OthersKeepTopics(h, k, "", "", flags, now);
    case OpLink(call, alias, version) => NodesKeepTopics(h, call, alias, version, now);
    case OpUnlink(call) => NodesKeepTopics(h, call, "", "", now);
  }

  /** Over every run a topic, once there, stays there under the display name it was first given. */
  lemma {:induction false} FirstNameLasts(h: State, ops: seq<Timed>)
    requires Valid(h)
    ensures KeepsNames(h, RunOps(h, ops))
    decreases |ops|
  {
    if ops != [] {
      PerformKeeps(h, ops[0].op, ops[0].now);
      PerformKeepsNames(h, ops[0].op, ops[0].now);
      FirstNameLasts(Perform(h, ops[0].op, ops[0].now), ops[1..]);
    }
  }

  lemma JoinPuts(h: State, u: User, now: int)
    requires Tabled(h)
    ensures
      var k, e := CanonKey(KeyOf(u)), HubSpec.Join(h, u, now);
      && (e.reply.Ok? <==> k.call != "" && k.node != "")
      && (e.reply.Ok? ==> e.state.users == h.users[k := e.reply.value] && e.events == [UserJoined(e.reply.value)]
                          && KeyOf(e.reply.value) == k && e.reply.value.origin.link == u.origin.link
                          && TopicKey(e.reply.value.topic) == TopicKey(JoinTopic(u)))
      && (e.reply.Err? ==> e.state == h && e.events == [])
  {
    EnsureTopicTabled(h, JoinTopic(u));
  }

  /** What a join makes of the user: all it brought, under its canonical callsigns, stamped with the
      time, in the topic it asked for, under that topic's name if it exists and the trimmed one if not. */
  lemma JoinBrings(h: State, u: User, now: int)
    requires Tabled(h) && NormCall(u.call) != "" && NormCall(u.origin.node) != ""
    ensures
      var t := TopicKey(if u.topic == "" then "General" else u.topic);
      var shown := if t in h.topics then h.topics[t] else Trim(if u.topic == "" then "General" else u.topic);
      var e := HubSpec.Join(h, u, now);
      && e.reply == Ok(User(NormCall(u.call), u.name, u.qth, Origin(NormCall(u.origin.node), u.origin.local, u.origin.link),
                            shown, now, now, u.flags))
      && t in e.state.topics && e.state.topics[t] == shown && (forall s :: s in e.state.topics <==> s in h.topics || s == t)
  {
    EnsureTopicTabled(h, JoinTopic(u));
  }

  /** The parts of one user's record that an operation may change. */
  predicate OnlyUser(h: State, h': State, k: UserKey) {
    && h'.topics == h.topics && h'.member == h.member && h'.nodes == h.nodes && h'.users.Keys == h.users.Keys
    && forall j :: j in h.users && j != k ==> h'.users[j] == h.users[j]
  }

  /** Flags are set as given, and only they; the reply says whether that changed anything, and there
      is an announcement exactly if it did. */
  lemma SetFlagsSets(h: State, key: UserKey, flags: Flags)
    ensures
      var k, e := CanonKey(key), SetFlags(h, key, flags);
      && OnlyUser(h, e.state, k)
      && (k in h.users ==> e.state.users[k] == h.users[k].(flags := flags)
                           && e.reply == Ok(h.users[k].flags != flags))
      && (k !in h.users ==> e.reply == Err(NoSuchUser))
      && e.events == if e.state.users == h.users then [] else [UserInfoChanged(e.state.users[k])]
  {
  }

  lemma SetInfoSets(h: State, key: UserKey, name: string, qth: string)
    ensures
      var k, e := CanonKey(key), SetInfo(h, key, name, qth);
      && OnlyUser(h, e.state, k)
      && (k in h.users ==> e.state.users[k] == h.users[k].(name := name, qth := qth)
                           && e.reply == Ok(h.users[k].name != name || h.users[k].qth != qth))
      && (k !in h.users ==> e.reply == Err(NoSuchUser))
      && e.events == if e.state.users == h.users then [] else [UserInfoChanged(e.state.users[k])]
  {
  }

  /** A post goes to the topic its sender is in, under the sender's callsigns and the time it was made,
      which is then the sender's last activity; there is one exactly when there is text and a sender. */
  lemma PostSays(h: State, key: UserKey, text: string, now: int)
    ensures
      var k, e := CanonKey(key), Post(h, key, text, now);
      && OnlyUser(h, e.state, k)
      && (e.reply.Ok? <==> Clip(text) != "" && k in h.users)
      && (e.reply.Ok? ==>
            var m := e.reply.value;
            && m.kind == TopicKind && m.topic == h.users[k].topic && m.toCall == "" && m.text == Clip(text)
            && m.originNode == k.node && m.fromCall == k.call && m.time == now
            && e.state.users[k] == h.users[k].(lastActive := now) && e.events == [TopicMessage(m)])
      && (e.reply.Err? ==> e.state == h && e.events == [])
  {
  }

  /** A move announces the user as it now is and the topic it came from; nothing else of it changes. */
  lemma MoveIsAnnounced(h: State, key: UserKey, name: string)
    requires Tabled(h) && SetTopic(h, key, name).reply == Ok(true)
    ensures
      var k, e := CanonKey(key), SetTopic(h, key, name);
      && k in h.users && k in e.state.users
      && e.state.users[k] == h.users[k].(topic := e.state.users[k].topic)
      && e.state.users[k].topic == (if TopicKey(name) in h.topics then h.topics[TopicKey(name)] else Trim(name))
      && e.events == [TopicChanged(e.state.users[k], h.users[k].topic)]
  {
  }

  /** A join and a leave of an absent identity cancel out: the same users are in the same topics. */
  lemma JoinThenLeave(h: State, u: User, now: int, t: string)
    requires Tabled(h) && CanonKey(KeyOf(u)) !in h.users
    ensures
      var h' := Leave(HubSpec.Join(h, u, now).state, KeyOf(u)).0;
      h'.users == h.users && InTopic(h', t) == InTopic(h, t)
  {
    JoinPuts(h, u, now);
    var k := CanonKey(KeyOf(u));
    var h1 := HubSpec.Join(h, u, now).state;
    if k in h1.users { assert (h1.users - {k}) == h.users; }
  }
}
