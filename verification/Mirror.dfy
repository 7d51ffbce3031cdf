/** What a local event does at another node: announced, carried over the wire, decoded and applied, it
    has there the effect it had here, as far as the wire format allows. */
module Mirror {
  import opened Options
  import opened Text
  import opened Chat
  import opened Proto
  import opened HubSpec
  import opened RouterSpec
  import opened RelayLaws
  import opened Origination

  /** A local user of node `our`, with a name and QTH free of control bytes. */
  predicate LocalUser(our: string, u: User) {
    && NormCall(our) == our && Word(our) && Plain(our) && u.origin.node == our
    && NormCall(u.call) == u.call && Word(u.call) && Plain(u.call) && Plain(u.name) && Plain(u.qth)
  }

  /** The record another node decodes from an event's announcement. */
  function Carried(our: string, ev: Event): Option<Record> {
    match EncodeLocal(our, ev)
    case None => None
    case Some(raw) => Decode(raw)
  }

  lemma CallIsUpper(c: string)
    requires Word(c) && NormCall(c) == c
    ensures Upper(c) == c
  {
    WordIsClean(c);
  }

  /** What a presence announcement is read as. */
  lemma PresenceIsCarried(our: string, u: User, ev: Event, typ: char)
    requires LocalUser(our, u)
    requires (ev == UserJoined(u) && typ == ID_JOIN) || (ev == UserLeft(u) && typ == ID_LEAVE)
             || (ev == UserInfoChanged(u) && typ == ID_USER)
    ensures
      var r := Carried(our, ev);
      && r.Some? && r.value.typ == typ && SenderKey(r.value) == KeyOf(u) && Canonical(r.value)
      && (UnDash(r.value.Field(0)) == u.name <==> Dashable(u.name))
      && (UnDash(r.value.Field(1)) == u.qth <==> Dashable(u.qth))
  {
    CallIsUpper(our);
    CallIsUpper(u.call);
    PresenceRoundTrip(typ, our, u.call, u.name, u.qth);
    DecodedIsCanonical(EncodeLocal(our, ev).value);
  }

  lemma NewcomerIsNamed(h: State, rec: Record, from: string, now: int)
    requires Tabled(h) && Canonical(rec) && rec.typ == ID_JOIN
    ensures
      var k, h1 := SenderKey(rec), EnsureUser(h, rec, from, now).state;
      && k in h1.users
      && if k in h.users then h1.users[k] == h.users[k]
         else h1.users[k].name == UnDash(rec.Field(0)) && h1.users[k].qth == UnDash(rec.Field(1))
              && h1.users[k].origin == Origin(rec.node, false, from)
  {
    EnsureTopicTabled(h, DEFAULT_TOPIC);
  }

  lemma JoinActs(h: State, rec: Record, now: int)
    requires Tabled(h) && Canonical(rec) && rec.typ == ID_JOIN && SenderKey(rec) in h.users
    ensures
      var k, name, qth, h' := SenderKey(rec), UnDash(rec.Field(0)), UnDash(rec.Field(1)), Act(h, rec, now).state;
      && k in h'.users && h'.users[k].origin == h.users[k].origin
      && if name == qth == "" then h'.users[k] == h.users[k] else h'.users[k].name == name && h'.users[k].qth == qth
  {
  }

  lemma JoinIsApplied(h: State, rec: Record, from: string, now: int)
    requires Tabled(h) && Canonical(rec) && rec.typ == ID_JOIN
    ensures
      var k, name, qth, h' := SenderKey(rec), UnDash(rec.Field(0)), UnDash(rec.Field(1)), ApplyState(h, rec, from, now);
      && k in h'.users
      && (if k in h.users && name == qth == "" then h'.users[k] == h.users[k]
          else h'.users[k].name == name && h'.users[k].qth == qth)
      && h'.users[k].origin == if k in h.users then h.users[k].origin else Origin(rec.node, false, from)
  {
    AppliedInStages(h, rec, from, now);
    NewcomerIsNamed(h, rec, from, now);
    JoinActs(EnsureUser(h, rec, from, now).state, rec, now);
  }

  /** A join: the user is present at the other node with the ingress link as provenance, under its
      name and QTH exactly when the wire can carry them; a known user keeps its own if both are blank. */
  lemma JoinTravels(our: string, u: User, h: State, from: string, now: int)
    requires LocalUser(our, u) && Tabled(h)
    ensures
      var r := Carried(our, UserJoined(u));
      && r.Some?
      && var h' := ApplyState(h, r.value, from, now);
      && KeyOf(u) in h'.users
      && (KeyOf(u) !in h.users ==>
            && h'.users[KeyOf(u)].origin == Origin(our, false, from)
            && (h'.users[KeyOf(u)].name == u.name <==> Dashable(u.name))
            && (h'.users[KeyOf(u)].qth == u.qth <==> Dashable(u.qth)))
      && (KeyOf(u) in h.users && Dashable(u.name) && Dashable(u.qth) ==>
            if u.name == u.qth == "" then h'.users[KeyOf(u)] == h.users[KeyOf(u)]
            else h'.users[KeyOf(u)].name == u.name && h'.users[KeyOf(u)].qth == u.qth)
  {
    PresenceIsCarried(our, u, UserJoined(u), ID_JOIN);
    JoinIsApplied(h, Carried(our, UserJoined(u)).value, from, now);
  }

  lemma InfoIsApplied(h: State, rec: Record, from: string, now: int)
    requires Tabled(h) && Canonical(rec) && rec.typ == ID_USER
    ensures
      var k, h' := SenderKey(rec), ApplyState(h, rec, from, now);
      k in h'.users && h'.users[k].name == UnDash(rec.Field(0)) && h'.users[k].qth == UnDash(rec.Field(1))
  {
    EnsureUserTabled(h, rec, from, now);
    SenderPresent(h, rec, from, now);
  }

  /** A change of name or QTH arrives exactly when the wire can carry it. */
  lemma InfoTravels(our: string, u: User, h: State, from: string, now: int)
    requires LocalUser(our, u) && Tabled(h)
    ensures
      var r := Carried(our, UserInfoChanged(u));
      && r.Some?
      && var h' := ApplyState(h, r.value, from, now);
      && KeyOf(u) in h'.users
      && (h'.users[KeyOf(u)].name == u.name <==> Dashable(u.name))
      && (h'.users[KeyOf(u)].qth == u.qth <==> Dashable(u.qth))
  {
    PresenceIsCarried(our, u, UserInfoChanged(u), ID_USER);
    InfoIsApplied(h, Carried(our, UserInfoChanged(u)).value, from, now);
  }

  /** A leave removes that user, and nobody else. */
  lemma LeaveTravels(our: string, u: User, h: State, from: string, now: int)
    requires LocalUser(our, u) && Tabled(h)
    ensures
      var r := Carried(our, UserLeft(u));
      r.Some? && ApplyState(h, r.value, from, now).users == h.users - {KeyOf(u)}
  {
    PresenceIsCarried(our, u, UserLeft(u), ID_LEAVE);
  }

  lemma LowerKeepsLength(s: string)
    ensures |Lower(s)| == |s|
  {
    LowerAt(s);
  }

  /** What a topic announcement is read as: the first word of the topic. */
  lemma TopicIsCarried(our: string, u: User, was: string)
    requires LocalUser(our, u) && Plain(u.topic) && Clean(u.topic) && u.topic != ""
    ensures
      var r := Carried(our, TopicChanged(u, was));
      && r.Some? && r.value.typ == ID_TOPIC && SenderKey(r.value) == KeyOf(u) && Canonical(r.value)
      && TopicKey(r.value.Field(0)) != ""
      && (TopicKey(r.value.Field(0)) == TopicKey(u.topic) <==> Word(u.topic))
  {
    CallIsUpper(our);
    CallIsUpper(u.call);
    DecodeEncode(ID_TOPIC, our, u.call, [u.topic]);
    OneField(u.topic);
    DecodedIsCanonical(EncodeTopic(our, u.call, u.topic));
    NoFieldsMeansBlank(u.topic);
    FirstWordKey(u.topic);
  }

  lemma FirstWordKey(t: string)
    requires Clean(t) && Fields(t) != []
    ensures TopicKey(Fields(t)[0]) != ""
    ensures TopicKey(Fields(t)[0]) == TopicKey(t) <==> Word(t)
  {
    var w := Fields(t)[0];
    assert w in Fields(t);
    TrimClean(t);
    WordIsClean(w);
    LowerKeepsLength(w);
    LowerKeepsLength(t);
    LowerAt(w);
    LowerAt(t);
    if Word(t) {
      SplitToken(IsSpace, t);
    } else {
      var n := TokenLen(IsSpace, t);
      assert w == t[..n];
      assert n < |t|;
    }
  }

  lemma TopicActs(h: State, rec: Record, now: int)
    requires Tabled(h) && Canonical(rec) && rec.typ == ID_TOPIC && TopicKey(rec.Field(0)) != "" && SenderKey(rec) in h.users
    ensures
      var k, h' := SenderKey(rec), Act(h, rec, now).state;
      k in h'.users && TopicKey(h'.users[k].topic) == TopicKey(rec.Field(0))
  {
    MovedUser(h, SenderKey(rec), rec.Field(0), SenderKey(rec));
  }

  lemma TopicIsApplied(h: State, rec: Record, from: string, now: int)
    requires Tabled(h) && Canonical(rec) && rec.typ == ID_TOPIC && TopicKey(rec.Field(0)) != ""
    ensures
      var k, h' := SenderKey(rec), ApplyState(h, rec, from, now);
      k in h'.users && TopicKey(h'.users[k].topic) == TopicKey(rec.Field(0))
  {
    AppliedInStages(h, rec, from, now);
    SenderPresent(h, rec, from, now);
    TopicActs(EnsureUser(h, rec, from, now).state, rec, now);
  }

  /** A topic change takes the user to the same topic at the other node exactly when the topic's
      name is a single word. */
  lemma TopicTravels(our: string, u: User, was: string, h: State, from: string, now: int)
    requires LocalUser(our, u) && Plain(u.topic) && Clean(u.topic) && u.topic != "" && Tabled(h)
    ensures
      var r := Carried(our, TopicChanged(u, was));
      && r.Some?
      && var h' := ApplyState(h, r.value, from, now);
      && KeyOf(u) in h'.users
      && (TopicKey(h'.users[KeyOf(u)].topic) == TopicKey(u.topic) <==> Word(u.topic))
  {
    TopicIsCarried(our, u, was);
    TopicIsApplied(h, Carried(our, TopicChanged(u, was)).value, from, now);
  }

  lemma CleanTextIsKept(text: string)
    requires Clean(text) && text != "" && |text| <= MAX_TEXT
    ensures Clip(text) == text
  {
    ClipKeepsText(text);
    TrimClean(text);
  }

  lemma DataActs(h: State, rec: Record, now: int)
    requires Tabled(h) && Canonical(rec) && rec.typ == ID_DATA && SenderKey(rec) in h.users
    requires rec.Tail(0) != "" && Clip(rec.Tail(0)) == rec.Tail(0)
    ensures
      var k, c := SenderKey(rec), Act(h, rec, now);
      && c.sent.Some? && c.sent.value.kind == TopicKind && c.sent.value.originNode == rec.node
      && c.sent.value.fromCall == rec.user && c.sent.value.text == rec.Tail(0) && c.sent.value.time == now
      && k in c.state.users && c.sent.value.topic == c.state.users[k].topic
  {
  }

  lemma DataIsApplied(h: State, rec: Record, from: string, now: int)
    requires Tabled(h) && Canonical(rec) && rec.typ == ID_DATA && rec.args != [] && |rec.Tail(0)| <= MAX_TEXT
    ensures
      var k, h', m := SenderKey(rec), ApplyState(h, rec, from, now), Sent(h, rec, from, now);
      && m.Some? && m.value.kind == TopicKind && m.value.originNode == rec.node && m.value.fromCall == rec.user
      && m.value.text == rec.Tail(0) && m.value.time == now && k in h'.users && m.value.topic == h'.users[k].topic
  {
    AppliedInStages(h, rec, from, now);
    SentIsActed(h, rec, from, now);
    SenderPresent(h, rec, from, now);
    TailIsClean(rec, 0);
    CleanTextIsKept(rec.Tail(0));
    DataActs(EnsureUser(h, rec, from, now).state, rec, now);
  }

  lemma {:induction false} CollapseIsShorter(s: string)
    ensures |Collapse(s)| <= |s|
    decreases |s|
  {
    if s == [] {
    } else if IsSpace(s[0]) {
      CollapseIsShorter(s[1..]);
    } else {
      var n := TokenLen(IsSpace, s);
      if n < |s| {
        assert s[n..][0] == s[n] && s[n..][1..] == s[n + 1..];
        CollapseIsShorter(s[n + 1..]);
        assert Fields(s[n..]) == Fields(s[n + 1..]);
        assert ([s[..n]] + Fields(s[n..]))[1..] == Fields(s[n..]);
      } else {
        assert s[..n] == s;
        SplitToken(IsSpace, s);
      }
    }
  }

  /** A post is put out at the other node as the same user's message, with the text collapsed, in the
      topic that node has the user in. */
  lemma PostTravels(our: string, h: State, key: UserKey, text: string, now: int, remote: State, from: string, later: int)
    requires NormCall(our) == our && Word(our) && Plain(our) && CanonKey(key) == key && key.node == our
    requires Word(key.call) && Plain(key.call) && Plain(text) && Post(h, key, text, now).reply.Ok? && Tabled(remote)
    ensures
      var sent := Post(h, key, text, now).reply.value;
      var r := Carried(our, TopicMessage(sent));
      && r.Some?
      && var got := Sent(remote, r.value, from, later);
      && got.Some? && got.value.kind == TopicKind && got.value.originNode == our && got.value.fromCall == key.call
      && got.value.text == Collapse(sent.text)
      && var h' := ApplyState(remote, r.value, from, later);
      key in h'.users && got.value.topic == h'.users[key].topic
  {
    var sent := Post(h, key, text, now).reply.value;
    PostOriginates(our, h, key, text, now);
    var rec := Carried(our, TopicMessage(sent)).value;
    ClipKeepsText(text);
    CollapseIsShorter(sent.text);
    TextHasFields(sent.text);
    TailIsClean(rec, 0);
    DataIsApplied(remote, rec, from, later);
  }

  lemma TextHasFields(s: string)
    requires Clean(s) && s != ""
    ensures Collapse(s) != ""
  {
    NoFieldsMeansBlank(s);
    JoinShape(Fields(s));
  }

  // ---- private messages ----

  /** A private message of `key` to `target`. */
  predicate Addressed(m: Message, key: UserKey, target: string, text: string) {
    && m.kind == PrivateKind && m.originNode == key.node && m.fromCall == key.call
    && m.toCall == target && m.text == text
  }

  /** A local private message is addressed to the trimmed, upper-cased target and carries the clipped
      text; there is one exactly when there is text and both ends are present, and it is announced as it is. */
  lemma PrivateIsAddressed(h: State, key: UserKey, to: string, text: string, now: int)
    ensures
      var e := Private(h, key, to, text, now);
      && (e.reply.Ok? <==> Clip(text) != "" && CanonKey(key) in h.users
                           && exists k :: k in h.users && k.call == Upper(Trim(to)))
      && (e.reply.Ok? ==> Addressed(e.reply.value, CanonKey(key), Upper(Trim(to)), Clip(text))
                          && e.reply.value.time == now && e.events == [PrivateMessage(e.reply.value)])
      && (e.reply.Err? ==> e.events == [])
  {
  }

  /** What a private announcement is read as. */
  lemma PrivateIsCarried(our: string, key: UserKey, m: Message)
    requires NormCall(our) == our && Word(our) && Plain(our) && CanonKey(key) == key && key.node == our
    requires Word(key.call) && Plain(key.call) && Word(m.toCall) && Plain(m.toCall) && Plain(m.text)
    requires Addressed(m, key, m.toCall, m.text)
    ensures
      var r := Carried(our, PrivateMessage(m));
      && r.Some? && r.value.typ == ID_SEND && SenderKey(r.value) == key && Canonical(r.value)
      && r.value.Field(0) == m.toCall && r.value.Tail(1) == Collapse(m.text)
  {
    CallIsUpper(our);
    CallIsUpper(key.call);
    SendRoundTrip(our, key.call, m.toCall, m.text);
    DecodedIsCanonical(EncodeLocal(our, PrivateMessage(m)).value);
  }

  lemma PrivateActs(h: State, rec: Record, now: int)
    requires Tabled(h) && Canonical(rec) && rec.typ == ID_SEND && SenderKey(rec) in h.users
    requires rec.Tail(1) != "" && Clip(rec.Tail(1)) == rec.Tail(1)
    ensures
      var c := Act(h, rec, now);
      && (c.sent.Some? <==> CallPresent(h, NormCall(rec.Field(0))))
      && (c.sent.Some? ==> Addressed(c.sent.value, SenderKey(rec), NormCall(rec.Field(0)), rec.Tail(1)))
  {
  }

  lemma PresentAfterSender(h: State, rec: Record, from: string, now: int, call: string)
    requires Tabled(h) && Canonical(rec)
    ensures CallPresent(EnsureUser(h, rec, from, now).state, call) <==> CallPresent(h, call) || call == rec.user
  {
    SenderPresent(h, rec, from, now);
    var h1 := EnsureUser(h, rec, from, now).state;
    forall k
      ensures k in h1.users <==> k in h.users || k == SenderKey(rec)
    {
      EnsureUserIsLocal(h, rec, from, now, k);
    }
    assert SenderKey(rec) in h1.users;
  }

  lemma PrivateIsApplied(h: State, rec: Record, from: string, now: int)
    requires Tabled(h) && Canonical(rec) && rec.typ == ID_SEND && rec.Tail(1) != "" && |rec.Tail(1)| <= MAX_TEXT
    ensures
      var target, m := NormCall(rec.Field(0)), Sent(h, rec, from, now);
      && (m.Some? <==> CallPresent(h, target) || target == rec.user)
      && (m.Some? ==> Addressed(m.value, SenderKey(rec), target, rec.Tail(1)))
  {
    SentIsActed(h, rec, from, now);
    SenderPresent(h, rec, from, now);
    PresentAfterSender(h, rec, from, now, NormCall(rec.Field(0)));
    TailIsClean(rec, 1);
    CleanTextIsKept(rec.Tail(1));
    PrivateActs(EnsureUser(h, rec, from, now).state, rec, now);
  }

  /** A private message to a one-word callsign reaches the same callsign, with the text collapsed,
      at exactly those nodes where somebody goes by it, the sender included. */
  lemma PrivateTravels(our: string, h: State, key: UserKey, to: string, text: string, now: int,
                       remote: State, from: string, later: int)
    requires NormCall(our) == our && Word(our) && Plain(our) && CanonKey(key) == key && key.node == our
    requires Word(key.call) && Plain(key.call) && Plain(text) && Word(NormCall(to)) && Plain(NormCall(to))
    requires Private(h, key, to, text, now).reply.Ok? && Tabled(remote)
    ensures
      var sent := Private(h, key, to, text, now).reply.value;
      var r := Carried(our, PrivateMessage(sent));
      && r.Some?
      && var got := Sent(remote, r.value, from, later);
      && (got.Some? <==> CallPresent(remote, NormCall(to)) || NormCall(to) == key.call)
      && (got.Some? ==> Addressed(got.value, key, NormCall(to), Collapse(Clip(text))))
  {
    var sent := Private(h, key, to, text, now).reply.value;
    PrivateIsAddressed(h, key, to, text, now);
    ClipIsPlain(text);
    ClipKeepsText(text);
    PrivateIsCarried(our, key, sent);
    var rec := Carried(our, PrivateMessage(sent)).value;
    NormCallIdempotent(to);
    CollapseIsShorter(sent.text);
    TextHasFields(sent.text);
    PrivateIsApplied(remote, rec, from, later);
  }
}
