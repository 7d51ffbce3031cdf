/** Local actions are what the mesh takes them for: they touch only their own node's users, and the
    event they cause goes out as a record of this node. */
module Origination {
  import opened Options
  import opened Text
  import opened Chat
  import opened Proto
  import opened HubSpec
  import opened RouterSpec
  import opened RelayLaws
  import opened MeshNode
  import opened Mesh

  /** The operation is one of node `at`'s own users. */
  predicate OpOf(at: string, op: Op) {
    match op
    case OpJoin(u) => NormCall(u.origin.node) == at
    case OpLeave(k) => NormCall(k.node) == at
    case OpPost(k, _) => NormCall(k.node) == at
    case OpPrivate(k, _, _) => NormCall(k.node) == at
    case OpSetTopic(k, _) => NormCall(k.node) == at
    case OpSetInfo(k, _, _) => NormCall(k.node) == at
    case OpSetFlags(k, _) => NormCall(k.node) == at
    case OpLink(_, _, _) => true
    case OpUnlink(_) => false
  }

  lemma JoinIsOwn(h: State, u: User, now: int, k: UserKey)
    requires Tabled(h) && NormCall(u.origin.node) != k.node
    ensures SameUser(h, HubSpec.Join(h, u, now).state, k)
  {
  }

  lemma SetTopicIsOwn(h: State, key: UserKey, name: string, k: UserKey)
    requires Tabled(h) && NormCall(key.node) != k.node
    ensures SameUser(h, SetTopic(h, key, name).state, k)
  {
  }

  lemma OtherOpsAreOwn(h: State, key: UserKey, to: string, text: string, flags: Flags, now: int, k: UserKey)
    requires NormCall(key.node) != k.node
    ensures SameUser(h, Leave(h, key).0, k)
    ensures SameUser(h, Post(h, key, text, now).state, k)
    ensures SameUser(h, Private(h, key, to, text, now).state, k)
    ensures SameUser(h, SetInfo(h, key, to, text).state, k)
    ensures SameUser(h, SetFlags(h, key, flags).state, k)
  {
  }

  lemma OpIsOwn(at: string, h: State, op: Op, now: int, k: UserKey)
    requires Tabled(h) && OpOf(at, op) && k.node != at
    ensures SameUser(h, Perform(h, op, now), k)
  {
    var none := Flags(false, false, false, false, false);
    match op
    case OpJoin(u) => JoinIsOwn(h, u, now, k);
    case OpLeave(key) => OtherOpsAreOwn(h, key, "", "", none, now, k);
    case OpPost(key, text) => OtherOpsAreOwn(h, key, "", text, none, now, k);
    case OpPrivate(key, to, text) => OtherOpsAreOwn(h, key, to, text, none, now, k);
    case OpSetTopic(key, name) => SetTopicIsOwn(h, key, name, k);
    case OpSetInfo(key, name, qth) => OtherOpsAreOwn(h, key, name, qth, none, now, k);
    case OpSetFlags(key, flags) => OtherOpsAreOwn(h, key, "", "", flags, now, k);
    case OpLink(_, _, _) =>
    case OpUnlink(_) =>
  }

  /** Every operation of a node's own users is a local change in the mesh. */
  lemma OwnOpsAreLocalChanges(at: string, h: State, op: Op, now: int)
    requires Valid(h) && OpOf(at, op)
    ensures LocalChange(at, h, Perform(h, op, now))
  {
    PerformKeeps(h, op, now);
    forall k: UserKey | k.node != at
      ensures SameUser(h, Perform(h, op, now), k)
    {
      OpIsOwn(at, h, op, now, k);
    }
  }

  /** A local post goes out as a data record of this node, which any node can decode, and the id
      recorded for it names this node. */
  lemma PostOriginates(our: string, h: State, key: UserKey, text: string, now: int)
    requires NormCall(our) == our && Word(our) && Plain(our) && CanonKey(key) == key && key.node == our
    requires Word(key.call) && Plain(key.call) && Plain(text) && Post(h, key, text, now).reply.Ok?
    ensures
      var m := Post(h, key, text, now).reply.value;
      var raw := EncodeLocal(our, TopicMessage(m));
      && raw.Some? && Decode(raw.value).Some? && OnWire(Decode(raw.value).value)
      && Decode(raw.value).value.node == our && Decode(raw.value).value.user == key.call
      && Decode(raw.value).value.typ == ID_DATA && Decode(raw.value).value.Tail(0) == Collapse(m.text)
      && m.id.Synth? && m.id.node == our
  {
    var m := Post(h, key, text, now).reply.value;
    ClipIsPlain(text);
    DataRoundTrip(our, key.call, m.text);
    DecodedIsCanonical(EncodeData(our, key.call, m.text));
    FoldLaws(Trim(our));
    FoldLaws(Trim(key.call));
  }

  lemma {:induction false} CutIsPrefix(s: string)
    ensures CutLineEnd(s) <= s
  {
    if s != [] && IsCrLf(s[|s| - 1]) { CutIsPrefix(s[..|s| - 1]); }
  }

  lemma ClipIsPlain(s: string)
    requires Plain(s)
    ensures Plain(Clip(s))
  {
    CutIsPrefix(s);
    var cut := CutLineEnd(s);
    var kept := if |cut| > MAX_TEXT then cut[..MAX_TEXT] else cut;
    var a, b := TrimParts(kept);
    assert forall i :: 0 <= i < |Trim(kept)| ==> Trim(kept)[i] == kept[|a| + i];
  }
}
