/** The chat domain's data: users, nodes, messages, events and the content-derived message id. */
module Chat {
  import opened Text

  const DEFAULT_TOPIC := "General"

  const MAX_TEXT: nat := 2048

  /** A network user: callsign and home node, both canonical. */
  datatype UserKey = UserKey(call: string, node: string)

  /** Where a user entered our view; `link` is the ingress peer of a remote user. */
  datatype Origin = Origin(node: string, local: bool, link: string)

  datatype Flags = Flags(echo: bool, bells: bool, colour: bool, showNames: bool, showTime: bool)

  datatype User = User(call: string, name: string, qth: string, origin: Origin, topic: string,
                       joined: int, lastActive: int, flags: Flags)

  datatype Node = Node(call: string, alias: string, version: string, linked: int)

  datatype Kind = TopicKind | PrivateKind

  /** A duplicate-suppression key: the normalised content a message id hashes, or, for every
      other record, its type and raw line. */
  datatype Key =
    | Synth(node: string, call: string, kind: Kind, scope: string, text: string)
    | Raw(typ: char, line: string)

  datatype Message = Message(id: Key, originNode: string, fromCall: string, kind: Kind,
                             topic: string, toCall: string, time: int, text: string)

  datatype Event =
    | UserJoined(user: User)
    | UserLeft(user: User)
    | TopicMessage(message: Message)
    | PrivateMessage(message: Message)
    | TopicChanged(user: User, from: string)
    | UserInfoChanged(user: User)
    | NodeLinked(linked: Node)
    | NodeUnlinked(unlinked: Node)

  datatype Error = NoSuchUser | EmptyText | NoSuchTopic

  datatype Reply<T> = Ok(value: T) | Err(error: Error)

  function KeyOf(u: User): UserKey { UserKey(u.call, u.origin.node) }

  function CanonKey(k: UserKey): UserKey { UserKey(NormCall(k.call), NormCall(k.node)) }

  /** The message id, as the normalised content it is derived from. */
  function SynthID(originNode: string, fromCall: string, kind: Kind, scope: string, text: string): Key {
    Synth(NormCall(originNode), NormCall(fromCall), kind, Lower(scope), Trim(text))
  }

  /** Message text as the hub stores it: line ends cut, capped, trimmed. */
  function Clip(s: string): string {
    var cut := CutLineEnd(s);
    Trim(if |cut| > MAX_TEXT then cut[..MAX_TEXT] else cut)
  }

  /** Clipping keeps the text an id is built from exactly while the text fits the cap. */
  lemma ClipKeepsText(s: string)
    ensures Clean(Clip(s)) && |Clip(s)| <= MAX_TEXT
    ensures |s| <= MAX_TEXT ==> Clip(s) == Trim(s)
    ensures Clean(s) ==> (Trim(Clip(s)) == Trim(s) <==> |s| <= MAX_TEXT)
  {
    var cut := CutLineEnd(s);
    var kept := if |cut| > MAX_TEXT then cut[..MAX_TEXT] else cut;
    TrimIdempotent(kept);
    TrimLength(kept);
    TrimAfterCut(s);
    if Clean(s) { TrimClean(s); }
  }

  /** `s` from its start up to the cap, line end included if it is short: blanks, the text, blanks. */
  predicate ClipSplits(s: string, a: string, m: string, b: string) {
    && a + m + b <= s && AllSpace(a) && AllSpace(b) && Clean(m)
    && |a + m + b| <= MAX_TEXT
    && (|a + m + b| == MAX_TEXT || forall i :: |a + m + b| <= i < |s| ==> IsCrLf(s[i]))
  }

  /** Clipping takes the text at the start of a message, up to the cap, and only there. */
  lemma ClipIsTheStart(s: string)
    ensures exists a, b :: ClipSplits(s, a, Clip(s), b)
  {
    var cut := CutLineEnd(s);
    var end := CutLineEndParts(s);
    var kept := if |cut| > MAX_TEXT then cut[..MAX_TEXT] else cut;
    var a, b := TrimParts(kept);
    assert kept <= s;
    assert |kept| < MAX_TEXT ==> forall i :: |kept| <= i < |s| ==> s[i] == end[i - |cut|];
    assert ClipSplits(s, a, Clip(s), b);
  }

  // ---- the bytes behind an id ----

  const NUL: char := 0 as char

  function KindByte(k: Kind): char { if k.TopicKind? then 0 as char else 1 as char }

  /** The byte string that is hashed into a message id. */
  function Preimage(k: Key): string
    requires k.Synth?
  {
    k.node + [NUL] + (k.call + [NUL] + ([KindByte(k.kind), NUL] + (k.scope + [NUL] + k.text)))
  }

  lemma FirstNulSplits(a: string, x: string, b: string, y: string)
    requires NUL !in a && NUL !in b
    requires a + [NUL] + x == b + [NUL] + y
    ensures a == b && x == y
  {
    var s := a + [NUL] + x;
    assert s[|a|] == NUL && s[|b|] == NUL;
    assert forall i :: 0 <= i < |a| ==> s[i] == a[i] && a[i] in a;
    assert forall i :: 0 <= i < |b| ==> s[i] == b[i] && b[i] in b;
    assert |a| == |b|;
    assert a == s[..|a|] == b;
    assert x == s[|a| + 1..] == y;
  }

  /** The NUL separators make the hashed bytes unambiguous: two ids whose callsigns and scope
      hold no NUL have the same bytes only if they are the same id. */
  lemma PreimageIsUnambiguous(k: Key, l: Key)
    requires k.Synth? && l.Synth?
    requires NUL !in k.node && NUL !in k.call && NUL !in k.scope
    requires NUL !in l.node && NUL !in l.call && NUL !in l.scope
    requires Preimage(k) == Preimage(l)
    ensures k == l
  {
    var k3, l3 := k.scope + [NUL] + k.text, l.scope + [NUL] + l.text;
    var k2, l2 := [KindByte(k.kind), NUL] + k3, [KindByte(l.kind), NUL] + l3;
    FirstNulSplits(k.node, k.call + [NUL] + k2, l.node, l.call + [NUL] + l2);
    FirstNulSplits(k.call, k2, l.call, l2);
    assert k2[0] == l2[0];
    assert k2[2..] == k3 && l2[2..] == l3;
    FirstNulSplits(k.scope, k.text, l.scope, l.text);
  }
}
