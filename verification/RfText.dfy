/** The path of a typed line: from a radio user's keyboard, through the hub, over a link, to the
    record another node decodes. */
module RfText {
  import opened Options
  import opened Text
  import opened Chat
  import opened Proto
  import opened Lines
  import opened HubSpec
  import opened RouterSpec
  import opened Origination
  import RelayLaws
  import Hubs

  // ---- the session's input ----

  const DEL: char := 127 as char

  predicate Dropped(c: char) { c != '\t' && (c < ' ' || c == DEL) }

  function Sanitised(s: string): string {
    if s == [] then []
    else
      var before, c := Sanitised(s[..|s| - 1]), s[|s| - 1];
      if c == '\t' then before + [' '] else if Dropped(c) then before else before + [c]
  }

  /** Strips control bytes, turning tabs into spaces. */
  method Sanitise(s: string) returns (b: string)
    ensures b == Sanitised(s) && Plain(b) && DEL !in b && |b| <= |s|
  {
    b := "";
    for i := 0 to |s|
      invariant b == Sanitised(s[..i]) && Plain(b) && DEL !in b && |b| <= i
    {
      var c := s[i];
      assert s[..i + 1][..i] == s[..i];
      if c == '\t' {
        b := b + [' '];
      } else if c < ' ' || c == DEL {
      } else {
        b := b + [c];
      }
    }
    assert s[..|s|] == s;
  }

  lemma {:induction false} SanitisedIsPlain(s: string)
    ensures Plain(Sanitised(s)) && |Sanitised(s)| <= |s|
  {
    if s != [] { SanitisedIsPlain(s[..|s| - 1]); }
  }

  datatype Typed = Nothing | Command(line: string) | Say(text: string)

  /** How a session takes an input line: blank, a command, or text for the current topic. */
  function Read(line: string): Typed {
    var trimmed := Trim(Sanitised(line));
    if trimmed == "" then Nothing else if trimmed[0] == '/' then Command(trimmed) else Say(trimmed)
  }

  /** One input line of a session: a blank one does nothing, and text is posted. What commands do is not
      part of this model. */
  method ProcessLine(hub: Hubs.Hub, key: UserKey, line: string, now: int) returns (typed: Typed, r: Option<Reply<Message>>)
    requires hub.Valid()
    modifies hub, hub.seen, hub.store, hub.bus
    ensures hub.Valid() && typed == Read(line) && r.Some? == typed.Say?
    ensures typed.Say? ==>
      var e := HubSpec.Post(old(hub.State()), key, typed.text, now); hub.State() == e.state && r.value == e.reply
    ensures typed.Nothing? ==> hub.State() == old(hub.State())
  {
    var clean := Sanitise(line);
    var trimmed := Trim(clean);
    if trimmed == "" { return Nothing, None; }
    if trimmed[0] == '/' { return Command(trimmed), None; }
    var posted, events := hub.Post(key, trimmed, now);
    return Say(trimmed), Some(posted);
  }

  // ---- blanks ----

  lemma {:induction false} FieldsAfterBlanks(a: string, s: string)
    requires AllSpace(a)
    ensures Fields(a + s) == Fields(s)
  {
    if a == [] {
      assert a + s == s;
    } else {
      assert (a + s)[1..] == a[1..] + s;
      FieldsAfterBlanks(a[1..], s);
    }
  }

  lemma FieldsBeforeBlanks(s: string, b: string)
    requires AllSpace(b)
    ensures Fields(s + b) == Fields(s)
  {
    if b == [] {
      assert s + b == s;
    } else {
      assert s + b == s + [b[0]] + b[1..];
      SplitAtSeparator(IsSpace, s, b[0], b[1..]);
      NoFieldsMeansBlank(b[1..]);
    }
  }

  lemma TrimKeepsFields(s: string)
    ensures Fields(Trim(s)) == Fields(s) && Collapse(Trim(s)) == Collapse(s)
  {
    var a, b := TrimParts(s);
    assert s == a + (Trim(s) + b);
    FieldsAfterBlanks(a, Trim(s) + b);
    FieldsBeforeBlanks(Trim(s), b);
  }

  lemma {:induction false} SanitisedAt(s: string)
    requires FreeOf(Dropped, s)
    ensures |Sanitised(s)| == |s|
    ensures forall i :: 0 <= i < |s| ==> Sanitised(s)[i] == if s[i] == '\t' then ' ' else s[i]
  {
    if s != [] { SanitisedAt(s[..|s| - 1]); }
  }

  /** A line without stray control bytes keeps its words. */
  lemma SanitisedKeepsWords(s: string)
    requires FreeOf(Dropped, s)
    ensures Collapse(Sanitised(s)) == Collapse(s)
  {
    SanitisedAt(s);
    FieldsIgnoreBlankKind(Sanitised(s), s);
  }

  /** Each byte is dropped, made a space or kept, on its own. */
  lemma {:induction false} SanitisedBoth(s: string, t: string)
    ensures Sanitised(s + t) == Sanitised(s) + Sanitised(t)
    decreases |t|
  {
    if t == [] {
      assert s + t == s;
    } else {
      SanitisedBoth(s, t[..|t| - 1]);
      assert (s + t)[..|s + t| - 1] == s + t[..|t| - 1];
    }
  }

  lemma SanitisedByte(c: char)
    ensures Sanitised([c]) == if c == '\t' then " " else if c < ' ' || c == DEL then "" else [c]
  {
    assert Sanitised([c][..0]) == [];
  }

  lemma {:induction false} FirstFieldStarts(s: string)
    requires Clean(s) && s != ""
    ensures Fields(s) != [] && Fields(s)[0] != "" && Fields(s)[0][0] == s[0]
  {
    NoFieldsMeansBlank(s);
    var n := TokenLen(IsSpace, s);
    assert Fields(s)[0] == s[..n];
  }

  /** A line is nothing without a word, a command if its first word starts with a slash, and otherwise
      text; and it is taken with all its words. */
  lemma ReadByFirstWord(line: string)
    ensures
      var words, typed := Fields(Sanitised(line)), Read(line);
      && (typed.Nothing? <==> words == [])
      && (typed.Command? <==> words != [] && words[0] != "" && words[0][0] == '/')
      && (typed.Command? ==> Clean(typed.line) && Fields(typed.line) == words)
      && (typed.Say? ==> Clean(typed.text) && Fields(typed.text) == words)
  {
    var clean := Sanitised(line);
    TrimKeepsFields(clean);
    TrimIdempotent(clean);
    if Trim(clean) != "" { FirstFieldStarts(Trim(clean)); }
  }

  // ---- framing ----

  /** A line a reader gives back whole. */
  predicate Framable(raw: string) { FreeOf(IsCrLf, raw) && |raw| <= MAX_LINK_LINE }

  /** The bytes of a list of records, each terminated as a link sends it. */
  function Framed(raws: seq<string>): string {
    if raws == [] then [] else raws[0] + ['\r'] + Framed(raws[1..])
  }

  lemma {:induction false} FramedReadsBack(raws: seq<string>)
    requires forall raw :: raw in raws ==> Framable(raw)
    ensures CapAll(Segments(Framed(raws)), MAX_LINK_LINE) == raws && Partial(Framed(raws)) == ""
  {
    if raws != [] {
      var first, rest := raws[0], raws[1..];
      FramedReadsBack(rest);
      var s := Framed(raws);
      assert s[..|first|] == first && Framable(first);
      TokenLenUnique(IsCrLf, s, |first|);
      assert s[|first| + 1..] == Framed(rest);
      CapAllFirst(Segments(s), MAX_LINK_LINE);
      assert Segments(s)[1..] == Segments(Framed(rest));
    }
  }

  // ---- the whole path ----

  lemma PlainIsFramable(raw: string)
    requires |raw| >= 2 && raw[0] == FORMAT && raw[1] >= ' ' && Plain(raw[2..]) && |raw| <= MAX_LINK_LINE
    ensures Framable(raw)
  {
    assert forall i :: 2 <= i < |raw| ==> raw[i] == raw[2..][i - 2];
  }

  /** What becomes of a typed line: a post, a record, and a line among the frames of a link that
      reads back whole and decodes to this node's data record with the words that were typed. */
  lemma TypedTextSurvives(our: string, h: State, key: UserKey, line: string, now: int,
                          before: seq<string>, after: seq<string>)
    requires NormCall(our) == our && Word(our) && Plain(our)
    requires CanonKey(key) == key && key.node == our && Word(key.call) && Plain(key.call) && key in h.users
    requires Read(line).Say?
    requires |EncodeData(our, key.call, Clip(Read(line).text))| <= MAX_LINK_LINE
    requires forall raw :: raw in before + after ==> Framable(raw)
    ensures
      var posted := HubSpec.Post(h, key, Read(line).text, now).reply;
      && posted.Ok?
      && var raw := EncodeLocal(our, TopicMessage(posted.value));
      && raw.Some?
      && CapAll(Segments(Framed(before + [raw.value] + after)), MAX_LINK_LINE) == before + [raw.value] + after
      && var back := Decode(raw.value);
      && back.Some? && back.value.typ == ID_DATA && back.value.node == our && back.value.user == key.call
      && back.value.Tail(0) == Collapse(Clip(Read(line).text))
      && (|line| <= MAX_TEXT ==> back.value.Tail(0) == Collapse(Sanitised(line)))
  {
    var text := Read(line).text;
    TextIsClipped(line);
    var m := HubSpec.Post(h, key, text, now).reply.value;
    PostOriginates(our, h, key, text, now);
    var raw := EncodeLocal(our, TopicMessage(m)).value;
    DataRecordIsPlain(our, key.call, m.text);
    PlainIsFramable(raw);
    forall r | r in before + [raw] + after
      ensures Framable(r)
    {
      assert r != raw ==> r in before + after;
    }
    FramedReadsBack(before + [raw] + after);
  }

  lemma TextIsClipped(line: string)
    requires Read(line).Say?
    ensures var text := Read(line).text; Plain(text) && Clip(text) != "" && Plain(Clip(text))
    ensures |line| <= MAX_TEXT ==> Collapse(Clip(Read(line).text)) == Collapse(Sanitised(line))
  {
    var clean := Sanitised(line);
    var text := Read(line).text;
    SanitisedIsPlain(line);
    var a, b := TrimParts(clean);
    assert forall i :: 0 <= i < |text| ==> text[i] == clean[|a| + i];
    ClipIsPlain(text);
    RelayLaws.ClipsNonEmpty(text);
    ClipKeepsText(text);
    TrimKeepsFields(clean);
    TrimIdempotent(clean);
  }

  lemma DataRecordIsPlain(node: string, user: string, text: string)
    requires Plain(node) && Plain(user) && Plain(text)
    ensures Plain(EncodeData(node, user, text)[2..])
  {
    assert EncodeData(node, user, text)[2..] == node + Spaced([user] + [text]);
    SpacedFields(node, [user] + [text]);
  }

  /** The id the sender's node records is the key a receiving node computes exactly when the text has
      single blanks only and the two nodes agree on the sender's topic. */
  lemma IdSurvivesWire(our: string, h: State, key: UserKey, text: string, now: int, remote: State)
    requires NormCall(our) == our && Word(our) && Plain(our)
    requires CanonKey(key) == key && key.node == our && Word(key.call) && Plain(key.call)
    requires Plain(text) && HubSpec.Post(h, key, text, now).reply.Ok?
    ensures
      var m := HubSpec.Post(h, key, text, now).reply.value;
      var back := Decode(EncodeData(our, key.call, m.text));
      && back.Some?
      && (RecordKey(remote, back.value) == m.id
          <==> Collapse(m.text) == m.text && Lower(TopicOf(remote, key)) == Lower(h.users[key].topic))
  {
    var m := HubSpec.Post(h, key, text, now).reply.value;
    PostOriginates(our, h, key, text, now);
    CollapseLaws(m.text);
    ClipKeepsText(text);
    TrimClean(m.text);
  }
}
