/** The inter-node control-record codec. */
module Proto {
  import opened Options
  import opened Text

  /** The byte that starts every control record. */
  const FORMAT: char := 1 as char

  const ID_JOIN := 'J'
  const ID_LEAVE := 'L'
  const ID_LINK := 'N'
  const ID_UNLINK := 'Q'
  const ID_DATA := 'D'
  const ID_SEND := 'S'
  const ID_TOPIC := 'T'
  const ID_USER := 'I'
  const ID_KEEPALIVE := 'K'
  const ID_POLL := 'P'
  const ID_POLL_RESP := 'R'

  const RTL_LOGIN := "*RTL"
  const BANNER_PREFIX := "[BPQCHATSERVER-"

  /** One decoded record; `raw` is the exact line, which relays verbatim. */
  datatype Record = Record(raw: string, typ: char, node: string, user: string, args: seq<string>) {

    /** The i-th argument after node and user, or "". */
    function Field(i: nat): string { if i < |args| then args[i] else "" }

    /** The arguments from `i` on, rejoined with single spaces. */
    function Tail(i: nat): string { if i < |args| then Join(args[i..], ' ') else "" }
  }

  function Banner(): string { BANNER_PREFIX + "pdn]" }

  predicate IsBanner(line: string) {
    |line| >= |BANNER_PREFIX| && EqualFold(line[..|BANNER_PREFIX|], BANNER_PREFIX)
  }

  predicate IsRtl(line: string) { EqualFold(Trim(line), RTL_LOGIN) }

  predicate IsControl(line: string) { |line| >= 2 && line[0] == FORMAT }

  /** A byte that invalidates a record: a control byte other than tab and FORMAT. */
  predicate Corrupt(c: char) { c < ' ' && c != '\t' && c != FORMAT }

  function Detab(s: string): string {
    if s == [] then [] else Detab(s[..|s| - 1]) + [if s[|s| - 1] == '\t' then ' ' else s[|s| - 1]]
  }

  function Decode(line: string): Option<Record> {
    if !IsControl(line) || !FreeOf(Corrupt, line[2..]) then None
    else
      var fields := Fields(Detab(line[2..]));
      if |fields| < 2 then None
      else Some(Record(line, line[1], Upper(fields[0]), Upper(fields[1]), fields[2..]))
  }

  lemma {:induction false} DetabAt(s: string)
    ensures |Detab(s)| == |s|
    ensures forall i :: 0 <= i < |s| ==> Detab(s)[i] == if s[i] == '\t' then ' ' else s[i]
  {
    if s != [] { DetabAt(s[..|s| - 1]); }
  }

  /** A line is a record exactly when it starts with the format byte and a type, has no other control
      byte than tabs behind those, and has at least two fields there: its node and its user. */
  lemma DecodesIff(line: string)
    ensures Decode(line).Some? <==>
      && |line| >= 2 && line[0] == FORMAT
      && (forall i :: 2 <= i < |line| ==> line[i] >= ' ' || line[i] == '\t' || line[i] == FORMAT)
      && |Fields(line[2..])| >= 2
    ensures Decode(line).Some? ==>
      var fields := Fields(line[2..]);
      Decode(line).value == Record(line, line[1], Upper(fields[0]), Upper(fields[1]), fields[2..])
  {
    if IsControl(line) {
      var body := line[2..];
      DetabAt(body);
      FieldsIgnoreBlankKind(Detab(body), body);
      assert forall i :: 2 <= i < |line| ==> line[i] == body[i - 2];
    }
  }

  /** Decoding as it is done: the body is scanned byte by byte into a builder. */
  method DecodeLine(line: string) returns (r: Option<Record>)
    ensures r == Decode(line)
  {
    if !IsControl(line) { return None; }
    var typ := line[1];
    var body := line[2..];
    var b := "";
    var i := 0;
    while i < |body|
      invariant 0 <= i <= |body| && FreeOf(Corrupt, body[..i]) && b == Detab(body[..i])
    {
      var c := body[i];
      assert body[..i + 1][..i] == body[..i];
      if c == '\t' {
        b := b + " ";
      } else if c < ' ' && c != FORMAT {
        assert Corrupt(body[i]);
        return None;
      } else {
        b := b + [c];
      }
      i := i + 1;
    }
    assert body[..i] == body;
    var fields := Fields(b);
    if |fields| < 2 { return None; }
    return Some(Record(line, typ, Upper(fields[0]), Upper(fields[1]), fields[2..]));
  }

  /** The fields of a record body, each after one space. */
  function Spaced(rest: seq<string>): string {
    if rest == [] then [] else Spaced(rest[..|rest| - 1]) + [' '] + rest[|rest| - 1]
  }

  function Encode(typ: char, node: string, user: string, rest: seq<string>): string {
    [FORMAT, typ] + (node + Spaced([user] + rest))
  }

  method EncodeRecord(typ: char, node: string, user: string, rest: seq<string>) returns (line: string)
    ensures line == Encode(typ, node, user, rest)
  {
    var b := [FORMAT] + [typ] + node + [' '] + user;
    var i := 0;
    assert Spaced([user]) == [' '] + user;
    assert [user] + rest[..0] == [user];
    while i < |rest|
      invariant 0 <= i <= |rest| && b == [FORMAT, typ] + (node + Spaced([user] + rest[..i]))
    {
      var fs := [user] + rest[..i + 1];
      assert fs[..|fs| - 1] == [user] + rest[..i] && fs[|fs| - 1] == rest[i];
      b := b + [' '];
      b := b + rest[i];
      i := i + 1;
    }
    assert rest[..i] == rest;
    return b;
  }

  function Replace(s: string, a: char, b: char): string {
    if s == [] then [] else [if s[0] == a then b else s[0]] + Replace(s[1..], a, b)
  }

  /** A name or QTH as one field: "?" when blank, spaces as underscores. */
  function OrDash(s: string): string { if Trim(s) == "" then "?" else Replace(s, ' ', '_') }

  function UnDash(s: string): string { if s == "?" then "" else Replace(s, '_', ' ') }

  function EncodeData(node: string, user: string, text: string): string { Encode(ID_DATA, node, user, [text]) }
  function EncodeJoin(node: string, user: string, name: string, qth: string): string {
    Encode(ID_JOIN, node, user, [OrDash(name), OrDash(qth)])
  }
  function EncodeLeave(node: string, user: string, name: string, qth: string): string {
    Encode(ID_LEAVE, node, user, [OrDash(name), OrDash(qth)])
  }
  function EncodeUser(node: string, user: string, name: string, qth: string): string {
    Encode(ID_USER, node, user, [OrDash(name), OrDash(qth)])
  }
  function EncodeTopic(node: string, user: string, topic: string): string { Encode(ID_TOPIC, node, user, [topic]) }
  function EncodeSend(node: string, user: string, target: string, text: string): string {
    Encode(ID_SEND, node, user, [target, text])
  }
  function EncodeKeepalive(node: string, link: string, version: string): string {
    Encode(ID_KEEPALIVE, node, link, [version])
  }
  function EncodePollResp(node: string, link: string): string { Encode(ID_POLL_RESP, node, link, []) }

  // ---- round trips ----

  /** No control byte: the only blank is the space. */
  predicate Plain(s: string) { forall i :: 0 <= i < |s| ==> s[i] >= ' ' }

  lemma {:induction false} DetabPlain(s: string)
    requires Plain(s)
    ensures Detab(s) == s
  {
    if s != [] { DetabPlain(s[..|s| - 1]); }
  }

  function AllFields(rest: seq<string>): seq<string> {
    if rest == [] then [] else AllFields(rest[..|rest| - 1]) + Fields(rest[|rest| - 1])
  }

  lemma {:induction false} SpacedFields(node: string, rest: seq<string>)
    requires Plain(node) && forall f :: f in rest ==> Plain(f)
    ensures Plain(node + Spaced(rest))
    ensures Fields(node + Spaced(rest)) == Fields(node) + AllFields(rest)
  {
    if rest == [] {
      assert node + Spaced(rest) == node;
    } else {
      var n := |rest| - 1;
      SpacedFields(node, rest[..n]);
      assert rest[n] in rest;
      assert node + Spaced(rest) == (node + Spaced(rest[..n])) + [' '] + rest[n];
      SplitAtSeparator(IsSpace, node + Spaced(rest[..n]), ' ', rest[n]);
    }
  }

  /** Decoding undoes encoding: the callsigns come back upper-cased and the arguments are the
      blank-separated fields of what was written. */
  lemma DecodeEncode(typ: char, node: string, user: string, rest: seq<string>)
    requires Word(node) && Plain(node) && Word(user) && Plain(user)
    requires forall f :: f in rest ==> Plain(f)
    ensures
      var line := Encode(typ, node, user, rest);
      Decode(line) == Some(Record(line, typ, Upper(node), Upper(user), AllFields(rest)))
  {
    var line := Encode(typ, node, user, rest);
    var body := node + Spaced([user] + rest);
    assert line[2..] == body;
    BodyFields(node, user, rest);
    DetabPlain(body);
    var fields := [node, user] + AllFields(rest);
    assert fields[2..] == AllFields(rest);
  }

  lemma BodyFields(node: string, user: string, rest: seq<string>)
    requires Word(node) && Plain(node) && Word(user) && Plain(user)
    requires forall f :: f in rest ==> Plain(f)
    ensures
      var body := node + Spaced([user] + rest);
      Plain(body) && Fields(body) == [node, user] + AllFields(rest)
  {
    SpacedFields(node, [user] + rest);
    SplitToken(IsSpace, node);
    UserFieldFirst(user, rest);
  }

  lemma AllFieldsOneMore(rest: seq<string>, f: string)
    ensures AllFields(rest + [f]) == AllFields(rest) + Fields(f)
  {
    assert (rest + [f])[..|rest|] == rest;
  }

  lemma {:induction false} UserFieldFirst(user: string, rest: seq<string>)
    requires Word(user)
    ensures AllFields([user] + rest) == [user] + AllFields(rest)
  {
    if rest == [] {
      assert [user] + rest == [user];
      OneField(user);
      SplitToken(IsSpace, user);
    } else {
      var init, f := rest[..|rest| - 1], rest[|rest| - 1];
      UserFieldFirst(user, init);
      assert [user] + rest == ([user] + init) + [f];
      AllFieldsOneMore([user] + init, f);
    }
  }

  lemma OneField(f: string)
    ensures AllFields([f]) == Fields(f)
  {
    assert [f][..0] == [];
  }

  lemma TwoFields(f: string, g: string)
    ensures AllFields([f, g]) == Fields(f) + Fields(g)
  {
    assert [f, g][..1] == [f];
    OneField(f);
  }

  /** A topic message crosses the wire with its blanks collapsed. */
  lemma DataRoundTrip(node: string, user: string, text: string)
    requires Word(node) && Plain(node) && Word(user) && Plain(user) && Plain(text)
    ensures
      var r := Decode(EncodeData(node, user, text));
      && r.Some? && r.value.typ == ID_DATA && r.value.node == Upper(node) && r.value.user == Upper(user)
      && r.value.Tail(0) == Collapse(text)
  {
    DecodeEncode(ID_DATA, node, user, [text]);
    OneField(text);
    assert Fields(text)[0..] == Fields(text);
  }

  /** A private message keeps its target and its collapsed text. */
  lemma SendRoundTrip(node: string, user: string, target: string, text: string)
    requires Word(node) && Plain(node) && Word(user) && Plain(user)
    requires Word(target) && Plain(target) && Plain(text)
    ensures
      var r := Decode(EncodeSend(node, user, target, text));
      && r.Some? && r.value.typ == ID_SEND && r.value.node == Upper(node) && r.value.user == Upper(user)
      && r.value.Field(0) == target && r.value.Tail(1) == Collapse(text)
  {
    DecodeEncode(ID_SEND, node, user, [target, text]);
    TwoFields(target, text);
    SplitToken(IsSpace, target);
    assert ([target] + Fields(text))[1..] == Fields(text);
  }

  /** A topic change names the same topic on the other side exactly when the name is blank-free. */
  lemma TopicRoundTrip(node: string, user: string, topic: string)
    requires Word(node) && Plain(node) && Word(user) && Plain(user) && Plain(topic)
    ensures
      var r := Decode(EncodeTopic(node, user, topic));
      && r.Some? && r.value.typ == ID_TOPIC && r.value.node == Upper(node) && r.value.user == Upper(user)
      && (r.value.Field(0) == topic <==> topic == "" || Word(topic))
  {
    DecodeEncode(ID_TOPIC, node, user, [topic]);
    OneField(topic);
    if Word(topic) {
      SplitToken(IsSpace, topic);
    } else if Fields(topic) != [] {
      assert Fields(topic)[0] in Fields(topic);
    }
  }

  /** The records a node originates, as they stand on the wire. */
  lemma OnTheWire(node: string, user: string, a: string, b: string)
    ensures EncodeData(node, user, a) == [1 as char] + "D" + node + " " + user + " " + a
    ensures EncodeTopic(node, user, a) == [1 as char] + "T" + node + " " + user + " " + a
    ensures EncodeSend(node, user, a, b) == [1 as char] + "S" + node + " " + user + " " + a + " " + b
    ensures EncodeKeepalive(node, user, a) == [1 as char] + "K" + node + " " + user + " " + a
    ensures EncodePollResp(node, user) == [1 as char] + "R" + node + " " + user
    ensures EncodeJoin(node, user, "", "") == [1 as char] + "J" + node + " " + user + " ? ?"
    ensures EncodeLeave(node, user, "", "") == [1 as char] + "L" + node + " " + user + " ? ?"
    ensures EncodeUser(node, user, "", "") == [1 as char] + "I" + node + " " + user + " ? ?"
  {
    SpacedOne(user);
    assert [user] + [] == [user];
    forall typ: char, c: string
      ensures Encode(typ, node, user, [c]) == [1 as char, typ] + node + " " + user + " " + c
    {
      SpacedMore([user], c);
    }
    EncodeTwo(ID_SEND, node, user, a, b);
    EncodeTwo(ID_JOIN, node, user, "?", "?");
    EncodeTwo(ID_LEAVE, node, user, "?", "?");
    EncodeTwo(ID_USER, node, user, "?", "?");
    assert " ?" + " ?" == " ? ?";
  }

  lemma EncodeTwo(typ: char, node: string, user: string, a: string, b: string)
    ensures Encode(typ, node, user, [a, b]) == [1 as char, typ] + node + " " + user + (" " + a) + (" " + b)
  {
    SpacedOne(user);
    SpacedMore([user], a);
    SpacedMore([user, a], b);
    assert [user] + [a, b] == [user, a] + [b];
  }

  lemma SpacedOne(f: string)
    ensures Spaced([f]) == " " + f
  {
    assert [f][..0] == [];
  }

  lemma SpacedMore(fs: seq<string>, f: string)
    ensures Spaced(fs + [f]) == Spaced(fs) + " " + f
  {
    assert (fs + [f])[..|fs|] == fs;
  }

  // ---- names and QTHs ----

  lemma {:induction false} ReplaceShape(s: string, a: char, b: char)
    ensures |Replace(s, a, b)| == |s|
    ensures forall i :: 0 <= i < |s| ==> Replace(s, a, b)[i] == if s[i] == a then b else s[i]
  {
    if s != [] { ReplaceShape(s[1..], a, b); }
  }

  lemma BlankTrims(s: string)
    ensures Trim(s) == "" <==> AllSpace(s)
  {
    var a, b := TrimParts(s);
    if AllSpace(s) {
      assert s == s + [] + [];
      TrimUnique(s, s, [], []);
    }
  }

  lemma DashIsField(s: string)
    requires Plain(s)
    ensures Word(OrDash(s)) && Plain(OrDash(s))
  {
    ReplaceShape(s, ' ', '_');
    BlankTrims(s);
  }

  /** The names the underscore convention can carry. */
  predicate Dashable(s: string) { s == "" || (Trim(s) != "" && '_' !in s && s != "?") }

  /** `UnDash` undoes `OrDash` for exactly these names. */
  lemma DashRoundTrip(s: string)
    ensures UnDash(OrDash(s)) == s <==> Dashable(s)
  {
    var d := OrDash(s);
    ReplaceShape(s, ' ', '_');
    ReplaceShape(d, '_', ' ');
    TrimClean("");
    if Trim(s) == "" {
    } else if s == "?" {
      assert d == "?";
    } else {
      assert |s| == 1 ==> s == [s[0]];
      assert d != "?";
      if '_' in s {
        var i :| 0 <= i < |s| && s[i] == '_';
        assert UnDash(d)[i] == ' ';
      } else {
        assert forall i :: 0 <= i < |s| ==> UnDash(d)[i] == s[i];
      }
    }
  }

  /** A presence record always has exactly two arguments, and gives a name and a QTH back
      exactly when the underscore convention can carry them. */
  lemma PresenceRoundTrip(typ: char, node: string, user: string, name: string, qth: string)
    requires Word(node) && Plain(node) && Word(user) && Plain(user) && Plain(name) && Plain(qth)
    ensures
      var r := Decode(Encode(typ, node, user, [OrDash(name), OrDash(qth)]));
      && r.Some? && r.value.typ == typ && r.value.node == Upper(node) && r.value.user == Upper(user)
      && |r.value.args| == 2
      && (UnDash(r.value.Field(0)) == name <==> Dashable(name))
      && (UnDash(r.value.Field(1)) == qth <==> Dashable(qth))
  {
    DashIsField(name);
    DashIsField(qth);
    DecodeEncode(typ, node, user, [OrDash(name), OrDash(qth)]);
    TwoFields(OrDash(name), OrDash(qth));
    SplitToken(IsSpace, OrDash(name));
    SplitToken(IsSpace, OrDash(qth));
    DashRoundTrip(name);
    DashRoundTrip(qth);
  }

  // ---- what a decoded record is like ----

  /** What decoding guarantees of a record: canonical callsigns, blank-free arguments. */
  predicate Canonical(rec: Record) {
    && Word(rec.node) && NormCall(rec.node) == rec.node
    && Word(rec.user) && NormCall(rec.user) == rec.user
    && forall i :: 0 <= i < |rec.args| ==> Word(rec.args[i])
  }

  lemma DecodedIsCanonical(line: string)
    requires Decode(line).Some?
    ensures Decode(line).value.raw == line && Canonical(Decode(line).value)
  {
    var fields := Fields(Detab(line[2..]));
    forall i | 0 <= i < |fields|
      ensures Word(fields[i])
    {
      assert fields[i] in fields;
    }
    CanonicalWord(fields[0]);
    CanonicalWord(fields[1]);
  }

  lemma CanonicalWord(w: string)
    requires Word(w)
    ensures Word(Upper(w)) && NormCall(Upper(w)) == Upper(w)
  {
    UpperKeepsShape(w);
    WordIsClean(Upper(w));
    FoldLaws(w);
  }
}
