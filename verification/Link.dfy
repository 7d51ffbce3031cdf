/** The two ends of a link over byte streams: reading up to a gate, admitting a caller, and the lines
    that make a handshake between real nodes an instance of the protocol. */
module Links {
  import opened Options
  import opened Text
  import opened Proto
  import opened Lines
  import opened Flows
  import opened AllowLists
  import AllowSpec
  import Handshake

  // ---- the handshake's lines ----

  predicate IsOk(line: string) { "OK" <= Upper(line) }

  /** A line as a reader classifies it. */
  function Seen(text: string): Handshake.Line {
    Handshake.Line(text, IsBanner(text), IsRtl(text), IsOk(text), Proto.Decode(text))
  }

  /** The gate lines, byte by byte. */
  lemma OkByByte(line: string)
    ensures IsOk(line) <==> |line| >= 2 && line[0] in {'O', 'o'} && line[1] in {'K', 'k'}
  {
    UpperAt(line);
  }

  lemma StartFolds(line: string, start: string)
    requires |line| >= |start|
    ensures EqualFold(line[..|start|], start) <==> forall i :: 0 <= i < |start| ==> SameLetter(line[i], start[i])
  {
    var head := line[..|start|];
    FoldsTheSame(head, start);
    assert forall i :: 0 <= i < |start| ==> head[i] == line[i];
  }

  lemma BannerByByte(line: string)
    ensures IsBanner(line) <==>
      |line| >= |BANNER_PREFIX| && forall i :: 0 <= i < |BANNER_PREFIX| ==> SameLetter(line[i], BANNER_PREFIX[i])
  {
    if |line| >= |BANNER_PREFIX| { StartFolds(line, BANNER_PREFIX); }
  }

  lemma LoginByByte(line: string)
    ensures IsRtl(line) <==> var t := Trim(line);
      |t| == 4 && t[0] == '*' && t[1] in {'R', 'r'} && t[2] in {'T', 't'} && t[3] in {'L', 'l'}
  {
    var t := Trim(line);
    FoldsTheSame(t, RTL_LOGIN);
    if |t| == 4 { LoginLetters(t); }
  }

  lemma LoginLetters(t: string)
    requires |t| == 4
    ensures (forall i :: 0 <= i < 4 ==> SameLetter(t[i], RTL_LOGIN[i]))
      <==> t[0] == '*' && t[1] in {'R', 'r'} && t[2] in {'T', 't'} && t[3] in {'L', 'l'}
  {
    assert RTL_LOGIN[0] == '*' && RTL_LOGIN[1] == 'R' && RTL_LOGIN[2] == 'T' && RTL_LOGIN[3] == 'L';
    if forall i :: 0 <= i < 4 ==> SameLetter(t[i], RTL_LOGIN[i]) {
      assert SameLetter(t[0], '*') && SameLetter(t[1], 'R') && SameLetter(t[2], 'T') && SameLetter(t[3], 'L');
    }
  }

  /** No line opens two gates, and a record opens none. */
  lemma GatesAreDistinct(line: string)
    ensures !(IsOk(line) && IsRtl(line)) && !(IsOk(line) && IsBanner(line)) && !(IsRtl(line) && IsBanner(line))
    ensures Proto.Decode(line).Some? ==> !IsOk(line) && !IsRtl(line) && !IsBanner(line)
  {
    OkByByte(line);
    BannerByByte(line);
    LoginByByte(line);
    if line != "" && !IsSpace(line[0]) {
      var a, b := TrimParts(line);
      assert a == "" || a[0] == line[0];
      assert IsRtl(line) ==> Trim(line)[0] == line[0];
    }
    assert IsBanner(line) ==> SameLetter(line[0], BANNER_PREFIX[0]);
  }

  function SeenAll(texts: seq<string>): (lines: seq<Handshake.Line>)
    ensures |lines| == |texts| && forall i :: 0 <= i < |texts| ==> lines[i] == Seen(texts[i])
  {
    seq(|texts|, i requires 0 <= i < |texts| => Seen(texts[i]))
  }

  /** A callsign in canonical form. */
  predicate Callsign(c: string) { Word(c) && Plain(c) && Upper(c) == c }

  /** A dialler and a listener as nodes configure them, with the bytes already in front of either's
      traffic. What is not ended there becomes part of the first line behind it. */
  function Between(kind: Handshake.Kind, dialler: string, listener: string, remote: string,
                   dialVersion: string, listenVersion: string, allowed: set<string>, pinned: set<string>,
                   chatter: string, noise: string): Handshake.Setup
  {
    var caller := Upper(if kind.Ip? then dialler else remote);
    Handshake.Setup(kind, dialler, listener, remote, allowed, pinned,
                    Seen(Cap(Partial(chatter) + Banner(), MAX_LINK_LINE)),
                    Seen(Cap(Partial(noise) + RTL_LOGIN, MAX_LINK_LINE)), Seen("OK"),
                    Seen(EncodeKeepalive(dialler, listener, dialVersion)),
                    Seen(EncodeKeepalive(listener, caller, listenVersion)),
                    Seen(EncodePollResp(dialler, listener)), Seen(EncodePollResp(listener, caller)),
                    SeenAll(LinesOf(chatter)), SeenAll(LinesOf(noise)))
  }

  lemma OkIsSeen()
    ensures Seen("OK").isOk
  {
    UpperAt("OK");
  }

  /** No line of the bytes passes for a banner, or for a login. */
  predicate NoBannerIn(bytes: string) { forall i :: 0 <= i < |LinesOf(bytes)| ==> !IsBanner(LinesOf(bytes)[i]) }
  predicate NoLoginIn(bytes: string) { forall i :: 0 <= i < |LinesOf(bytes)| ==> !IsRtl(LinesOf(bytes)[i]) }

  lemma ChatterIsSeen(chatter: string, noise: string)
    requires NoBannerIn(chatter) && NoLoginIn(noise)
    ensures Handshake.NoBanner(SeenAll(LinesOf(chatter))) && Handshake.NoRtl(SeenAll(LinesOf(noise)))
  {
  }

  lemma KeepaliveIsNoLogin(node: string, link: string, version: string)
    ensures !Seen(EncodeKeepalive(node, link, version)).isRtl
  {
    var line := EncodeKeepalive(node, link, version);
    var a, b := TrimParts(line);
    assert line[0] == FORMAT && !IsSpace(FORMAT);
    assert a == [];
    assert Trim(line)[0] == FORMAT;
    UpperAt(Trim(line));
    UpperAt(RTL_LOGIN);
  }

  lemma KeepaliveCarries(node: string, link: string, version: string)
    requires Callsign(node) && Word(link) && Plain(link) && Plain(version)
    ensures Handshake.Carries(Seen(EncodeKeepalive(node, link, version)), ID_KEEPALIVE, node)
    ensures Handshake.Carries(Seen(EncodePollResp(node, link)), ID_POLL_RESP, node)
  {
    DecodeEncode(ID_KEEPALIVE, node, link, [version]);
    DecodeEncode(ID_POLL_RESP, node, link, []);
  }

  lemma UpperStaysPlain(s: string)
    requires Word(s) && Plain(s)
    ensures Word(Upper(s)) && Plain(Upper(s))
  {
    UpperAt(s);
  }

  lemma LoginIsSeen()
    ensures Seen(Cap("" + RTL_LOGIN, MAX_LINK_LINE)).isRtl
  {
    assert "" + RTL_LOGIN == RTL_LOGIN;
    TrimClean(RTL_LOGIN);
  }

  /** Real callsigns, and bytes in front without a banner and a login among their lines, make a
      well-formed handshake. */
  lemma RealNodesAreWellFormed(kind: Handshake.Kind, dialler: string, listener: string, remote: string,
                               dialVersion: string, listenVersion: string, allowed: set<string>, pinned: set<string>,
                               chatter: string, noise: string)
    requires Callsign(dialler) && Callsign(listener) && Word(remote) && Plain(remote)
    requires Plain(dialVersion) && Plain(listenVersion)
    requires NoBannerIn(chatter) && NoLoginIn(noise) && (kind.Radio? ==> noise == "")
    ensures Handshake.WellFormed(
      Between(kind, dialler, listener, remote, dialVersion, listenVersion, allowed, pinned, chatter, noise))
  {
    OkIsSeen();
    ChatterIsSeen(chatter, noise);
    var caller := if kind.Ip? then dialler else remote;
    UpperStaysPlain(caller);
    KeepaliveCarries(dialler, listener, dialVersion);
    KeepaliveCarries(listener, Upper(caller), listenVersion);
    KeepaliveIsNoLogin(dialler, listener, dialVersion);
    if kind.Radio? {
      NoBytesNoLines();
      LoginIsSeen();
    }
  }

  // ---- when the banner and the login are recognised ----

  lemma FoldedAlike(x: string, y: string, i: nat)
    requires EqualFold(x, y) && i < |x|
    ensures i < |y| && UpperChar(x[i]) == UpperChar(y[i])
  {
    UpperAt(x);
    UpperAt(y);
  }

  /** The bracket that starts a banner occurs nowhere else in its prefix. */
  lemma OneBracket(i: nat)
    requires 0 < i < |BANNER_PREFIX|
    ensures UpperChar(BANNER_PREFIX[i]) != '['
  {
  }

  lemma BracketSpoilsBanner(line: string, i: nat)
    requires 0 < i < |BANNER_PREFIX| <= |line| && line[i] == '['
    ensures !IsBanner(line)
  {
    var head := line[..|BANNER_PREFIX|];
    OneBracket(i);
    if EqualFold(head, BANNER_PREFIX) { FoldedAlike(head, BANNER_PREFIX, i); }
  }

  lemma BannerStands()
    ensures IsBanner(Banner()) && |BANNER_PREFIX| < |Banner()| < MAX_LINK_LINE && Banner()[0] == '['
  {
    assert Banner()[..|BANNER_PREFIX|] == BANNER_PREFIX;
  }

  lemma SameStartSameBanner(x: string, y: string)
    requires |x| >= |BANNER_PREFIX| && |y| >= |BANNER_PREFIX| && x[..|BANNER_PREFIX|] == y[..|BANNER_PREFIX|]
    ensures IsBanner(x) <==> IsBanner(y)
  {
  }

  lemma BannerBehindLong(p: string, banner: string)
    requires |p| >= |BANNER_PREFIX|
    ensures IsBanner(Cap(p + banner, MAX_LINK_LINE)) <==> IsBanner(p)
  {
    var line, k := Cap(p + banner, MAX_LINK_LINE), |BANNER_PREFIX|;
    assert line[..k] == p[..k];
    SameStartSameBanner(line, p);
  }

  lemma BannerBehindShort(p: string, banner: string)
    requires 0 < |p| < |BANNER_PREFIX| < |banner| < MAX_LINK_LINE - |BANNER_PREFIX| && banner[0] == '['
    ensures !IsBanner(Cap(p + banner, MAX_LINK_LINE)) && !IsBanner(p)
  {
    var line := Cap(p + banner, MAX_LINK_LINE);
    assert line[|p|] == banner[0];
    BracketSpoilsBanner(line, |p|);
  }

  /** The banner is recognised behind unended bytes exactly when there are none, or they pass for a
      banner themselves. */
  lemma BannerIsSeenIff(p: string)
    ensures IsBanner(Cap(p + Banner(), MAX_LINK_LINE)) <==> p == "" || IsBanner(p)
  {
    BannerStands();
    if p == "" {
      assert p + Banner() == Banner();
    } else if |p| >= |BANNER_PREFIX| {
      BannerBehindLong(p, Banner());
    } else {
      BannerBehindShort(p, Banner());
    }
  }

  /** The login is recognised behind unended bytes, short of the reader's cap, exactly when they are
      blank. */
  lemma LoginIsSeenIff(p: string)
    requires |p| + |RTL_LOGIN| <= MAX_LINK_LINE
    ensures IsRtl(Cap(p + RTL_LOGIN, MAX_LINK_LINE)) <==> AllSpace(p)
  {
    var line := p + RTL_LOGIN;
    UpperAt(RTL_LOGIN);
    if AllSpace(p) {
      assert line == p + RTL_LOGIN + "";
      TrimUnique(line, p, RTL_LOGIN, "");
    } else {
      var a, b := TrimParts(line);
      UpperAt(Trim(line));
      assert line[|line| - 1] == 'L' && !IsSpace('L');
      assert b == "";
      var i :| 0 <= i < |p| && !IsSpace(p[i]);
      assert line[i] == p[i];
      assert forall j :: 0 <= j < |a| ==> line[j] == a[j];
      assert |Trim(line)| > |RTL_LOGIN|;
    }
  }

  // ---- reading up to a gate ----

  /** The first line that passes; the number of lines if none does. */
  function FirstMatch(lines: seq<string>, pred: string -> bool): (k: nat)
    ensures k <= |lines| && (k < |lines| ==> pred(lines[k])) && forall i :: 0 <= i < k ==> !pred(lines[i])
  {
    if lines == [] || pred(lines[0]) then 0 else 1 + FirstMatch(lines[1..], pred)
  }

  /** Reads lines until one passes; what follows it is left unread. */
  method ReadUntil(br: ByteReader, pred: string -> bool) returns (ok: bool, line: string)
    modifies br
    ensures var lines := LinesOf(old(br.rest)); var k := FirstMatch(lines, pred);
            ok == (k < |lines|) && (ok ==> line == lines[k] && LinesOf(br.rest) == lines[k + 1..])
  {
    ghost var lines := LinesOf(br.rest);
    ghost var n := 0;
    assert lines[0..] == lines;
    while true
      invariant n <= |lines| && LinesOf(br.rest) == lines[n..] && FirstMatch(lines, pred) == n + FirstMatch(lines[n..], pred)
      decreases |br.rest|
    {
      ghost var before := Segments(br.rest);
      var eof;
      eof, line := ReadLine(br);
      if eof { return false, ""; }
      CapAllFirst(before, MAX_LINK_LINE);
      assert line == lines[n] && lines[n..][1..] == lines[n + 1..];
      if pred(line) { return true, line; }
      n := n + 1;
    }
  }

  /** A gate opens on a line if and only if one of the three parts of the lines opens it. */
  lemma GateOpens(before: seq<string>, line: string, after: seq<string>, pred: string -> bool)
    requires forall i :: 0 <= i < |before| ==> !pred(before[i])
    requires forall i :: 0 <= i < |after| ==> !pred(after[i])
    ensures
      var lines := before + [line] + after;
      FirstMatch(lines, pred) == if pred(line) then |before| else |lines|
  {
    var lines := before + [line] + after;
    var k := FirstMatch(lines, pred);
    assert lines[|before|] == line;
    assert forall i :: 0 <= i < |before| ==> lines[i] == before[i];
    assert forall i :: |before| < i < |lines| ==> lines[i] == after[i - |before| - 1];
  }

  lemma BannerIsPlain()
    ensures FreeOf(IsCrLf, Banner()) && FreeOf(IsCrLf, RTL_LOGIN)
  {
  }

  /** The dialler's gate, on bytes: behind chatter without a banner it opens on the listener's banner if
      and only if the chatter ends in a whole line, or in what passes for a banner itself. */
  lemma BannerGateIff(chatter: string, rest: string)
    requires NoBannerIn(chatter) && NoBannerIn(rest)
    ensures
      var lines := LinesOf(chatter + Banner() + ['\r'] + rest);
      FirstMatch(lines, IsBanner) < |lines| <==> Partial(chatter) == "" || IsBanner(Partial(chatter))
  {
    BannerIsPlain();
    LinesAround(chatter, Banner(), rest);
    BannerIsSeenIff(Partial(chatter));
    GateOpens(LinesOf(chatter), Cap(Partial(chatter) + Banner(), MAX_LINK_LINE), LinesOf(rest), IsBanner);
  }

  /** The IP listener's gate, on bytes: behind noise without a login it opens on the dialler's login if
      and only if the unended end of the noise, short of the reader's cap, is blank. */
  lemma LoginGateIff(noise: string, rest: string)
    requires NoLoginIn(noise) && NoLoginIn(rest) && |Partial(noise)| + |RTL_LOGIN| <= MAX_LINK_LINE
    ensures
      var lines := LinesOf(noise + RTL_LOGIN + ['\r'] + rest);
      FirstMatch(lines, IsRtl) < |lines| <==> AllSpace(Partial(noise))
  {
    BannerIsPlain();
    LinesAround(noise, RTL_LOGIN, rest);
    LoginIsSeenIff(Partial(noise));
    GateOpens(LinesOf(noise), Cap(Partial(noise) + RTL_LOGIN, MAX_LINK_LINE), LinesOf(rest), IsRtl);
  }

  const PROMPT := "> "

  lemma PromptIsPartial()
    ensures LinesOf(PROMPT) == [] && Partial(PROMPT) == PROMPT && NoBannerIn(PROMPT) && !IsBanner(PROMPT)
  {
    assert PROMPT[..|PROMPT|] == PROMPT;
    TokenLenUnique(IsCrLf, PROMPT, |PROMPT|);
  }

  /** The input the dialler fails on: a node prompt, which no line end follows, in front of the banner.
      No line is a banner, so Dial sends nothing and does not link. */
  lemma PromptHidesBanner()
    ensures
      var lines := LinesOf(PROMPT + Banner() + ['\r']);
      FirstMatch(lines, IsBanner) == |lines| && lines == [PROMPT + Banner()]
  {
    PromptIsPartial();
    NoBytesNoLines();
    BannerGateIff(PROMPT, "");
    BannerIsPlain();
    LinesAround(PROMPT, Banner(), "");
    assert PROMPT + Banner() + ['\r'] + "" == PROMPT + Banner() + ['\r'];
  }

  predicate IsRecord(line: string) { Proto.Decode(line).Some? }

  method ReadFirstRecord(br: ByteReader) returns (r: Option<Record>)
    modifies br
    ensures var lines := LinesOf(old(br.rest)); var k := FirstMatch(lines, IsRecord);
            if k == |lines| then r == None
            else r == Proto.Decode(lines[k]) && LinesOf(br.rest) == lines[k + 1..]
  {
    var ok, line := ReadUntil(br, IsRecord);
    if !ok { return None; }
    r := DecodeLine(line);
  }

  // ---- admission ----

  datatype Verdict = LinkedTo(first: Record) | TurnedAway(call: string) | Ended

  /** The first record after the login. */
  function FirstRecord(lines: seq<string>): Option<Record> {
    var i := FirstMatch(lines, IsRtl);
    if i == |lines| then None
    else
      var after := lines[i + 1..];
      var j := FirstMatch(after, IsRecord);
      if j == |after| then None else Proto.Decode(after[j])
  }

  /** It is the first line that decodes behind the first login, and there is none without both. */
  lemma FirstRecordIs(before: seq<string>, login: string, between: seq<string>, line: string, rest: seq<string>)
    requires (forall i :: 0 <= i < |before| ==> !IsRtl(before[i])) && IsRtl(login)
    requires forall i :: 0 <= i < |between| ==> Proto.Decode(between[i]).None?
    ensures FirstRecord(before) == None
    ensures FirstRecord(before + [login] + between) == None
    ensures Proto.Decode(line).Some? ==>
      FirstRecord(before + [login] + between + [line] + rest) == Proto.Decode(line)
  {
    GateAfter(before, login, between, IsRtl);
    GateAfter(before, login, between + [line] + rest, IsRtl);
    assert before + [login] + (between + [line] + rest) == before + [login] + between + [line] + rest;
    if Proto.Decode(line).Some? { GateAfter(between, line, rest, IsRecord); }
  }

  lemma GateAfter(before: seq<string>, line: string, after: seq<string>, pred: string -> bool)
    requires (forall i :: 0 <= i < |before| ==> !pred(before[i])) && pred(line)
    ensures
      var lines := before + [line] + after;
      FirstMatch(lines, pred) == |before| && lines[|before|] == line && lines[|before| + 1..] == after
  {
    var lines := before + [line] + after;
    assert lines[|before|] == line;
    assert forall i :: 0 <= i < |before| ==> lines[i] == before[i];
  }

  method ReadCaller(br: ByteReader) returns (r: Option<Record>)
    modifies br
    ensures r == FirstRecord(LinesOf(old(br.rest)))
  {
    var ok, login := ReadUntil(br, IsRtl);
    if !ok { return None; }
    r := ReadFirstRecord(br);
  }

  /** What an inbound IP stream comes to: the first record after the login says who is calling. */
  function IpVerdict(first: Option<Record>, allowed: set<string>, pinned: set<string>): Verdict {
    match first
    case None => Ended
    case Some(rec) => if AllowSpec.Admits(allowed, pinned, rec.node) then LinkedTo(rec) else TurnedAway(rec.node)
  }

  function AllowedSet(a: AllowList?): set<string>
    reads a
  {
    if a == null then {} else a.allowed
  }

  function PinnedSet(a: AllowList?): set<string>
    reads a
  {
    if a == null then {} else a.pinned
  }

  /** An inbound IP link up to the point where it is served. Only an admitted caller is sent anything
      after the banner; a caller that is turned away is counted, and no list admits nobody. */
  method AcceptIp(br: ByteReader, allow: AllowList?, our: string, version: string)
      returns (verdict: Verdict, sent: seq<string>)
    modifies br, allow
    ensures allow != null ==> allow.allowed == old(allow.allowed) && allow.pinned == old(allow.pinned)
    ensures verdict == IpVerdict(FirstRecord(LinesOf(old(br.rest))), AllowedSet(allow), PinnedSet(allow))
    ensures
      match verdict
      case LinkedTo(rec) => NormCall(rec.node) != "" && NormCall(rec.node) in AllowedSet(allow) + PinnedSet(allow)
      case TurnedAway(call) => NormCall(call) == "" || NormCall(call) !in AllowedSet(allow) + PinnedSet(allow)
      case Ended => true
    ensures sent == [Banner()] + (if verdict.LinkedTo? then ["OK", EncodeKeepalive(our, verdict.first.node, version)] else [])
    ensures allow != null ==>
      allow.rejected == old(allow.rejected) + (if verdict.TurnedAway? then 1 else 0)
  {
    sent := [Banner()];
    var first := ReadCaller(br);
    if first.None? { return Ended, sent; }
    var admitted := AllowedBy(allow, first.value.node);
    if !admitted {
      if allow != null { var n := allow.Reject(); }
      return TurnedAway(first.value.node), sent;
    }
    sent := sent + ["OK"];
    sent := sent + [EncodeKeepalive(our, first.value.node, version)];
    return LinkedTo(first.value), sent;
  }

  datatype Demux = PeerLink | PeerTurnedAway | UserSession(line: string) | Gone

  /** An inbound radio connection: its first line tells a peer from a user, and a peer is admitted by
      the callsign it connected with before anything else is done for it. */
  method AcceptRadio(br: ByteReader, allow: AllowList?, remote: string) returns (verdict: Demux, sent: seq<string>)
    modifies br, allow
    ensures allow != null ==> allow.allowed == old(allow.allowed) && allow.pinned == old(allow.pinned)
    ensures sent == [Banner()]
    ensures
      var lines := LinesOf(old(br.rest));
      && verdict == (if lines == [] then Gone else if !IsRtl(lines[0]) then UserSession(lines[0])
                     else if AllowSpec.Admits(AllowedSet(allow), PinnedSet(allow), remote) then PeerLink else PeerTurnedAway)
      && (lines != [] ==> LinesOf(br.rest) == lines[1..])
    ensures verdict.PeerLink? || verdict.PeerTurnedAway? ==>
      (verdict.PeerLink? <==> NormCall(remote) != "" && NormCall(remote) in AllowedSet(allow) + PinnedSet(allow))
    ensures allow != null ==>
      allow.rejected == old(allow.rejected) + (if verdict.PeerTurnedAway? then 1 else 0)
  {
    sent := [Banner()];
    ghost var before := Segments(br.rest);
    var eof, first := ReadLine(br);
    if eof { return Gone, sent; }
    CapAllFirst(before, MAX_LINK_LINE);
    if !IsRtl(first) { return UserSession(first), sent; }
    var admitted := AllowedBy(allow, remote);
    if !admitted {
      if allow != null { var n := allow.Reject(); }
      return PeerTurnedAway, sent;
    }
    return PeerLink, sent;
  }

  /** The dialling half: after the banner, log in and announce ourselves; then wait for the OK. */
  method Dial(br: ByteReader, our: string, peer: string, version: string) returns (linked: bool, sent: seq<string>)
    modifies br
    ensures
      var lines := LinesOf(old(br.rest));
      var i := FirstMatch(lines, IsBanner);
      && sent == (if i == |lines| then [] else [RTL_LOGIN, EncodeKeepalive(our, peer, version)])
      && linked == (i < |lines| && FirstMatch(lines[i + 1..], IsOk) < |lines| - i - 1)
      && (linked ==> LinesOf(br.rest) == lines[i + 1..][FirstMatch(lines[i + 1..], IsOk) + 1..])
  {
    var ok, line := ReadUntil(br, IsBanner);
    if !ok { return false, []; }
    sent := [RTL_LOGIN];
    sent := sent + [EncodeKeepalive(our, peer, version)];
    linked, line := ReadUntil(br, IsOk);
  }
}
