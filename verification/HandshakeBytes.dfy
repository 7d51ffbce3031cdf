/** The handshake over byte channels: each side reads one byte at a time and acts on the line a terminator
    completes, and writes whole lines. Every run of it is a run of the handshake over lines. */
module HandshakeBytes {
  import opened Options
  import opened Text
  import opened Proto
  import opened Lines
  import opened Flows
  import opened Links
  import opened Handshake
  import HandshakeRuns

  /** The two sides, with the bytes ever written to either and how many of them it has read. */
  datatype Bytes = Bytes(c: State, toD: string, posD: nat, toL: string, posL: nat)

  datatype ByteStep =
    | DialByte | DialWrites | DialQuits | DialTells(raw: string)
    | ListenByte | ListenWrites | ListenPending | ListenTells(raw: string)

  function StartBytes(u: Setup, chatter: string, noise: string): Bytes { Bytes(Start(u), chatter, 0, noise, 0) }

  predicate DialAwaits(s: State) { s.d.AwaitBanner? || s.d.AwaitOk? }
  predicate ListenAwaits(s: State) { s.l.AwaitRtl? || s.l.AwaitFirst? }

  /** A line a link can carry whole. */
  predicate Sendable(raw: string) { FreeOf(IsCrLf, raw) && |raw| <= MAX_LINK_LINE }

  predicate ByteEnabled(b: Bytes, step: ByteStep) {
    match step
    case DialByte => (DialAwaits(b.c) || b.c.d.Linked?) && b.posD < |b.toD|
    case DialWrites => b.c.d.LoggingIn? || b.c.d.Announcing?
    case DialQuits => DialAwaits(b.c) && b.posD == |b.toD| && b.c.l.Refused?
    case DialTells(raw) => b.c.d.Linked? && Sendable(raw)
    case ListenByte => (ListenAwaits(b.c) || (b.c.l.Serving? && b.c.pending == [])) && b.posL < |b.toL|
    case ListenWrites => b.c.l.Greeting? || b.c.l.Accepting? || b.c.l.Replying?
    case ListenPending => b.c.l.Serving? && b.c.pending != []
    case ListenTells(raw) => b.c.l.Serving? && Sendable(raw)
  }

  /** The line the reader has in progress. */
  function InProgress(total: string, pos: nat): Line
    requires pos <= |total|
  {
    Seen(Cap(Partial(total[..pos]), MAX_LINK_LINE))
  }

  /** One more line counted as read. */
  function DialSkips(s: State): State {
    if s.chatter != [] then s.(chatter := s.chatter[1..]) else s.(readD := s.readD + 1)
  }

  function ListenSkips(s: State): State {
    if s.noise != [] then s.(noise := s.noise[1..]) else s.(readL := s.readL + 1)
  }

  function DialLine(u: Setup, s: State, line: Line): State {
    if s.d.Linked? then DiallerHandled(u, DialSkips(s), line) else DiallerRead(DialSkips(s), line)
  }

  function ListenLine(u: Setup, s: State, line: Line): State {
    if s.l.Serving? then ListenerHandled(u, ListenSkips(s), line) else ListenerRead(u, ListenSkips(s), line)
  }

  /** The bytes of a list of lines sent as they stand. */
  function Framed(lines: seq<Line>): string {
    if lines == [] then "" else Framed(lines[..|lines| - 1]) + lines[|lines| - 1].text + ['\r']
  }

  /** What a side writes when it is its turn: the banner and the login as they are, whatever is in front
      of them. */
  function DialRaw(u: Setup, s: State): string { if s.d.LoggingIn? then RTL_LOGIN else u.diallerKeepalive.text }

  function ListenRaw(u: Setup, s: State): string {
    if s.l.Greeting? then Banner() else if s.l.Accepting? then u.okay.text else u.listenerKeepalive.text
  }

  function ByteAfter(u: Setup, b: Bytes, step: ByteStep): Bytes
    requires ByteEnabled(b, step)
  {
    match step
    case DialByte =>
      if !IsCrLf(b.toD[b.posD]) then b.(posD := b.posD + 1)
      else
        var line := InProgress(b.toD, b.posD);
        Bytes(DialLine(u, b.c, line), b.toD, b.posD + 1,
              if b.c.d.Linked? then b.toL + Framed(Elicits(u.diallerResponse, line)) else b.toL, b.posL)
    case DialWrites => b.(c := DialSent(u, b.c), toL := b.toL + DialRaw(u, b.c) + ['\r'])
    case DialQuits => b.(c := b.c.(d := Failed))
    case DialTells(raw) => b.(c := b.c.(fromD := b.c.fromD + [Seen(raw)]), toL := b.toL + raw + ['\r'])
    case ListenByte =>
      if !IsCrLf(b.toL[b.posL]) then b.(posL := b.posL + 1)
      else
        var line := InProgress(b.toL, b.posL);
        Bytes(ListenLine(u, b.c, line),
              if b.c.l.Serving? then b.toD + Framed(Elicits(u.listenerResponse, line)) else b.toD, b.posD,
              b.toL, b.posL + 1)
    case ListenWrites => b.(c := ListenSent(u, b.c), toD := b.toD + ListenRaw(u, b.c) + ['\r'])
    case ListenPending =>
      b.(c := ListenerHandled(u, b.c.(pending := []), b.c.pending[0]),
         toD := b.toD + Framed(Elicits(u.listenerResponse, b.c.pending[0])))
    case ListenTells(raw) => b.(c := b.c.(fromL := b.c.fromL + [Seen(raw)]), toD := b.toD + raw + ['\r'])
  }

  // ---- bytes and lines ----

  /** The step over lines that a step over bytes is, if it is one. */
  function AsStep(b: Bytes, step: ByteStep): Option<Step>
    requires ByteEnabled(b, step)
  {
    match step
    case DialByte => if !IsCrLf(b.toD[b.posD]) then None else Some(if b.c.d.Linked? then DialHandles else DialReads)
    case DialWrites => Some(DialSends)
    case DialQuits => Some(DialEnds)
    case DialTells(raw) => Some(DialSays(Seen(raw)))
    case ListenByte => if !IsCrLf(b.toL[b.posL]) then None else Some(if b.c.l.Serving? then ListenHandles else ListenReads)
    case ListenWrites => Some(ListenSends)
    case ListenPending => Some(ListenHandles)
    case ListenTells(raw) => Some(ListenSays(Seen(raw)))
  }

  function Texts(lines: seq<Line>): seq<string> { seq(|lines|, i requires 0 <= i < |lines| => lines[i].text) }

  /** The lines are what reading their texts gives. */
  predicate AllSeen(lines: seq<Line>) { forall i :: 0 <= i < |lines| ==> lines[i] == Seen(lines[i].text) }

  /** What is left of the lines in front. */
  ghost predicate Rest(left: seq<Line>, all: seq<Line>) { |left| <= |all| && left == all[|all| - |left|..] }

  /** One direction: the bytes carry the lines. The first line sent is read together with the unended
      end of the bytes in front, every other one as it was sent. */
  ghost predicate Carried(pre: string, front: seq<Line>, total: string, pos: nat, left: seq<Line>, sent: seq<Line>, read: nat) {
    && Flow(Texts(front), total, pos, |left|, Texts(sent), read) && Rest(left, front) && AllSeen(front) && AllSeen(sent)
    && Partial(total) == if sent == [] then Partial(pre) else ""
  }

  lemma TextsOneMore(lines: seq<Line>, line: Line)
    ensures Texts(lines + [line]) == Texts(lines) + [line.text]
  {
  }

  lemma AllSeenOneMore(lines: seq<Line>, line: Line)
    requires AllSeen(lines) && line == Seen(line.text)
    ensures AllSeen(lines + [line])
  {
  }

  lemma CarriedWrites(pre: string, front: seq<Line>, total: string, pos: nat, left: seq<Line>, sent: seq<Line>, read: nat,
                      raw: string, line: Line)
    requires Carried(pre, front, total, pos, left, sent, read) && FreeOf(IsCrLf, raw)
    requires line == Seen(line.text) && line.text == Cap(Partial(total) + raw, MAX_LINK_LINE)
    ensures Carried(pre, front, total + raw + ['\r'], pos, left, sent + [line], read)
  {
    FlowWrites(Texts(front), total, pos, |left|, Texts(sent), read, raw);
    FrameEndsLine(total, raw);
    TextsOneMore(sent, line);
    AllSeenOneMore(sent, line);
  }

  /** What is sent after the first line is read as it was sent. */
  lemma CarriedSends(pre: string, front: seq<Line>, total: string, pos: nat, left: seq<Line>, sent: seq<Line>, read: nat, line: Line)
    requires Carried(pre, front, total, pos, left, sent, read) && sent != [] && Sendable(line.text) && line == Seen(line.text)
    ensures Carried(pre, front, total + line.text + ['\r'], pos, left, sent + [line], read)
  {
    assert "" + line.text == line.text;
    CarriedWrites(pre, front, total, pos, left, sent, read, line.text, line);
  }

  lemma CarriedReadsByte(pre: string, front: seq<Line>, total: string, pos: nat, left: seq<Line>, sent: seq<Line>, read: nat)
    requires Carried(pre, front, total, pos, left, sent, read) && pos < |total| && !IsCrLf(total[pos])
    ensures Carried(pre, front, total, pos + 1, left, sent, read)
  {
    FlowReadsByte(Texts(front), total, pos, |left|, Texts(sent), read);
  }

  lemma FrontLine(front: seq<Line>, left: seq<Line>, text: string)
    requires Rest(left, front) && left != [] && AllSeen(front) && text == Texts(front)[|front| - |left|]
    ensures Seen(text) == left[0] && Rest(left[1..], front)
  {
    assert left[0] == front[|front| - |left|];
  }

  lemma SentLine(sent: seq<Line>, read: nat, text: string)
    requires AllSeen(sent) && read < |sent| && text == Texts(sent)[read]
    ensures Seen(text) == sent[read]
  {
  }

  lemma CarriedReadsFront(pre: string, front: seq<Line>, total: string, pos: nat, left: seq<Line>, sent: seq<Line>, read: nat)
    requires Carried(pre, front, total, pos, left, sent, read) && pos < |total| && IsCrLf(total[pos]) && left != []
    ensures Carried(pre, front, total, pos + 1, left[1..], sent, read) && InProgress(total, pos) == left[0]
  {
    FlowReadsLine(Texts(front), total, pos, |left|, Texts(sent), read);
    FrontLine(front, left, Cap(Partial(total[..pos]), MAX_LINK_LINE));
  }

  lemma CarriedReadsSent(pre: string, front: seq<Line>, total: string, pos: nat, left: seq<Line>, sent: seq<Line>, read: nat)
    requires Carried(pre, front, total, pos, left, sent, read) && pos < |total| && IsCrLf(total[pos]) && left == []
    ensures read < |sent| && Carried(pre, front, total, pos + 1, left, sent, read + 1) && InProgress(total, pos) == sent[read]
  {
    FlowReadsLine(Texts(front), total, pos, |left|, Texts(sent), read);
    SentLine(sent, read, Cap(Partial(total[..pos]), MAX_LINK_LINE));
  }

  lemma CarriedReadsLine(pre: string, front: seq<Line>, total: string, pos: nat, left: seq<Line>, sent: seq<Line>, read: nat)
    requires Carried(pre, front, total, pos, left, sent, read) && pos < |total| && IsCrLf(total[pos])
    ensures
      if left != [] then Carried(pre, front, total, pos + 1, left[1..], sent, read) && InProgress(total, pos) == left[0]
      else read < |sent| && Carried(pre, front, total, pos + 1, left, sent, read + 1) && InProgress(total, pos) == sent[read]
  {
    if left != [] {
      CarriedReadsFront(pre, front, total, pos, left, sent, read);
    } else {
      CarriedReadsSent(pre, front, total, pos, left, sent, read);
    }
  }

  /** All the bytes read, all the lines read. */
  lemma CarriedExtent(pre: string, front: seq<Line>, total: string, pos: nat, left: seq<Line>, sent: seq<Line>, read: nat)
    requires Carried(pre, front, total, pos, left, sent, read)
    ensures read <= |sent| && (pos == |total| ==> left == [] && read == |sent|)
    ensures LinesOf(total[..pos]) == (Texts(front) + Texts(sent))[..|front| - |left| + read]
  {
    FlowExtent(Texts(front), total, pos, |left|, Texts(sent), read);
  }

  // ---- every step over bytes is a step over lines, or none ----

  predicate Whole(line: Line) { line == Seen(line.text) && Sendable(line.text) }

  /** The setup is what the two sides make of these bytes. */
  predicate OverBytes(u: Setup, chatter: string, noise: string) {
    && u.chatter == SeenAll(LinesOf(chatter)) && u.noise == SeenAll(LinesOf(noise))
    && u.banner == Seen(Cap(Partial(chatter) + Banner(), MAX_LINK_LINE))
    && u.login == Seen(Cap(Partial(noise) + RTL_LOGIN, MAX_LINK_LINE))
    && Whole(u.okay) && Whole(u.diallerKeepalive) && Whole(u.listenerKeepalive)
    && Whole(u.diallerResponse) && Whole(u.listenerResponse)
  }

  ghost predicate ToDialler(u: Setup, chatter: string, b: Bytes) {
    Carried(chatter, u.chatter, b.toD, b.posD, b.c.chatter, b.c.fromL, b.c.readD)
  }

  ghost predicate ToListener(u: Setup, noise: string, b: Bytes) {
    Carried(noise, u.noise, b.toL, b.posL, b.c.noise, b.c.fromD, b.c.readL)
  }

  ghost predicate ByteInv(u: Setup, chatter: string, noise: string, b: Bytes) {
    Inv(u, b.c) && ToDialler(u, chatter, b) && ToListener(u, noise, b)
  }

  /** The step is a step over lines, or only a byte. */
  ghost predicate Matches(u: Setup, b: Bytes, step: ByteStep)
    requires ByteEnabled(b, step)
  {
    match AsStep(b, step)
    case None => ByteAfter(u, b, step).c == b.c
    case Some(s) => Enabled(b.c, s) && ByteAfter(u, b, step).c == After(u, b.c, s)
  }

  lemma DialLineIs(u: Setup, s: State, line: Line)
    requires (DialAwaits(s) || s.d.Linked?) && DialCanRead(s) && DialTake(s).1 == line
    ensures
      var step := if s.d.Linked? then DialHandles else DialReads;
      Enabled(s, step) && DialLine(u, s, line) == After(u, s, step)
  {
  }

  lemma ListenLineIs(u: Setup, s: State, line: Line)
    requires (ListenAwaits(s) || (s.l.Serving? && s.pending == [])) && ListenCanRead(s) && ListenTake(s).1 == line
    ensures
      var step := if s.l.Serving? then ListenHandles else ListenReads;
      Enabled(s, step) && ListenLine(u, s, line) == After(u, s, step)
  {
  }

  /** The dialler's own counts after a line, whatever it does with the line. */
  lemma DialLineCounts(u: Setup, s: State, line: Line)
    ensures
      var s' := DialLine(u, s, line);
      && s'.chatter == DialSkips(s).chatter && s'.readD == DialSkips(s).readD && s'.fromL == s.fromL
      && s'.noise == s.noise && s'.readL == s.readL
      && s'.fromD == s.fromD + (if s.d.Linked? then Elicits(u.diallerResponse, line) else [])
  {
  }

  lemma ListenLineCounts(u: Setup, s: State, line: Line)
    ensures
      var s' := ListenLine(u, s, line);
      && s'.noise == ListenSkips(s).noise && s'.readL == ListenSkips(s).readL && s'.fromD == s.fromD
      && s'.chatter == s.chatter && s'.readD == s.readD
      && s'.fromL == s.fromL + (if s.l.Serving? then Elicits(u.listenerResponse, line) else [])
  {
  }

  lemma DialLineMatches(u: Setup, chatter: string, b: Bytes)
    requires ToDialler(u, chatter, b) && ByteEnabled(b, DialByte) && IsCrLf(b.toD[b.posD])
    ensures Matches(u, b, DialByte) && ToDialler(u, chatter, ByteAfter(u, b, DialByte))
  {
    var line := InProgress(b.toD, b.posD);
    CarriedReadsLine(chatter, u.chatter, b.toD, b.posD, b.c.chatter, b.c.fromL, b.c.readD);
    DialLineIs(u, b.c, line);
    DialLineCounts(u, b.c, line);
  }

  lemma DialByteMatches(u: Setup, chatter: string, b: Bytes)
    requires ToDialler(u, chatter, b) && ByteEnabled(b, DialByte)
    ensures Matches(u, b, DialByte) && ToDialler(u, chatter, ByteAfter(u, b, DialByte))
  {
    if IsCrLf(b.toD[b.posD]) {
      DialLineMatches(u, chatter, b);
    } else {
      CarriedReadsByte(chatter, u.chatter, b.toD, b.posD, b.c.chatter, b.c.fromL, b.c.readD);
    }
  }

  lemma ListenLineMatches(u: Setup, noise: string, b: Bytes)
    requires ToListener(u, noise, b) && ByteEnabled(b, ListenByte) && IsCrLf(b.toL[b.posL])
    ensures Matches(u, b, ListenByte) && ToListener(u, noise, ByteAfter(u, b, ListenByte))
  {
    var line := InProgress(b.toL, b.posL);
    CarriedReadsLine(noise, u.noise, b.toL, b.posL, b.c.noise, b.c.fromD, b.c.readL);
    ListenLineIs(u, b.c, line);
    ListenLineCounts(u, b.c, line);
  }

  lemma ListenByteMatches(u: Setup, noise: string, b: Bytes)
    requires ToListener(u, noise, b) && ByteEnabled(b, ListenByte)
    ensures Matches(u, b, ListenByte) && ToListener(u, noise, ByteAfter(u, b, ListenByte))
  {
    if IsCrLf(b.toL[b.posL]) {
      ListenLineMatches(u, noise, b);
    } else {
      CarriedReadsByte(noise, u.noise, b.toL, b.posL, b.c.noise, b.c.fromD, b.c.readL);
    }
  }

  lemma FramedOne(line: Line)
    ensures Framed([line]) == line.text + ['\r'] && Framed([]) == ""
  {
    assert [line][..0] == [];
  }

  /** An answer, if there is one, goes out as it stands. */
  lemma CarriedAnswers(pre: string, front: seq<Line>, total: string, pos: nat, left: seq<Line>, sent: seq<Line>, read: nat,
                       response: Line, line: Line)
    requires Carried(pre, front, total, pos, left, sent, read) && sent != [] && Whole(response)
    ensures Carried(pre, front, total + Framed(Elicits(response, line)), pos, left, sent + Elicits(response, line), read)
  {
    FramedOne(response);
    if Elicits(response, line) == [] {
      assert total + "" == total && sent + [] == sent;
    } else {
      CarriedSends(pre, front, total, pos, left, sent, read, response);
      assert total + response.text + ['\r'] == total + (response.text + ['\r']);
    }
  }

  /** What the dialler does with a line reaches the listener's side only as an answer. */
  lemma DialLineCarries(u: Setup, noise: string, b: Bytes, line: Line)
    requires ToListener(u, noise, b) && (b.c.d.Linked? ==> b.c.fromD != [] && Whole(u.diallerResponse))
    ensures
      var c, answer := DialLine(u, b.c, line), if b.c.d.Linked? then Framed(Elicits(u.diallerResponse, line)) else "";
      Carried(noise, u.noise, b.toL + answer, b.posL, c.noise, c.fromD, c.readL)
  {
    DialLineCounts(u, b.c, line);
    if b.c.d.Linked? {
      CarriedAnswers(noise, u.noise, b.toL, b.posL, b.c.noise, b.c.fromD, b.c.readL, u.diallerResponse, line);
    } else {
      assert b.c.fromD + [] == b.c.fromD && b.toL + "" == b.toL;
    }
  }

  lemma ListenLineCarries(u: Setup, chatter: string, b: Bytes, line: Line)
    requires ToDialler(u, chatter, b) && (b.c.l.Serving? ==> b.c.fromL != [] && Whole(u.listenerResponse))
    ensures
      var c, answer := ListenLine(u, b.c, line), if b.c.l.Serving? then Framed(Elicits(u.listenerResponse, line)) else "";
      Carried(chatter, u.chatter, b.toD + answer, b.posD, c.chatter, c.fromL, c.readD)
  {
    ListenLineCounts(u, b.c, line);
    if b.c.l.Serving? {
      CarriedAnswers(chatter, u.chatter, b.toD, b.posD, b.c.chatter, b.c.fromL, b.c.readD, u.listenerResponse, line);
    } else {
      assert b.c.fromL + [] == b.c.fromL && b.toD + "" == b.toD;
    }
  }

  /** A side that serves has sent something. */
  lemma ServingHasSent(u: Setup, s: State)
    requires Inv(u, s)
    ensures s.d.Linked? ==> s.fromD != []
    ensures s.l.Serving? ==> s.fromL != []
  {
  }

  lemma DialByteCarries(u: Setup, chatter: string, noise: string, b: Bytes)
    requires OverBytes(u, chatter, noise) && ByteInv(u, chatter, noise, b) && ByteEnabled(b, DialByte)
    ensures ToListener(u, noise, ByteAfter(u, b, DialByte))
  {
    ServingHasSent(u, b.c);
    if IsCrLf(b.toD[b.posD]) {
      DialLineCarries(u, noise, b, InProgress(b.toD, b.posD));
      assert b.toL + "" == b.toL;
    }
  }

  lemma ListenByteCarries(u: Setup, chatter: string, noise: string, b: Bytes)
    requires OverBytes(u, chatter, noise) && ByteInv(u, chatter, noise, b) && ByteEnabled(b, ListenByte)
    ensures ToDialler(u, chatter, ByteAfter(u, b, ListenByte))
  {
    ServingHasSent(u, b.c);
    if IsCrLf(b.toL[b.posL]) {
      ListenLineCarries(u, chatter, b, InProgress(b.toL, b.posL));
      assert b.toD + "" == b.toD;
    }
  }

  lemma PendingCarries(u: Setup, chatter: string, noise: string, b: Bytes)
    requires OverBytes(u, chatter, noise) && ByteInv(u, chatter, noise, b) && ByteEnabled(b, ListenPending)
    ensures ToDialler(u, chatter, ByteAfter(u, b, ListenPending)) && ToListener(u, noise, ByteAfter(u, b, ListenPending))
  {
    CarriedAnswers(chatter, u.chatter, b.toD, b.posD, b.c.chatter, b.c.fromL, b.c.readD, u.listenerResponse, b.c.pending[0]);
  }

  lemma SeenHasText(text: string)
    ensures Seen(text).text == text
  {
  }

  lemma DialWriteCarries(u: Setup, chatter: string, noise: string, b: Bytes)
    requires OverBytes(u, chatter, noise) && ByteInv(u, chatter, noise, b) && ByteEnabled(b, DialWrites)
    ensures ToListener(u, noise, ByteAfter(u, b, DialWrites)) && ToDialler(u, chatter, ByteAfter(u, b, DialWrites))
  {
    if b.c.d.LoggingIn? {
      BannerIsPlain();
      SeenHasText(Cap(Partial(noise) + RTL_LOGIN, MAX_LINK_LINE));
      CarriedWrites(noise, u.noise, b.toL, b.posL, b.c.noise, b.c.fromD, b.c.readL, RTL_LOGIN, u.login);
    } else {
      CarriedSends(noise, u.noise, b.toL, b.posL, b.c.noise, b.c.fromD, b.c.readL, u.diallerKeepalive);
    }
  }

  lemma BannerCarries(u: Setup, chatter: string, b: Bytes)
    requires ToDialler(u, chatter, b) && b.c.fromL == [] && u.banner == Seen(Cap(Partial(chatter) + Banner(), MAX_LINK_LINE))
    ensures Carried(chatter, u.chatter, b.toD + Banner() + ['\r'], b.posD, b.c.chatter, b.c.fromL + [u.banner], b.c.readD)
  {
    BannerIsPlain();
    SeenHasText(Cap(Partial(chatter) + Banner(), MAX_LINK_LINE));
    CarriedWrites(chatter, u.chatter, b.toD, b.posD, b.c.chatter, b.c.fromL, b.c.readD, Banner(), u.banner);
  }

  function ListenNext(u: Setup, s: State): Line {
    if s.l.Greeting? then u.banner else if s.l.Accepting? then u.okay else u.listenerKeepalive
  }

  lemma ListenSentCounts(u: Setup, s: State)
    requires s.l.Greeting? || s.l.Accepting? || s.l.Replying?
    ensures
      var s' := ListenSent(u, s);
      && s'.fromL == s.fromL + [ListenNext(u, s)] && s'.chatter == s.chatter && s'.readD == s.readD
      && s'.noise == s.noise && s'.fromD == s.fromD && s'.readL == s.readL
  {
  }

  lemma ListenRawCarries(u: Setup, chatter: string, noise: string, b: Bytes)
    requires OverBytes(u, chatter, noise) && ToDialler(u, chatter, b) && (b.c.l.Greeting? <==> b.c.fromL == [])
    requires b.c.l.Greeting? || b.c.l.Accepting? || b.c.l.Replying?
    ensures Carried(chatter, u.chatter, b.toD + ListenRaw(u, b.c) + ['\r'], b.posD, b.c.chatter,
                    b.c.fromL + [ListenNext(u, b.c)], b.c.readD)
  {
    if b.c.l.Greeting? {
      BannerCarries(u, chatter, b);
    } else {
      CarriedSends(chatter, u.chatter, b.toD, b.posD, b.c.chatter, b.c.fromL, b.c.readD, ListenNext(u, b.c));
    }
  }

  lemma GreetingHasSentNothing(u: Setup, s: State)
    requires Inv(u, s)
    ensures s.l.Greeting? <==> s.fromL == []
  {
  }

  lemma ListenWriteCarries(u: Setup, chatter: string, noise: string, b: Bytes)
    requires OverBytes(u, chatter, noise) && ByteInv(u, chatter, noise, b) && ByteEnabled(b, ListenWrites)
    ensures ToDialler(u, chatter, ByteAfter(u, b, ListenWrites)) && ToListener(u, noise, ByteAfter(u, b, ListenWrites))
  {
    GreetingHasSentNothing(u, b.c);
    ListenSentCounts(u, b.c);
    ListenRawCarries(u, chatter, noise, b);
  }

  lemma TellCarries(u: Setup, chatter: string, noise: string, b: Bytes, step: ByteStep)
    requires ByteInv(u, chatter, noise, b) && ByteEnabled(b, step) && (step.DialTells? || step.ListenTells?)
    ensures ToDialler(u, chatter, ByteAfter(u, b, step)) && ToListener(u, noise, ByteAfter(u, b, step))
  {
    SeenHasText(step.raw);
    if step.DialTells? {
      CarriedSends(noise, u.noise, b.toL, b.posL, b.c.noise, b.c.fromD, b.c.readL, Seen(step.raw));
    } else {
      CarriedSends(chatter, u.chatter, b.toD, b.posD, b.c.chatter, b.c.fromL, b.c.readD, Seen(step.raw));
    }
  }

  lemma OtherMatches(u: Setup, chatter: string, b: Bytes, step: ByteStep)
    requires ToDialler(u, chatter, b) && ByteEnabled(b, step) && !step.DialByte? && !step.ListenByte?
    ensures Matches(u, b, step)
  {
    CarriedExtent(chatter, u.chatter, b.toD, b.posD, b.c.chatter, b.c.fromL, b.c.readD);
  }

  lemma QuitCarries(u: Setup, chatter: string, noise: string, b: Bytes)
    requires ByteInv(u, chatter, noise, b) && ByteEnabled(b, DialQuits)
    ensures ToDialler(u, chatter, ByteAfter(u, b, DialQuits)) && ToListener(u, noise, ByteAfter(u, b, DialQuits))
  {
  }

  lemma ByteStepCarries(u: Setup, chatter: string, noise: string, b: Bytes, step: ByteStep)
    requires OverBytes(u, chatter, noise) && ByteInv(u, chatter, noise, b) && ByteEnabled(b, step)
    ensures Matches(u, b, step)
    ensures ToDialler(u, chatter, ByteAfter(u, b, step)) && ToListener(u, noise, ByteAfter(u, b, step))
  {
    match step
    case DialByte =>
      DialByteMatches(u, chatter, b);
      DialByteCarries(u, chatter, noise, b);
    case ListenByte =>
      ListenByteMatches(u, noise, b);
      ListenByteCarries(u, chatter, noise, b);
    case _ =>
      OtherMatches(u, chatter, b, step);
      OtherCarries(u, chatter, noise, b, step);
  }

  lemma OtherCarries(u: Setup, chatter: string, noise: string, b: Bytes, step: ByteStep)
    requires OverBytes(u, chatter, noise) && ByteInv(u, chatter, noise, b) && ByteEnabled(b, step)
    requires !step.DialByte? && !step.ListenByte?
    ensures ToDialler(u, chatter, ByteAfter(u, b, step)) && ToListener(u, noise, ByteAfter(u, b, step))
  {
    match step
    case DialWrites => DialWriteCarries(u, chatter, noise, b);
    case ListenWrites => ListenWriteCarries(u, chatter, noise, b);
    case ListenPending => PendingCarries(u, chatter, noise, b);
    case DialQuits => QuitCarries(u, chatter, noise, b);
    case DialTells(_) => TellCarries(u, chatter, noise, b, step);
    case ListenTells(_) => TellCarries(u, chatter, noise, b, step);
  }

  /** Every step over bytes keeps bytes and lines together, and is a step over lines or none. */
  lemma ByteStepKeeps(u: Setup, chatter: string, noise: string, b: Bytes, step: ByteStep)
    requires WellFormed(u) && OverBytes(u, chatter, noise) && ByteInv(u, chatter, noise, b) && ByteEnabled(b, step)
    ensures Matches(u, b, step) && ByteInv(u, chatter, noise, ByteAfter(u, b, step))
  {
    ByteStepCarries(u, chatter, noise, b, step);
    if AsStep(b, step).Some? { StepKeeps(u, b.c, AsStep(b, step).value); }
  }

  // ---- runs ----

  ghost predicate ByteRuns(u: Setup, b: Bytes, steps: seq<ByteStep>)
    decreases |steps|
  {
    steps == [] || (ByteEnabled(b, steps[0]) && ByteRuns(u, ByteAfter(u, b, steps[0]), steps[1..]))
  }

  ghost function ByteFinal(u: Setup, b: Bytes, steps: seq<ByteStep>): Bytes
    requires ByteRuns(u, b, steps)
    decreases |steps|
  {
    if steps == [] then b else ByteFinal(u, ByteAfter(u, b, steps[0]), steps[1..])
  }

  function OneStep(s: Option<Step>): seq<Step> { if s.Some? then [s.value] else [] }

  /** The run over lines that a run over bytes is. */
  ghost function AsSteps(u: Setup, b: Bytes, steps: seq<ByteStep>): seq<Step>
    requires ByteRuns(u, b, steps)
    decreases |steps|
  {
    if steps == [] then [] else OneStep(AsStep(b, steps[0])) + AsSteps(u, ByteAfter(u, b, steps[0]), steps[1..])
  }

  /** The steps over lines lead from one state to another. */
  ghost predicate Leads(u: Setup, s: State, steps: seq<Step>, final: State) {
    HandshakeRuns.Runs(u, s, steps) && HandshakeRuns.Final(u, s, steps) == final
  }

  lemma LeadsInFront(u: Setup, s: State, step: Option<Step>, s1: State, rest: seq<Step>, final: State)
    requires if step.Some? then Enabled(s, step.value) && s1 == After(u, s, step.value) else s1 == s
    requires Leads(u, s1, rest, final)
    ensures Leads(u, s, OneStep(step) + rest, final)
  {
    if step.Some? {
      assert ([step.value] + rest)[1..] == rest;
    } else {
      assert [] + rest == rest;
    }
  }

  /** Every run over bytes is a run over lines. */
  lemma {:induction false} BytesRunLines(u: Setup, chatter: string, noise: string, b: Bytes, steps: seq<ByteStep>)
    requires WellFormed(u) && OverBytes(u, chatter, noise) && ByteInv(u, chatter, noise, b) && ByteRuns(u, b, steps)
    ensures Leads(u, b.c, AsSteps(u, b, steps), ByteFinal(u, b, steps).c)
    ensures ByteInv(u, chatter, noise, ByteFinal(u, b, steps))
    decreases |steps|
  {
    if steps != [] {
      var b1 := ByteAfter(u, b, steps[0]);
      ByteStepKeeps(u, chatter, noise, b, steps[0]);
      BytesRunLines(u, chatter, noise, b1, steps[1..]);
      MatchLeads(u, b, steps[0], AsSteps(u, b1, steps[1..]), ByteFinal(u, b1, steps[1..]).c);
    }
  }

  lemma MatchLeads(u: Setup, b: Bytes, step: ByteStep, rest: seq<Step>, final: State)
    requires ByteEnabled(b, step) && Matches(u, b, step) && Leads(u, ByteAfter(u, b, step).c, rest, final)
    ensures Leads(u, b.c, OneStep(AsStep(b, step)) + rest, final)
  {
    LeadsInFront(u, b.c, AsStep(b, step), ByteAfter(u, b, step).c, rest, final);
  }

  lemma SeenAllTexts(texts: seq<string>)
    ensures Texts(SeenAll(texts)) == texts && AllSeen(SeenAll(texts))
  {
    forall i | 0 <= i < |texts|
      ensures SeenAll(texts)[i] == Seen(texts[i]) && Seen(texts[i]).text == texts[i]
    {
    }
  }

  lemma CarriedStarts(pre: string)
    ensures Carried(pre, SeenAll(LinesOf(pre)), pre, 0, SeenAll(LinesOf(pre)), [], 0)
  {
    SeenAllTexts(LinesOf(pre));
    FlowStarts(pre);
    assert Texts([]) == [];
  }

  lemma BytesStart(u: Setup, chatter: string, noise: string)
    requires WellFormed(u) && OverBytes(u, chatter, noise)
    ensures ByteInv(u, chatter, noise, StartBytes(u, chatter, noise))
  {
    CarriedStarts(chatter);
    CarriedStarts(noise);
    HandshakeRuns.StartIsFine(u);
  }

  // ---- the results, over bytes ----

  /** Neither side can take a handshake step. */
  predicate AtRest(b: Bytes) {
    && !ByteEnabled(b, DialWrites) && !ByteEnabled(b, ListenWrites) && !ByteEnabled(b, DialQuits)
    && (DialAwaits(b.c) ==> b.posD == |b.toD|) && (ListenAwaits(b.c) ==> b.posL == |b.toL|)
  }

  lemma NothingToRead(u: Setup, chatter: string, noise: string, b: Bytes)
    requires ToDialler(u, chatter, b) && ToListener(u, noise, b)
    ensures b.posD == |b.toD| ==> !DialCanRead(b.c)
    ensures b.posL == |b.toL| ==> !ListenCanRead(b.c)
  {
    CarriedExtent(chatter, u.chatter, b.toD, b.posD, b.c.chatter, b.c.fromL, b.c.readD);
    CarriedExtent(noise, u.noise, b.toL, b.posL, b.c.noise, b.c.fromD, b.c.readL);
  }

  lemma SettledWhen(s: State)
    requires !s.d.LoggingIn? && !s.d.Announcing? && !s.l.Greeting? && !s.l.Accepting? && !s.l.Replying?
    requires DialAwaits(s) ==> !DialCanRead(s) && !s.l.Refused?
    requires ListenAwaits(s) ==> !ListenCanRead(s)
    ensures HandshakeRuns.Settled(s)
  {
  }

  lemma AtRestIsSettled(u: Setup, chatter: string, noise: string, b: Bytes)
    requires ToDialler(u, chatter, b) && ToListener(u, noise, b) && AtRest(b)
    ensures HandshakeRuns.Settled(b.c)
  {
    NothingToRead(u, chatter, noise, b);
    SettledWhen(b.c);
  }

  /** Progress, over bytes and for every interleaving of reads and writes: the pair rests only where it
      is said to end, serving if and only if the caller is admitted and banner and login are
      recognised behind what is in front of them. */
  lemma HandshakeCompletesOverBytes(u: Setup, chatter: string, noise: string, steps: seq<ByteStep>)
    requires WellFormed(u) && OverBytes(u, chatter, noise) && ByteRuns(u, StartBytes(u, chatter, noise), steps)
    ensures
      var b := ByteFinal(u, StartBytes(u, chatter, noise), steps);
      && (AtRest(b) ==> HandshakeRuns.Done(u, b.c))
      && (AtRest(b) ==> (b.c.d.Linked? && b.c.l.Serving? <==> Admitted(u) && u.banner.isBanner && u.login.isRtl))
  {
    var b0 := StartBytes(u, chatter, noise);
    BytesStart(u, chatter, noise);
    BytesRunLines(u, chatter, noise, b0, steps);
    HandshakeRuns.HandshakeCompletes(u, AsSteps(u, b0, steps));
    if AtRest(ByteFinal(u, b0, steps)) { AtRestIsSettled(u, chatter, noise, ByteFinal(u, b0, steps)); }
  }

  /** How many bytes a run reads, and how often it writes or gives up. */
  function BytesRead(steps: seq<ByteStep>): nat {
    if steps == [] then 0 else (if steps[0].DialByte? || steps[0].ListenByte? then 1 else 0) + BytesRead(steps[1..])
  }

  function Turns(steps: seq<ByteStep>): nat {
    if steps == [] then 0
    else (if steps[0].DialWrites? || steps[0].ListenWrites? || steps[0].DialQuits? then 1 else 0) + Turns(steps[1..])
  }

  lemma ShakesInFront(step: Option<Step>, rest: seq<Step>)
    ensures HandshakeRuns.Shakes(OneStep(step) + rest)
         == (if step.Some? && Shaking(step.value) then 1 else 0) + HandshakeRuns.Shakes(rest)
  {
    if step.Some? { assert ([step.value] + rest)[1..] == rest; } else { assert [] + rest == rest; }
  }

  lemma {:induction false} EveryByteOnce(u: Setup, b: Bytes, steps: seq<ByteStep>)
    requires ByteRuns(u, b, steps) && b.posD <= |b.toD| && b.posL <= |b.toL|
    ensures
      var b' := ByteFinal(u, b, steps);
      && b'.posD <= |b'.toD| && b'.posL <= |b'.toL| && b.posD + b.posL + BytesRead(steps) == b'.posD + b'.posL
      && Turns(steps) <= HandshakeRuns.Shakes(AsSteps(u, b, steps))
    decreases |steps|
  {
    if steps != [] {
      var b1 := ByteAfter(u, b, steps[0]);
      EveryByteOnce(u, b1, steps[1..]);
      ShakesInFront(AsStep(b, steps[0]), AsSteps(u, b1, steps[1..]));
    }
  }

  /** The handshake over bytes is bounded: every byte is read once, and the turns either side takes to
      write are bounded by what is in front. */
  lemma HandshakeIsBoundedOverBytes(u: Setup, chatter: string, noise: string, steps: seq<ByteStep>)
    requires WellFormed(u) && OverBytes(u, chatter, noise) && ByteRuns(u, StartBytes(u, chatter, noise), steps)
    ensures
      var b := ByteFinal(u, StartBytes(u, chatter, noise), steps);
      && BytesRead(steps) == b.posD + b.posL <= |b.toD| + |b.toL|
      && Turns(steps) <= |LinesOf(chatter)| + |LinesOf(noise)| + 12
  {
    var b0 := StartBytes(u, chatter, noise);
    BytesStart(u, chatter, noise);
    BytesRunLines(u, chatter, noise, b0, steps);
    HandshakeRuns.HandshakeCompletes(u, AsSteps(u, b0, steps));
    EveryByteOnce(u, b0, steps);
  }

  /** What the bytes read so far hold, once a side serves: what was in front, what opened the link, and
      then exactly what it has handled or has in hand. */
  ghost predicate BytesAccountedFor(u: Setup, b: Bytes) {
    && b.posD <= |b.toD| && b.posL <= |b.toL|
    && (b.c.l.Serving? ==> LinesOf(b.toL[..b.posL]) == Texts(u.noise + [u.login] + (b.c.handledL + b.c.pending)))
    && (b.c.d.Linked? ==> LinesOf(b.toD[..b.posD]) == Texts(u.chatter + [u.banner, u.okay] + b.c.handledD))
  }

  lemma TextsOfSlice(front: seq<Line>, sent: seq<Line>, n: nat)
    requires n <= |sent|
    ensures (Texts(front) + Texts(sent))[..|front| + n] == Texts(front + sent[..n])
  {
  }

  lemma OpenedByOne<T>(front: seq<T>, x: T, sent: seq<T>, n: nat, rest: seq<T>)
    requires 1 <= n <= |sent| && sent[0] == x && rest == sent[1..n]
    ensures front + sent[..n] == front + [x] + rest
  {
    assert sent[..n] == [x] + sent[1..n];
  }

  lemma OpenedByTwo<T>(front: seq<T>, x: T, y: T, sent: seq<T>, n: nat, rest: seq<T>)
    requires 2 <= n <= |sent| && sent[0] == x && sent[1] == y && rest == sent[2..n]
    ensures front + sent[..n] == front + [x, y] + rest
  {
    assert sent[..n] == [x, y] + sent[2..n];
  }

  lemma ListenerOpened(u: Setup, s: State)
    requires Inv(u, s) && s.l.Serving?
    ensures s.readL <= |s.fromD| && s.noise == [] && u.noise + s.fromD[..s.readL] == u.noise + [u.login] + (s.handledL + s.pending)
  {
    OpenedByOne(u.noise, u.login, s.fromD, s.readL, s.handledL + s.pending);
  }

  lemma DiallerOpened(u: Setup, s: State)
    requires Inv(u, s) && s.d.Linked?
    ensures s.readD <= |s.fromL| && s.chatter == [] && u.chatter + s.fromL[..s.readD] == u.chatter + [u.banner, u.okay] + s.handledD
  {
    OpenedByTwo(u.chatter, u.banner, u.okay, s.fromL, s.readD, s.handledD);
  }

  /** Once nothing in front is left, the lines read are those in front and the first of those sent. */
  lemma ReadIsTexts(pre: string, front: seq<Line>, total: string, pos: nat, sent: seq<Line>, read: nat, all: seq<Line>)
    requires Carried(pre, front, total, pos, [], sent, read) && read <= |sent| && all == front + sent[..read]
    ensures pos <= |total| && LinesOf(total[..pos]) == Texts(all)
  {
    CarriedExtent(pre, front, total, pos, [], sent, read);
    TextsOfSlice(front, sent, read);
  }

  lemma ListenerAccounts(u: Setup, noise: string, b: Bytes)
    requires Inv(u, b.c) && ToListener(u, noise, b) && b.c.l.Serving?
    ensures b.posL <= |b.toL| && LinesOf(b.toL[..b.posL]) == Texts(u.noise + [u.login] + (b.c.handledL + b.c.pending))
  {
    ListenerOpened(u, b.c);
    ReadIsTexts(noise, u.noise, b.toL, b.posL, b.c.fromD, b.c.readL, u.noise + [u.login] + (b.c.handledL + b.c.pending));
  }

  lemma DiallerAccounts(u: Setup, chatter: string, b: Bytes)
    requires Inv(u, b.c) && ToDialler(u, chatter, b) && b.c.d.Linked?
    ensures b.posD <= |b.toD| && LinesOf(b.toD[..b.posD]) == Texts(u.chatter + [u.banner, u.okay] + b.c.handledD)
  {
    DiallerOpened(u, b.c);
    ReadIsTexts(chatter, u.chatter, b.toD, b.posD, b.c.fromL, b.c.readD, u.chatter + [u.banner, u.okay] + b.c.handledD);
  }

  /** Safety, over bytes: an admitted caller is never turned away, and the lines in the bytes either side
      has read are all handled, in hand, or what opened the link; nothing is lost. */
  lemma AdmittedLosesNothingOverBytes(u: Setup, chatter: string, noise: string, steps: seq<ByteStep>)
    requires WellFormed(u) && OverBytes(u, chatter, noise) && ByteRuns(u, StartBytes(u, chatter, noise), steps) && Admitted(u)
    ensures
      var b := ByteFinal(u, StartBytes(u, chatter, noise), steps);
      && !b.c.l.Refused? && !b.c.d.Failed? && HandshakeRuns.NothingLost(u, b.c) && BytesAccountedFor(u, b)
  {
    var b0 := StartBytes(u, chatter, noise);
    BytesStart(u, chatter, noise);
    BytesRunLines(u, chatter, noise, b0, steps);
    HandshakeRuns.AdmittedLosesNothing(u, AsSteps(u, b0, steps));
    var b := ByteFinal(u, b0, steps);
    if b.c.l.Serving? { ListenerAccounts(u, noise, b); }
    if b.c.d.Linked? { DiallerAccounts(u, chatter, b); }
  }

  /** A caller that is not admitted, or a banner or login that goes by unrecognised: neither side ever
      serves, nothing is written after the banner, and the router and hub are asked for nothing. */
  lemma OthersTouchNothingOverBytes(u: Setup, chatter: string, noise: string, steps: seq<ByteStep>)
    requires WellFormed(u) && OverBytes(u, chatter, noise) && ByteRuns(u, StartBytes(u, chatter, noise), steps)
    requires !(Admitted(u) && u.banner.isBanner && u.login.isRtl)
    ensures
      var b := ByteFinal(u, StartBytes(u, chatter, noise), steps);
      !b.c.d.Linked? && !b.c.l.Serving? && b.c.calls == [] && b.c.handledL == [] && b.c.fromL <= [u.banner]
  {
    var b0 := StartBytes(u, chatter, noise);
    BytesStart(u, chatter, noise);
    BytesRunLines(u, chatter, noise, b0, steps);
    if Admitted(u) {
      HandshakeRuns.UnrecognisedNeverLinks(u, AsSteps(u, b0, steps));
    } else {
      HandshakeRuns.RefusedTouchesNothing(u, AsSteps(u, b0, steps));
    }
  }

  // ---- real nodes ----

  lemma PlainIsUnbroken(s: string)
    requires Plain(s)
    ensures FreeOf(IsCrLf, s)
  {
  }

  lemma {:induction false} SpacedIsUnbroken(fields: seq<string>)
    requires forall f :: f in fields ==> FreeOf(IsCrLf, f)
    ensures FreeOf(IsCrLf, Spaced(fields))
  {
    if fields != [] {
      SpacedIsUnbroken(fields[..|fields| - 1]);
      assert fields[|fields| - 1] in fields;
    }
  }

  lemma RecordIsUnbroken(typ: char, node: string, user: string, rest: seq<string>)
    requires !IsCrLf(typ) && Plain(node) && Plain(user) && forall f :: f in rest ==> Plain(f)
    ensures FreeOf(IsCrLf, Encode(typ, node, user, rest))
  {
    forall f | f in [user] + rest
      ensures FreeOf(IsCrLf, f)
    {
      PlainIsUnbroken(f);
    }
    SpacedIsUnbroken([user] + rest);
    PlainIsUnbroken(node);
  }

  /** The handshake between real nodes, over whatever bytes are in front, is one of those above, as long
      as the keepalives fit a line. */
  lemma RealNodesRunOverBytes(kind: Kind, dialler: string, listener: string, remote: string,
                              dialVersion: string, listenVersion: string, allowed: set<string>, pinned: set<string>,
                              chatter: string, noise: string)
    requires Plain(dialler) && Plain(listener) && Word(remote) && Plain(remote) && Word(dialler)
    requires Plain(dialVersion) && Plain(listenVersion)
    requires |dialler| + |listener| + |remote| + |dialVersion| + |listenVersion| + 4 <= MAX_LINK_LINE
    ensures OverBytes(Between(kind, dialler, listener, remote, dialVersion, listenVersion, allowed, pinned, chatter, noise),
                      chatter, noise)
  {
    var caller := if kind.Ip? then dialler else remote;
    UpperStaysPlain(caller);
    UpperAt(caller);
    KeepaliveIsWhole(dialler, listener, dialVersion);
    KeepaliveIsWhole(listener, Upper(caller), listenVersion);
    OkIsWhole();
  }

  lemma OkIsWhole()
    ensures Whole(Seen("OK"))
  {
    SeenHasText("OK");
  }

  lemma KeepaliveLength(node: string, link: string, version: string)
    ensures |EncodeKeepalive(node, link, version)| == |node| + |link| + |version| + 4
    ensures |EncodePollResp(node, link)| == |node| + |link| + 3
  {
    var one, two := [link], [link] + [version];
    assert one[..0] == [] && two[..1] == one && two[1] == version && [link] + [] == one;
    assert |Spaced(one)| == 1 + |link| && |Spaced(two)| == |Spaced(one)| + 1 + |version|;
  }

  lemma KeepaliveIsWhole(node: string, link: string, version: string)
    requires Plain(node) && Plain(link) && Plain(version) && |node| + |link| + |version| + 4 <= MAX_LINK_LINE
    ensures Whole(Seen(EncodeKeepalive(node, link, version))) && Whole(Seen(EncodePollResp(node, link)))
  {
    KeepaliveLength(node, link, version);
    RecordIsUnbroken(ID_KEEPALIVE, node, link, [version]);
    RecordIsUnbroken(ID_POLL_RESP, node, link, []);
    SeenHasText(EncodeKeepalive(node, link, version));
    SeenHasText(EncodePollResp(node, link));
  }

  /** Between real nodes, over bytes: with an admitted caller, any chatter without a banner among its
      lines and any noise without a login, an IP pair comes to rest with both serving if and only if
      the chatter ends in a whole line or a banner, and the noise, short of the cap, in blanks. */
  lemma RealNodesLinkIff(dialler: string, listener: string, dialVersion: string, listenVersion: string,
                         allowed: set<string>, pinned: set<string>, chatter: string, noise: string, steps: seq<ByteStep>)
    requires Callsign(dialler) && Callsign(listener) && Plain(dialVersion) && Plain(listenVersion)
    requires 2 * |dialler| + |listener| + |dialVersion| + |listenVersion| + 4 <= MAX_LINK_LINE
    requires NoBannerIn(chatter) && NoLoginIn(noise) && |Partial(noise)| + |RTL_LOGIN| <= MAX_LINK_LINE
    requires
      var u := Between(Ip, dialler, listener, dialler, dialVersion, listenVersion, allowed, pinned, chatter, noise);
      Admitted(u) && ByteRuns(u, StartBytes(u, chatter, noise), steps) && AtRest(ByteFinal(u, StartBytes(u, chatter, noise), steps))
    ensures
      var u := Between(Ip, dialler, listener, dialler, dialVersion, listenVersion, allowed, pinned, chatter, noise);
      var c := ByteFinal(u, StartBytes(u, chatter, noise), steps).c;
      && (c.d.Linked? && c.l.Serving?
          <==> (Partial(chatter) == "" || IsBanner(Partial(chatter))) && AllSpace(Partial(noise)))
      && (!(Partial(chatter) == "" || IsBanner(Partial(chatter))) ==> c.d.AwaitBanner? && c.l.AwaitRtl?)
  {
    var u := Between(Ip, dialler, listener, dialler, dialVersion, listenVersion, allowed, pinned, chatter, noise);
    RealNodesAreWellFormed(Ip, dialler, listener, dialler, dialVersion, listenVersion, allowed, pinned, chatter, noise);
    RealNodesRunOverBytes(Ip, dialler, listener, dialler, dialVersion, listenVersion, allowed, pinned, chatter, noise);
    BannerIsSeenIff(Partial(chatter));
    LoginIsSeenIff(Partial(noise));
    HandshakeCompletesOverBytes(u, chatter, noise, steps);
  }
}
