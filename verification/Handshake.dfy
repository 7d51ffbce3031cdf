/** The link handshake between a dialler and a listener, up to and into the serving of the link.
    Each direction is a first-in-first-out stream of lines: first what was in front of the link's own
    traffic and is still unread, then everything the other side ever sent, with how many of those
    lines have been read. */
module Handshake {
  import opened Options
  import opened Text
  import opened Proto
  import AllowSpec

  /** An IP listener learns the caller from its first record; a radio listener is told the caller. */
  datatype Kind = Ip | Radio

  /** A line as its readers classify it. */
  datatype Line = Line(text: string, isBanner: bool, isRtl: bool, isOk: bool, record: Option<Record>)

  /** What is fixed before a link is tried: the callsigns, the admission lists, the lines each side
      sends, and what is in front of them: `chatter` before the banner, and `noise` before the
      login, which only an IP listener skips. */
  datatype Setup = Setup(kind: Kind, dialler: string, listener: string, remote: string,
                         allowed: set<string>, pinned: set<string>,
                         banner: Line, login: Line, okay: Line,
                         diallerKeepalive: Line, listenerKeepalive: Line,
                         diallerResponse: Line, listenerResponse: Line,
                         chatter: seq<Line>, noise: seq<Line>)

  predicate Carries(line: Line, typ: char, node: string) {
    line.record.Some? && line.record.value.typ == typ && line.record.value.node == node
  }

  /** The banner and the login need not be recognisable where they are read: bytes in front of either
      that end no line become part of it. A radio listener has nothing in front of the login. */
  predicate WellFormed(u: Setup) {
    && u.okay.isOk && !u.diallerKeepalive.isRtl
    && Carries(u.diallerKeepalive, ID_KEEPALIVE, u.dialler) && Carries(u.listenerKeepalive, ID_KEEPALIVE, u.listener)
    && Carries(u.diallerResponse, ID_POLL_RESP, u.dialler) && Carries(u.listenerResponse, ID_POLL_RESP, u.listener)
    && NoBanner(u.chatter) && NoRtl(u.noise) && (u.kind.Radio? ==> u.noise == [] && u.login.isRtl)
  }

  /** The caller as the listener identifies it. */
  function Caller(u: Setup): string { if u.kind.Ip? then u.dialler else u.remote }

  predicate Admitted(u: Setup) { AllowSpec.Admits(u.allowed, u.pinned, Caller(u)) }

  // ---- state ----

  datatype Dialler = AwaitBanner | LoggingIn | Announcing | AwaitOk | Linked | Failed

  datatype Listener = Greeting | AwaitRtl | AwaitFirst | Accepting | Replying | Serving | Refused

  /** What a served link asks of the listener's router and hub. */
  datatype Call = LinkUp(peer: string) | Ingest(rec: Record, from: string)

  datatype State = State(
    d: Dialler, l: Listener,
    chatter: seq<Line>, fromL: seq<Line>, readD: nat,
    noise: seq<Line>, fromD: seq<Line>, readL: nat,
    pending: seq<Line>,
    handledD: seq<Line>, handledL: seq<Line>,
    calls: seq<Call>, rejected: nat)

  function Start(u: Setup): State {
    State(AwaitBanner, Greeting, u.chatter, [], 0, u.noise, [], 0, [], [], [], [], 0)
  }

  /** Something is there for the dialler, or the listener, to read. */
  predicate DialCanRead(s: State) { s.chatter != [] || s.readD < |s.fromL| }
  predicate ListenCanRead(s: State) { s.noise != [] || s.readL < |s.fromD| }

  datatype Step =
    | DialReads | DialSends | DialEnds
    | ListenReads | ListenSends
    | DialHandles | DialSays(line: Line)
    | ListenHandles | ListenSays(line: Line)

  /** The steps of the handshake proper, as opposed to those of a served link. */
  predicate Shaking(step: Step) {
    step.DialReads? || step.DialSends? || step.DialEnds? || step.ListenReads? || step.ListenSends?
  }

  predicate Enabled(s: State, step: Step) {
    match step
    case DialReads => (s.d.AwaitBanner? || s.d.AwaitOk?) && DialCanRead(s)
    case DialSends => s.d.LoggingIn? || s.d.Announcing?
    case DialEnds => (s.d.AwaitBanner? || s.d.AwaitOk?) && !DialCanRead(s) && s.l.Refused?
    case ListenReads => (s.l.AwaitRtl? || s.l.AwaitFirst?) && ListenCanRead(s)
    case ListenSends => s.l.Greeting? || s.l.Accepting? || s.l.Replying?
    case DialHandles => s.d.Linked? && DialCanRead(s)
    case DialSays(_) => s.d.Linked?
    case ListenHandles => s.l.Serving? && (s.pending != [] || ListenCanRead(s))
    case ListenSays(_) => s.l.Serving?
  }

  /** The listener has identified the caller: admit it or drop it. */
  function Judged(u: Setup, s: State, caller: string): State {
    if AllowSpec.Admits(u.allowed, u.pinned, caller) then s.(l := Accepting)
    else s.(l := Refused, pending := [], rejected := s.rejected + 1)
  }

  /** The handshake's reaction to a line at the listener. */
  function ListenerRead(u: Setup, s: State, line: Line): State {
    if s.l.AwaitRtl? then
      if !line.isRtl then s
      else if u.kind.Ip? then s.(l := AwaitFirst)
      else Judged(u, s, u.remote)
    else
      match line.record
      case None => s
      case Some(rec) => Judged(u, s.(pending := [line]), rec.node)
  }

  function DiallerRead(s: State, line: Line): State {
    if s.d.AwaitBanner? then (if line.isBanner then s.(d := LoggingIn) else s)
    else (if line.isOk then s.(d := Linked) else s)
  }

  /** Takes the next line of a direction. */
  function DialTake(s: State): (State, Line)
    requires DialCanRead(s)
  {
    if s.chatter != [] then (s.(chatter := s.chatter[1..]), s.chatter[0])
    else (s.(readD := s.readD + 1), s.fromL[s.readD])
  }

  function ListenTake(s: State): (State, Line)
    requires ListenCanRead(s)
  {
    if s.noise != [] then (s.(noise := s.noise[1..]), s.noise[0])
    else (s.(readL := s.readL + 1), s.fromD[s.readL])
  }

  /** The records a line elicits: keepalives and polls are answered, nothing else is. */
  function Elicits(response: Line, line: Line): seq<Line> {
    match line.record
    case None => []
    case Some(rec) =>
      if rec.typ == ID_KEEPALIVE || rec.typ == ID_POLL then [response] else []
  }

  /** What a line asks of the router. */
  function CallsOf(line: Line, from: string): seq<Call> {
    match line.record
    case None => []
    case Some(rec) =>
      if rec.typ in {ID_KEEPALIVE, ID_POLL, ID_POLL_RESP} then [] else [Ingest(rec, from)]
  }

  function DiallerHandled(u: Setup, s: State, line: Line): State {
    s.(handledD := s.handledD + [line], fromD := s.fromD + Elicits(u.diallerResponse, line))
  }

  function ListenerHandled(u: Setup, s: State, line: Line): State {
    s.(handledL := s.handledL + [line], fromL := s.fromL + Elicits(u.listenerResponse, line),
       calls := s.calls + CallsOf(line, Upper(Caller(u))))
  }

  function DialSent(u: Setup, s: State): State {
    if s.d.LoggingIn? then s.(fromD := s.fromD + [u.login], d := Announcing)
    else s.(fromD := s.fromD + [u.diallerKeepalive], d := AwaitOk)
  }

  function ListenSent(u: Setup, s: State): State {
    if s.l.Greeting? then s.(fromL := s.fromL + [u.banner], l := AwaitRtl)
    else if s.l.Accepting? then s.(fromL := s.fromL + [u.okay], l := Replying)
    else s.(fromL := s.fromL + [u.listenerKeepalive], l := Serving, calls := s.calls + [LinkUp(Upper(Caller(u)))])
  }

  function After(u: Setup, s: State, step: Step): State
    requires Enabled(s, step)
  {
    match step
    case DialReads => var t := DialTake(s); DiallerRead(t.0, t.1)
    case DialSends => DialSent(u, s)
    case DialEnds => s.(d := Failed)
    case ListenReads => var t := ListenTake(s); ListenerRead(u, t.0, t.1)
    case ListenSends => ListenSent(u, s)
    case DialHandles => var t := DialTake(s); DiallerHandled(u, t.0, t.1)
    case DialSays(line) => s.(fromD := s.fromD + [line])
    case ListenHandles =>
      if s.pending != [] then ListenerHandled(u, s.(pending := []), s.pending[0])
      else var t := ListenTake(s); ListenerHandled(u, t.0, t.1)
    case ListenSays(line) => s.(fromL := s.fromL + [line])
  }

  // ---- the invariant, one side at a time ----

  /** Nothing in front of the link's own traffic passes for a banner, or for a login. */
  predicate NoBanner(lines: seq<Line>) { forall i :: 0 <= i < |lines| ==> !lines[i].isBanner }
  predicate NoRtl(lines: seq<Line>) { forall i :: 0 <= i < |lines| ==> !lines[i].isRtl }

  /** What the dialler has sent by a given point. */
  ghost predicate DiallerSent(u: Setup, d: Dialler, sent: seq<Line>) {
    match d
    case AwaitBanner => sent == []
    case LoggingIn => sent == []
    case Announcing => sent == [u.login]
    case Linked => |sent| >= 2 && sent[0] == u.login && sent[1] == u.diallerKeepalive
    case _ => sent == [u.login, u.diallerKeepalive]
  }

  ghost predicate ListenerSent(u: Setup, l: Listener, sent: seq<Line>) {
    match l
    case Greeting => sent == []
    case Replying => sent == [u.banner, u.okay]
    case Serving => |sent| >= 3 && sent[0] == u.banner && sent[1] == u.okay && sent[2] == u.listenerKeepalive
    case _ => sent == [u.banner]
  }

  /** What the dialler has read and handled: after the banner and the OK, every line. */
  ghost predicate DiallerHas(u: Setup, d: Dialler, chatter: seq<Line>, fromL: seq<Line>, readD: nat, handled: seq<Line>) {
    && readD <= |fromL| && NoBanner(chatter)
    && (match d
        case AwaitBanner => handled == [] && (readD == 0 || (chatter == [] && readD == 1 && !u.banner.isBanner))
        case Linked => u.banner.isBanner && chatter == [] && readD >= 2 && handled == fromL[2..readD]
        case _ => u.banner.isBanner && chatter == [] && readD == 1 && handled == [])
  }

  /** What the listener has read and handled: after the login, every line. */
  ghost predicate ListenerHas(u: Setup, l: Listener, noise: seq<Line>, fromD: seq<Line>, readL: nat,
                              pending: seq<Line>, handled: seq<Line>) {
    && readL <= |fromD| && NoRtl(noise) && |pending| <= 1 && (handled != [] ==> pending == [])
    && (match l
        case Greeting => readL == 0 && pending == handled == []
        case AwaitRtl => pending == handled == [] && (readL == 0 || (noise == [] && !u.login.isRtl))
        case AwaitFirst => u.login.isRtl && noise == [] && readL == 1 && pending == handled == [] && u.kind.Ip?
        case Refused => u.login.isRtl && readL >= 1 && noise == [] && pending == handled == [] && !Admitted(u)
        case Serving => u.login.isRtl && noise == [] && readL >= 1 && handled + pending == fromD[1..readL] && Admitted(u)
        case _ => u.login.isRtl && noise == [] && readL >= 1 && handled == [] && pending == fromD[1..readL] && Admitted(u))
  }

  /** What a list of handled lines asks of the router, in order. */
  function CallsOfAll(lines: seq<Line>, from: string): seq<Call> {
    if lines == [] then [] else CallsOfAll(lines[..|lines| - 1], from) + CallsOf(lines[|lines| - 1], from)
  }

  /** What the link layer keeps to itself: keepalives, polls and poll responses, and lines that are no records. */
  predicate KeptByLink(line: Line) {
    line.record.None? || line.record.value.typ == 'K' || line.record.value.typ == 'P' || line.record.value.typ == 'R'
  }

  /** How many of the first `n` lines are for the router. */
  function ForRouter(lines: seq<Line>, n: nat): nat
    requires n <= |lines|
  {
    if n == 0 then 0 else ForRouter(lines, n - 1) + if KeptByLink(lines[n - 1]) then 0 else 1
  }

  /** Every handled record that is not the link layer's own reaches the router, with the link it came
      on, once and in order; and nothing else does. */
  lemma {:induction false} RecordsReachTheRouter(lines: seq<Line>, from: string, i: nat)
    ensures |CallsOfAll(lines, from)| == ForRouter(lines, |lines|)
    ensures i < |lines| && !KeptByLink(lines[i]) ==>
      ForRouter(lines, i) < |CallsOfAll(lines, from)|
      && CallsOfAll(lines, from)[ForRouter(lines, i)] == Ingest(lines[i].record.value, from)
    decreases |lines|
  {
    if lines != [] {
      var init := lines[..|lines| - 1];
      RecordsReachTheRouter(init, from, i);
      SameForRouter(init, lines[|lines| - 1], |init|);
      assert lines == init + [lines[|lines| - 1]];
      if i < |init| { SameForRouter(init, lines[|lines| - 1], i); }
    }
  }

  lemma {:induction false} SameForRouter(init: seq<Line>, last: Line, n: nat)
    requires n <= |init|
    ensures ForRouter(init + [last], n) == ForRouter(init, n)
  {
    if n > 0 { SameForRouter(init, last, n - 1); }
  }

  /** The listener touches its router and hub only once it serves: it brings the link up, then passes
      on the records it handled. It counts a refusal once. */
  ghost predicate Contained(u: Setup, s: State) {
    && s.calls == (if s.l.Serving? then [LinkUp(Upper(Caller(u)))] + CallsOfAll(s.handledL, Upper(Caller(u))) else [])
    && s.rejected == (if s.l.Refused? then 1 else 0)
    && (s.d.Failed? ==> s.l.Refused?)
  }

  ghost predicate Inv(u: Setup, s: State) {
    && DiallerSent(u, s.d, s.fromD) && ListenerSent(u, s.l, s.fromL)
    && DiallerHas(u, s.d, s.chatter, s.fromL, s.readD, s.handledD)
    && ListenerHas(u, s.l, s.noise, s.fromD, s.readL, s.pending, s.handledL)
    && Contained(u, s)
  }

  // ---- every step keeps the invariant ----

  lemma SlicesStay(a: seq<Line>, b: seq<Line>, i: nat, j: nat)
    requires a <= b && i <= j <= |a|
    ensures b[i..j] == a[i..j]
  {
  }

  lemma SliceGrows(a: seq<Line>, i: nat, j: nat)
    requires i <= j < |a|
    ensures a[i..j + 1] == a[i..j] + [a[j]]
  {
  }

  /** More from the listener does not disturb what the dialler has, and the other way round. */
  lemma DiallerHasMore(u: Setup, d: Dialler, chatter: seq<Line>, a: seq<Line>, b: seq<Line>, readD: nat, handled: seq<Line>)
    requires DiallerHas(u, d, chatter, a, readD, handled) && a <= b
    ensures DiallerHas(u, d, chatter, b, readD, handled)
  {
    if d.Linked? { SlicesStay(a, b, 2, readD); }
  }

  lemma ListenerHasMore(u: Setup, l: Listener, noise: seq<Line>, a: seq<Line>, b: seq<Line>, readL: nat,
                        pending: seq<Line>, handled: seq<Line>)
    requires ListenerHas(u, l, noise, a, readL, pending, handled) && a <= b
    ensures ListenerHas(u, l, noise, b, readL, pending, handled)
  {
    if readL >= 1 { SlicesStay(a, b, 1, readL); }
  }

  lemma NoBannerRest(lines: seq<Line>)
    requires NoBanner(lines) && lines != []
    ensures !lines[0].isBanner && NoBanner(lines[1..])
  {
  }

  lemma NoRtlRest(lines: seq<Line>)
    requires NoRtl(lines) && lines != []
    ensures !lines[0].isRtl && NoRtl(lines[1..])
  {
  }

  /** What reading comes to: chatter is skipped, then the banner, if it is seen as one, then the OK. */
  lemma DialReadsWhat(u: Setup, s: State)
    requires WellFormed(u) && Inv(u, s) && Enabled(s, DialReads)
    ensures After(u, s, DialReads) ==
      if s.chatter != [] then s.(chatter := s.chatter[1..])
      else if s.d.AwaitBanner? then (if u.banner.isBanner then s.(readD := 1, d := LoggingIn) else s.(readD := 1))
      else s.(readD := 2, d := Linked)
  {
    if s.chatter != [] { NoBannerRest(s.chatter); }
  }

  lemma DialReadsKeeps(u: Setup, s: State)
    requires WellFormed(u) && Inv(u, s) && Enabled(s, DialReads)
    ensures Inv(u, After(u, s, DialReads))
  {
    DialReadsWhat(u, s);
    if s.chatter != [] { NoBannerRest(s.chatter); }
  }

  lemma DialSendsKeeps(u: Setup, s: State)
    requires Inv(u, s) && Enabled(s, DialSends)
    ensures Inv(u, DialSent(u, s))
  {
    var s' := DialSent(u, s);
    ListenerHasMore(u, s.l, s.noise, s.fromD, s'.fromD, s.readL, s.pending, s.handledL);
  }

  lemma ListenReadsWhat(u: Setup, s: State)
    requires WellFormed(u) && Inv(u, s) && Enabled(s, ListenReads)
    ensures After(u, s, ListenReads) ==
      if s.noise != [] then s.(noise := s.noise[1..])
      else if !u.login.isRtl then s.(readL := s.readL + 1)
      else if s.l.AwaitRtl? && u.kind.Ip? then s.(readL := 1, l := AwaitFirst)
      else if !Admitted(u) then s.(readL := s.readL + 1, l := Refused, rejected := s.rejected + 1)
      else s.(readL := s.readL + 1, l := Accepting, pending := s.fromD[1..s.readL + 1])
  {
    if s.noise != [] {
      NoRtlRest(s.noise);
    } else if s.l.AwaitFirst? {
      SliceGrows(s.fromD, 1, 1);
    }
  }

  lemma ListenReadsKeeps(u: Setup, s: State)
    requires WellFormed(u) && Inv(u, s) && Enabled(s, ListenReads)
    ensures Inv(u, After(u, s, ListenReads))
  {
    ListenReadsWhat(u, s);
    if s.noise != [] { NoRtlRest(s.noise); }
  }

  lemma LinkUpIsContained(u: Setup, s: State)
    requires Inv(u, s) && s.l.Replying?
    ensures Contained(u, ListenSent(u, s))
  {
    assert [] + [LinkUp(Upper(Caller(u)))] == [LinkUp(Upper(Caller(u)))] + [];
  }

  lemma BannerKeeps(u: Setup, s: State)
    requires Inv(u, s) && s.l.Greeting?
    ensures Inv(u, ListenSent(u, s))
  {
    DiallerHasMore(u, s.d, s.chatter, s.fromL, s.fromL + [u.banner], s.readD, s.handledD);
  }

  lemma OkayKeeps(u: Setup, s: State)
    requires Inv(u, s) && s.l.Accepting?
    ensures Inv(u, ListenSent(u, s))
  {
    DiallerHasMore(u, s.d, s.chatter, s.fromL, s.fromL + [u.okay], s.readD, s.handledD);
  }

  lemma KeepaliveKeeps(u: Setup, s: State)
    requires Inv(u, s) && s.l.Replying?
    ensures Inv(u, ListenSent(u, s))
  {
    DiallerHasMore(u, s.d, s.chatter, s.fromL, s.fromL + [u.listenerKeepalive], s.readD, s.handledD);
    LinkUpIsContained(u, s);
    assert s.handledL + s.pending == s.pending;
  }

  lemma ListenSendsKeeps(u: Setup, s: State)
    requires Inv(u, s) && Enabled(s, ListenSends)
    ensures Inv(u, ListenSent(u, s))
  {
    if s.l.Greeting? {
      BannerKeeps(u, s);
    } else if s.l.Accepting? {
      OkayKeeps(u, s);
    } else {
      KeepaliveKeeps(u, s);
    }
  }

  lemma DialEndsKeeps(u: Setup, s: State)
    requires Inv(u, s) && Enabled(s, DialEnds)
    ensures Inv(u, s.(d := Failed))
  {
  }

  lemma DialHandlesKeeps(u: Setup, s: State)
    requires Inv(u, s) && Enabled(s, DialHandles)
    ensures Inv(u, After(u, s, DialHandles))
  {
    var s' := After(u, s, DialHandles);
    SliceGrows(s.fromL, 2, s.readD);
    ListenerHasMore(u, s.l, s.noise, s.fromD, s'.fromD, s.readL, s.pending, s.handledL);
  }

  lemma OneMoreCall(lines: seq<Line>, line: Line, from: string)
    ensures CallsOfAll(lines + [line], from) == CallsOfAll(lines, from) + CallsOf(line, from)
  {
    assert (lines + [line])[..|lines|] == lines;
  }

  lemma HandledIsContained(u: Setup, s: State, line: Line)
    requires s.l.Serving? && Contained(u, s)
    ensures Contained(u, ListenerHandled(u, s, line))
  {
    OneMoreCall(s.handledL, line, Upper(Caller(u)));
  }

  lemma HandledIsHad(u: Setup, s: State, line: Line)
    requires s.l.Serving? && Admitted(u) && u.login.isRtl
    requires s.noise == s.pending == [] && 1 <= s.readL <= |s.fromD| && s.handledL + [line] == s.fromD[1..s.readL]
    ensures ListenerHas(u, Serving, [], s.fromD, s.readL, [], s.handledL + [line])
  {
  }

  /** A line in hand, the last of what was read, is handled. */
  lemma ListenerHandledKeeps(u: Setup, s: State, line: Line)
    requires DiallerSent(u, s.d, s.fromD) && ListenerSent(u, s.l, s.fromL) && s.l.Serving? && Admitted(u) && u.login.isRtl
    requires DiallerHas(u, s.d, s.chatter, s.fromL, s.readD, s.handledD)
    requires s.noise == s.pending == [] && 1 <= s.readL <= |s.fromD| && s.handledL + [line] == s.fromD[1..s.readL]
    requires Contained(u, s)
    ensures Inv(u, ListenerHandled(u, s, line))
  {
    HandledIsContained(u, s, line);
    HandledIsHad(u, s, line);
    var more := s.fromL + Elicits(u.listenerResponse, line);
    DiallerHasMore(u, s.d, s.chatter, s.fromL, more, s.readD, s.handledD);
    assert ListenerSent(u, Serving, more);
  }

  lemma PendingHandledKeeps(u: Setup, s: State)
    requires Inv(u, s) && s.l.Serving? && s.pending != []
    ensures Inv(u, ListenerHandled(u, s.(pending := []), s.pending[0]))
  {
    assert s.pending == [s.pending[0]];
    ListenerHandledKeeps(u, s.(pending := []), s.pending[0]);
  }

  lemma ReadHandledKeeps(u: Setup, s: State)
    requires Inv(u, s) && s.l.Serving? && s.pending == [] && s.readL < |s.fromD|
    ensures Inv(u, ListenerHandled(u, s.(readL := s.readL + 1), s.fromD[s.readL]))
  {
    SliceGrows(s.fromD, 1, s.readL);
    assert s.handledL + [] == s.handledL;
    ListenerHandledKeeps(u, s.(readL := s.readL + 1), s.fromD[s.readL]);
  }

  lemma ListenHandlesKeeps(u: Setup, s: State)
    requires Inv(u, s) && Enabled(s, ListenHandles)
    ensures Inv(u, After(u, s, ListenHandles))
  {
    if s.pending != [] { PendingHandledKeeps(u, s); } else { ReadHandledKeeps(u, s); }
  }

  lemma SaysKeeps(u: Setup, s: State, step: Step)
    requires Inv(u, s) && Enabled(s, step) && (step.DialSays? || step.ListenSays?)
    ensures Inv(u, After(u, s, step))
  {
    var s' := After(u, s, step);
    ListenerHasMore(u, s.l, s.noise, s.fromD, s'.fromD, s.readL, s.pending, s.handledL);
    DiallerHasMore(u, s.d, s.chatter, s.fromL, s'.fromL, s.readD, s.handledD);
  }

  lemma StepKeeps(u: Setup, s: State, step: Step)
    requires WellFormed(u) && Inv(u, s) && Enabled(s, step)
    ensures Inv(u, After(u, s, step))
  {
    match step
    case DialReads => DialReadsKeeps(u, s);
    case DialSends => DialSendsKeeps(u, s);
    case DialEnds => DialEndsKeeps(u, s);
    case ListenReads => ListenReadsKeeps(u, s);
    case ListenSends => ListenSendsKeeps(u, s);
    case DialHandles => DialHandlesKeeps(u, s);
    case ListenHandles => ListenHandlesKeeps(u, s);
    case DialSays(_) => SaysKeeps(u, s, step);
    case ListenSays(_) => SaysKeeps(u, s, step);
  }
}
