/** What every interleaving of a dialler and a listener comes to. */
module HandshakeRuns {
  import opened Options
  import opened Text
  import opened Proto
  import opened Handshake

  ghost predicate Runs(u: Setup, s: State, steps: seq<Step>)
    decreases |steps|
  {
    steps == [] || (Enabled(s, steps[0]) && Runs(u, After(u, s, steps[0]), steps[1..]))
  }

  ghost function Final(u: Setup, s: State, steps: seq<Step>): State
    requires Runs(u, s, steps)
    decreases |steps|
  {
    if steps == [] then s else Final(u, After(u, s, steps[0]), steps[1..])
  }

  lemma {:induction false} RunKeeps(u: Setup, s: State, steps: seq<Step>)
    requires WellFormed(u) && Inv(u, s) && Runs(u, s, steps)
    ensures Inv(u, Final(u, s, steps))
    decreases |steps|
  {
    if steps != [] {
      StepKeeps(u, s, steps[0]);
      RunKeeps(u, After(u, s, steps[0]), steps[1..]);
    }
  }

  lemma StartIsFine(u: Setup)
    requires WellFormed(u)
    ensures Inv(u, Start(u))
  {
  }

  // ---- progress ----

  /** Neither side can take a handshake step. */
  ghost predicate Settled(s: State) { forall step :: Shaking(step) ==> !Enabled(s, step) }

  /** How a handshake ends: as it is meant to, if each side recognises what the other opens with; and
      otherwise with both of them waiting, for a banner and a login that have gone by unrecognised. */
  predicate Done(u: Setup, s: State) {
    if !u.banner.isBanner then s.d.AwaitBanner? && s.l.AwaitRtl?
    else if !u.login.isRtl then s.d.AwaitOk? && s.l.AwaitRtl?
    else if Admitted(u) then s.d.Linked? && s.l.Serving?
    else s.d.Failed? && s.l.Refused?
  }

  /** The handshake only rests where it is said to end. */
  lemma SettledMeansDone(u: Setup, s: State)
    requires Inv(u, s) && Settled(s)
    ensures Done(u, s)
  {
    assert Shaking(DialReads) && Shaking(DialSends) && Shaking(DialEnds);
    assert Shaking(ListenReads) && Shaking(ListenSends);
  }

  function DiallerRank(u: Setup, d: Dialler, readD: nat): nat {
    match d
    case AwaitBanner => if u.banner.isBanner || readD > 0 then 4 else 5
    case LoggingIn => 3
    case Announcing => 2
    case AwaitOk => 1
    case _ => 0
  }

  function ListenerRank(u: Setup, l: Listener, readL: nat): nat {
    match l
    case Greeting => if u.login.isRtl then 5 else 7
    case AwaitRtl => if u.login.isRtl || readL > 1 then 4 else 6 - readL
    case AwaitFirst => 3
    case Accepting => 2
    case Replying => 1
    case _ => 0
  }

  function Ahead(u: Setup, s: State): nat {
    |s.chatter| + |s.noise| + DiallerRank(u, s.d, s.readD) + ListenerRank(u, s.l, s.readL)
  }

  lemma DialAdvances(u: Setup, s: State, step: Step)
    requires WellFormed(u) && Inv(u, s) && Enabled(s, step) && (step.DialReads? || step.DialSends? || step.DialEnds?)
    ensures Ahead(u, After(u, s, step)) < Ahead(u, s)
  {
    if step.DialReads? { DialReadsWhat(u, s); }
  }

  lemma ListenAdvances(u: Setup, s: State, step: Step)
    requires WellFormed(u) && Inv(u, s) && Enabled(s, step) && (step.ListenReads? || step.ListenSends?)
    ensures Ahead(u, After(u, s, step)) < Ahead(u, s)
  {
    if step.ListenReads? { ListenReadsWhat(u, s); }
  }

  lemma ServingStands(u: Setup, s: State, step: Step)
    requires Inv(u, s) && Enabled(s, step) && !Shaking(step)
    ensures Ahead(u, After(u, s, step)) == Ahead(u, s)
  {
  }

  lemma ShakingAdvances(u: Setup, s: State, step: Step)
    requires WellFormed(u) && Inv(u, s) && Enabled(s, step)
    ensures Shaking(step) ==> Ahead(u, After(u, s, step)) < Ahead(u, s)
    ensures !Shaking(step) ==> Ahead(u, After(u, s, step)) == Ahead(u, s)
  {
    if !Shaking(step) {
      ServingStands(u, s, step);
    } else if step.ListenReads? || step.ListenSends? {
      ListenAdvances(u, s, step);
    } else {
      DialAdvances(u, s, step);
    }
  }

  function Shakes(steps: seq<Step>): nat {
    if steps == [] then 0 else (if Shaking(steps[0]) then 1 else 0) + Shakes(steps[1..])
  }

  lemma {:induction false} ShakesAreBounded(u: Setup, s: State, steps: seq<Step>)
    requires WellFormed(u) && Inv(u, s) && Runs(u, s, steps)
    ensures Shakes(steps) + Ahead(u, Final(u, s, steps)) <= Ahead(u, s)
    decreases |steps|
  {
    if steps != [] {
      StepKeeps(u, s, steps[0]);
      ShakingAdvances(u, s, steps[0]);
      ShakesAreBounded(u, After(u, s, steps[0]), steps[1..]);
    }
  }

  /** Progress, for every interleaving: the handshake takes a bounded number of steps. If banner and
      login are recognised it comes to rest only with both sides serving, or, for a caller that is not
      admitted, with the caller turned away and having given up; if either is not, it comes to rest
      with both sides waiting, and never otherwise. */
  lemma HandshakeCompletes(u: Setup, steps: seq<Step>)
    requires WellFormed(u) && Runs(u, Start(u), steps)
    ensures Shakes(steps) <= |u.chatter| + |u.noise| + 9 + (if u.banner.isBanner then 0 else 1) + (if u.login.isRtl then 0 else 2)
    ensures Settled(Final(u, Start(u), steps)) ==> Done(u, Final(u, Start(u), steps))
  {
    StartIsFine(u);
    RunKeeps(u, Start(u), steps);
    ShakesAreBounded(u, Start(u), steps);
    if Settled(Final(u, Start(u), steps)) { SettledMeansDone(u, Final(u, Start(u), steps)); }
  }

  // ---- safety ----

  /** Nothing is lost: what a side has sent since the login is what the other has handled, has in
      hand, or has yet to read, in order. */
  ghost predicate NothingLost(u: Setup, s: State) {
    && (s.l.Serving? ==>
          && s.readL <= |s.fromD| && s.fromD == [u.login] + s.handledL + s.pending + s.fromD[s.readL..]
          && (s.handledL != [] ==> s.handledL[0] == u.diallerKeepalive)
          && s.calls == [LinkUp(Upper(Caller(u)))] + CallsOfAll(s.handledL, Upper(Caller(u))))
    && (s.d.Linked? ==>
          && s.readD <= |s.fromL| && s.fromL == [u.banner, u.okay] + s.handledD + s.fromL[s.readD..]
          && (s.handledD != [] ==> |s.fromL| >= 3 && s.handledD[0] == u.listenerKeepalive))
  }

  lemma ListenerLosesNothing(u: Setup, s: State)
    requires Inv(u, s) && s.l.Serving?
    ensures s.fromD == [u.login] + s.handledL + s.pending + s.fromD[s.readL..]
    ensures s.handledL != [] ==> s.handledL[0] == u.diallerKeepalive
  {
    var t := s.fromD;
    assert t == t[..1] + t[1..s.readL] + t[s.readL..];
    assert t[..1] == [u.login];
    assert [u.login] + s.handledL + s.pending == [u.login] + (s.handledL + s.pending);
    if s.handledL != [] { assert (s.handledL + s.pending)[0] == s.handledL[0] == t[1]; }
  }

  lemma DiallerLosesNothing(u: Setup, s: State)
    requires Inv(u, s) && s.d.Linked?
    ensures s.fromL == [u.banner, u.okay] + s.handledD + s.fromL[s.readD..]
    ensures s.handledD != [] ==> |s.fromL| >= 3 && s.handledD[0] == u.listenerKeepalive
  {
    var t := s.fromL;
    assert t == t[..2] + t[2..s.readD] + t[s.readD..];
    assert t[..2] == [u.banner, u.okay];
  }

  /** Safety, for every interleaving. An admitted caller is never turned away, and no line of either
      side is lost; the dialler's first keepalive is the first record the listener handles. */
  lemma AdmittedLosesNothing(u: Setup, steps: seq<Step>)
    requires WellFormed(u) && Runs(u, Start(u), steps) && Admitted(u)
    ensures
      var s := Final(u, Start(u), steps);
      !s.l.Refused? && !s.d.Failed? && s.rejected == 0 && NothingLost(u, s)
  {
    StartIsFine(u);
    RunKeeps(u, Start(u), steps);
    var s := Final(u, Start(u), steps);
    if s.l.Serving? { ListenerLosesNothing(u, s); }
    if s.d.Linked? { DiallerLosesNothing(u, s); }
  }

  /** A caller that is not admitted never gets beyond the banner: neither side serves, and the
      listener's router and hub are never asked for anything. */
  lemma RefusedTouchesNothing(u: Setup, steps: seq<Step>)
    requires WellFormed(u) && Runs(u, Start(u), steps) && !Admitted(u)
    ensures
      var s := Final(u, Start(u), steps);
      && !s.d.Linked? && !s.l.Serving? && s.calls == [] && s.handledL == []
      && s.fromL <= [u.banner] && s.rejected <= 1
  {
    StartIsFine(u);
    RunKeeps(u, Start(u), steps);
  }

  /** If the banner or the login goes by unrecognised, neither side ever serves, and the listener's
      router and hub are never asked for anything. */
  lemma UnrecognisedNeverLinks(u: Setup, steps: seq<Step>)
    requires WellFormed(u) && Runs(u, Start(u), steps) && !(u.banner.isBanner && u.login.isRtl)
    ensures
      var s := Final(u, Start(u), steps);
      && !s.d.Linked? && !s.l.Serving? && s.calls == [] && s.handledL == [] && s.fromL <= [u.banner]
  {
    StartIsFine(u);
    RunKeeps(u, Start(u), steps);
  }

  // ---- the served link ----

  predicate Handles(step: Step) { step.DialHandles? || step.ListenHandles? }

  /** A keepalive or a poll is owed an answer; nothing else is. */
  function Weight(line: Line): nat {
    if line.record.Some? && line.record.value.typ in {ID_KEEPALIVE, ID_POLL} then 2 else 1
  }

  function WeightOf(lines: seq<Line>): nat {
    if lines == [] then 0 else WeightOf(lines[..|lines| - 1]) + Weight(lines[|lines| - 1])
  }

  lemma {:induction false} WeightBoth(a: seq<Line>, b: seq<Line>)
    ensures WeightOf(a + b) == WeightOf(a) + WeightOf(b)
  {
    if b == [] {
      assert a + b == a;
    } else {
      assert (a + b)[..|a + b| - 1] == a + b[..|b| - 1];
      WeightBoth(a, b[..|b| - 1]);
    }
  }

  lemma OneWeight(line: Line)
    ensures WeightOf([line]) == Weight(line)
  {
    assert [line][..0] == [];
  }

  /** Answering pays for itself: an answer weighs less than what it answers. A poll response is
      answered by nothing. */
  lemma AnswersWeighLess(response: Line, node: string, line: Line)
    requires Carries(response, ID_POLL_RESP, node)
    ensures WeightOf(Elicits(response, line)) < Weight(line)
    ensures forall r :: r in Elicits(response, line) ==> Elicits(response, r) == []
  {
    OneWeight(response);
  }

  /** What is still to be handled on a served link. */
  function Load(s: State): nat
    requires s.readD <= |s.fromL| && s.readL <= |s.fromD|
  {
    WeightOf(s.fromL[s.readD..]) + WeightOf(s.pending) + WeightOf(s.fromD[s.readL..])
  }

  /** Taking a line from one direction and answering it in the other lightens the two together. */
  lemma Exchange(a: seq<Line>, i: nat, b: seq<Line>, j: nat, more: seq<Line>)
    requires i < |a| && j <= |b| && WeightOf(more) < Weight(a[i])
    ensures WeightOf(a[i + 1..]) + WeightOf((b + more)[j..]) < WeightOf(a[i..]) + WeightOf(b[j..])
  {
    assert a[i..] == [a[i]] + a[i + 1..];
    WeightBoth([a[i]], a[i + 1..]);
    OneWeight(a[i]);
    MoreLoad(b, j, more);
  }

  lemma MoreLoad(b: seq<Line>, j: nat, more: seq<Line>)
    requires j <= |b|
    ensures WeightOf((b + more)[j..]) == WeightOf(b[j..]) + WeightOf(more)
  {
    assert (b + more)[j..] == b[j..] + more;
    WeightBoth(b[j..], more);
  }

  ghost predicate Up(u: Setup, s: State) { Inv(u, s) && s.d.Linked? && s.l.Serving? }

  lemma DialHandlesWhat(u: Setup, s: State)
    requires Up(u, s) && Enabled(s, DialHandles)
    ensures s.readD < |s.fromL| && s.readL <= |s.fromD|
    ensures var s' := After(u, s, DialHandles);
            && s'.fromL == s.fromL && s'.readD == s.readD + 1 && s'.pending == s.pending && s'.readL == s.readL
            && s'.fromD == s.fromD + Elicits(u.diallerResponse, s.fromL[s.readD])
  {
  }

  lemma DialHandlesLightens(u: Setup, s: State)
    requires WellFormed(u) && Up(u, s) && Enabled(s, DialHandles)
    ensures var s' := After(u, s, DialHandles);
            s'.readD <= |s'.fromL| && s'.readL <= |s'.fromD| && Load(s') < Load(s)
  {
    DialHandlesWhat(u, s);
    AnswersLighten(u.diallerResponse, u.dialler, s.fromL, s.readD, s.fromD, s.readL);
  }

  lemma AnswersLighten(response: Line, node: string, a: seq<Line>, i: nat, b: seq<Line>, j: nat)
    requires Carries(response, ID_POLL_RESP, node) && i < |a| && j <= |b|
    ensures
      WeightOf(a[i + 1..]) + WeightOf((b + Elicits(response, a[i]))[j..]) < WeightOf(a[i..]) + WeightOf(b[j..])
  {
    AnswersWeighLess(response, node, a[i]);
    Exchange(a, i, b, j, Elicits(response, a[i]));
  }

  lemma PendingLightens(u: Setup, s: State)
    requires WellFormed(u) && Up(u, s) && s.pending != []
    ensures Load(After(u, s, ListenHandles)) < Load(s)
  {
    var line := s.pending[0];
    AnswersWeighLess(u.listenerResponse, u.listener, line);
    assert s.pending == [line];
    OneWeight(line);
    MoreLoad(s.fromL, s.readD, Elicits(u.listenerResponse, line));
  }

  lemma ListenHandlesLightens(u: Setup, s: State)
    requires WellFormed(u) && Up(u, s) && Enabled(s, ListenHandles)
    ensures var s' := After(u, s, ListenHandles);
            s'.readD <= |s'.fromL| && s'.readL <= |s'.fromD| && Load(s') < Load(s)
  {
    if s.pending != [] {
      PendingLightens(u, s);
    } else {
      var line := s.fromD[s.readL];
      AnswersWeighLess(u.listenerResponse, u.listener, line);
      Exchange(s.fromD, s.readL, s.fromL, s.readD, Elicits(u.listenerResponse, line));
    }
  }

  lemma HandlingLightens(u: Setup, s: State, step: Step)
    requires WellFormed(u) && Up(u, s) && Enabled(s, step) && Handles(step)
    ensures Up(u, After(u, s, step)) && Load(After(u, s, step)) < Load(s)
  {
    StepKeeps(u, s, step);
    if step.DialHandles? { DialHandlesLightens(u, s); } else { ListenHandlesLightens(u, s); }
  }

  /** Keepalives do not echo for ever: if neither side says anything of its own accord, the two of
      them handle a bounded number of lines. */
  lemma {:induction false} TrafficDiesDown(u: Setup, s: State, steps: seq<Step>)
    requires WellFormed(u) && Up(u, s) && Runs(u, s, steps)
    requires forall i :: 0 <= i < |steps| ==> Handles(steps[i])
    ensures |steps| <= Load(s)
    decreases |steps|
  {
    if steps != [] {
      HandlingLightens(u, s, steps[0]);
      TrafficDiesDown(u, After(u, s, steps[0]), steps[1..]);
    }
  }

  // ---- every question is answered once ----

  /** How many of the lines ask for a response: the keepalives and the polls. */
  function Asks(lines: seq<Line>): nat {
    if lines == [] then 0
    else
      var line := lines[|lines| - 1];
      Asks(lines[..|lines| - 1])
      + if line.record.Some? && (line.record.value.typ == 'K' || line.record.value.typ == 'P') then 1 else 0
  }

  /** What each side says of its own accord. */
  function SaysD(step: Step): multiset<Line> { if step.DialSays? then multiset{step.line} else multiset{} }
  function SaysL(step: Step): multiset<Line> { if step.ListenSays? then multiset{step.line} else multiset{} }

  function Said(steps: seq<Step>, says: Step -> multiset<Line>): multiset<Line> {
    if steps == [] then multiset{} else says(steps[0]) + Said(steps[1..], says)
  }

  /** A side has sent what opens its end, what it said of its own accord, and one response for every
      line it handled that asks for one. */
  ghost predicate Paid(sent: seq<Line>, opening: seq<Line>, said: multiset<Line>, response: Line, handled: seq<Line>) {
    multiset(sent) == multiset(opening) + said + multiset{}[response := Asks(handled)]
  }

  lemma PaidBySaying(sent: seq<Line>, opening: seq<Line>, said: multiset<Line>, response: Line, handled: seq<Line>, line: Line)
    requires Paid(sent, opening, said, response, handled)
    ensures Paid(sent + [line], opening, said + multiset{line}, response, handled)
  {
  }

  lemma PaidByHandling(sent: seq<Line>, opening: seq<Line>, said: multiset<Line>, response: Line, handled: seq<Line>, line: Line)
    requires Paid(sent, opening, said, response, handled)
    ensures Paid(sent + Elicits(response, line), opening, said, response, handled + [line])
  {
    assert (handled + [line])[..|handled|] == handled;
    var more := Asks(handled + [line]) - Asks(handled);
    assert multiset(Elicits(response, line)) == multiset{}[response := more];
  }

  ghost predicate PaidD(u: Setup, s: State, said: multiset<Line>) {
    if s.d.Linked? then Paid(s.fromD, [u.login, u.diallerKeepalive], said, u.diallerResponse, s.handledD)
    else said == multiset{}
  }

  ghost predicate PaidL(u: Setup, s: State, said: multiset<Line>) {
    if s.l.Serving? then Paid(s.fromL, [u.banner, u.okay, u.listenerKeepalive], said, u.listenerResponse, s.handledL)
    else said == multiset{}
  }

  lemma NothingToPay(u: Setup)
    ensures Paid([u.login, u.diallerKeepalive], [u.login, u.diallerKeepalive], multiset{}, u.diallerResponse, [])
    ensures Paid([u.banner, u.okay, u.listenerKeepalive], [u.banner, u.okay, u.listenerKeepalive], multiset{},
                 u.listenerResponse, [])
  {
  }

  /** Nothing that concerns the accounts of either side once it is linked. */
  predicate SameD(s: State, s': State) {
    (s'.d.Linked? <==> s.d.Linked?) && (s.d.Linked? ==> s'.fromD == s.fromD && s'.handledD == s.handledD)
  }

  predicate SameL(s: State, s': State) {
    (s'.l.Serving? <==> s.l.Serving?) && (s.l.Serving? ==> s'.fromL == s.fromL && s'.handledL == s.handledL)
  }

  lemma OthersLeaveDialler(u: Setup, s: State, step: Step)
    requires Enabled(s, step) && !step.DialSays? && !step.DialHandles? && !step.DialReads?
    ensures SameD(s, After(u, s, step))
  {
  }

  lemma OthersLeaveListener(u: Setup, s: State, step: Step)
    requires Enabled(s, step) && !step.ListenSays? && !step.ListenHandles? && !step.ListenSends?
    ensures SameL(s, After(u, s, step))
  {
  }

  lemma DialReadsPays(u: Setup, s: State, said: multiset<Line>)
    requires WellFormed(u) && Inv(u, s) && Enabled(s, DialReads) && PaidD(u, s, said)
    ensures PaidD(u, After(u, s, DialReads), said)
  {
    DialReadsWhat(u, s);
    NothingToPay(u);
  }

  lemma ListenSendsPays(u: Setup, s: State, said: multiset<Line>)
    requires Inv(u, s) && Enabled(s, ListenSends) && PaidL(u, s, said)
    ensures PaidL(u, After(u, s, ListenSends), said)
  {
    NothingToPay(u);
  }

  lemma DialHandlesPays(u: Setup, s: State, said: multiset<Line>)
    requires Enabled(s, DialHandles) && PaidD(u, s, said)
    ensures PaidD(u, After(u, s, DialHandles), said)
  {
    PaidByHandling(s.fromD, [u.login, u.diallerKeepalive], said, u.diallerResponse, s.handledD, DialTake(s).1);
  }

  lemma ListenHandlesPays(u: Setup, s: State, said: multiset<Line>)
    requires Enabled(s, ListenHandles) && PaidL(u, s, said)
    ensures PaidL(u, After(u, s, ListenHandles), said)
  {
    var line := if s.pending != [] then s.pending[0] else ListenTake(s).1;
    PaidByHandling(s.fromL, [u.banner, u.okay, u.listenerKeepalive], said, u.listenerResponse, s.handledL, line);
  }

  lemma DiallerPays(u: Setup, s: State, step: Step, said: multiset<Line>)
    requires WellFormed(u) && Inv(u, s) && Enabled(s, step) && PaidD(u, s, said)
    ensures PaidD(u, After(u, s, step), said + SaysD(step))
  {
    if step.DialSays? {
      PaidBySaying(s.fromD, [u.login, u.diallerKeepalive], said, u.diallerResponse, s.handledD, step.line);
    } else {
      assert said + SaysD(step) == said;
      if step.DialHandles? {
        DialHandlesPays(u, s, said);
      } else if step.DialReads? {
        DialReadsPays(u, s, said);
      } else {
        OthersLeaveDialler(u, s, step);
      }
    }
  }

  lemma ListenerPays(u: Setup, s: State, step: Step, said: multiset<Line>)
    requires WellFormed(u) && Inv(u, s) && Enabled(s, step) && PaidL(u, s, said)
    ensures PaidL(u, After(u, s, step), said + SaysL(step))
  {
    if step.ListenSays? {
      PaidBySaying(s.fromL, [u.banner, u.okay, u.listenerKeepalive], said, u.listenerResponse, s.handledL, step.line);
    } else {
      assert said + SaysL(step) == said;
      if step.ListenHandles? {
        ListenHandlesPays(u, s, said);
      } else if step.ListenSends? {
        ListenSendsPays(u, s, said);
      } else {
        OthersLeaveListener(u, s, step);
      }
    }
  }

  /** The accounts of both sides are in order. */
  ghost predicate Squared(u: Setup, s: State, saidD: multiset<Line>, saidL: multiset<Line>) {
    Inv(u, s) && PaidD(u, s, saidD) && PaidL(u, s, saidL)
  }

  lemma StepPays(u: Setup, s: State, step: Step, saidD: multiset<Line>, saidL: multiset<Line>)
    requires WellFormed(u) && Squared(u, s, saidD, saidL) && Enabled(s, step)
    ensures Squared(u, After(u, s, step), saidD + SaysD(step), saidL + SaysL(step))
  {
    StepKeeps(u, s, step);
    DiallerPays(u, s, step, saidD);
    ListenerPays(u, s, step, saidL);
  }

  lemma AllTogether(a: multiset<Line>, b: multiset<Line>, c: multiset<Line>)
    ensures a + b + c == a + (b + c) && a + multiset{} == a
  {
  }

  lemma {:induction false} RunPays(u: Setup, s: State, steps: seq<Step>, saidD: multiset<Line>, saidL: multiset<Line>)
    requires WellFormed(u) && Runs(u, s, steps) && Squared(u, s, saidD, saidL)
    ensures Squared(u, Final(u, s, steps), saidD + Said(steps, SaysD), saidL + Said(steps, SaysL))
    decreases |steps|
  {
    if steps == [] {
      AllTogether(saidD, multiset{}, multiset{});
      AllTogether(saidL, multiset{}, multiset{});
    } else {
      StepPays(u, s, steps[0], saidD, saidL);
      RunPays(u, After(u, s, steps[0]), steps[1..], saidD + SaysD(steps[0]), saidL + SaysL(steps[0]));
      AllTogether(saidD, SaysD(steps[0]), Said(steps[1..], SaysD));
      AllTogether(saidL, SaysL(steps[0]), Said(steps[1..], SaysL));
    }
  }

  /** In every run, what a linked side has sent is its opening, what it said of its own accord, and one
      response of its own for each keepalive or poll it handled: none unanswered, none answered twice. */
  lemma EveryAskIsAnswered(u: Setup, steps: seq<Step>)
    requires WellFormed(u) && Runs(u, Start(u), steps)
    ensures
      var s := Final(u, Start(u), steps);
      && (s.d.Linked? ==> Paid(s.fromD, [u.login, u.diallerKeepalive], Said(steps, SaysD), u.diallerResponse,
                                s.handledD))
      && (s.l.Serving? ==>
            Paid(s.fromL, [u.banner, u.okay, u.listenerKeepalive], Said(steps, SaysL), u.listenerResponse,
                 s.handledL))
  {
    StartIsFine(u);
    RunPays(u, Start(u), steps, multiset{}, multiset{});
    assert multiset{} + Said(steps, SaysD) == Said(steps, SaysD);
    assert multiset{} + Said(steps, SaysL) == Said(steps, SaysL);
  }
}
