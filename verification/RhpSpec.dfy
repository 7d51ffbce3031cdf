/** The RHPv2 client's request/reply correlation, as the atomic steps of its goroutines: requesters,
    one read loop, and whoever closes the client. */
module RhpSpec {

  /** A decoded frame: the request id it answers, if any, and its content. */
  datatype Frame = Frame(id: int, hasId: bool, body: string)

  /** A reply channel: everything ever put in it, how much was taken out, and how often it was closed. */
  datatype Chan = Chan(sent: seq<Frame>, taken: nat, closes: nat)

  /** Where a requester is. */
  datatype Phase = Writing | Waiting | Answered(reply: Frame) | Cancelled | WriteFailed | Lost

  datatype Request = Request(chan: nat, phase: Phase)

  /** Where the read loop is: reading, about to put a reply in a channel it took, about to close
      that channel, closing what was pending when the link went, or gone. */
  datatype Loop =
    | Reading
    | Putting(chan: nat, reply: Frame)
    | Sealing(chan: nat, reply: Frame)
    | Closing(left: set<nat>)
    | Exited

  datatype State = State(nextId: nat, requests: map<int, Request>, pending: map<int, nat>, chans: seq<Chan>,
                         closed: bool, loop: Loop)

  function Start(): State { State(0, map[], map[], [], false, Reading) }

  datatype Step =
    | Begin
    | WriteOk(id: int)
    | WriteFail(id: int)
    | Cancel(id: int)
    | Receive(id: int)
    | Dispatch(frame: Frame)
    | Put
    | Seal
    | LinkLost
    | CloseOne(chan: nat)
    | Exit
    | Close

  predicate In(s: State, id: int, p: Phase) { id in s.requests && s.requests[id].phase == p }

  predicate HasChan(s: State, id: int) { id in s.requests && s.requests[id].chan < |s.chans| }

  /** A value is buffered, or the channel is closed. */
  predicate Readable(c: Chan) { c.taken < |c.sent| || c.closes > 0 }

  /** When a step can be taken. A put waits for room in the one-place buffer. */
  predicate Enabled(s: State, step: Step) {
    match step
    case Begin => true
    case WriteOk(id) => In(s, id, Writing)
    case WriteFail(id) => In(s, id, Writing)
    case Cancel(id) => In(s, id, Waiting)
    case Receive(id) => In(s, id, Waiting) && HasChan(s, id) && Readable(s.chans[s.requests[id].chan])
    case Dispatch(_) => s.loop.Reading?
    case Put => s.loop.Putting? && s.loop.chan < |s.chans| && |s.chans[s.loop.chan].sent| == s.chans[s.loop.chan].taken
    case Seal => s.loop.Sealing? && s.loop.chan < |s.chans|
    case LinkLost => s.loop.Reading?
    case CloseOne(c) => s.loop.Closing? && c in s.loop.left && c < |s.chans|
    case Exit => s.loop == Closing({})
    case Close => true
  }

  function Began(s: State): State {
    var id := s.nextId + 1;
    s.(nextId := id, chans := s.chans + [Chan([], 0, 0)], pending := s.pending[id := |s.chans|],
       requests := s.requests[id := Request(|s.chans|, Writing)])
  }

  function Moved(s: State, id: int, p: Phase): State
    requires id in s.requests
  {
    s.(requests := s.requests[id := s.requests[id].(phase := p)])
  }

  function Forgotten(s: State, id: int): State { s.(pending := s.pending - {id}) }

  /** What a reader of a readable channel gets. */
  function Outcome(c: Chan): Phase {
    if c.taken < |c.sent| then Answered(c.sent[c.taken]) else Lost
  }

  function Received(s: State, id: int): State
    requires HasChan(s, id)
  {
    var ch := s.requests[id].chan;
    var c := s.chans[ch];
    var s1 := Moved(s, id, Outcome(c));
    if c.taken < |c.sent| then s1.(chans := s.chans[ch := c.(taken := c.taken + 1)]) else s1
  }

  /** A frame with a pending id takes that id's channel; any other frame is a push or is dropped. */
  function Dispatched(s: State, f: Frame): State {
    if f.hasId && f.id in s.pending then
      s.(pending := s.pending - {f.id}, loop := Putting(s.pending[f.id], f))
    else s
  }

  function ChanClosed(s: State, ch: nat): State
    requires ch < |s.chans|
  {
    s.(chans := s.chans[ch := s.chans[ch].(closes := s.chans[ch].closes + 1)])
  }

  function After(s: State, step: Step): State
    requires Enabled(s, step)
  {
    match step
    case Begin => if s.closed then s else Began(s)
    case WriteOk(id) => Moved(s, id, Waiting)
    case WriteFail(id) => Forgotten(Moved(s, id, WriteFailed), id)
    case Cancel(id) => Forgotten(Moved(s, id, Cancelled), id)
    case Receive(id) => Received(s, id)
    case Dispatch(f) => Dispatched(s, f)
    case Put =>
      var c := s.chans[s.loop.chan];
      s.(chans := s.chans[s.loop.chan := c.(sent := c.sent + [s.loop.reply])], loop := Sealing(s.loop.chan, s.loop.reply))
    case Seal => ChanClosed(s, s.loop.chan).(loop := Reading)
    case LinkLost => s.(pending := map[], closed := true, loop := Closing(set id | id in s.pending :: s.pending[id]))
    case CloseOne(ch) => ChanClosed(s, ch).(loop := Closing(s.loop.left - {ch}))
    case Exit => s.(loop := Exited)
    case Close => s.(closed := true)
  }

  // ---- the invariant ----

  /** Who is responsible for a request's channel. */
  datatype Grip = Pending | ToPut(reply: Frame) | ToSeal(reply: Frame) | ToClose | Free

  function GripOn(pending: map<int, nat>, loop: Loop, id: int, ch: nat): Grip {
    if id in pending then Pending
    else match loop
      case Putting(c, f) => if c == ch then ToPut(f) else Free
      case Sealing(c, f) => if c == ch then ToSeal(f) else Free
      case Closing(left) => if ch in left then ToClose else Free
      case _ => Free
  }

  predicate GaveUp(p: Phase) { p.Cancelled? || p.WriteFailed? }

  /** Reply `f` answers request `id`. */
  predicate Answers(f: Frame, id: int) { f.hasId && f.id == id }

  /** One request, its channel, and who holds the channel agree. */
  predicate Sound(id: int, p: Phase, c: Chan, g: Grip) {
    && |c.sent| <= 1 && c.closes <= 1
    && (|c.sent| == 1 ==> Answers(c.sent[0], id))
    && (match g
        case Pending => c == Chan([], 0, 0) && (p.Writing? || p.Waiting?)
        case ToPut(f) => c == Chan([], 0, 0) && Answers(f, id)
        case ToSeal(f) => c.sent == [f] && c.closes == 0
        case ToClose => c == Chan([], 0, 0)
        case Free => c.closes == 1 || (c == Chan([], 0, 0) && GaveUp(p)))
    && (if p.Answered? then c.taken == 1 && c.sent == [p.reply] else c.taken == 0)
    && (p.Lost? ==> c.sent == [] && c.closes == 1)
  }

  predicate SoundAt(s: State, id: int)
    requires HasChan(s, id)
  {
    Sound(id, s.requests[id].phase, s.chans[s.requests[id].chan], GripOn(s.pending, s.loop, id, s.requests[id].chan))
  }

  /** Ids are handed out once each, in order, and each gets the next channel. */
  ghost predicate Numbered(s: State) {
    && |s.chans| == s.nextId
    && (forall id :: id in s.requests <==> 1 <= id <= s.nextId)
    && (forall id :: id in s.requests ==> s.requests[id].chan == id - 1)
    && (forall id :: id in s.pending ==> id in s.requests && s.pending[id] == id - 1)
  }

  /** The loop holds only channels that exist and are no longer pending; once it is closing, nothing
      is pending and nothing new begins. */
  ghost predicate LoopSound(s: State) {
    match s.loop
    case Reading => true
    case Putting(c, _) => c < |s.chans| && c + 1 !in s.pending
    case Sealing(c, _) => c < |s.chans| && c + 1 !in s.pending
    case Closing(left) => s.pending == map[] && s.closed && forall c :: c in left ==> c < |s.chans|
    case Exited => s.pending == map[] && s.closed
  }

  ghost predicate AllSound(s: State)
    requires Numbered(s)
  {
    forall id :: id in s.requests ==> SoundAt(s, id)
  }

  ghost predicate Inv(s: State) { Numbered(s) && LoopSound(s) && AllSound(s) }

  // ---- every step keeps it ----

  lemma BeginKeeps(s: State)
    requires Inv(s)
    ensures Inv(After(s, Begin))
  {
    var s' := After(s, Begin);
    forall id | id in s'.requests
      ensures SoundAt(s', id)
    {
      if id in s.requests { assert SoundAt(s, id); }
    }
  }

  lemma GiveUpKeeps(s: State, id: int, p: Phase)
    requires Inv(s) && (In(s, id, Writing) || In(s, id, Waiting)) && GaveUp(p)
    ensures Inv(Forgotten(Moved(s, id, p), id))
  {
    var s' := Forgotten(Moved(s, id, p), id);
    forall i | i in s'.requests
      ensures SoundAt(s', i)
    {
      assert SoundAt(s, i);
    }
  }

  lemma WriteOkKeeps(s: State, id: int)
    requires Inv(s) && In(s, id, Writing)
    ensures Inv(Moved(s, id, Waiting))
  {
    var s' := Moved(s, id, Waiting);
    forall i | i in s'.requests
      ensures SoundAt(s', i)
    {
      assert SoundAt(s, i);
    }
  }

  lemma ReceivedIsSound(id: int, p: Phase, c: Chan, g: Grip)
    requires Sound(id, p, c, g) && p.Waiting? && Readable(c)
    ensures Sound(id, Outcome(c), if c.taken < |c.sent| then c.(taken := c.taken + 1) else c, g)
  {
  }

  lemma ReceiveKeeps(s: State, id: int)
    requires Inv(s) && Enabled(s, Receive(id))
    ensures Inv(Received(s, id))
  {
    var s' := Received(s, id);
    forall i | i in s'.requests
      ensures SoundAt(s', i)
    {
      assert SoundAt(s, i);
      if i == id { ReceivedIsSound(id, Waiting, s.chans[id - 1], GripOn(s.pending, s.loop, id, id - 1)); }
    }
  }

  lemma DispatchKeeps(s: State, f: Frame)
    requires Inv(s) && s.loop.Reading?
    ensures Inv(Dispatched(s, f))
  {
    var s' := Dispatched(s, f);
    forall i | i in s'.requests
      ensures SoundAt(s', i)
    {
      assert SoundAt(s, i);
    }
  }

  lemma PutKeeps(s: State)
    requires Inv(s) && Enabled(s, Put)
    ensures Inv(After(s, Put))
  {
    var s' := After(s, Put);
    forall i | i in s'.requests
      ensures SoundAt(s', i)
    {
      assert SoundAt(s, i);
    }
  }

  lemma SealKeeps(s: State)
    requires Inv(s) && Enabled(s, Seal)
    ensures Inv(After(s, Seal))
  {
    var s' := After(s, Seal);
    forall i | i in s'.requests
      ensures SoundAt(s', i)
    {
      assert SoundAt(s, i);
    }
  }

  lemma LinkLostKeeps(s: State)
    requires Inv(s) && s.loop.Reading?
    ensures Inv(After(s, LinkLost))
  {
    var s' := After(s, LinkLost);
    forall i | i in s'.requests
      ensures SoundAt(s', i)
    {
      assert SoundAt(s, i);
    }
  }

  lemma CloseOneKeeps(s: State, ch: nat)
    requires Inv(s) && Enabled(s, CloseOne(ch))
    ensures Inv(After(s, CloseOne(ch)))
  {
    var s' := After(s, CloseOne(ch));
    forall i | i in s'.requests
      ensures SoundAt(s', i)
    {
      assert SoundAt(s, i);
    }
  }

  lemma OthersKeep(s: State, step: Step)
    requires Inv(s) && Enabled(s, step) && (step.Exit? || step.Close?)
    ensures Inv(After(s, step))
  {
    var s' := After(s, step);
    forall i | i in s'.requests
      ensures SoundAt(s', i)
    {
      assert SoundAt(s, i);
    }
  }

  lemma StepKeeps(s: State, step: Step)
    requires Inv(s) && Enabled(s, step)
    ensures Inv(After(s, step))
  {
    match step
    case Begin => BeginKeeps(s);
    case WriteOk(id) => WriteOkKeeps(s, id);
    case WriteFail(id) => GiveUpKeeps(s, id, WriteFailed);
    case Cancel(id) => GiveUpKeeps(s, id, Cancelled);
    case Receive(id) => ReceiveKeeps(s, id);
    case Dispatch(f) => DispatchKeeps(s, f);
    case Put => PutKeeps(s);
    case Seal => SealKeeps(s);
    case LinkLost => LinkLostKeeps(s);
    case CloseOne(ch) => CloseOneKeeps(s, ch);
    case Exit => OthersKeep(s, step);
    case Close => OthersKeep(s, step);
  }
}
