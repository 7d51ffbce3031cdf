/** What every interleaving of requests, replies, cancellations, write failures and link loss keeps. */
module RhpRuns {
  import opened RhpSpec

  /** The steps can be taken one after another. */
  ghost predicate Runs(s: State, steps: seq<Step>)
    decreases |steps|
  {
    steps == [] || (Enabled(s, steps[0]) && Runs(After(s, steps[0]), steps[1..]))
  }

  ghost function Final(s: State, steps: seq<Step>): State
    requires Runs(s, steps)
    decreases |steps|
  {
    if steps == [] then s else Final(After(s, steps[0]), steps[1..])
  }

  lemma {:induction false} RunKeeps(s: State, steps: seq<Step>)
    requires Inv(s) && Runs(s, steps)
    ensures Inv(Final(s, steps))
    decreases |steps|
  {
    if steps != [] {
      StepKeeps(s, steps[0]);
      RunKeeps(After(s, steps[0]), steps[1..]);
    }
  }

  // ---- conservation ----

  predicate Finished(p: Phase) { !p.Writing? && !p.Waiting? }

  datatype Fate = InFlight | GotReply | GotCancelled | NotWritten | GotLost

  function FateOf(p: Phase): Fate {
    match p
    case Writing => InFlight
    case Waiting => InFlight
    case Answered(_) => GotReply
    case Cancelled => GotCancelled
    case WriteFailed => NotWritten
    case Lost => GotLost
  }

  function Ids(r: map<int, Request>, f: Fate): set<int> { set id | id in r && FateOf(r[id].phase) == f }

  lemma {:induction false} IdsUpTo(keys: set<int>, n: nat)
    requires forall id :: id in keys <==> 1 <= id <= n
    ensures |keys| == n
  {
    if n == 0 {
      assert forall id :: id in keys ==> 1 <= id <= 0;
      assert keys == {};
    } else {
      IdsUpTo(keys - {n}, n - 1);
    }
  }

  /** A channel is written at most once, with the reply to its own request, and closed at most once. */
  predicate OnceEach(s: State, id: int)
    requires HasChan(s, id)
  {
    var c := s.chans[s.requests[id].chan];
    && |c.sent| <= 1 && c.closes <= 1 && (forall i :: 0 <= i < |c.sent| ==> Answers(c.sent[i], id))
    && (s.requests[id].phase.Answered? ==> c.sent == [s.requests[id].phase.reply])
    && (s.requests[id].phase.Lost? ==> c.sent == [])
  }

  lemma FateIsOneOf(r: map<int, Request>)
    ensures r.Keys == Ids(r, InFlight) + Ids(r, GotReply) + Ids(r, GotCancelled) + Ids(r, NotWritten) + Ids(r, GotLost)
  {
    forall id | id in r
      ensures id in Ids(r, FateOf(r[id].phase))
    {
    }
  }

  lemma FatesExclude(r: map<int, Request>, f: Fate, g: Fate)
    requires f != g
    ensures Ids(r, f) !! Ids(r, g)
  {
    forall id | id in Ids(r, f)
      ensures id !in Ids(r, g)
    {
    }
  }

  lemma SizesAdd(a: set<int>, b: set<int>, c: set<int>, d: set<int>, e: set<int>)
    requires a !! b !! c !! d !! e
    ensures |a + b + c + d + e| == |a| + |b| + |c| + |d| + |e|
  {
    assert |a + b| == |a| + |b|;
    assert |a + b + c| == |a + b| + |c|;
    assert |a + b + c + d| == |a + b + c| + |d|;
    assert |a + b + c + d + e| == |a + b + c + d| + |e|;
  }

  function Total(r: map<int, Request>): nat {
    |Ids(r, InFlight)| + |Ids(r, GotReply)| + |Ids(r, GotCancelled)| + |Ids(r, NotWritten)| + |Ids(r, GotLost)|
  }

  lemma FatesPartition(r: map<int, Request>)
    ensures |r.Keys| == Total(r)
  {
    FateIsOneOf(r);
    forall f: Fate, g: Fate | f != g
      ensures Ids(r, f) !! Ids(r, g)
    {
      FatesExclude(r, f, g);
    }
    SizesAdd(Ids(r, InFlight), Ids(r, GotReply), Ids(r, GotCancelled), Ids(r, NotWritten), Ids(r, GotLost));
  }

  /** Someone will see to it: a pending request is in flight; and one in flight that is no longer
      pending has its channel in the read loop's hands, or closed already. */
  ghost predicate LookedAfter(s: State, id: int)
    requires HasChan(s, id)
  {
    var p, ch := s.requests[id].phase, s.requests[id].chan;
    && (id in s.pending ==> FateOf(p) == InFlight && s.pending[id] == ch)
    && (FateOf(p) == InFlight && id !in s.pending ==>
          || (s.loop.Putting? && s.loop.chan == ch) || (s.loop.Sealing? && s.loop.chan == ch)
          || (s.loop.Closing? && ch in s.loop.left) || s.chans[ch].closes == 1)
  }

  /** Every id ever issued is accounted for, and each channel serves one request, once. */
  ghost predicate Accounted(s: State) {
    && s.nextId == Total(s.requests)
    && (forall id :: 1 <= id <= s.nextId ==> HasChan(s, id) && LookedAfter(s, id))
    && (forall id :: 1 <= id <= s.nextId ==> HasChan(s, id) && OnceEach(s, id))
    && (forall i, j :: i in s.requests && j in s.requests && s.requests[i].chan == s.requests[j].chan ==> i == j)
  }

  lemma SoundMeansOnce(s: State, id: int)
    requires Inv(s) && 1 <= id <= s.nextId
    ensures HasChan(s, id) && OnceEach(s, id) && LookedAfter(s, id)
  {
    assert SoundAt(s, id);
  }

  lemma InvMeansAccounted(s: State)
    requires Inv(s)
    ensures Accounted(s)
  {
    IdsUpTo(s.requests.Keys, s.nextId);
    FatesPartition(s.requests);
    forall id | 1 <= id <= s.nextId
      ensures HasChan(s, id) && OnceEach(s, id) && LookedAfter(s, id)
    {
      SoundMeansOnce(s, id);
    }
  }

  /** In every run, every id ever issued is accounted for exactly once: in flight, answered,
      cancelled, failed to write, or lost. Its channel is its own, and while it is in flight somebody
      holds it. */
  lemma EveryRequestIsAccountedFor(steps: seq<Step>)
    requires Runs(Start(), steps)
    ensures Accounted(Final(Start(), steps))
  {
    RunKeeps(Start(), steps);
    InvMeansAccounted(Final(Start(), steps));
  }

  /** The read loop never blocks and never misuses a channel: whatever it is about to do can be
      done, on a channel that is still open. */
  lemma LoopNeverBlocksOrPanics(steps: seq<Step>)
    requires Runs(Start(), steps)
    ensures
      var s := Final(Start(), steps);
      match s.loop
      case Reading => true
      case Putting(c, _) => Enabled(s, Put) && s.chans[c].closes == 0
      case Sealing(c, _) => Enabled(s, Seal) && s.chans[c].closes == 0
      case Closing(left) => forall c :: c in left ==> Enabled(s, CloseOne(c)) && s.chans[c].closes == 0
      case Exited => true
  {
    RunKeeps(Start(), steps);
    var s := Final(Start(), steps);
    match s.loop
    case Putting(c, _) => assert SoundAt(s, c + 1);
    case Sealing(c, _) => assert SoundAt(s, c + 1);
    case Closing(left) =>
      forall c | c in left
        ensures Enabled(s, CloseOne(c)) && s.chans[c].closes == 0
      {
        assert SoundAt(s, c + 1);
      }
    case _ =>
  }

  // ---- nothing is undone ----

  lemma {:induction false} OutcomesAreFinal(s: State, steps: seq<Step>, id: int)
    requires Inv(s) && Runs(s, steps) && id in s.requests
    ensures
      var s' := Final(s, steps);
      && s.nextId <= s'.nextId && id in s'.requests && s'.requests[id].chan == s.requests[id].chan
      && (Finished(s.requests[id].phase) ==> s'.requests[id] == s.requests[id])
    decreases |steps|
  {
    if steps != [] {
      StepKeeps(s, steps[0]);
      OutcomesAreFinal(After(s, steps[0]), steps[1..], id);
    }
  }

  // ---- replies ----

  /** Reply `f` has been taken for request `id`: it is on its way into the channel, or there. */
  predicate Owed(s: State, id: int, f: Frame) {
    && 1 <= id <= |s.chans|
    && (s.chans[id - 1].sent == [f] || s.loop == Putting(id - 1, f))
  }

  lemma OwedStays(s: State, step: Step, id: int, f: Frame)
    requires Inv(s) && Enabled(s, step) && Owed(s, id, f)
    ensures Owed(After(s, step), id, f)
  {
    assert SoundAt(s, id);
  }

  lemma {:induction false} OwedThroughout(s: State, steps: seq<Step>, id: int, f: Frame)
    requires Inv(s) && Runs(s, steps) && Owed(s, id, f)
    ensures Owed(Final(s, steps), id, f)
    decreases |steps|
  {
    if steps != [] {
      StepKeeps(s, steps[0]);
      OwedStays(s, steps[0], id, f);
      OwedThroughout(After(s, steps[0]), steps[1..], id, f);
    }
  }

  /** A reply that finds its request pending is that request's answer, whatever happens next: unless
      the requester gives up, it can only be answered, and only with this reply, even if the link
      is then lost. */
  lemma ReplyDecidesRequest(s: State, f: Frame, steps: seq<Step>)
    requires Inv(s) && s.loop.Reading? && f.hasId && f.id in s.pending
    requires Runs(After(s, Dispatch(f)), steps)
    ensures
      var s' := Final(After(s, Dispatch(f)), steps);
      && f.id in s'.requests
      && var p := s'.requests[f.id].phase;
      && (Finished(p) && !GaveUp(p) ==> p == Answered(f))
      && (p.Waiting? && Enabled(s', Receive(f.id)) ==> After(s', Receive(f.id)).requests[f.id].phase == Answered(f))
  {
    var s1 := After(s, Dispatch(f));
    StepKeeps(s, Dispatch(f));
    OwedThroughout(s1, steps, f.id, f);
    OutcomesAreFinal(s1, steps, f.id);
    RunKeeps(s1, steps);
    assert SoundAt(Final(s1, steps), f.id);
  }

  /** Everything in a channel or on its way there was dispatched in the run. */
  ghost predicate FromFrames(s: State, dispatched: set<Frame>) {
    && (forall i :: 0 <= i < |s.chans| ==> forall f :: f in s.chans[i].sent ==> f in dispatched)
    && (s.loop.Putting? ==> s.loop.reply in dispatched)
  }

  function FramesOf(steps: seq<Step>): set<Frame> {
    set i | 0 <= i < |steps| && steps[i].Dispatch? :: steps[i].frame
  }

  lemma FramesOneMore(s: State, step: Step, dispatched: set<Frame>)
    requires Enabled(s, step) && FromFrames(s, dispatched)
    ensures FromFrames(After(s, step), dispatched + FramesOf([step]))
  {
    assert step.Dispatch? ==> [step][0].frame in FramesOf([step]);
  }

  lemma {:induction false} RunFromFrames(s: State, steps: seq<Step>, before: set<Frame>)
    requires Runs(s, steps) && FromFrames(s, before)
    ensures FromFrames(Final(s, steps), before + FramesOf(steps))
    decreases |steps|
  {
    if steps == [] {
      assert before + FramesOf(steps) == before;
    } else {
      FramesOneMore(s, steps[0], before);
      RunFromFrames(After(s, steps[0]), steps[1..], before + FramesOf([steps[0]]));
      FramesSplit(steps);
      assert before + FramesOf([steps[0]]) + FramesOf(steps[1..]) == before + FramesOf(steps);
    }
  }

  lemma FramesSplit(steps: seq<Step>)
    requires steps != []
    ensures FramesOf(steps) == FramesOf([steps[0]]) + FramesOf(steps[1..])
  {
    forall f | f in FramesOf(steps)
      ensures f in FramesOf([steps[0]]) + FramesOf(steps[1..])
    {
      var i :| 0 <= i < |steps| && steps[i].Dispatch? && steps[i].frame == f;
      assert i > 0 ==> steps[1..][i - 1] == steps[i];
      assert i == 0 ==> [steps[0]][0] == steps[i];
    }
    forall f | f in FramesOf(steps[1..])
      ensures f in FramesOf(steps)
    {
      var i :| 0 <= i < |steps[1..]| && steps[1..][i].Dispatch? && steps[1..][i].frame == f;
      assert steps[i + 1] == steps[1..][i];
    }
  }

  /** An answer was received from the server, under the id of the request that got it. */
  lemma AnswersComeFromTheServer(steps: seq<Step>, id: int)
    requires Runs(Start(), steps) && id in Final(Start(), steps).requests
    ensures
      var p := Final(Start(), steps).requests[id].phase;
      p.Answered? ==> p.reply in FramesOf(steps) && Answers(p.reply, id)
  {
    RunKeeps(Start(), steps);
    RunFromFrames(Start(), steps, {});
    var s := Final(Start(), steps);
    assert SoundAt(s, id);
    assert s.requests[id].phase.Answered? ==> s.requests[id].phase.reply in s.chans[s.requests[id].chan].sent;
  }

  // ---- link loss ----

  /** How many steps the requests up to `n` still have to take. */
  function ToDo(requests: map<int, Request>, n: nat): nat {
    if n == 0 then 0
    else ToDo(requests, n - 1) + if n !in requests then 0 else
      match requests[n].phase
      case Writing => 2
      case Waiting => 1
      case _ => 0
  }

  lemma {:induction false} ToDoChanges(r: map<int, Request>, r': map<int, Request>, n: nat, id: int)
    requires id in r && id in r' && r' == r[id := r'[id]]
    requires 1 <= id <= n
    ensures ToDo(r', n) - ToDo(r, n) == ToDo(map[1 := r'[id]], 1) - ToDo(map[1 := r[id]], 1)
  {
    if n == id {
      ToDoSame(r, r', n - 1, id);
      assert ToDo(map[1 := r'[id]], 0) == 0 == ToDo(map[1 := r[id]], 0);
    } else {
      ToDoChanges(r, r', n - 1, id);
      assert n in r <==> n in r';
    }
  }

  lemma {:induction false} ToDoSame(r: map<int, Request>, r': map<int, Request>, n: nat, id: int)
    requires id in r && id in r' && r' == r[id := r'[id]] && n < id
    ensures ToDo(r', n) == ToDo(r, n)
  {
    if n > 0 {
      ToDoSame(r, r', n - 1, id);
      assert n in r <==> n in r';
    }
  }

  /** A requester's own step. */
  predicate OfRequester(step: Step) { step.WriteOk? || step.WriteFail? || step.Cancel? || step.Receive? }

  /** Once the read loop has gone, no id is issued and every requester can move on: a waiting one
      finds its channel readable. */
  lemma NobodyIsStuck(s: State, id: int)
    requires Inv(s) && s.loop.Exited? && id in s.requests
    ensures After(s, Begin) == s
    ensures s.requests[id].phase.Writing? ==> Enabled(s, WriteFail(id)) && Enabled(s, WriteOk(id))
    ensures s.requests[id].phase.Waiting? ==> Enabled(s, Receive(id))
  {
    assert SoundAt(s, id);
  }

  lemma ExitedStep(s: State, step: Step)
    requires Inv(s) && s.loop.Exited? && Enabled(s, step)
    ensures After(s, step).loop.Exited? && After(s, step).nextId == s.nextId
    ensures OfRequester(step) ==> ToDo(After(s, step).requests, s.nextId) < ToDo(s.requests, s.nextId)
    ensures !OfRequester(step) ==> After(s, step).requests == s.requests
  {
    if OfRequester(step) {
      ToDoChanges(s.requests, After(s, step).requests, s.nextId, step.id);
      var r, r' := s.requests[step.id], After(s, step).requests[step.id];
      assert ToDo(map[1 := r'], 0) == 0 == ToDo(map[1 := r], 0);
    }
  }

  function Own(steps: seq<Step>): nat {
    if steps == [] then 0 else (if OfRequester(steps[0]) then 1 else 0) + Own(steps[1..])
  }

  lemma {:induction false} ToDoBound(r: map<int, Request>, n: nat)
    ensures ToDo(r, n) <= 2 * n
  {
    if n > 0 { ToDoBound(r, n - 1); }
  }

  lemma {:induction false} ExitedRun(s: State, steps: seq<Step>)
    requires Inv(s) && s.loop.Exited? && Runs(s, steps)
    ensures
      var s' := Final(s, steps);
      && Inv(s') && s'.loop.Exited? && s'.nextId == s.nextId
      && Own(steps) + ToDo(s'.requests, s.nextId) <= ToDo(s.requests, s.nextId)
    decreases |steps|
  {
    if steps != [] {
      StepKeeps(s, steps[0]);
      ExitedStep(s, steps[0]);
      ExitedRun(After(s, steps[0]), steps[1..]);
    }
  }

  // ---- the loop's own exit ----

  predicate OfLoop(step: Step) { step.CloseOne? || step.Exit? }

  /** How many steps the loop has left to take once the link is lost. */
  function LoopRank(l: Loop): nat {
    match l
    case Closing(left) => |left| + 1
    case _ => 0
  }

  predicate Leaving(l: Loop) { l.Closing? || l.Exited? }

  function LoopSteps(steps: seq<Step>): nat {
    if steps == [] then 0 else (if OfLoop(steps[0]) then 1 else 0) + LoopSteps(steps[1..])
  }

  lemma LeavingStep(s: State, step: Step)
    requires Inv(s) && Leaving(s.loop) && Enabled(s, step)
    ensures Leaving(After(s, step).loop)
    ensures LoopRank(After(s, step).loop) == LoopRank(s.loop) - if OfLoop(step) then 1 else 0
  {
  }

  /** Until it has exited, the loop can always take its next step. */
  lemma LoopCanLeave(s: State)
    requires Inv(s) && s.loop.Closing?
    ensures s.loop.left == {} ==> Enabled(s, Exit)
    ensures forall c :: c in s.loop.left ==> Enabled(s, CloseOne(c))
  {
  }

  /** After link loss the read loop is gone in one step for every channel that was pending and one
      more, in whatever order and however the requesters' steps fall in between. */
  lemma {:induction false} LoopLeaves(s: State, steps: seq<Step>)
    requires Inv(s) && Leaving(s.loop) && Runs(s, steps)
    ensures
      var s' := Final(s, steps);
      && Inv(s') && Leaving(s'.loop) && LoopSteps(steps) + LoopRank(s'.loop) == LoopRank(s.loop)
      && (s'.loop.Exited? <==> LoopSteps(steps) == LoopRank(s.loop))
      && (s'.loop.Closing? ==> exists step :: OfLoop(step) && Enabled(s', step))
    decreases |steps|
  {
    if steps == [] {
      if s.loop.Closing? {
        LoopCanLeave(s);
        if s.loop.left == {} {
          assert OfLoop(Exit) && Enabled(s, Exit);
        } else {
          var c :| c in s.loop.left;
          assert OfLoop(CloseOne(c)) && Enabled(s, CloseOne(c));
        }
      }
    } else {
      StepKeeps(s, steps[0]);
      LeavingStep(s, steps[0]);
      LoopLeaves(After(s, steps[0]), steps[1..]);
    }
  }

  /** No requester can take a step. */
  ghost predicate AtRest(s: State) { forall step :: OfRequester(step) ==> !Enabled(s, step) }

  lemma AtRestMeansFinished(s: State)
    requires Inv(s) && s.loop.Exited? && AtRest(s)
    ensures Ids(s.requests, InFlight) == {}
  {
    forall id | id in s.requests
      ensures FateOf(s.requests[id].phase) != InFlight
    {
      NobodyIsStuck(s, id);
      assert OfRequester(WriteOk(id)) && OfRequester(Receive(id));
    }
    assert forall id :: id !in Ids(s.requests, InFlight);
  }

  /** After link loss every request ends: the requesters take at most two steps each, and when none
      of them can take another, none is left waiting. */
  lemma LinkLossReleasesEveryone(before: seq<Step>, after: seq<Step>)
    requires Runs(Start(), before) && Final(Start(), before).loop.Exited?
    requires Runs(Final(Start(), before), after)
    ensures
      var s, s' := Final(Start(), before), Final(Final(Start(), before), after);
      && s'.nextId == s.nextId && Own(after) <= 2 * s.nextId
      && (AtRest(s') ==> Ids(s'.requests, InFlight) == {})
  {
    var s := Final(Start(), before);
    RunKeeps(Start(), before);
    ExitedRun(s, after);
    ToDoBound(s.requests, s.nextId);
    if AtRest(Final(s, after)) { AtRestMeansFinished(Final(s, after)); }
  }
}
