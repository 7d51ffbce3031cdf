/** What happened to a request, read off the steps of the run. */
module RhpHistory {
  import opened RhpSpec
  import opened RhpRuns

  // ---- ids ----

  predicate Shuts(step: Step) { step.Close? || step.LinkLost? }

  /** How many requests were begun before the client was closed or lost its link. */
  function BegunInTime(steps: seq<Step>): nat {
    if steps == [] || Shuts(steps[0]) then 0 else (if steps[0].Begin? then 1 else 0) + BegunInTime(steps[1..])
  }

  lemma {:induction false} IdsStopWhenShut(s: State, steps: seq<Step>)
    requires Runs(s, steps)
    ensures
      var s' := Final(s, steps);
      && s'.nextId == s.nextId + (if s.closed then 0 else BegunInTime(steps))
      && (s'.closed <==> s.closed || exists i :: 0 <= i < |steps| && Shuts(steps[i]))
    decreases |steps|
  {
    if steps != [] {
      IdsStopWhenShut(After(s, steps[0]), steps[1..]);
      assert forall i :: 0 < i < |steps| ==> steps[i] == steps[1..][i - 1];
    }
  }

  /** In every run the ids issued are 1, 2 and so on, one for each request begun before the first close
      or link loss; none is issued after it. */
  lemma NoIdAfterClose(steps: seq<Step>, id: int)
    requires Runs(Start(), steps)
    ensures id in Final(Start(), steps).requests <==> 1 <= id <= BegunInTime(steps)
  {
    IdsStopWhenShut(Start(), steps);
    RunKeeps(Start(), steps);
  }

  // ---- outcomes ----

  /** A channel that was closed without a reply was closed for the lost link. */
  predicate ChanCaused(c: Chan, past: seq<Step>) {
    c.closes > 0 && c.sent == [] ==> LinkLost in past
  }

  /** Where a request is says which of its steps were taken. */
  predicate PhaseCaused(id: int, p: Phase, past: seq<Step>) {
    && (WriteOk(id) in past <==> !p.Writing? && !p.WriteFailed?)
    && (WriteFail(id) in past <==> p.WriteFailed?)
    && (Cancel(id) in past <==> p.Cancelled?)
    && (Receive(id) in past <==> p.Answered? || p.Lost?)
    && (p.Lost? ==> LinkLost in past)
  }

  /** No step was taken for an id that was not issued. */
  predicate Untouched(id: int, past: seq<Step>) {
    WriteOk(id) !in past && WriteFail(id) !in past && Cancel(id) !in past && Receive(id) !in past
  }

  predicate CausedAt(s: State, id: int, past: seq<Step>) {
    if id in s.requests then PhaseCaused(id, s.requests[id].phase, past) else Untouched(id, past)
  }

  ghost predicate Caused(s: State, past: seq<Step>) {
    && (forall id :: CausedAt(s, id, past))
    && (forall i :: 0 <= i < |s.chans| ==> ChanCaused(s.chans[i], past))
    && (s.loop.Closing? || s.loop.Exited? ==> LinkLost in past)
  }

  lemma LoopStepCaused(s: State, step: Step, past: seq<Step>)
    requires Inv(s) && Enabled(s, step) && Caused(s, past)
    ensures
      var s', now := After(s, step), past + [step];
      && (forall i :: 0 <= i < |s'.chans| ==> ChanCaused(s'.chans[i], now))
      && (s'.loop.Closing? || s'.loop.Exited? ==> LinkLost in now)
  {
    var s', now := After(s, step), past + [step];
    assert now[|past|] == step;
    forall i | 0 <= i < |s'.chans|
      ensures ChanCaused(s'.chans[i], now)
    {
      if i < |s.chans| {
        assert ChanCaused(s.chans[i], past);
        assert SoundAt(s, i + 1);
      }
    }
  }

  lemma RequestStepCaused(s: State, step: Step, past: seq<Step>, id: int)
    requires Inv(s) && Enabled(s, step) && Caused(s, past)
    ensures CausedAt(After(s, step), id, past + [step])
  {
    assert CausedAt(s, id, past);
    assert (past + [step])[|past|] == step;
    if id in s.requests {
      assert SoundAt(s, id);
      assert ChanCaused(s.chans[id - 1], past);
    }
  }

  lemma {:induction false} RunCaused(s: State, past: seq<Step>, steps: seq<Step>)
    requires Inv(s) && Caused(s, past) && Runs(s, steps)
    ensures Caused(Final(s, steps), past + steps)
    decreases |steps|
  {
    if steps == [] {
      assert past + steps == past;
    } else {
      StepKeeps(s, steps[0]);
      LoopStepCaused(s, steps[0], past);
      forall id
        ensures CausedAt(After(s, steps[0]), id, past + [steps[0]])
      {
        RequestStepCaused(s, steps[0], past, id);
      }
      RunCaused(After(s, steps[0]), past + [steps[0]], steps[1..]);
      assert past + steps == past + [steps[0]] + steps[1..];
    }
  }

  /** In every run a request is cancelled exactly when it was cancelled, failed to write exactly when its
      write failed, waits only once it was written, and is lost only if it found its channel closed after
      the link was lost; an answer was received under its id. */
  lemma OutcomesHaveCauses(steps: seq<Step>, id: int)
    requires Runs(Start(), steps) && id in Final(Start(), steps).requests
    ensures
      var p := Final(Start(), steps).requests[id].phase;
      && (p.Cancelled? <==> Cancel(id) in steps)
      && (p.WriteFailed? <==> WriteFail(id) in steps)
      && (p.Waiting? <==> WriteOk(id) in steps && Cancel(id) !in steps && Receive(id) !in steps)
      && (p.Answered? || p.Lost? <==> Receive(id) in steps)
      && (p.Lost? ==> LinkLost in steps)
      && (p.Answered? ==> Dispatch(p.reply) in steps && Answers(p.reply, id))
  {
    assert Caused(Start(), []);
    RunCaused(Start(), [], steps);
    assert [] + steps == steps;
    AnswersComeFromTheServer(steps, id);
    assert CausedAt(Final(Start(), steps), id, steps);
  }

  /** A push, or a reply nobody waits for, changes nothing. */
  lemma StrayFramesChangeNothing(s: State, f: Frame)
    requires s.loop.Reading?
    ensures After(s, Dispatch(f)) == s <==> !f.hasId || f.id !in s.pending
  {
  }
}
