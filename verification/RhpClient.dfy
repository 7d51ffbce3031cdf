/** The RHPv2 client: the lock-protected sections and channel operations of its goroutines, each one
    atomic step of the request protocol. */
module RhpClients {
  import opened RhpSpec

  class Client {
    var nextId: nat
    var pending: map<int, nat>
    var chans: seq<Chan>
    var closed: bool

    /** Where each requester and the read loop are. */
    ghost var requests: map<int, Request>
    ghost var loop: Loop

    ghost function State(): RhpSpec.State
      reads this
    {
      RhpSpec.State(nextId, requests, pending, chans, closed, loop)
    }

    ghost predicate Valid()
      reads this
    {
      Inv(State())
    }

    constructor ()
      ensures Valid() && State() == Start()
    {
      nextId, pending, chans, closed := 0, map[], [], false;
      requests, loop := map[], Reading;
    }

    /** A request takes the next id and a channel of its own, unless the client is closed. */
    method BeginRequest() returns (ok: bool, id: int, ch: nat)
      requires Valid()
      modifies this
      ensures Valid() && State() == After(old(State()), Begin) && ok == !old(closed)
      ensures ok ==> id !in old(requests) && id in pending && ch == pending[id] && forall i :: i in old(pending) ==> old(pending)[i] != ch
    {
      StepKeeps(State(), Begin);
      if closed { return false, 0, 0; }
      nextId := nextId + 1;
      id, ch := nextId, |chans|;
      chans := chans + [Chan([], 0, 0)];
      pending := pending[id := ch];
      requests := requests[id := Request(ch, Writing)];
      return true, id, ch;
    }

    method RequestWritten(ghost id: int)
      requires Valid() && Enabled(State(), WriteOk(id))
      modifies this`requests
      ensures Valid() && State() == After(old(State()), WriteOk(id))
    {
      StepKeeps(State(), WriteOk(id));
      requests := requests[id := requests[id].(phase := Waiting)];
    }

    /** The request could not be written, or its context ended first: it is forgotten. */
    method Abandon(id: int, written: bool)
      requires Valid() && Enabled(State(), if written then Cancel(id) else WriteFail(id))
      modifies this
      ensures Valid() && State() == After(old(State()), if written then Cancel(id) else WriteFail(id))
    {
      StepKeeps(State(), if written then Cancel(id) else WriteFail(id));
      pending := pending - {id};
      requests := requests[id := requests[id].(phase := if written then Cancelled else WriteFailed)];
    }

    /** The requester's side of its channel: the reply, or nothing when the link was lost. */
    method AwaitReply(id: int, ch: nat) returns (reply: seq<Frame>)
      requires Valid() && Enabled(State(), Receive(id)) && ch == requests[id].chan
      modifies this
      ensures Valid() && State() == After(old(State()), Receive(id))
      ensures requests[id].phase == if reply == [] then Lost else Answered(reply[0])
      ensures reply != [] ==> |reply| == 1 && Answers(reply[0], id)
    {
      StepKeeps(State(), Receive(id));
      assert SoundAt(State(), id);
      var c := chans[ch];
      ghost var out := Outcome(c);
      if c.taken < |c.sent| {
        reply := [c.sent[c.taken]];
        chans := chans[ch := c.(taken := c.taken + 1)];
      } else {
        reply := [];
      }
      requests := requests[id := requests[id].(phase := out)];
    }

    /** Routes a frame: a reply takes its waiter's channel out of the table, exactly once. */
    method DispatchFrame(f: Frame) returns (found: bool, ch: nat)
      requires Valid() && loop.Reading?
      modifies this
      ensures Valid() && State() == After(old(State()), Dispatch(f))
      ensures found == (f.hasId && f.id in old(pending))
      ensures found ==> loop == Putting(ch, f) && ch == old(pending)[f.id] && f.id !in pending
    {
      StepKeeps(State(), Dispatch(f));
      if !f.hasId || f.id !in pending { return false, 0; }
      ch := pending[f.id];
      pending := pending - {f.id};
      loop := Putting(ch, f);
      return true, ch;
    }

    /** Hands the reply over. The put never waits and the channel is open: see LoopNeverBlocksOrPanics. */
    method PutReply(ch: nat, f: Frame)
      requires Valid() && loop == Putting(ch, f) && Enabled(State(), Put)
      modifies this`chans, this`loop
      ensures Valid() && State() == After(old(State()), Put)
    {
      StepKeeps(State(), Put);
      chans := chans[ch := chans[ch].(sent := chans[ch].sent + [f])];
      loop := Sealing(ch, f);
    }

    method SealReply(ch: nat, ghost f: Frame)
      requires Valid() && loop == Sealing(ch, f)
      modifies this`chans, this`loop
      ensures Valid() && State() == After(old(State()), Seal)
    {
      StepKeeps(State(), Seal);
      chans := chans[ch := chans[ch].(closes := chans[ch].closes + 1)];
      loop := Reading;
    }

    /** The locked part of the read loop's exit: everything pending is taken out of the table. */
    method TakePending() returns (left: set<nat>)
      requires Valid() && loop.Reading?
      modifies this
      ensures Valid() && State() == After(old(State()), LinkLost) && left == WaitersOf(old(pending))
    {
      StepKeeps(State(), LinkLost);
      left := set id | id in pending :: pending[id];
      pending, closed := map[], true;
      loop := Closing(left);
    }

    method CloseWaiter(ch: nat, ghost left: set<nat>)
      requires Valid() && loop == Closing(left) && ch in left
      modifies this`chans, this`loop
      ensures Valid() && ch < |old(chans)| && State() == After(old(State()), CloseOne(ch))
      ensures loop == Closing(left - {ch}) && chans == old(chans)[ch := old(chans)[ch].(closes := old(chans)[ch].closes + 1)]
    {
      StepKeeps(State(), CloseOne(ch));
      chans := chans[ch := chans[ch].(closes := chans[ch].closes + 1)];
      loop := Closing(left - {ch});
    }

    method CloseWaiters(waiters: set<nat>)
      requires Valid() && loop == Closing(waiters) && Drained(chans, chans, waiters, waiters)
      modifies this`chans, this`loop
      ensures Valid() && loop == Closing({}) && Drained(old(chans), chans, waiters, {})
    {
      var left := waiters;
      while left != {}
        invariant Valid() && loop == Closing(left)
        invariant left <= waiters && Drained(old(chans), chans, waiters, left)
        decreases left
      {
        var ch :| ch in left;
        DrainOne(old(chans), chans, waiters, left, ch);
        CloseWaiter(ch, left);
        left := left - {ch};
      }
    }

    /** The read loop's exit, undisturbed: every channel that was pending ends up closed and empty,
        and no other channel is touched. */
    method Teardown()
      requires Valid() && loop.Reading?
      modifies this
      ensures Valid() && loop.Exited? && closed && pending == map[] && requests == old(requests) && nextId == old(nextId)
      ensures Drained(old(chans), chans, WaitersOf(old(pending)), {})
    {
      WaitersAreFresh(State());
      var left := TakePending();
      CloseWaiters(left);
      StepKeeps(State(), Exit);
      loop := Exited;
    }

    method CloseClient()
      requires Valid()
      modifies this`closed
      ensures Valid() && State() == After(old(State()), Close)
    {
      StepKeeps(State(), Close);
      if closed { return; }
      closed := true;
    }
  }

  function WaitersOf(pending: map<int, nat>): set<nat> { set id | id in pending :: pending[id] }

  /** The channels of `was` outside `left` are closed; nothing else has changed. */
  ghost predicate Drained(before: seq<Chan>, now: seq<Chan>, was: set<nat>, left: set<nat>) {
    && |now| == |before|
    && (forall c :: c in was ==> c < |before| && before[c] == Chan([], 0, 0))
    && forall c :: 0 <= c < |now| ==> now[c] == if c in was && c !in left then Chan([], 0, 1) else before[c]
  }

  lemma DrainOne(before: seq<Chan>, now: seq<Chan>, was: set<nat>, left: set<nat>, ch: nat)
    requires left <= was && ch in left && Drained(before, now, was, left)
    ensures ch < |now|
    ensures Drained(before, now[ch := now[ch].(closes := now[ch].closes + 1)], was, left - {ch})
  {
  }

  lemma WaitersAreFresh(s: State)
    requires Inv(s)
    ensures Drained(s.chans, s.chans, WaitersOf(s.pending), WaitersOf(s.pending))
  {
    forall c | c in WaitersOf(s.pending)
      ensures c < |s.chans| && s.chans[c] == Chan([], 0, 0)
    {
      var id :| id in s.pending && s.pending[id] == c;
      assert SoundAt(s, id);
    }
  }
}
