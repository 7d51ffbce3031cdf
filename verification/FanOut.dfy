/** The hub's event fan-out: one bounded channel per subscriber, non-blocking sends. */
module FanOuts {

  /** How far a subscriber may fall behind before events are dropped for it. */
  const SUB_BUFFER: nat := 256

  /** A buffered channel: what is queued, and whether it has been closed. */
  datatype Chan<T> = Chan(queue: seq<T>, closed: bool)

  /** `subs` are the registered subscribers; a cancelled channel outlives its registration,
      since its reader may still drain it. */
  datatype Bus<T> = Bus(nextSub: nat, subs: set<nat>, chans: map<nat, Chan<T>>)

  /** Registered channels exist and are open; ids are never handed out twice. */
  predicate ValidBus<T>(b: Bus<T>) {
    && (forall id :: id in b.chans ==> id < b.nextSub)
    && (forall id :: id in b.subs ==> id in b.chans && !b.chans[id].closed)
  }

  function Subscribed<T>(b: Bus<T>): Bus<T> {
    Bus(b.nextSub + 1, b.subs + {b.nextSub}, b.chans[b.nextSub := Chan([], false)])
  }

  function Cancelled<T>(b: Bus<T>, id: nat): Bus<T>
    requires ValidBus(b)
  {
    if id in b.subs then
      Bus(b.nextSub, b.subs - {id}, b.chans[id := b.chans[id].(closed := true)])
    else b
  }

  /** One non-blocking send: dropped when the buffer is full. */
  function Offer<T>(queue: seq<T>, e: T): seq<T> {
    if |queue| < SUB_BUFFER then queue + [e] else queue
  }

  function OfferAll<T>(queue: seq<T>, events: seq<T>): seq<T> {
    if events == [] then queue
    else Offer(OfferAll(queue, events[..|events| - 1]), events[|events| - 1])
  }

  /** One event offered to every subscriber. */
  function Emitted<T>(b: Bus<T>, e: T): (r: Bus<T>)
    ensures r.nextSub == b.nextSub && r.subs == b.subs && r.chans.Keys == b.chans.Keys
    ensures ValidBus(b) ==> ValidBus(r)
  {
    b.(chans := map id | id in b.chans ::
         if id in b.subs then b.chans[id].(queue := Offer(b.chans[id].queue, e)) else b.chans[id])
  }

  function EmittedAll<T>(b: Bus<T>, events: seq<T>): (r: Bus<T>)
    ensures r.nextSub == b.nextSub && r.subs == b.subs && r.chans.Keys == b.chans.Keys
    ensures ValidBus(b) ==> ValidBus(r)
  {
    if events == [] then b
    else Emitted(EmittedAll(b, events[..|events| - 1]), events[|events| - 1])
  }

  lemma EmittedLast<T>(b: Bus<T>, events: seq<T>, e: T)
    ensures EmittedAll(b, events + [e]) == Emitted(EmittedAll(b, events), e)
  {
    assert (events + [e])[..|events|] == events;
  }

  /** Two emissions in a row are one emission of both. */
  lemma {:induction false} EmittedTwice<T>(b: Bus<T>, first: seq<T>, second: seq<T>)
    ensures EmittedAll(EmittedAll(b, first), second) == EmittedAll(b, first + second)
  {
    if second == [] {
      assert first + second == first;
    } else {
      var init, e := second[..|second| - 1], second[|second| - 1];
      EmittedTwice(b, first, init);
      assert second == init + [e] && first + second == (first + init) + [e];
      EmittedLast(EmittedAll(b, first), init, e);
      EmittedLast(b, first + init, e);
    }
  }

  /** A receive takes the oldest queued event; on an empty channel nothing moves. */
  function Received<T>(b: Bus<T>, id: nat): Bus<T> {
    if id in b.chans && b.chans[id].queue != [] then
      b.(chans := b.chans[id := b.chans[id].(queue := b.chans[id].queue[1..])])
    else b
  }

  /** Event by event or channel by channel, an emission leaves the same queues. */
  lemma {:induction false} EmissionPerChannel<T>(b: Bus<T>, events: seq<T>, id: nat)
    requires id in b.chans
    ensures EmittedAll(b, events).chans[id]
         == if id in b.subs then b.chans[id].(queue := OfferAll(b.chans[id].queue, events)) else b.chans[id]
  {
    if events != [] {
      EmissionPerChannel(b, events[..|events| - 1], id);
    }
  }

  /** The channels after `events` have been offered to some of them. */
  function OfferedTo<T>(chans: map<nat, Chan<T>>, ids: set<nat>, events: seq<T>): map<nat, Chan<T>> {
    map id | id in chans ::
      if id in ids then chans[id].(queue := OfferAll(chans[id].queue, events)) else chans[id]
  }

  lemma OfferedToOneMore<T>(chans: map<nat, Chan<T>>, ids: set<nat>, events: seq<T>, id: nat)
    requires id in chans && id !in ids
    ensures
      var now := OfferedTo(chans, ids, events);
      now[id] == chans[id]
      && now[id := now[id].(queue := OfferAll(now[id].queue, events))] == OfferedTo(chans, ids + {id}, events)
  {
  }

  lemma EmissionIsOfferedTo<T>(b: Bus<T>, events: seq<T>)
    ensures EmittedAll(b, events).chans == OfferedTo(b.chans, b.subs, events)
  {
    forall id | id in b.chans
      ensures EmittedAll(b, events).chans[id] == OfferedTo(b.chans, b.subs, events)[id]
    {
      EmissionPerChannel(b, events, id);
    }
  }

  class FanOut<T> {
    var nextSub: nat
    var subs: set<nat>
    var chans: map<nat, Chan<T>>

    ghost function State(): Bus<T>
      reads this
    {
      Bus(nextSub, subs, chans)
    }

    ghost predicate Valid()
      reads this
    {
      ValidBus(State())
    }

    constructor ()
      ensures Valid() && State() == Bus(0, {}, map[])
    {
      nextSub, subs, chans := 0, {}, map[];
    }

    method Subscribe() returns (id: nat)
      requires Valid()
      modifies this
      ensures Valid() && State() == Subscribed(old(State()))
      ensures id == old(nextSub) && id !in old(chans)
    {
      id := nextSub;
      nextSub := nextSub + 1;
      subs := subs + {id};
      chans := chans[id := Chan([], false)];
    }

    method Cancel(id: nat)
      requires Valid()
      modifies this
      ensures Valid() && State() == Cancelled(old(State()), id)
    {
      if id in subs {
        subs := subs - {id};
        chans := chans[id := chans[id].(closed := true)];
      }
    }

    method Emit(events: seq<T>)
      requires Valid()
      modifies this
      ensures Valid() && State() == EmittedAll(old(State()), events)
    {
      if events == [] { return; }
      var todo := subs;
      assert OfferedTo(chans, subs - todo, events) == chans;
      while todo != {}
        invariant todo <= subs && nextSub == old(nextSub) && subs == old(subs)
        invariant chans == OfferedTo(old(chans), subs - todo, events)
        decreases |todo|
      {
        var id :| id in todo;
        OfferedToOneMore(old(chans), subs - todo, events, id);
        SendEach(id, events);
        assert subs - (todo - {id}) == (subs - todo) + {id};
        todo := todo - {id};
      }
      assert subs - todo == subs;
      EmissionIsOfferedTo(old(State()), events);
    }

    /** The inner loop of an emission; a send on a closed channel would panic. */
    method SendEach(id: nat, events: seq<T>)
      requires id in chans && !chans[id].closed
      modifies this`chans
      ensures chans == old(chans)[id := old(chans)[id].(queue := OfferAll(old(chans)[id].queue, events))]
    {
      var i := 0;
      while i < |events|
        invariant 0 <= i <= |events|
        invariant chans == old(chans)[id := old(chans)[id].(queue := OfferAll(old(chans)[id].queue, events[..i]))]
      {
        assert !chans[id].closed;
        assert events[..i + 1][..i] == events[..i];
        if |chans[id].queue| < SUB_BUFFER {
          chans := chans[id := chans[id].(queue := chans[id].queue + [events[i]])];
        }
        i := i + 1;
      }
      assert events[..i] == events;
    }
  }

  // ---- whole runs, with the history of every channel ----

  datatype ChanOp<T> = Send(event: T) | Close

  /** What has happened to one channel: the operations on it, what its reader has received,
      the events emitted while it was registered, how many of those were dropped, and whether
      an emission ever met a full buffer. */
  datatype View<T> =
    View(ops: seq<ChanOp<T>>, received: seq<T>, since: seq<T>, dropped: nat, wasFull: bool)

  datatype Trace<T> = Trace(bus: Bus<T>, views: map<nat, View<T>>)

  datatype Step<T> = Subscribe | Cancel(id: nat) | Emit(event: T) | Receive(id: nat)

  function ViewAfterEmit<T>(queue: seq<T>, v: View<T>, e: T): View<T> {
    if |queue| < SUB_BUFFER
    then v.(ops := v.ops + [Send(e)], since := v.since + [e])
    else v.(since := v.since + [e], dropped := v.dropped + 1, wasFull := true)
  }

  function Next<T>(t: Trace<T>, s: Step<T>): Trace<T>
    requires ValidBus(t.bus) && t.views.Keys == t.bus.chans.Keys
  {
    match s
    case Subscribe =>
      Trace(Subscribed(t.bus), t.views[t.bus.nextSub := View([], [], [], 0, false)])
    case Cancel(id) =>
      Trace(Cancelled(t.bus, id),
            if id in t.bus.subs then t.views[id := t.views[id].(ops := t.views[id].ops + [Close])] else t.views)
    case Emit(e) =>
      Trace(Emitted(t.bus, e),
            map id | id in t.views ::
              if id in t.bus.subs then ViewAfterEmit(t.bus.chans[id].queue, t.views[id], e) else t.views[id])
    case Receive(id) =>
      Trace(Received(t.bus, id),
            if id in t.bus.chans && t.bus.chans[id].queue != []
            then t.views[id := t.views[id].(received := t.views[id].received + [t.bus.chans[id].queue[0]])]
            else t.views)
  }

  /** `a` is `b` with some elements left out. */
  predicate Subsequence<T(==)>(a: seq<T>, b: seq<T>) {
    a == [] ||
    (b != [] &&
     ((a[|a| - 1] == b[|b| - 1] && Subsequence(a[..|a| - 1], b[..|b| - 1]))
      || Subsequence(a, b[..|b| - 1])))
  }

  function Sends<T>(ops: seq<ChanOp<T>>): seq<T> {
    if ops == [] then []
    else
      var before := Sends(ops[..|ops| - 1]);
      match ops[|ops| - 1] case Send(e) => before + [e] case Close => before
  }

  /** Nothing follows a close. */
  predicate CloseIsLast<T(==)>(ops: seq<ChanOp<T>>) {
    forall i :: 0 <= i < |ops| - 1 ==> ops[i] != Close
  }

  /** What holds of one channel at every moment. */
  predicate Faithful<T(==)>(c: Chan<T>, v: View<T>) {
    var taken := v.received + c.queue;
    && Sends(v.ops) == taken
    && Subsequence(taken, v.since)
    && |v.received| + |c.queue| + v.dropped == |v.since|
    && |c.queue| <= SUB_BUFFER
    && (!v.wasFull ==> taken == v.since)
    && CloseIsLast(v.ops)
    && (c.closed <==> v.ops != [] && v.ops[|v.ops| - 1] == Close)
  }

  predicate Consistent<T(==)>(t: Trace<T>) {
    && ValidBus(t.bus) && t.views.Keys == t.bus.chans.Keys
    && forall id :: id in t.views ==> Faithful(t.bus.chans[id], t.views[id])
  }

  lemma SubsequenceGrows<T>(a: seq<T>, b: seq<T>, e: T)
    requires Subsequence(a, b)
    ensures Subsequence(a, b + [e]) && Subsequence(a + [e], b + [e])
  {
    assert (b + [e])[..|b|] == b && (a + [e])[..|a|] == a;
  }

  lemma SendsOneMore<T>(ops: seq<ChanOp<T>>, e: T)
    ensures Sends(ops + [Send(e)]) == Sends(ops) + [e]
  {
    assert (ops + [Send(e)])[..|ops|] == ops;
  }

  lemma DropKeepsFaithful<T>(c: Chan<T>, v: View<T>, e: T)
    requires Faithful(c, v)
    ensures Faithful(c, v.(since := v.since + [e], dropped := v.dropped + 1, wasFull := true))
  {
    SubsequenceGrows(v.received + c.queue, v.since, e);
  }

  lemma SendKeepsFaithful<T>(c: Chan<T>, v: View<T>, e: T)
    requires Faithful(c, v) && !c.closed && |c.queue| < SUB_BUFFER
    ensures Faithful(c.(queue := c.queue + [e]), v.(ops := v.ops + [Send(e)], since := v.since + [e]))
  {
    var taken := v.received + c.queue;
    SubsequenceGrows(taken, v.since, e);
    SendsOneMore(v.ops, e);
    assert v.received + (c.queue + [e]) == taken + [e];
  }

  lemma EmitKeepsFaithful<T>(c: Chan<T>, v: View<T>, e: T)
    requires Faithful(c, v) && !c.closed
    ensures Faithful(c.(queue := Offer(c.queue, e)), ViewAfterEmit(c.queue, v, e))
  {
    if |c.queue| < SUB_BUFFER { SendKeepsFaithful(c, v, e); } else { DropKeepsFaithful(c, v, e); }
  }

  lemma ReceiveKeepsFaithful<T>(c: Chan<T>, v: View<T>)
    requires Faithful(c, v) && c.queue != []
    ensures Faithful(c.(queue := c.queue[1..]), v.(received := v.received + [c.queue[0]]))
  {
    assert v.received + c.queue == (v.received + [c.queue[0]]) + c.queue[1..];
  }

  lemma CloseKeepsFaithful<T>(c: Chan<T>, v: View<T>)
    requires Faithful(c, v) && !c.closed
    ensures Faithful(c.(closed := true), v.(ops := v.ops + [Close]))
  {
    assert (v.ops + [Close])[..|v.ops|] == v.ops;
  }

  lemma NewChannelIsFaithful<T>()
    ensures Faithful<T>(Chan([], false), View([], [], [], 0, false))
  {
  }

  lemma SubscribeKeepsConsistent<T>(t: Trace<T>)
    requires Consistent(t)
    ensures Consistent(Next(t, Subscribe))
  {
    NewChannelIsFaithful<T>();
  }

  lemma CancelKeepsConsistent<T>(t: Trace<T>, id: nat)
    requires Consistent(t)
    ensures Consistent(Next(t, Cancel(id)))
  {
    if id in t.bus.subs { CloseKeepsFaithful(t.bus.chans[id], t.views[id]); }
  }

  lemma EmitKeepsConsistent<T>(t: Trace<T>, e: T)
    requires Consistent(t)
    ensures Consistent(Next(t, Emit(e)))
  {
    forall id | id in t.bus.subs
      ensures Faithful(t.bus.chans[id].(queue := Offer(t.bus.chans[id].queue, e)),
                       ViewAfterEmit(t.bus.chans[id].queue, t.views[id], e))
    {
      EmitKeepsFaithful(t.bus.chans[id], t.views[id], e);
    }
  }

  lemma PutKeepsConsistent<T>(t: Trace<T>, id: nat, c: Chan<T>, v: View<T>)
    requires Consistent(t) && id in t.bus.chans && c.closed == t.bus.chans[id].closed && Faithful(c, v)
    ensures Consistent(Trace(t.bus.(chans := t.bus.chans[id := c]), t.views[id := v]))
  {
  }

  lemma ReceiveKeepsConsistent<T>(t: Trace<T>, id: nat)
    requires Consistent(t)
    ensures Consistent(Next(t, Receive(id)))
  {
    if id in t.bus.chans && t.bus.chans[id].queue != [] {
      var c, v := t.bus.chans[id], t.views[id];
      var c', v' := c.(queue := c.queue[1..]), v.(received := v.received + [c.queue[0]]);
      ReceiveKeepsFaithful(c, v);
      PutKeepsConsistent(t, id, c', v');
    }
  }

  lemma StepKeepsConsistent<T>(t: Trace<T>, s: Step<T>)
    requires Consistent(t)
    ensures Consistent(Next(t, s))
  {
    match s
    case Subscribe => SubscribeKeepsConsistent(t);
    case Cancel(id) => CancelKeepsConsistent(t, id);
    case Emit(e) => EmitKeepsConsistent(t, e);
    case Receive(id) => ReceiveKeepsConsistent(t, id);
  }

  function Run<T(==)>(t: Trace<T>, steps: seq<Step<T>>): (r: Trace<T>)
    requires Consistent(t)
    decreases |steps|
  {
    if steps == [] then t
    else
      StepKeepsConsistent(t, steps[0]);
      Run(Next(t, steps[0]), steps[1..])
  }

  lemma {:induction false} RunKeepsConsistent<T>(t: Trace<T>, steps: seq<Step<T>>)
    requires Consistent(t)
    ensures Consistent(Run(t, steps))
    decreases |steps|
  {
    if steps != [] {
      StepKeepsConsistent(t, steps[0]);
      RunKeepsConsistent(Next(t, steps[0]), steps[1..]);
    }
  }

  function Fresh<T(==)>(): (t: Trace<T>)
    ensures Consistent(t)
  {
    Trace(Bus(0, {}, map[]), map[])
  }

  /** In every run of subscriptions, cancellations, emissions and receives, what a subscriber
      has received plus its queue is an in-order selection of what was emitted while it was
      registered, received, queued and dropped events add up to the emitted ones, a subscriber
      that never let its buffer fill has lost nothing, and no operation follows a close. */
  lemma EveryRunIsFaithful<T>(steps: seq<Step<T>>, id: nat)
    requires id in Run(Fresh<T>(), steps).views
    ensures
      var t := Run(Fresh<T>(), steps);
      id in t.bus.chans &&
      var queue, v := t.bus.chans[id].queue, t.views[id];
      && Sends(v.ops) == v.received + queue
      && Subsequence(v.received + queue, v.since)
      && |v.received| + |queue| + v.dropped == |v.since|
      && (!v.wasFull ==> v.received + queue == v.since)
      && CloseIsLast(v.ops)
      && (id in t.bus.subs ==> Close !in v.ops)
  {
    RunKeepsConsistent(Fresh<T>(), steps);
  }
}
