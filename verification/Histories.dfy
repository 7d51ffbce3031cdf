/** What a history query answers after a run of saves, and what of a hub's traffic is remembered. */
module Histories {
  import opened Text
  import opened Chat
  import opened Proto
  import opened HubSpec
  import opened Stores
  import opened RouterSpec
  import Mirror

  // ---- the log ----

  function SavedAll(msgs: seq<Message>): seq<Message> {
    if msgs == [] then [] else Saved(SavedAll(msgs[..|msgs| - 1]), msgs[|msgs| - 1])
  }

  lemma SavedHasId(log: seq<Message>, m: Message, id: Key)
    ensures HasId(Saved(log, m), id) <==> HasId(log, id) || id == m.id
  {
    if HasId(log, id) {
      var i :| 0 <= i < |log| && log[i].id == id;
      assert Saved(log, m)[i] == log[i];
    }
    if id == m.id && !HasId(log, m.id) { assert (log + [m])[|log|] == m; }
  }

  lemma {:induction false} LogsEveryId(msgs: seq<Message>, id: Key)
    ensures HasId(SavedAll(msgs), id) <==> HasId(msgs, id)
    decreases |msgs|
  {
    if msgs != [] {
      var init := msgs[..|msgs| - 1];
      LogsEveryId(init, id);
      SavedHasId(SavedAll(init), msgs[|msgs| - 1], id);
      assert HasId(init, id) ==> HasId(msgs, id);
    }
  }

  /** Some save of `m` is the first under its id. */
  predicate First(msgs: seq<Message>, m: Message) {
    exists i :: 0 <= i < |msgs| && msgs[i] == m && !HasId(msgs[..i], m.id)
  }

  lemma FirstOneMore(init: seq<Message>, last: Message, m: Message)
    ensures First(init + [last], m) <==> First(init, m) || (m == last && !HasId(init, last.id))
  {
    var all := init + [last];
    assert all[..|init|] == init && all[|init|] == last;
    forall i | 0 <= i < |init|
      ensures all[i] == init[i] && all[..i] == init[..i]
    {
    }
  }

  /** After any run of saves the log holds exactly the first message saved under each id, once. */
  lemma {:induction false} LogIsFirstOfEachId(msgs: seq<Message>, m: Message)
    ensures Distinct(SavedAll(msgs))
    ensures m in SavedAll(msgs) <==> First(msgs, m)
    decreases |msgs|
  {
    if msgs != [] {
      var init, last := msgs[..|msgs| - 1], msgs[|msgs| - 1];
      LogIsFirstOfEachId(init, m);
      LogsEveryId(init, last.id);
      FirstOneMore(init, last, m);
      SavedKeepsDistinct(SavedAll(init), last);
      assert msgs == init + [last];
    }
  }

  lemma SavedKeepsDistinct(log: seq<Message>, m: Message)
    requires Distinct(log)
    ensures Distinct(Saved(log, m))
  {
    if !HasId(log, m.id) {
      assert forall i :: 0 <= i < |log| ==> log[i].id != m.id;
    }
  }

  // ---- queries ----

  lemma {:induction false} MatchingBoth(a: seq<Message>, b: seq<Message>, topic: string, since: int)
    ensures Matching(a + b, topic, since) == Matching(a, topic, since) + Matching(b, topic, since)
    decreases |b|
  {
    if b == [] {
      assert a + b == a;
    } else {
      MatchingBoth(a, b[..|b| - 1], topic, since);
      assert (a + b)[..|a + b| - 1] == a + b[..|b| - 1];
    }
  }

  /** The answer to a query is the end of the list of what matches: as much of it as was asked for. */
  lemma AnswerIsTheEnd<T>(s: seq<T>, limit: int) returns (older: seq<T>)
    ensures s == older + Newest(s, limit)
    ensures |Newest(s, limit)| == if 0 < limit < |s| then limit else |s|
  {
    older := s[..|s| - |Newest(s, limit)|];
  }

  /** A save adds its message to the end of what matches exactly when its id is new and it is a topic
      message of that topic from `since` or later; nothing else in any answer changes. */
  lemma SavedIsAnswered(log: seq<Message>, m: Message, topic: string, since: int)
    ensures
      var before, after := Matching(log, topic, since), Matching(Saved(log, m), topic, since);
      after == before + if HasId(log, m.id) || m.kind.PrivateKind? || TopicKey(m.topic) != TopicKey(topic)
                           || (since != 0 && m.time < since) then [] else [m]
  {
    assert (log + [m])[..|log|] == log;
  }

  /** With a limit, the answer after the save is the newest of the old answer and the new message. */
  lemma {:induction false} NewestOneMore<T>(s: seq<T>, x: T, limit: int)
    requires limit > 0
    ensures Newest(s + [x], limit) == Newest(Newest(s, limit) + [x], limit)
    ensures Newest(s + [x], limit)[|Newest(s + [x], limit)| - 1] == x
  {
  }

  // ---- the hub's messages ----

  /** A post is remembered in the topic its sender is in, under any spelling of it, and in no other. */
  lemma PostIsRemembered(h: State, key: UserKey, text: string, now: int, log: seq<Message>, topic: string, since: int)
    requires Post(h, key, text, now).reply.Ok?
    ensures
      var m := Post(h, key, text, now).reply.value;
      var home := h.users[CanonKey(key)].topic;
      Matching(Saved(log, m), topic, since)
      == Matching(log, topic, since)
         + if !HasId(log, m.id) && TopicKey(topic) == TopicKey(home) && (since == 0 || since <= now) then [m] else []
  {
    SavedIsAnswered(log, Post(h, key, text, now).reply.value, topic, since);
  }

  /** A private message is logged and never answered to a query. */
  lemma PrivateIsNeverAnswered(h: State, key: UserKey, to: string, text: string, now: int, log: seq<Message>, topic: string, since: int)
    requires Private(h, key, to, text, now).reply.Ok?
    ensures
      var m := Private(h, key, to, text, now).reply.value;
      HasId(Saved(log, m), m.id) && Matching(Saved(log, m), topic, since) == Matching(log, topic, since)
  {
    var m := Private(h, key, to, text, now).reply.value;
    SavedIsAnswered(log, m, topic, since);
    SavedHasId(log, m, m.id);
  }

  // ---- the messages of peers ----

  lemma IngestLogs(our: string, ttl: int, n: NodeState, rec: Record, from: string, now: int)
    requires Valid(n.hub)
    ensures
      var m := Sent(n.hub, rec, from, now);
      Ingest(our, ttl, n, rec, from, now).log
      == if Accepts(our, n, rec, now) && m.Some? then Saved(n.log, m.value) else n.log
  {
  }

  /** An accepted data record is remembered as it was put out: with its text and the time it came, in the
      topic this node has the sender in. A refused one is not. */
  lemma DataIsRemembered(our: string, ttl: int, n: NodeState, rec: Record, from: string, now: int, topic: string, since: int)
    requires Valid(n.hub) && Canonical(rec) && rec.typ == ID_DATA && rec.args != [] && |rec.Tail(0)| <= MAX_TEXT
    ensures
      var n', m := Ingest(our, ttl, n, rec, from, now), Sent(n.hub, rec, from, now);
      && m.Some? && m.value.text == rec.Tail(0)
      && Matching(n'.log, topic, since)
         == Matching(n.log, topic, since)
            + if Accepts(our, n, rec, now) && !HasId(n.log, m.value.id)
                 && TopicKey(topic) == TopicKey(m.value.topic) && (since == 0 || since <= now) then [m.value] else []
  {
    IngestLogs(our, ttl, n, rec, from, now);
    Mirror.DataIsApplied(n.hub, rec, from, now);
    SavedIsAnswered(n.log, Sent(n.hub, rec, from, now).value, topic, since);
  }
}
