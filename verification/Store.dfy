/** The in-memory store: an append-only message log keyed by id, and a string table. */
module Stores {
  import opened Text
  import opened Chat

  predicate HasId(msgs: seq<Message>, id: Key) {
    exists i :: 0 <= i < |msgs| && msgs[i].id == id
  }

  /** The log after a save: a known id changes nothing. */
  function Saved(msgs: seq<Message>, m: Message): seq<Message> {
    if HasId(msgs, m.id) then msgs else msgs + [m]
  }

  /** No id is logged twice. */
  predicate Distinct(msgs: seq<Message>) {
    forall i, j :: 0 <= i < j < |msgs| ==> msgs[i].id != msgs[j].id
  }

  predicate Matches(m: Message, topic: string, since: int) {
    m.kind.TopicKind? && TopicKey(m.topic) == TopicKey(topic) && (since == 0 || since <= m.time)
  }

  /** The topic's messages at or after `since` (0: from the beginning), oldest first. */
  function Matching(msgs: seq<Message>, topic: string, since: int): seq<Message> {
    if msgs == [] then []
    else
      var before := Matching(msgs[..|msgs| - 1], topic, since);
      if Matches(msgs[|msgs| - 1], topic, since) then before + [msgs[|msgs| - 1]] else before
  }

  /** The newest `limit` elements; a limit of zero or less means all of them. */
  function Newest<T>(s: seq<T>, limit: int): seq<T> {
    if 0 < limit < |s| then s[|s| - limit..] else s
  }

  /** A history query finds a message exactly when it is logged and matches. */
  lemma {:induction false} MatchingIsComplete(msgs: seq<Message>, topic: string, since: int, m: Message)
    ensures m in Matching(msgs, topic, since) <==> m in msgs && Matches(m, topic, since)
  {
    if msgs != [] {
      MatchingIsComplete(msgs[..|msgs| - 1], topic, since, m);
      assert msgs == msgs[..|msgs| - 1] + [msgs[|msgs| - 1]];
    }
  }

  class MemStore {
    var msgs: seq<Message>
    var ids: set<Key>
    var config: map<string, string>

    ghost predicate Valid()
      reads this
    {
      && Distinct(msgs)
      && (forall i :: 0 <= i < |msgs| ==> msgs[i].id in ids)
      && (forall id :: id in ids ==> HasId(msgs, id))
    }

    constructor ()
      ensures Valid() && msgs == [] && config == map[]
    {
      msgs, ids, config := [], {}, map[];
    }

    method SaveMessage(m: Message)
      requires Valid()
      modifies this
      ensures Valid() && config == old(config)
      ensures msgs == Saved(old(msgs), m)
    {
      if m.id in ids { return; }
      ids := ids + {m.id};
      msgs := msgs + [m];
      assert msgs[|msgs| - 1].id == m.id;
      forall id | id in ids
        ensures HasId(msgs, id)
      {
        if id != m.id {
          var i :| 0 <= i < |old(msgs)| && old(msgs)[i].id == id;
          assert msgs[i].id == id;
        }
      }
    }

    method History(topic: string, since: int, limit: int) returns (out: seq<Message>)
      ensures out == Newest(Matching(msgs, topic, since), limit)
    {
      out := [];
      for i := 0 to |msgs|
        invariant out == Matching(msgs[..i], topic, since)
      {
        assert msgs[..i + 1][..i] == msgs[..i];
        if Matches(msgs[i], topic, since) {
          out := out + [msgs[i]];
        }
      }
      assert msgs[..|msgs|] == msgs;
      if limit > 0 && |out| > limit {
        out := out[|out| - limit..];
      }
    }

    method GetConfig(key: string) returns (found: bool, value: string)
      ensures found <==> key in config
      ensures found ==> value == config[key]
    {
      if key in config { return true, config[key]; }
      return false, "";
    }

    method SetConfig(key: string, value: string)
      modifies this
      ensures config == old(config)[key := value]
      ensures msgs == old(msgs) && ids == old(ids)
    {
      config := config[key := value];
    }
  }
}
