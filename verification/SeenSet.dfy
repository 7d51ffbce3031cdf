/** The duplicate-suppression set: ids with an expiry, pruned on every call. */
module SeenSets {

  /** Ten minutes, in nanoseconds. */
  const DEFAULT_TTL: int := 600_000_000_000

  /** The entries that have not expired at `now`. */
  function Prune<K>(entries: map<K, int>, now: int): map<K, int> {
    map id | id in entries && now < entries[id] :: entries[id]
  }

  /** Whether `id` is present and unexpired at `now`. */
  predicate Live<K>(entries: map<K, int>, id: K, now: int) {
    id in entries && now < entries[id]
  }

  /** The entries after `id` has been recorded at `now`. */
  function Record<K>(entries: map<K, int>, ttl: int, id: K, now: int): map<K, int> {
    Prune(entries, now)[id := now + ttl]
  }

  class SeenSet<K(==)> {
    const ttl: int
    var entries: map<K, int>

    constructor (ttl: int)
      ensures this.ttl == (if ttl <= 0 then DEFAULT_TTL else ttl) && this.ttl > 0
      ensures entries == map[]
    {
      this.ttl := if ttl <= 0 then DEFAULT_TTL else ttl;
      entries := map[];
    }

    method PruneExpired(now: int)
      modifies this
      ensures entries == Prune(old(entries), now)
    {
      var todo := entries.Keys;
      while todo != {}
        invariant todo <= entries.Keys <= old(entries).Keys
        invariant forall id :: id in entries ==> entries[id] == old(entries)[id]
        invariant forall id :: id in old(entries) && id !in todo ==>
                    (id in entries <==> now < old(entries)[id])
        decreases |todo|
      {
        var id :| id in todo;
        if !(now < entries[id]) {
          entries := entries - {id};
        }
        todo := todo - {id};
      }
    }

    method Seen(id: K, now: int) returns (dup: bool)
      modifies this
      ensures dup == Live(old(entries), id, now)
      ensures entries == Record(old(entries), ttl, id, now)
    {
      PruneExpired(now);
      if id in entries && now < entries[id] {
        entries := entries[id := now + ttl];
        return true;
      }
      entries := entries[id := now + ttl];
      return false;
    }

    method Len(now: int) returns (n: nat)
      modifies this
      ensures entries == Prune(old(entries), now) && n == |entries|
    {
      PruneExpired(now);
      n := |entries|;
    }
  }

  // ---- the set against the full history of calls ----

  datatype Call<K> = SeenAt(id: K, time: int) | LenAt(time: int)

  datatype LastCall = Never | At(time: int)

  /** The entries a fresh set holds after serving `calls`. */
  function Replay<K>(ttl: int, calls: seq<Call<K>>): map<K, int> {
    if calls == [] then map[] else
      var before := Replay(ttl, calls[..|calls| - 1]);
      match calls[|calls| - 1]
      case SeenAt(id, now) => Record(before, ttl, id, now)
      case LenAt(now) => Prune(before, now)
  }

  /** The clock never runs backwards. */
  predicate Ordered<K>(calls: seq<Call<K>>) {
    forall i, j :: 0 <= i < j < |calls| ==> calls[i].time <= calls[j].time
  }

  /** When `id` was last asked about, from the unpruned history. */
  function LastSeen<K(==)>(calls: seq<Call<K>>, id: K): LastCall {
    if calls == [] then Never
    else if calls[|calls| - 1].SeenAt? && calls[|calls| - 1].id == id then At(calls[|calls| - 1].time)
    else LastSeen(calls[..|calls| - 1], id)
  }

  /** `id` was last asked about less than `ttl` before `now`. */
  predicate Recent<K(==)>(ttl: int, calls: seq<Call<K>>, id: K, now: int) {
    LastSeen(calls, id).At? && now - LastSeen(calls, id).time < ttl
  }

  /** Every id the history mentions. */
  function Ids<K(==)>(calls: seq<Call<K>>): set<K> {
    set i | 0 <= i < |calls| && calls[i].SeenAt? :: calls[i].id
  }

  lemma {:induction false} ReplayTracksHistory<K>(ttl: int, calls: seq<Call<K>>, id: K)
    requires ttl > 0 && calls != [] && Ordered(calls)
    ensures id in Replay(ttl, calls) <==> Recent(ttl, calls, id, calls[|calls| - 1].time)
    ensures id in Replay(ttl, calls) ==> Replay(ttl, calls)[id] == LastSeen(calls, id).time + ttl
    decreases |calls|
  {
    var before := calls[..|calls| - 1];
    if before != [] {
      assert calls[|before| - 1].time <= calls[|before|].time;
      ReplayTracksHistory(ttl, before, id);
    } else {
      assert Replay(ttl, before) == map[] && LastSeen(before, id) == Never;
    }
  }

  /** Pruning is unobservable: `Seen` answers exactly whether the id's last earlier call was
      less than `ttl` ago, as if nothing had ever been dropped. */
  lemma SeenIsRecency<K>(ttl: int, calls: seq<Call<K>>, id: K, now: int)
    requires ttl > 0 && Ordered(calls + [SeenAt(id, now)])
    ensures Live(Replay(ttl, calls), id, now) <==> Recent(ttl, calls, id, now)
  {
    if calls != [] {
      var all := calls + [SeenAt(id, now)];
      assert forall i :: 0 <= i < |calls| ==> all[i] == calls[i];
      assert all[|calls| - 1].time <= all[|calls|].time;
      ReplayTracksHistory(ttl, calls, id);
    }
  }

  lemma {:induction false} LastSeenIsMentioned<K>(calls: seq<Call<K>>, id: K)
    ensures LastSeen(calls, id).At? <==> id in Ids(calls)
  {
    if calls != [] {
      var n := |calls| - 1;
      LastSeenIsMentioned(calls[..n], id);
      if calls[n].SeenAt? && calls[n].id == id {
        assert id in Ids(calls);
      } else if id in Ids(calls) {
        var i :| 0 <= i < |calls| && calls[i].SeenAt? && calls[i].id == id;
        assert calls[..n][i] == calls[i];
      }
    }
  }

  /** `Len` is the number of distinct ids asked about within the last `ttl`. */
  lemma LenCountsRecentIds<K>(ttl: int, calls: seq<Call<K>>, now: int)
    requires ttl > 0 && Ordered(calls + [LenAt(now)])
    ensures |Replay(ttl, calls + [LenAt(now)])|
         == |set id | id in Ids(calls) && Recent(ttl, calls, id, now)|
  {
    var all := calls + [LenAt(now)];
    assert all[..|calls|] == calls;
    var held := Replay(ttl, all);
    var recent := set id | id in Ids(calls) && Recent(ttl, calls, id, now);
    forall id | id in held.Keys + Ids(calls)
      ensures id in held.Keys <==> id in recent
    {
      LastSeenIsMentioned(calls, id);
      ReplayTracksHistory(ttl, all, id);
      assert LastSeen(all, id) == LastSeen(calls, id);
    }
    assert held.Keys == recent;
  }
}
