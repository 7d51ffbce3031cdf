/** The inbound-peer allow-list: a live editable set and pinned peers, persisted through the store. */
module AllowLists {
  import opened Text
  import opened Sorting
  import opened Stores
  import opened AllowSpec

  /** The usable callsigns of a list, as the editor canonicalises them. */
  method CanonSet(calls: seq<string>) returns (out: set<string>)
    ensures out == SetOf(Canon(calls))
  {
    out := {};
    for i := 0 to |calls|
      invariant out == SetOf(Canon(calls[..i]))
    {
      assert calls[..i + 1][..i] == calls[..i];
      var c := NormCall(calls[i]);
      if c != "" { out := out + {c}; }
    }
    assert calls[..|calls|] == calls;
  }

  /** The members of a set, sorted. */
  method SortedListing(s: set<string>) returns (out: seq<string>)
    ensures Lists(out, s) && Sorted(out)
  {
    out := [];
    var todo := s;
    while todo != {}
      invariant todo <= s && multiset(out) == multiset(s - todo) && Sorted(out)
      decreases todo
    {
      var c :| c in todo;
      InsertKeeps(c, out);
      out := Insert(c, out);
      assert s - (todo - {c}) == (s - todo) + {c};
      todo := todo - {c};
    }
    assert s - todo == s;
  }

  method EncodeAllow(calls: seq<string>) returns (raw: string)
    ensures raw == AllowSpec.Encode(calls)
  {
    var out := [];
    for i := 0 to |calls|
      invariant out == Canon(calls[..i])
    {
      assert calls[..i + 1][..i] == calls[..i];
      var c := NormCall(calls[i]);
      if c != "" { out := out + [c]; }
    }
    assert calls[..|calls|] == calls;
    return Join(Sort(out), '\n');
  }

  method DecodeAllow(raw: string) returns (out: seq<string>)
    ensures out == AllowSpec.Decode(raw)
  {
    var fields := SplitOn(Separator, raw);
    out := [];
    for i := 0 to |fields|
      invariant out == Canon(fields[..i])
    {
      assert fields[..i + 1][..i] == fields[..i];
      var c := NormCall(fields[i]);
      if c != "" { out := out + [c]; }
    }
    assert fields[..|fields|] == fields;
  }

  class AllowList {
    var allowed: set<string>
    var pinned: set<string>
    var rejected: nat

    ghost predicate Valid()
      reads this
    {
      AllUsable(allowed) && AllUsable(pinned)
    }

    constructor (calls: seq<string>)
      ensures Valid() && allowed == SetOf(Canon(calls)) && pinned == {} && rejected == 0
    {
      var usable := CanonSet(calls);
      allowed, pinned, rejected := usable, {}, 0;
      CanonIsUsable(calls);
    }

    method Pin(calls: seq<string>)
      requires Valid()
      modifies this`pinned
      ensures Valid() && pinned == old(pinned) + SetOf(Canon(calls))
    {
      CanonIsUsable(calls);
      var more := CanonSet(calls);
      pinned := pinned + more;
    }

    /** Default-deny: a caller is admitted exactly when its canonical callsign is listed or pinned. */
    method Allowed(call: string) returns (ok: bool)
      ensures ok == (NormCall(call) != "" && (NormCall(call) in allowed || NormCall(call) in pinned))
    {
      var c := NormCall(call);
      if c == "" { return false; }
      if c in allowed { return true; }
      return c in pinned;
    }

    method Replace(calls: seq<string>)
      requires Valid()
      modifies this`allowed
      ensures Valid() && allowed == SetOf(Canon(calls))
    {
      CanonIsUsable(calls);
      allowed := CanonSet(calls);
    }

    method Add(call: string) returns (changed: bool)
      requires Valid()
      modifies this`allowed
      ensures Valid() && changed == (allowed != old(allowed))
      ensures allowed == Edited(State(old(allowed), pinned, map[]), AllowSpec.Add(call))
    {
      var c := NormCall(call);
      if c == "" { return false; }
      if c in allowed { return false; }
      NormCallIdempotent(call);
      allowed := allowed + {c};
      return true;
    }

    method Remove(call: string) returns (changed: bool)
      requires Valid()
      modifies this`allowed
      ensures Valid() && changed == (allowed != old(allowed))
      ensures allowed == Edited(State(old(allowed), pinned, map[]), AllowSpec.Remove(call))
    {
      var c := NormCall(call);
      if c == "" || c !in allowed { return false; }
      allowed := allowed - {c};
      return true;
    }

    method Reject() returns (n: nat)
      modifies this`rejected
      ensures n == rejected == old(rejected) + 1
    {
      rejected := rejected + 1;
      return rejected;
    }

    method Entries() returns (out: seq<string>)
      ensures Lists(out, allowed) && Sorted(out)
    {
      out := SortedListing(allowed);
    }

    /** Everyone who may link in, each once, sorted. */
    method AllEntries() returns (out: seq<string>)
      ensures Lists(out, allowed + pinned) && Sorted(out)
    {
      out := SortedListing(allowed + pinned);
    }
  }

  /** One edit of the live list, persisted when it changes the set; a reload takes the persisted set. */
  method EditLive(store: MemStore, a: AllowList, e: Edit)
    requires a.Valid()
    modifies a`allowed, store
    ensures a.Valid()
    ensures State(a.allowed, a.pinned, store.config) == Apply(State(old(a.allowed), a.pinned, old(store.config)), e)
  {
    match e
    case Add(call) => var changed := EditAllowList(store, a, true, call);
    case Remove(call) => var changed := EditAllowList(store, a, false, call);
    case Replace(calls) =>
      var before := a.allowed;
      a.Replace(calls);
      if a.allowed != before { PersistAllowList(store, a); }
    case Reload => ReloadAllowList(store, a);
  }

  /** One edit after another. */
  method EditAll(store: MemStore, a: AllowList, edits: seq<Edit>)
    requires a.Valid()
    modifies a`allowed, store
    ensures a.Valid()
    ensures State(a.allowed, a.pinned, store.config) == ApplyAll(State(old(a.allowed), a.pinned, old(store.config)), edits)
  {
    ghost var start := State(a.allowed, a.pinned, store.config);
    assert edits[..0] == [];
    for i := 0 to |edits|
      invariant a.Valid() && State(a.allowed, a.pinned, store.config) == ApplyAll(start, edits[..i])
    {
      ApplyLast(start, edits[..i], edits[i]);
      assert edits[..i + 1] == edits[..i] + [edits[i]];
      EditLive(store, a, edits[i]);
    }
    assert edits[..|edits|] == edits;
  }

  /** A node's life up to a call: it starts with an empty store, is edited, and is then called. The caller
      gets in if and only if its callsign is not blank and a pin names it, or the last edit about it
      brought it in, or none is about it and the environment's list names it. */
  method AdmittedByHistory(seed: seq<string>, pins: seq<string>, edits: seq<Edit>, call: string) returns (ok: bool)
    requires AllFree(SetOf(Canon(seed))) && forall i :: 0 <= i < |edits| ==> FreeEdit(edits[i])
    ensures ok <==>
      NormCall(call) != "" && (Names(pins, NormCall(call)) || LastWord(Names(seed, NormCall(call)), edits, NormCall(call)))
  {
    var store := new MemStore();
    ghost var empty := store.config;
    var a := LoadAllowList(store, seed, pins);
    EditAll(store, a, edits);
    ok := a.Allowed(call);
    if NormCall(call) != "" { ListedByHistory(empty, seed, pins, edits, call); }
  }

  /** Admission by a list that may not be there: none admits nobody. */
  method AllowedBy(a: AllowList?, call: string) returns (ok: bool)
    ensures ok == (a != null && Admits(a.allowed, a.pinned, call))
  {
    if a == null { return false; }
    ok := a.Allowed(call);
  }

  method PersistAllowList(store: MemStore?, a: AllowList)
    requires a.Valid()
    modifies store
    ensures store != null ==> store.config == Persisted(old(store.config), a.allowed) && store.msgs == old(store.msgs)
    ensures a.allowed == old(a.allowed) && a.pinned == old(a.pinned)
  {
    if store == null { return; }
    var entries := a.Entries();
    var raw := EncodeAllow(entries);
    EncodedIs(entries, a.allowed);
    store.SetConfig(CONFIG_KEY, raw);
  }

  /** Startup, with the dialled peers pinned afterwards. */
  method LoadAllowList(store: MemStore?, seed: seq<string>, pins: seq<string>) returns (a: AllowList)
    modifies store
    ensures fresh(a) && a.Valid()
    ensures store != null ==>
      var s := Load(old(store.config), seed, pins);
      a.allowed == s.allowed && a.pinned == s.pinned && store.config == s.config
    ensures store == null ==> a.allowed == SetOf(Canon(seed)) && a.pinned == SetOf(Canon(pins))
  {
    a := new AllowList([]);
    if store == null {
      a.Replace(seed);
    } else {
      var found, raw := store.GetConfig(CONFIG_KEY);
      if found {
        var calls := DecodeAllow(raw);
        a.Replace(calls);
        DecodedIsCanonical(raw);
      } else {
        a.Replace(seed);
        PersistAllowList(store, a);
      }
    }
    a.Pin(pins);
  }

  lemma DecodedIsCanonical(raw: string)
    ensures SetOf(Canon(AllowSpec.Decode(raw))) == Stored(raw)
  {
    StoredIsFree(raw);
    UsableElements(AllowSpec.Decode(raw), Stored(raw));
    CanonOfUsable(AllowSpec.Decode(raw));
  }

  /** Hot reload: the persisted set, if there is one, becomes the live one. */
  method ReloadAllowList(store: MemStore?, a: AllowList)
    requires a.Valid()
    modifies a`allowed
    ensures a.Valid()
    ensures a.allowed == if store == null then old(a.allowed)
                         else Edited(State(old(a.allowed), a.pinned, store.config), AllowSpec.Reload)
  {
    if store == null { return; }
    var found, raw := store.GetConfig(CONFIG_KEY);
    if !found { return; }
    var calls := DecodeAllow(raw);
    a.Replace(calls);
    DecodedIsCanonical(raw);
  }

  /** An edit from the operator's panel: applied live, and persisted when it changed something. */
  method EditAllowList(store: MemStore, a: AllowList, add: bool, call: string) returns (changed: bool)
    requires a.Valid()
    modifies a`allowed, store
    ensures a.Valid()
    ensures
      var e := if add then AllowSpec.Add(call) else AllowSpec.Remove(call);
      State(a.allowed, a.pinned, store.config) == Apply(State(old(a.allowed), a.pinned, old(store.config)), e)
  {
    if add {
      changed := a.Add(call);
    } else {
      changed := a.Remove(call);
    }
    if changed { PersistAllowList(store, a); }
  }
}
