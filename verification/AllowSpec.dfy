/** Inbound-peer admission and its persistence, on values. */
module AllowSpec {
  import opened Text
  import opened Sorting

  const CONFIG_KEY := "peer_allow"

  /** What separates callsigns in a persisted value. */
  predicate Separator(c: char) { c == '\n' || c == '\r' || c == ',' || c == ' ' || c == '\t' }

  /** The usable callsigns of a list, canonical, in order. */
  function Canon(calls: seq<string>): (out: seq<string>) {
    if calls == [] then []
    else
      var before, c := Canon(calls[..|calls| - 1]), NormCall(calls[|calls| - 1]);
      if c == "" then before else before + [c]
  }

  function SetOf(calls: seq<string>): set<string> { set c | c in calls }

  function Encode(calls: seq<string>): string { Join(Sort(Canon(calls)), '\n') }

  function Decode(raw: string): seq<string> { Canon(SplitOn(Separator, raw)) }

  /** The set a persisted value stands for. */
  function Stored(raw: string): set<string> { SetOf(Decode(raw)) }

  /** A callsign as the lists hold it. */
  predicate Usable(c: string) { c != "" && NormCall(c) == c }

  predicate AllUsable(s: set<string>) { forall c :: c in s ==> Usable(c) }

  predicate AllFree(s: set<string>) { forall c :: c in s ==> FreeOf(Separator, c) }

  // ---- canonical lists ----

  lemma {:induction false} CanonMembers(calls: seq<string>, c: string)
    ensures c in Canon(calls) <==> exists i :: 0 <= i < |calls| && NormCall(calls[i]) == c && c != ""
  {
    if calls != [] {
      var init := calls[..|calls| - 1];
      CanonMembers(init, c);
      if i :| 0 <= i < |init| && NormCall(init[i]) == c && c != "" {
        assert calls[i] == init[i];
      }
      if i :| 0 <= i < |calls| && NormCall(calls[i]) == c && c != "" {
        assert i < |init| ==> init[i] == calls[i];
      }
    }
  }

  lemma CanonIsUsable(calls: seq<string>)
    ensures AllUsable(SetOf(Canon(calls)))
  {
    forall c | c in SetOf(Canon(calls))
      ensures Usable(c)
    {
      CanonMembers(calls, c);
      var i :| 0 <= i < |calls| && NormCall(calls[i]) == c && c != "";
      NormCallIdempotent(calls[i]);
    }
  }

  lemma {:induction false} CanonOfUsable(calls: seq<string>)
    requires forall i :: 0 <= i < |calls| ==> Usable(calls[i])
    ensures Canon(calls) == calls
  {
    if calls != [] {
      var init, c := calls[..|calls| - 1], calls[|calls| - 1];
      CanonOfUsable(init);
      assert Usable(c);
      assert calls == init + [c];
    }
  }

  // ---- persisted values ----

  /** A listing of a set: each member once, in any order. */
  ghost predicate Lists(order: seq<string>, s: set<string>) { multiset(order) == multiset(s) }

  lemma ListsMembers(order: seq<string>, s: set<string>)
    requires Lists(order, s)
    ensures SetOf(order) == s
  {
    forall c
      ensures c in order <==> c in s
    {
      assert c in multiset(order) <==> c in multiset(s);
    }
  }

  /** The persisted value depends only on the set, not on the order it was listed in. */
  lemma EncodingIsStable(one: seq<string>, other: seq<string>, s: set<string>)
    requires AllUsable(s) && Lists(one, s) && Lists(other, s)
    ensures Encode(one) == Encode(other)
  {
    ListsMembers(one, s);
    ListsMembers(other, s);
    UsableElements(one, s);
    UsableElements(other, s);
    CanonOfUsable(one);
    CanonOfUsable(other);
    SortSorts(one);
    SortSorts(other);
    SortedIsUnique(Sort(one), Sort(other));
  }

  lemma UsableElements(order: seq<string>, s: set<string>)
    requires AllUsable(s) && SetOf(order) == s
    ensures forall i :: 0 <= i < |order| ==> Usable(order[i])
  {
    forall i | 0 <= i < |order|
      ensures Usable(order[i])
    {
      assert order[i] in SetOf(order);
    }
  }

  lemma TrimIsFree(s: string)
    requires FreeOf(Separator, s)
    ensures FreeOf(Separator, NormCall(s))
  {
    var a, b := TrimParts(s);
    assert forall i :: 0 <= i < |Trim(s)| ==> Trim(s)[i] == s[|a| + i];
    UpperAt(Trim(s));
  }

  /** What is read back never holds a separator. */
  lemma StoredIsFree(raw: string)
    ensures AllFree(Stored(raw)) && AllUsable(Stored(raw))
  {
    CanonIsUsable(SplitOn(Separator, raw));
    forall c | c in Stored(raw)
      ensures FreeOf(Separator, c)
    {
      var fs := SplitOn(Separator, raw);
      CanonMembers(fs, c);
      var i :| 0 <= i < |fs| && NormCall(fs[i]) == c && c != "";
      assert fs[i] in fs;
      TrimIsFree(fs[i]);
    }
  }

  lemma SortMembers(s: seq<string>)
    ensures SetOf(Sort(s)) == SetOf(s)
  {
    SortSorts(s);
    forall c
      ensures c in Sort(s) <==> c in s
    {
      assert c in multiset(Sort(s)) <==> c in multiset(s);
    }
  }

  /** A persisted set reads back as itself exactly when no callsign in it holds a separator. */
  lemma PersistedSetReloads(order: seq<string>, s: set<string>)
    requires AllUsable(s) && Lists(order, s)
    ensures Stored(Encode(order)) == s <==> AllFree(s)
  {
    StoredIsFree(Encode(order));
    ListsMembers(order, s);
    UsableElements(order, s);
    CanonOfUsable(order);
    if AllFree(s) {
      var sorted := Sort(order);
      SortMembers(order);
      UsableElements(sorted, s);
      CanonOfUsable(sorted);
      forall c | c in sorted
        ensures Token(Separator, c)
      {
        assert c in SetOf(sorted);
      }
      SplitJoin(Separator, sorted, '\n');
    }
  }

  // ---- the list, its pins and its store ----

  /** The editable set, the pinned peers, and the persisted value, if any. */
  datatype State = State(allowed: set<string>, pinned: set<string>, config: map<string, string>)

  /** Default-deny admission. */
  predicate Admits(allowed: set<string>, pinned: set<string>, call: string) {
    var c := NormCall(call);
    c != "" && (c in allowed || c in pinned)
  }

  /** Some listing of a set; which one does not matter, see EncodingIsStable. */
  ghost function AsList(s: set<string>): (order: seq<string>)
    ensures Lists(order, s)
    decreases |s|
  {
    if s == {} then []
    else
      var c :| c in s;
      assert multiset(s) == multiset(s - {c}) + multiset{c};
      [c] + AsList(s - {c})
  }

  ghost function Encoded(s: set<string>): string { Encode(AsList(s)) }

  lemma EncodedIs(order: seq<string>, s: set<string>)
    requires AllUsable(s) && Lists(order, s)
    ensures Encode(order) == Encoded(s)
  {
    EncodingIsStable(order, AsList(s), s);
  }

  ghost function Persisted(config: map<string, string>, s: set<string>): map<string, string> {
    config[CONFIG_KEY := Encoded(s)]
  }

  /** A start: a persisted set wins over the environment's, which is otherwise persisted. */
  ghost function Load(config: map<string, string>, seed: seq<string>, pins: seq<string>): State {
    var pinned := SetOf(Canon(pins));
    if CONFIG_KEY in config then State(Stored(config[CONFIG_KEY]), pinned, config)
    else State(SetOf(Canon(seed)), pinned, Persisted(config, SetOf(Canon(seed))))
  }

  datatype Edit = Add(call: string) | Remove(call: string) | Replace(calls: seq<string>) | Reload

  /** The editable set after an edit. */
  function Edited(s: State, e: Edit): set<string> {
    match e
    case Add(c) => if NormCall(c) == "" then s.allowed else s.allowed + {NormCall(c)}
    case Remove(c) => s.allowed - {NormCall(c)}
    case Replace(cs) => SetOf(Canon(cs))
    case Reload => if CONFIG_KEY in s.config then Stored(s.config[CONFIG_KEY]) else s.allowed
  }

  /** An operator's edit, persisted when it changes the set; a reload persists nothing. */
  ghost function Apply(s: State, e: Edit): State {
    var next := Edited(s, e);
    State(next, s.pinned, if e.Reload? || next == s.allowed then s.config else Persisted(s.config, next))
  }

  ghost function ApplyAll(s: State, edits: seq<Edit>): State
    decreases |edits|
  {
    if edits == [] then s else ApplyAll(Apply(s, edits[0]), edits[1..])
  }

  /** The store and the live list agree. */
  ghost predicate Synced(s: State) {
    CONFIG_KEY in s.config && Stored(s.config[CONFIG_KEY]) == s.allowed
  }

  /** No callsign the edit brings in holds a separator. */
  predicate FreeEdit(e: Edit) {
    match e
    case Add(c) => FreeOf(Separator, NormCall(c))
    case Remove(_) => true
    case Replace(cs) => AllFree(SetOf(Canon(cs)))
    case Reload => true
  }

  lemma EncodedReloads(s: set<string>)
    requires AllUsable(s)
    ensures Stored(Encoded(s)) == s <==> AllFree(s)
  {
    PersistedSetReloads(AsList(s), s);
  }

  lemma EditedIsUsable(s: State, e: Edit)
    requires AllUsable(s.allowed)
    ensures AllUsable(Edited(s, e))
  {
    match e
    case Add(c) => NormCallIdempotent(c);
    case Remove(_) =>
    case Replace(cs) => CanonIsUsable(cs);
    case Reload => if CONFIG_KEY in s.config { StoredIsFree(s.config[CONFIG_KEY]); }
  }

  lemma EditedIsFree(s: State, e: Edit)
    requires Synced(s) && AllFree(s.allowed)
    ensures AllFree(Edited(s, e)) <==> FreeEdit(e)
  {
    if e.Add? && NormCall(e.call) != "" { assert NormCall(e.call) in Edited(s, e); }
  }

  lemma PersistSyncs(s: State, next: set<string>)
    requires AllUsable(next)
    ensures Synced(State(next, s.pinned, Persisted(s.config, next))) <==> AllFree(next)
  {
    EncodedReloads(next);
  }

  /** From an agreeing state, an edit leaves store and list in agreement exactly when the callsigns
      it brings in are free of separators. */
  lemma EditKeepsSyncIff(s: State, e: Edit)
    requires Synced(s)
    ensures Synced(Apply(s, e)) <==> FreeEdit(e)
  {
    StoredIsFree(s.config[CONFIG_KEY]);
    EditedIsUsable(s, e);
    EditedIsFree(s, e);
    PersistSyncs(s, Edited(s, e));
  }

  lemma {:induction false} EditsKeepSync(s: State, edits: seq<Edit>)
    requires Synced(s) && forall i :: 0 <= i < |edits| ==> FreeEdit(edits[i])
    ensures Synced(ApplyAll(s, edits)) && ApplyAll(s, edits).pinned == s.pinned
    decreases |edits|
  {
    if edits != [] {
      EditKeepsSyncIff(s, edits[0]);
      EditsKeepSync(Apply(s, edits[0]), edits[1..]);
    }
  }

  /** A first start agrees with its store exactly when the seed is free of separators; a later one always does. */
  lemma LoadSyncsIff(config: map<string, string>, seed: seq<string>, pins: seq<string>)
    ensures Synced(Load(config, seed, pins)) <==> CONFIG_KEY in config || AllFree(SetOf(Canon(seed)))
  {
    CanonIsUsable(seed);
    EncodedReloads(SetOf(Canon(seed)));
  }

  /** Restart equivalence: after any separator-free edits, a restart with the same pins, whatever the
      environment now says, admits exactly the same callers. An emptied list stays empty. */
  lemma RestartAdmitsTheSame(config: map<string, string>, seed: seq<string>, pins: seq<string>, edits: seq<Edit>,
                             newSeed: seq<string>, call: string)
    requires CONFIG_KEY in config || AllFree(SetOf(Canon(seed)))
    requires forall i :: 0 <= i < |edits| ==> FreeEdit(edits[i])
    ensures
      var s := ApplyAll(Load(config, seed, pins), edits);
      var t := Load(s.config, newSeed, pins);
      && t.allowed == s.allowed && t.config == s.config
      && (Admits(t.allowed, t.pinned, call) <==> Admits(s.allowed, s.pinned, call))
  {
    LoadSyncsIff(config, seed, pins);
    EditsKeepSync(Load(config, seed, pins), edits);
  }

  /** A pinned peer is admitted after any edits at all, and after any restart with its pin. */
  lemma {:induction false} PinsSurvive(s: State, edits: seq<Edit>, call: string)
    requires NormCall(call) in s.pinned && NormCall(call) != ""
    ensures var t := ApplyAll(s, edits); t.pinned == s.pinned && Admits(t.allowed, t.pinned, call)
    decreases |edits|
  {
    if edits != [] { PinsSurvive(Apply(s, edits[0]), edits[1..], call); }
  }

  // ---- who gets in, from the history alone ----

  /** The callsign is one of a list's, as the operator may have typed it. */
  ghost predicate Names(calls: seq<string>, c: string) { exists i :: 0 <= i < |calls| && NormCall(calls[i]) == c }

  datatype Verdict = In | Out | Silent

  /** What one edit says about a callsign. */
  ghost function Says(e: Edit, c: string): Verdict {
    match e
    case Add(call) => if NormCall(call) == c then In else Silent
    case Remove(call) => if NormCall(call) == c then Out else Silent
    case Replace(calls) => if Names(calls, c) then In else Out
    case Reload => Silent
  }

  /** The last edit that says anything about a callsign decides, and otherwise how it was at first. */
  ghost predicate LastWord(first: bool, edits: seq<Edit>, c: string) {
    if edits == [] then first
    else
      match Says(edits[|edits| - 1], c)
      case In => true
      case Out => false
      case Silent => LastWord(first, edits[..|edits| - 1], c)
  }

  lemma ListedIsNamed(calls: seq<string>, c: string)
    requires c != ""
    ensures c in SetOf(Canon(calls)) <==> Names(calls, c)
  {
    CanonMembers(calls, c);
  }

  /** One edit of an agreeing state, on one callsign. */
  lemma EditSays(s: State, e: Edit, c: string)
    requires Synced(s) && c != ""
    ensures c in Apply(s, e).allowed <==> match Says(e, c) case In => true case Out => false case Silent => c in s.allowed
  {
    if e.Replace? { ListedIsNamed(e.calls, c); }
  }

  lemma {:induction false} ApplyLast(s: State, edits: seq<Edit>, e: Edit)
    ensures ApplyAll(s, edits + [e]) == Apply(ApplyAll(s, edits), e)
    decreases |edits|
  {
    if edits == [] {
      assert [] + [e] == [e] && [e][1..] == [];
    } else {
      assert (edits + [e])[1..] == edits[1..] + [e];
      ApplyLast(Apply(s, edits[0]), edits[1..], e);
    }
  }

  lemma {:induction false} EditsSay(s: State, edits: seq<Edit>, c: string)
    requires Synced(s) && c != "" && forall i :: 0 <= i < |edits| ==> FreeEdit(edits[i])
    ensures c in ApplyAll(s, edits).allowed <==> LastWord(c in s.allowed, edits, c)
    decreases |edits|
  {
    if edits != [] {
      var init, e := edits[..|edits| - 1], edits[|edits| - 1];
      EditsSay(s, init, c);
      EditsKeepSync(s, init);
      assert edits == init + [e];
      ApplyLast(s, init, e);
      EditSays(ApplyAll(s, init), e, c);
    }
  }

  /** Who is listed after a first start and any separator-free edits: whoever a pin names, and whoever
      the last edit about it brought in, or, where none is about it, the environment's list. */
  lemma ListedByHistory(config: map<string, string>, seed: seq<string>, pins: seq<string>, edits: seq<Edit>, call: string)
    requires CONFIG_KEY !in config && AllFree(SetOf(Canon(seed))) && NormCall(call) != ""
    requires forall i :: 0 <= i < |edits| ==> FreeEdit(edits[i])
    ensures
      var s := ApplyAll(Load(config, seed, pins), edits);
      && (NormCall(call) in s.pinned <==> Names(pins, NormCall(call)))
      && (NormCall(call) in s.allowed <==> LastWord(Names(seed, NormCall(call)), edits, NormCall(call)))
  {
    var s := Load(config, seed, pins);
    LoadSyncsIff(config, seed, pins);
    EditsKeepSync(s, edits);
    EditsSay(s, edits, NormCall(call));
    ListedIsNamed(seed, NormCall(call));
    ListedIsNamed(pins, NormCall(call));
  }
}
