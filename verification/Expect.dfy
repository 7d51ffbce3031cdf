/** The connect-script engine: a sliding window over the byte stream, matched after every byte. */
module Expects {
  import opened Text
  import opened Lines

  // ---- unbounded search ----

  /** `want` occurs at `i`, ignoring case. */
  predicate MatchAt(s: string, i: nat, want: string)
    requires i + |want| <= |s|
  {
    forall j :: 0 <= j < |want| ==> UpperChar(want[j]) == UpperChar(s[i + j])
  }

  /** That is what comparing the two sides in upper case means. */
  lemma MatchIsFolded(s: string, i: nat, want: string)
    requires i + |want| <= |s|
    ensures MatchAt(s, i, want) <==> EqualFold(s[i..i + |want|], want)
  {
    UpperAt(want);
    var t := s[i..i + |want|];
    UpperAt(t);
    if MatchAt(s, i, want) {
      assert forall j :: 0 <= j < |want| ==> Upper(t)[j] == Upper(want)[j];
    }
    if EqualFold(t, want) {
      forall j | 0 <= j < |want|
        ensures UpperChar(want[j]) == UpperChar(s[i + j])
      {
        assert Upper(t)[j] == Upper(want)[j];
      }
    }
  }

  /** A piece of a stream matches where the stream does. */
  lemma MatchInPiece(s: string, a: nat, n: nat, i: nat, want: string)
    requires a <= i && i + |want| <= n <= |s|
    ensures MatchAt(s[a..n], i - a, want) <==> MatchAt(s, i, want)
  {
    var t := s[a..n];
    assert forall j :: 0 <= j < |want| ==> UpperChar(want[j]) == UpperChar(want[j]) && t[i - a + j] == s[i + j];
  }

  /** The bytes from `a` up to `n` end in `want`. */
  predicate EndsAt(s: string, a: nat, n: nat, want: string)
    requires a <= n <= |s|
  {
    a + |want| <= n && MatchAt(s, n - |want|, want)
  }

  /** `want` occurs within the bytes from `a` up to `n`. */
  predicate Within(s: string, a: nat, n: nat, want: string)
    requires a <= n <= |s|
  {
    exists i :: a <= i <= n - |want| && MatchAt(s, i, want)
  }

  predicate Contains(s: string, want: string) { Within(s, 0, |s|, want) }

  /** The end of the first match that starts at `a` or later and ends after `n`; past the stream if there is none. */
  function Next(s: string, a: nat, n: nat, want: string): (k: nat)
    requires a <= n <= |s|
    decreases |s| - n
  {
    if n == |s| then n + 1
    else if EndsAt(s, a, n + 1, want) then n + 1
    else Next(s, a, n + 1, want)
  }

  /** What one wait that starts at `a` consumes up to. */
  function Find(s: string, a: nat, want: string): (k: nat)
    requires a <= |s|
  {
    Next(s, a, a, want)
  }

  lemma {:induction false} NextIsFirst(s: string, a: nat, n: nat, want: string)
    requires a <= n <= |s|
    ensures n < Next(s, a, n, want) <= |s| + 1
    ensures Next(s, a, n, want) <= |s| ==> EndsAt(s, a, Next(s, a, n, want), want)
    ensures forall i :: n < i < Next(s, a, n, want) && i <= |s| ==> !EndsAt(s, a, i, want)
    decreases |s| - n
  {
    if n < |s| && !EndsAt(s, a, n + 1, want) {
      NextIsFirst(s, a, n + 1, want);
    }
  }

  /** The search finds the least non-empty stretch that ends in a match. */
  lemma FindIsLeast(s: string, a: nat, want: string, k: nat)
    requires a < k <= |s|
    ensures Find(s, a, want) == k
      <==> EndsAt(s, a, k, want) && forall i :: a < i < k ==> !EndsAt(s, a, i, want)
  {
    NextIsFirst(s, a, a, want);
  }

  /** And it finds something exactly when the stream holds the wanted text. */
  lemma FindsWhatIsThere(s: string, a: nat, want: string)
    requires a <= |s| && want != ""
    ensures Find(s, a, want) <= |s| <==> Within(s, a, |s|, want)
  {
    NextIsFirst(s, a, a, want);
    if Find(s, a, want) <= |s| {
      assert MatchAt(s, Find(s, a, want) - |want|, want);
    }
    if Within(s, a, |s|, want) {
      var i :| a <= i <= |s| - |want| && MatchAt(s, i, want);
      assert EndsAt(s, a, i + |want|, want);
    }
  }

  lemma EndsInRest(s: string, a: nat, n: nat, want: string)
    requires a <= n <= |s|
    ensures EndsAt(s[a..], 0, n - a, want) <==> EndsAt(s, a, n, want)
  {
    if a + |want| <= n {
      assert s[a..] == s[a..|s|];
      MatchInPiece(s, a, |s|, n - |want|, want);
    }
  }

  /** Searching the rest of a stream is searching the stream from there. */
  lemma {:induction false} NextInRest(s: string, t: string, a: nat, n: nat, want: string)
    requires a <= n <= |s| && t == s[a..]
    ensures Next(t, 0, n - a, want) == Next(s, a, n, want) - a
    decreases |s| - n
  {
    if n < |s| {
      NextInRest(s, t, a, n + 1, want);
      EndsInRest(s, a, n + 1, want);
    }
  }

  // ---- the window ----

  const MARGIN: nat := 64

  function Keep(want: string): nat { |want| + MARGIN }

  /** The window after one more byte. */
  function Slide(window: string, c: char, keep: nat): string {
    var w := window + [c];
    if |w| > keep * 2 then w[|w| - keep..] else w
  }

  /** The window holds the last of the `n` bytes read: all of them, or at least enough for a match. */
  predicate Covers(s: string, n: nat, window: string, want: string) {
    && |window| <= n <= |s| && window == s[n - |window|..n]
    && (|window| == n || |window| >= Keep(want)) && |window| <= 2 * Keep(want)
  }

  lemma SlideCovers(s: string, n: nat, window: string, want: string)
    requires Covers(s, n, window, want) && n < |s|
    ensures Covers(s, n + 1, Slide(window, s[n], Keep(want)), want)
  {
  }

  /** The window matches exactly where the stream does. */
  lemma WindowIsFaithful(s: string, n: nat, w: string, want: string)
    requires Covers(s, n, w, want)
    ensures Contains(w, want) <==> Within(s, n - |w|, n, want)
  {
    var m := n - |w|;
    if Contains(w, want) {
      var i :| 0 <= i <= |w| - |want| && MatchAt(w, i, want);
      MatchInPiece(s, m, n, m + i, want);
      assert MatchAt(s, m + i, want);
    }
    if Within(s, m, n, want) {
      var i :| m <= i <= n - |want| && MatchAt(s, i, want);
      MatchInPiece(s, m, n, i, want);
      assert MatchAt(w, i - m, want);
    }
  }

  /** Where nothing matched before, a new byte can only complete a match at the end. */
  lemma OnlyAtTheEnd(s: string, m: nat, n: nat, want: string)
    requires m <= n < |s| && (want != "" ==> !Within(s, 0, n, want)) && (m == 0 || m + |want| <= n + 1)
    ensures Within(s, m, n + 1, want) <==> EndsAt(s, 0, n + 1, want)
    ensures want != "" && !Within(s, m, n + 1, want) ==> !Within(s, 0, n + 1, want)
  {
    if EndsAt(s, 0, n + 1, want) { assert MatchAt(s, n + 1 - |want|, want); }
  }

  /** The state of a wait: `n` bytes read, none of which completed a match. */
  ghost predicate Hunting(s: string, n: nat, window: string, want: string) {
    && Covers(s, n, window, want)
    && (want != "" ==> !Within(s, 0, n, want))
    && Find(s, 0, want) == Next(s, 0, n, want)
  }

  /** The slid window matches exactly when the whole input would. */
  lemma HuntStep(s: string, n: nat, window: string, want: string)
    requires Hunting(s, n, window, want) && n < |s|
    ensures
      var w := Slide(window, s[n], Keep(want));
      && |w| <= 2 * Keep(want)
      && if Contains(w, want) then Find(s, 0, want) == n + 1 else Hunting(s, n + 1, w, want)
  {
    var w := Slide(window, s[n], Keep(want));
    SlideCovers(s, n, window, want);
    WindowIsFaithful(s, n + 1, w, want);
    OnlyAtTheEnd(s, n + 1 - |w|, n, want);
  }

  /** The substring test, with both sides folded. */
  method Occurs(s: string, want: string) returns (found: bool)
    ensures found == Contains(s, want)
  {
    var i := 0;
    while i + |want| <= |s|
      invariant forall j :: 0 <= j < i && j <= |s| - |want| ==> !MatchAt(s, j, want)
    {
      MatchIsFolded(s, i, want);
      if EqualFold(s[i..i + |want|], want) { return true; }
      i := i + 1;
    }
    return false;
  }

  /** Appends a byte to the window, which is cut back to its last `keep` bytes when it gets too long. */
  method Append(window: string, c: char, keep: nat) returns (w: string)
    ensures w == Slide(window, c, keep)
  {
    w := window + [c];
    if |w| > keep * 2 { w := w[|w| - keep..]; }
  }

  lemma HuntStarts(s: string, want: string)
    ensures Hunting(s, 0, "", want)
  {
  }

  lemma HuntFails(s: string, window: string, want: string)
    requires Hunting(s, |s|, window, want)
    ensures Find(s, 0, want) > |s|
  {
  }

  /** Waits for `want`: on success exactly the shortest matching prefix is consumed, and otherwise
      the stream has ended without a match. The window stays bounded. */
  method Expect(br: ByteReader, want: string) returns (ok: bool, ghost widest: nat)
    modifies br
    ensures var k := Find(old(br.rest), 0, want);
            ok == (k <= |old(br.rest)|) && br.rest == if ok then old(br.rest)[k..] else ""
    ensures widest <= 2 * Keep(want) + 1
  {
    var keep := |want| + 64;
    var window := "";
    ghost var s := br.rest;
    ghost var n := 0;
    widest := 0;
    HuntStarts(s, want);
    while true
      invariant n <= |s| && br.rest == s[n..] && |window| <= 2 * keep
      invariant Hunting(s, n, window, want)
      invariant widest <= 2 * keep + 1
      decreases |br.rest|
    {
      var eof, c := br.ReadByte();
      if eof {
        HuntFails(s, window, want);
        return false, widest;
      }
      HuntStep(s, n, window, want);
      assert s[n..][1..] == s[n + 1..];
      widest := if |window| + 1 > widest then |window| + 1 else widest;
      window := Append(window, c, keep);
      var found := Occurs(window, want);
      if found { return true, widest; }
      n := n + 1;
    }
  }

  // ---- connect scripts ----

  /** Wait for `want` ("": do not wait), then send `send` ("": send nothing). */
  datatype Step = Step(want: string, send: string)

  /** A line written when `at` bytes of the stream had been read. */
  datatype Sent = Sent(line: string, at: nat)

  /** Where a step that starts at byte `a` ends; past the stream if its text never comes. */
  function StepEnd(s: string, st: Step, a: nat): nat
    requires a <= |s|
  {
    if st.want == "" then a else Find(s, a, st.want)
  }

  /** Where each completed step ends, from step `i` on, when every step takes the first match it can. */
  function Cuts(s: string, steps: seq<Step>, i: nat, a: nat): (cuts: seq<nat>)
    requires a <= |s| && i <= |steps|
    ensures |cuts| <= |steps| - i
    decreases |steps| - i
  {
    if i == |steps| then []
    else
      var e := StepEnd(s, steps[i], a);
      if e > |s| then [] else [e] + Cuts(s, steps, i + 1, e)
  }

  function Start(p: seq<nat>, i: nat): nat
    requires i <= |p|
  {
    if i == 0 then 0 else p[i - 1]
  }

  /** A step's text lies between where the step before it ends and where it ends. */
  predicate StepFits(s: string, st: Step, a: nat, e: nat) {
    a <= e <= |s| && (st.want != "" ==> EndsAt(s, a, e, st.want))
  }

  /** The first steps of a script, placed in order in the stream. */
  ghost predicate PlacedSoFar(s: string, steps: seq<Step>, p: seq<nat>) {
    |p| <= |steps| && forall i :: 0 <= i < |p| ==> StepFits(s, steps[i], Start(p, i), p[i])
  }

  /** An arbitrary in-order placement of a script's texts in the stream. */
  ghost predicate Placed(s: string, steps: seq<Step>, p: seq<nat>) {
    |p| == |steps| && PlacedSoFar(s, steps, p)
  }

  ghost predicate Placeable(s: string, steps: seq<Step>) { exists p: seq<nat> :: Placed(s, steps, p) }

  lemma StepEndIsFirst(s: string, st: Step, a: nat, b: nat, e: nat)
    requires a <= b && StepFits(s, st, b, e)
    ensures StepEnd(s, st, a) <= e
  {
    NextIsFirst(s, a, a, st.want);
    assert st.want != "" ==> EndsAt(s, a, e, st.want);
  }

  lemma StepEndFits(s: string, st: Step, a: nat)
    requires a <= |s| && StepEnd(s, st, a) <= |s|
    ensures StepFits(s, st, a, StepEnd(s, st, a))
  {
    NextIsFirst(s, a, a, st.want);
  }

  /** Wherever a step starts that starts no later than it is placed, it ends no later. */
  ghost predicate NeverEarlier(s: string, steps: seq<Step>, p: seq<nat>) {
    && |p| == |steps| && (forall j :: 0 <= j < |p| ==> p[j] <= |s|)
    && forall j, a :: 0 <= j < |p| && 0 <= a <= Start(p, j) ==> StepEnd(s, steps[j], a) <= p[j]
  }

  lemma PlacedAt(s: string, steps: seq<Step>, p: seq<nat>, i: nat)
    requires Placed(s, steps, p) && i < |steps|
    ensures StepFits(s, steps[i], Start(p, i), p[i]) && p[i] <= |s|
  {
  }

  lemma PlacedIsNeverEarlier(s: string, steps: seq<Step>, p: seq<nat>)
    requires Placed(s, steps, p)
    ensures NeverEarlier(s, steps, p)
  {
    forall j | 0 <= j < |p|
      ensures p[j] <= |s|
    {
      PlacedAt(s, steps, p, j);
    }
    forall j, a | 0 <= j < |p| && 0 <= a <= Start(p, j)
      ensures StepEnd(s, steps[j], a) <= p[j]
    {
      PlacedAt(s, steps, p, j);
      StepEndIsFirst(s, steps[j], a, Start(p, j), p[j]);
    }
  }

  lemma FirstCut(s: string, steps: seq<Step>, i: nat, a: nat, j: int)
    requires i < |steps| && a <= |s| && StepEnd(s, steps[i], a) <= |s|
    ensures
      var all, more := Cuts(s, steps, i, a), Cuts(s, steps, i + 1, StepEnd(s, steps[i], a));
      && |all| == |more| + 1 && all[0] == StepEnd(s, steps[i], a)
      && (0 < j < |all| ==> all[j] == more[j - 1])
  {
  }

  lemma {:induction false} CutsAreNoLater(s: string, steps: seq<Step>, i: nat, a: nat, p: seq<nat>, k: nat)
    requires NeverEarlier(s, steps, p) && i <= |steps| && a <= Start(p, i) && a <= |s|
    ensures |Cuts(s, steps, i, a)| == |steps| - i
    ensures i <= k < |p| ==> Cuts(s, steps, i, a)[k - i] <= p[k]
    decreases |steps| - i
  {
    if i < |steps| {
      var e := StepEnd(s, steps[i], a);
      CutsAreNoLater(s, steps, i + 1, e, p, k);
      FirstCut(s, steps, i, a, k - i);
    }
  }

  /** Taking the first match never loses: a script that can be placed at all completes, and no
      placement ends any of its steps, here step `k`, earlier. */
  lemma FirstMatchesAreBest(s: string, steps: seq<Step>, i: nat, a: nat, p: seq<nat>, k: nat)
    requires Placed(s, steps, p) && i <= |steps| && a <= Start(p, i) && a <= |s|
    ensures |Cuts(s, steps, i, a)| == |steps| - i
    ensures i <= k < |p| ==> Cuts(s, steps, i, a)[k - i] <= p[k]
  {
    PlacedIsNeverEarlier(s, steps, p);
    CutsAreNoLater(s, steps, i, a, p, k);
  }

  /** What a script took so far fits, and so does all it takes. */
  lemma {:induction false} CutsArePlaced(s: string, steps: seq<Step>, done: seq<nat>, a: nat, all: seq<nat>)
    requires PlacedSoFar(s, steps, done) && a == Start(done, |done|) && a <= |s|
    requires all == done + Cuts(s, steps, |done|, a) && |all| == |steps|
    ensures Placed(s, steps, all)
    decreases |steps| - |done|
  {
    if |done| < |steps| {
      var e := StepEnd(s, steps[|done|], a);
      assert e <= |s|;
      NextCut(s, steps, done, |done|, a);
      StepEndFits(s, steps[|done|], a);
      PlacedOneMore(s, steps, done, e);
      CutsArePlaced(s, steps, done + [e], e, all);
    }
  }

  lemma NextCut(s: string, steps: seq<Step>, done: seq<nat>, i: nat, a: nat)
    requires i < |steps| && a <= |s| && StepEnd(s, steps[i], a) <= |s|
    ensures
      var e := StepEnd(s, steps[i], a);
      done + Cuts(s, steps, i, a) == (done + [e]) + Cuts(s, steps, i + 1, e)
  {
  }

  lemma PlacedOneMore(s: string, steps: seq<Step>, done: seq<nat>, e: nat)
    requires |done| < |steps| && PlacedSoFar(s, steps, done)
    requires StepFits(s, steps[|done|], Start(done, |done|), e)
    ensures PlacedSoFar(s, steps, done + [e])
  {
    var p := done + [e];
    forall i | 0 <= i < |p|
      ensures StepFits(s, steps[i], Start(p, i), p[i])
    {
      assert Start(p, i) == Start(done, i);
    }
  }

  /** A script completes on a stream exactly when its texts occur there in order, one after another. */
  lemma ScriptCompletesIff(s: string, steps: seq<Step>)
    ensures |Cuts(s, steps, 0, 0)| == |steps| <==> Placeable(s, steps)
  {
    if |Cuts(s, steps, 0, 0)| == |steps| {
      CutsArePlaced(s, steps, [], 0, Cuts(s, steps, 0, 0));
    }
    if Placeable(s, steps) {
      var p: seq<nat> :| Placed(s, steps, p);
      FirstMatchesAreBest(s, steps, 0, 0, p, 0);
    }
  }

  function Line(st: Step, at: nat): seq<Sent> { if st.send == "" then [] else [Sent(st.send + "\r", at)] }

  /** The lines sent: each completed step's, at the byte where its own match ended. */
  function Sends(steps: seq<Step>, cuts: seq<nat>): seq<Sent>
    requires |cuts| <= |steps|
  {
    if cuts == [] then []
    else
      var n := |cuts| - 1;
      Sends(steps, cuts[..n]) + Line(steps[n], cuts[n])
  }

  /** How many of the first `n` steps have something to say. */
  function Talks(steps: seq<Step>, n: nat): nat
    requires n <= |steps|
  {
    if n == 0 then 0 else Talks(steps, n - 1) + if steps[n - 1].send == "" then 0 else 1
  }

  /** The completed steps that have something to say say it, each its own line and a carriage return
      where its own match ended, in the order of the script; and nothing else is sent. */
  lemma {:induction false} EveryStepSpeaks(steps: seq<Step>, cuts: seq<nat>, i: nat)
    requires |cuts| <= |steps|
    ensures |Sends(steps, cuts)| == Talks(steps, |cuts|)
    ensures i < |cuts| && steps[i].send != "" ==>
      Talks(steps, i) < |Sends(steps, cuts)|
      && Sends(steps, cuts)[Talks(steps, i)] == Sent(steps[i].send + "\r", cuts[i])
    decreases |cuts|
  {
    if cuts != [] { EveryStepSpeaks(steps, cuts[..|cuts| - 1], i); }
  }

  /** A walk in progress: the steps up to `i` ended at `done`, and the rest go on from byte `at`. */
  ghost predicate Walked(s: string, steps: seq<Step>, i: nat, at: nat, done: seq<nat>, sent: seq<Sent>) {
    && i <= |steps| && at <= |s| && |done| == i && at == Start(done, i)
    && Cuts(s, steps, 0, 0) == done + Cuts(s, steps, i, at)
    && sent == Sends(steps, done)
  }

  lemma WalkStep(s: string, steps: seq<Step>, i: nat, at: nat, done: seq<nat>, sent: seq<Sent>)
    requires Walked(s, steps, i, at, done, sent) && i < |steps|
    ensures
      var e := StepEnd(s, steps[i], at);
      if e > |s| then Cuts(s, steps, 0, 0) == done
      else Walked(s, steps, i + 1, e, done + [e], sent + Line(steps[i], e))
  {
    var e := StepEnd(s, steps[i], at);
    assert (done + [e])[..i] == done;
    if e <= |s| { assert done + ([e] + Cuts(s, steps, i + 1, e)) == (done + [e]) + Cuts(s, steps, i + 1, e); }
  }

  lemma WalkEnds(s: string, steps: seq<Step>, at: nat, done: seq<nat>, sent: seq<Sent>)
    requires Walked(s, steps, |steps|, at, done, sent)
    ensures Cuts(s, steps, 0, 0) == done && |done| == |steps|
  {
  }

  /** The waiting half of a step. */
  method Await(br: ByteReader, st: Step, ghost s: string, ghost at: nat) returns (ok: bool)
    requires at <= |s| && br.rest == s[at..]
    modifies br
    ensures var e := StepEnd(s, st, at); ok == (e <= |s|) && (ok ==> at <= e && br.rest == s[e..])
  {
    if st.want == "" { return true; }
    NextInRest(s, br.rest, at, at, st.want);
    NextIsFirst(s, at, at, st.want);
    ghost var widest;
    ok, widest := Expect(br, st.want);
  }

  /** Walks a script. Every line goes out right after its own step's match, and on success the stream
      is left at the end of the last match. */
  method RunScript(br: ByteReader, steps: seq<Step>) returns (ok: bool, sent: seq<Sent>, at: nat)
    modifies br
    ensures var cuts := Cuts(old(br.rest), steps, 0, 0);
            && ok == (|cuts| == |steps|)
            && sent == Sends(steps, cuts)
            && (ok ==> at == Start(cuts, |cuts|))
    ensures ok ==> at <= |old(br.rest)| && br.rest == old(br.rest)[at..]
  {
    sent := [];
    var total := |br.rest|;
    ghost var s := br.rest;
    ghost var done: seq<nat> := [];
    var i: nat := 0;
    at := 0;
    while i < |steps|
      invariant i <= |steps| && at <= total == |s| && br.rest == s[at..]
      invariant Walked(s, steps, i, at, done, sent)
    {
      WalkStep(s, steps, i, at, done, sent);
      ok := Await(br, steps[i], s, at);
      if !ok { return; }
      at := total - |br.rest|;
      if steps[i].send != "" { sent := sent + [Sent(steps[i].send + "\r", at)]; }
      done := done + [at];
      i := i + 1;
    }
    WalkEnds(s, steps, at, done, sent);
    ok := true;
  }
}
