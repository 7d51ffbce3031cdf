/** The string vocabulary of the chat code: case folding, trimming and field splitting.
    A `char` stands for one byte; folding and white space are those of ASCII, and every
    other byte is neither cased nor blank. */
module Text {

  /** The blanks of ASCII: space and the bytes 9 to 13. */
  predicate IsSpace(c: char) { c == ' ' || '\t' <= c <= '\r' }

  predicate IsCrLf(c: char) { c == '\r' || c == '\n' }

  function UpperChar(c: char): char {
    if 'a' <= c <= 'z' then (c as int - 32) as char else c
  }

  function LowerChar(c: char): char {
    if 'A' <= c <= 'Z' then (c as int + 32) as char else c
  }

  function Upper(s: string): string {
    if s == [] then [] else [UpperChar(s[0])] + Upper(s[1..])
  }

  function Lower(s: string): string {
    if s == [] then [] else [LowerChar(s[0])] + Lower(s[1..])
  }

  lemma {:induction false} UpperAt(s: string)
    ensures |Upper(s)| == |s| && forall i :: 0 <= i < |s| ==> Upper(s)[i] == UpperChar(s[i])
  {
    if s != [] { UpperAt(s[1..]); }
  }

  lemma {:induction false} LowerAt(s: string)
    ensures |Lower(s)| == |s| && forall i :: 0 <= i < |s| ==> Lower(s)[i] == LowerChar(s[i])
  {
    if s != [] { LowerAt(s[1..]); }
  }

  /** Case-insensitive equality. */
  predicate EqualFold(a: string, b: string) { Upper(a) == Upper(b) }

  predicate AllSpace(s: string) { forall i :: 0 <= i < |s| ==> IsSpace(s[i]) }

  /** No byte of `s` is a separator. */
  predicate FreeOf(sep: char -> bool, s: string) { forall i :: 0 <= i < |s| ==> !sep(s[i]) }

  /** A non-empty run of non-separators: what field splitting yields. */
  predicate Token(sep: char -> bool, s: string) { s != [] && FreeOf(sep, s) }

  /** A blank-free, non-empty word. */
  predicate Word(s: string) { Token(IsSpace, s) }

  /** Neither end is blank. */
  predicate Clean(s: string) { s == [] || (!IsSpace(s[0]) && !IsSpace(s[|s| - 1])) }

  lemma {:induction false} FoldLaws(s: string)
    ensures Upper(Upper(s)) == Upper(s)
    ensures Lower(Upper(s)) == Lower(s)
    ensures Lower(Lower(s)) == Lower(s)
  {
    if s != [] { FoldLaws(s[1..]); }
  }

  /** Two bytes are the same letter, or the same byte. */
  predicate SameLetter(c: char, d: char) {
    || c == d
    || ('a' <= c <= 'z' && 'A' <= d <= 'Z' && c as int == d as int + 32)
    || ('A' <= c <= 'Z' && 'a' <= d <= 'z' && d as int == c as int + 32)
  }

  lemma LetterFolds(c: char, d: char)
    ensures UpperChar(c) == UpperChar(d) <==> SameLetter(c, d)
    ensures LowerChar(c) == LowerChar(d) <==> SameLetter(c, d)
  {
  }

  /** Folding forgets the case of ASCII letters and nothing else, whichever case it folds to. */
  lemma {:induction false} FoldsTheSame(a: string, b: string)
    ensures EqualFold(a, b) <==> |a| == |b| && forall i :: 0 <= i < |a| ==> SameLetter(a[i], b[i])
    ensures Lower(a) == Lower(b) <==> EqualFold(a, b)
  {
    if a == [] || b == [] {
      UpperAt(a);
      UpperAt(b);
      LowerAt(a);
      LowerAt(b);
    } else {
      LetterFolds(a[0], b[0]);
      FoldsTheSame(a[1..], b[1..]);
      SameFromFirst(a, b);
      assert Upper(a)[1..] == Upper(a[1..]) && Upper(b)[1..] == Upper(b[1..]);
      assert Lower(a)[1..] == Lower(a[1..]) && Lower(b)[1..] == Lower(b[1..]);
    }
  }

  lemma SameFromFirst(a: string, b: string)
    requires a != [] && b != []
    ensures (|a| == |b| && forall i :: 0 <= i < |a| ==> SameLetter(a[i], b[i]))
      <==> SameLetter(a[0], b[0]) && |a| == |b| && forall i :: 0 <= i < |a| - 1 ==> SameLetter(a[1..][i], b[1..][i])
  {
    if |a| == |b| {
      assert forall i :: 0 < i < |a| ==> a[i] == a[1..][i - 1] && b[i] == b[1..][i - 1];
    }
  }

  /** No letter of the other case is left. */
  lemma OneCaseIsLeft(s: string)
    ensures forall c :: c in Upper(s) ==> !('a' <= c <= 'z')
    ensures forall c :: c in Lower(s) ==> !('A' <= c <= 'Z')
  {
    UpperAt(s);
    LowerAt(s);
  }

  // ---- trimming ----

  function TrimLeft(s: string): string {
    if s != [] && IsSpace(s[0]) then TrimLeft(s[1..]) else s
  }

  function TrimRight(s: string): string {
    if s != [] && IsSpace(s[|s| - 1]) then TrimRight(s[..|s| - 1]) else s
  }

  function Trim(s: string): string { TrimRight(TrimLeft(s)) }

  /** Drops trailing carriage returns and line feeds. */
  function CutLineEnd(s: string): string {
    if s != [] && IsCrLf(s[|s| - 1]) then CutLineEnd(s[..|s| - 1]) else s
  }

  lemma {:induction false} TrimLeftParts(s: string) returns (a: string)
    ensures s == a + TrimLeft(s) && AllSpace(a)
    ensures TrimLeft(s) != [] ==> !IsSpace(TrimLeft(s)[0])
  {
    if s != [] && IsSpace(s[0]) {
      var a' := TrimLeftParts(s[1..]);
      a := [s[0]] + a';
      assert s == [s[0]] + s[1..];
    } else {
      a := [];
    }
  }

  lemma {:induction false} TrimRightParts(s: string) returns (b: string)
    ensures s == TrimRight(s) + b && AllSpace(b)
    ensures TrimRight(s) != [] ==> !IsSpace(TrimRight(s)[|TrimRight(s)| - 1])
  {
    if s != [] && IsSpace(s[|s| - 1]) {
      var b' := TrimRightParts(s[..|s| - 1]);
      b := b' + [s[|s| - 1]];
      assert s == s[..|s| - 1] + [s[|s| - 1]];
    } else {
      b := [];
    }
  }

  lemma {:induction false} CutLineEndParts(s: string) returns (b: string)
    ensures s == CutLineEnd(s) + b && AllSpace(b) && forall i :: 0 <= i < |b| ==> IsCrLf(b[i])
    ensures CutLineEnd(s) != [] ==> !IsCrLf(CutLineEnd(s)[|CutLineEnd(s)| - 1])
  {
    if s != [] && IsCrLf(s[|s| - 1]) {
      var b' := CutLineEndParts(s[..|s| - 1]);
      b := b' + [s[|s| - 1]];
      assert s == s[..|s| - 1] + [s[|s| - 1]];
    } else {
      b := [];
    }
  }

  /** What trimming keeps: a clean middle, with only blanks on either side. */
  lemma TrimParts(s: string) returns (a: string, b: string)
    ensures s == a + Trim(s) + b && AllSpace(a) && AllSpace(b) && Clean(Trim(s))
  {
    a := TrimLeftParts(s);
    b := TrimRightParts(TrimLeft(s));
  }

  lemma {:induction false} TrimLeftSkips(a: string, m: string)
    requires AllSpace(a) && (m != [] ==> !IsSpace(m[0]))
    ensures TrimLeft(a + m) == m
  {
    if a == [] {
      assert a + m == m;
    } else {
      assert (a + m)[1..] == a[1..] + m;
      TrimLeftSkips(a[1..], m);
    }
  }

  lemma {:induction false} TrimRightSkips(m: string, b: string)
    requires AllSpace(b) && (m != [] ==> !IsSpace(m[|m| - 1]))
    ensures TrimRight(m + b) == m
  {
    if b == [] {
      assert m + b == m;
    } else {
      assert (m + b)[..|m + b| - 1] == m + b[..|b| - 1];
      TrimRightSkips(m, b[..|b| - 1]);
    }
  }

  /** Trimming is determined by that decomposition. */
  lemma TrimUnique(s: string, a: string, m: string, b: string)
    requires s == a + m + b && AllSpace(a) && AllSpace(b) && Clean(m)
    ensures Trim(s) == m
  {
    if m == [] {
      assert s == (a + b) + [];
      TrimLeftSkips(a + b, []);
    } else {
      assert s == a + (m + b);
      TrimLeftSkips(a, m + b);
      TrimRightSkips(m, b);
    }
  }

  lemma TrimClean(s: string)
    requires Clean(s)
    ensures Trim(s) == s
  {
    assert s == [] + s + [];
    TrimUnique(s, [], s, []);
  }

  lemma TrimIdempotent(s: string)
    ensures Clean(Trim(s)) && Trim(Trim(s)) == Trim(s)
  {
    var a, b := TrimParts(s);
    TrimClean(Trim(s));
  }

  lemma TrimLength(s: string)
    ensures |Trim(s)| <= |s|
  {
    var a, b := TrimParts(s);
  }

  /** Cutting a trailing run of blanks first makes no difference to trimming. */
  lemma TrimAfterCut(s: string)
    ensures Trim(CutLineEnd(s)) == Trim(s) && |CutLineEnd(s)| <= |s|
  {
    var cut := CutLineEndParts(s);
    var a, b := TrimParts(CutLineEnd(s));
    assert s == a + Trim(CutLineEnd(s)) + (b + cut);
    TrimUnique(s, a, Trim(CutLineEnd(s)), b + cut);
  }

  // ---- canonical forms ----

  /** A callsign as a key: trimmed and upper-cased. */
  function NormCall(c: string): string { Upper(Trim(c)) }

  /** A topic name as a key: trimmed and lower-cased. */
  function TopicKey(name: string): string { Lower(Trim(name)) }

  lemma UpperKeepsShape(s: string)
    ensures Clean(s) ==> Clean(Upper(s))
    ensures Word(s) ==> Word(Upper(s))
  {
    UpperAt(s);
  }

  lemma NormCallIdempotent(c: string)
    ensures NormCall(NormCall(c)) == NormCall(c)
  {
    TrimIdempotent(c);
    UpperKeepsShape(Trim(c));
    TrimClean(NormCall(c));
    FoldLaws(Trim(c));
  }

  lemma WordIsClean(w: string)
    requires Word(w)
    ensures Clean(w) && Trim(w) == w && NormCall(w) == Upper(w)
  {
    TrimClean(w);
  }

  // ---- fields ----

  /** The length of the leading run of non-separators. */
  function TokenLen(sep: char -> bool, s: string): (n: nat)
    ensures n <= |s| && FreeOf(sep, s[..n]) && (n < |s| ==> sep(s[n]))
  {
    if s == [] || sep(s[0]) then 0 else
      var n := 1 + TokenLen(sep, s[1..]);
      assert s[..n] == [s[0]] + s[1..][..n - 1];
      n
  }

  lemma TokenLenUnique(sep: char -> bool, s: string, n: nat)
    requires n <= |s| && FreeOf(sep, s[..n]) && (n < |s| ==> sep(s[n]))
    ensures TokenLen(sep, s) == n
  {
    var m := TokenLen(sep, s);
    assert forall i :: 0 <= i < n ==> s[..n][i] == s[i];
    assert forall i :: 0 <= i < m ==> s[..m][i] == s[i];
  }

  /** The maximal runs of non-separators, in order. */
  function SplitOn(sep: char -> bool, s: string): (fs: seq<string>)
    ensures forall f :: f in fs ==> Token(sep, f)
    decreases |s|
  {
    if s == [] then []
    else if sep(s[0]) then SplitOn(sep, s[1..])
    else
      var n := TokenLen(sep, s);
      assert s[..n] != [];
      [s[..n]] + SplitOn(sep, s[n..])
  }

  function Fields(s: string): (fs: seq<string>)
    ensures forall f :: f in fs ==> Word(f)
  {
    SplitOn(IsSpace, s)
  }

  /** A separator splits the work in two. */
  lemma {:induction false} SplitAtSeparator(sep: char -> bool, a: string, c: char, b: string)
    requires sep(c)
    ensures SplitOn(sep, a + [c] + b) == SplitOn(sep, a) + SplitOn(sep, b)
    decreases |a|
  {
    var s := a + [c] + b;
    if a == [] {
      assert s[1..] == b;
    } else if sep(a[0]) {
      assert s[1..] == a[1..] + [c] + b;
      SplitAtSeparator(sep, a[1..], c, b);
    } else {
      var n := TokenLen(sep, a);
      assert s[..n] == a[..n];
      TokenLenUnique(sep, s, n);
      assert n != 0;
      assert s[n..] == a[n..] + [c] + b;
      SplitAtSeparator(sep, a[n..], c, b);
    }
  }

  lemma SplitToken(sep: char -> bool, w: string)
    requires Token(sep, w)
    ensures SplitOn(sep, w) == [w]
  {
    assert w[..|w|] == w;
    TokenLenUnique(sep, w, |w|);
    assert w[|w|..] == [];
  }

  /** A run of non-separators in front of a separator is the first field. */
  lemma SplitFirst(sep: char -> bool, w: string, c: char, b: string)
    requires Token(sep, w) && sep(c)
    ensures SplitOn(sep, w + [c] + b) == [w] + SplitOn(sep, b)
  {
    SplitAtSeparator(sep, w, c, b);
    SplitToken(sep, w);
  }

  function Join(fs: seq<string>, glue: char): string {
    if |fs| == 0 then [] else if |fs| == 1 then fs[0] else fs[0] + [glue] + Join(fs[1..], glue)
  }

  lemma {:induction false} SplitJoin(sep: char -> bool, fs: seq<string>, glue: char)
    requires sep(glue) && forall f :: f in fs ==> Token(sep, f)
    ensures SplitOn(sep, Join(fs, glue)) == fs
  {
    if |fs| == 1 {
      SplitToken(sep, fs[0]);
    } else if |fs| > 1 {
      SplitJoin(sep, fs[1..], glue);
      SplitFirst(sep, fs[0], glue, Join(fs[1..], glue));
      assert fs == [fs[0]] + fs[1..];
    }
  }

  /** Runs of blanks collapsed to one space, ends trimmed. */
  function Collapse(s: string): string { Join(Fields(s), ' ') }

  lemma {:induction false} JoinShape(fs: seq<string>)
    requires forall f :: f in fs ==> Word(f)
    ensures Clean(Join(fs, ' '))
    ensures fs != [] ==> Join(fs, ' ') != []
    ensures forall c :: c in Join(fs, ' ') ==> c == ' ' || !IsSpace(c)
  {
    if |fs| == 1 {
      assert Word(fs[0]);
    } else if |fs| > 1 {
      assert Word(fs[0]);
      JoinShape(fs[1..]);
    }
  }

  lemma CollapseLaws(s: string)
    ensures Clean(Collapse(s)) && Trim(Collapse(s)) == Collapse(s)
    ensures Fields(Collapse(s)) == Fields(s) && Collapse(Collapse(s)) == Collapse(s)
  {
    JoinShape(Fields(s));
    TrimClean(Collapse(s));
    SplitJoin(IsSpace, Fields(s), ' ');
  }

  lemma {:induction false} NoFieldsMeansBlank(s: string)
    ensures Fields(s) == [] <==> AllSpace(s)
    decreases |s|
  {
    if s != [] && IsSpace(s[0]) {
      NoFieldsMeansBlank(s[1..]);
      assert s == [s[0]] + s[1..];
    }
  }

  /** Swapping one blank for another changes no field. */
  lemma {:induction false} FieldsIgnoreBlankKind(s: string, t: string)
    requires |s| == |t|
    requires forall i :: 0 <= i < |s| ==> s[i] == t[i] || (IsSpace(s[i]) && IsSpace(t[i]))
    ensures Fields(s) == Fields(t)
    decreases |s|
  {
    if s == [] {
    } else if IsSpace(s[0]) {
      FieldsIgnoreBlankKind(s[1..], t[1..]);
    } else {
      var n := TokenLen(IsSpace, s);
      assert forall i :: 0 <= i < n ==> s[..n][i] == s[i];
      assert s[..n] == t[..n];
      TokenLenUnique(IsSpace, t, n);
      FieldsIgnoreBlankKind(s[n..], t[n..]);
    }
  }
}
