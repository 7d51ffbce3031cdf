/** Line reassembly from byte streams: the session's capped assembler and the link's line reader. */
module Lines {
  import opened Text

  const MAX_LINE: nat := 512
  const MAX_LINK_LINE: nat := 4096

  // ---- the lines of a stream ----

  /** The terminated segments of a stream, in order, terminators stripped. */
  function Segments(s: string): seq<string>
    decreases |s|
  {
    var n := TokenLen(IsCrLf, s);
    if n == |s| then [] else [s[..n]] + Segments(s[n + 1..])
  }

  /** What follows the last terminator. */
  function Partial(s: string): string
    decreases |s|
  {
    var n := TokenLen(IsCrLf, s);
    if n == |s| then s else Partial(s[n + 1..])
  }

  function Cap(s: string, max: nat): string { if |s| > max then s[..max] else s }

  function CapAll(lines: seq<string>, max: nat): seq<string> {
    if lines == [] then [] else CapAll(lines[..|lines| - 1], max) + [Cap(lines[|lines| - 1], max)]
  }

  function NonEmpty(lines: seq<string>): seq<string> {
    if lines == [] then []
    else
      var before := NonEmpty(lines[..|lines| - 1]);
      if lines[|lines| - 1] == "" then before else before + [lines[|lines| - 1]]
  }

  /** One more byte either ends the partial line or extends it. */
  lemma {:induction false} OneMoreByte(s: string, c: char)
    ensures Segments(s + [c]) == if IsCrLf(c) then Segments(s) + [Partial(s)] else Segments(s)
    ensures Partial(s + [c]) == if IsCrLf(c) then "" else Partial(s) + [c]
    decreases |s|
  {
    var n, t := TokenLen(IsCrLf, s), s + [c];
    if n == |s| {
      if IsCrLf(c) {
        assert t[..n] == s;
        assert t[..n] == s[..n];
        TokenLenUnique(IsCrLf, t, n);
        assert t[n + 1..] == "";
      } else {
        assert t[..|t|] == t;
        assert s[..n] == s;
        TokenLenUnique(IsCrLf, t, |t|);
      }
    } else {
      assert t[..n] == s[..n];
      TokenLenUnique(IsCrLf, t, n);
      assert t[n + 1..] == s[n + 1..] + [c];
      OneMoreByte(s[n + 1..], c);
    }
  }

  lemma CapAllOneMore(lines: seq<string>, l: string, max: nat)
    ensures CapAll(lines + [l], max) == CapAll(lines, max) + [Cap(l, max)]
  {
    assert (lines + [l])[..|lines|] == lines;
  }

  /** Capping keeps every line, in its place, as far as the cap. */
  lemma {:induction false} CapAllAt(lines: seq<string>, max: nat, i: nat)
    requires i < |lines|
    ensures |CapAll(lines, max)| == |lines| && CapAll(lines, max)[i] <= lines[i]
    ensures |CapAll(lines, max)[i]| == if |lines[i]| < max then |lines[i]| else max
    decreases |lines|
  {
    var init := lines[..|lines| - 1];
    if i < |init| { CapAllAt(init, max, i); } else if init != [] { CapAllAt(init, max, 0); }
  }

  lemma NonEmptyOneMore(lines: seq<string>, l: string)
    ensures NonEmpty(lines + [l]) == if l == "" then NonEmpty(lines) else NonEmpty(lines) + [l]
  {
    assert (lines + [l])[..|lines|] == lines;
  }

  lemma {:induction false} NonEmptyBoth(a: seq<string>, b: seq<string>)
    ensures NonEmpty(a + b) == NonEmpty(a) + NonEmpty(b)
  {
    if b == [] {
      assert a + b == a;
    } else {
      var init, l := b[..|b| - 1], b[|b| - 1];
      NonEmptyBoth(a, init);
      assert a + b == (a + init) + [l];
      NonEmptyOneMore(a + init, l);
      NonEmptyOneMore(init, l);
    }
  }

  // ---- the session's assembler ----

  /** The non-empty lines of a stream under a cap: what the assembler promises. */
  function CappedLines(s: string, max: nat): seq<string> { NonEmpty(CapAll(Segments(s), max)) }

  lemma CappedOneMore(s: string, c: char, max: nat)
    ensures CappedLines(s + [c], max)
         == if IsCrLf(c) && Cap(Partial(s), max) != "" then CappedLines(s, max) + [Cap(Partial(s), max)]
            else CappedLines(s, max)
  {
    OneMoreByte(s, c);
    if IsCrLf(c) {
      CapAllOneMore(Segments(s), Partial(s), max);
      NonEmptyOneMore(CapAll(Segments(s), max), Cap(Partial(s), max));
    }
  }

  /** What an assembler holds of a stream: the capped partial line, in overflow only when that is longer. */
  ghost predicate Holds(stream: string, max: nat, buf: string, overflow: bool) {
    max > 0 && buf == Cap(Partial(stream), max) && (overflow ==> |Partial(stream)| > max)
  }

  lemma OrdinaryByte(s: string, c: char, max: nat, buf: string, overflow: bool)
    requires Holds(s, max, buf, overflow) && !IsCrLf(c)
    ensures |buf| >= max ==> Holds(s + [c], max, buf, overflow) && Holds(s + [c], max, buf, true)
    ensures |buf| < max ==> !overflow && Holds(s + [c], max, buf + [c], false)
    ensures CappedLines(s + [c], max) == CappedLines(s, max)
  {
    OneMoreByte(s, c);
    CappedOneMore(s, c, max);
  }

  lemma TerminatorByte(s: string, c: char, max: nat, buf: string, overflow: bool, before: seq<string>, out: seq<string>)
    requires Holds(s, max, buf, overflow) && IsCrLf(c)
    requires CappedLines(s, max) == before + NonEmpty(out)
    ensures Holds(s + [c], max, "", false)
    ensures CappedLines(s + [c], max) == before + NonEmpty(out + [buf])
  {
    OneMoreByte(s, c);
    CappedOneMore(s, c, max);
    NonEmptyOneMore(out, buf);
  }

  /** The second half of a terminator pair completes only an empty line. */
  lemma PairedByte(s: string, c: char, max: nat)
    requires Holds(s, max, "", false) && IsCrLf(c)
    ensures Holds(s + [c], max, "", false) && CappedLines(s + [c], max) == CappedLines(s, max)
  {
    OneMoreByte(s, c);
    CappedOneMore(s, c, max);
  }

  /** A carriage return and a line feed next to each other, in either order, end one line. */
  predicate Pair(data: string, i: nat) {
    i + 1 < |data| && IsCrLf(data[i + 1]) && data[i + 1] != data[i]
  }

  /** The lines a chunk ends from byte `i` on, empty ones included, behind the partial line `p`. */
  function Ended(p: string, data: string, i: nat, max: nat): seq<string>
    decreases |data| - i
  {
    if i >= |data| then []
    else if !IsCrLf(data[i]) then Ended(p + [data[i]], data, i + 1, max)
    else [Cap(p, max)] + Ended("", data, if Pair(data, i) then i + 2 else i + 1, max)
  }

  /** A chunk is read from where it has been read to. */
  lemma {:induction false} EndedFrom(p: string, data: string, i: nat, max: nat)
    requires i <= |data|
    ensures Ended(p, data, i, max) == Ended(p, data[i..], 0, max)
    decreases |data| - i
  {
    if i < |data| {
      var rest := data[i..];
      assert rest[0] == data[i] && rest[1..] == data[i + 1..];
      assert Pair(data, i) <==> Pair(rest, 0);
      if !IsCrLf(data[i]) {
        EndedFrom(p + [data[i]], data, i + 1, max);
        EndedFrom(p + [data[i]], rest, 1, max);
      } else {
        var next := if Pair(data, i) then i + 2 else i + 1;
        assert rest[next - i..] == data[next..];
        EndedFrom("", data, next, max);
        EndedFrom("", rest, next - i, max);
      }
    }
  }

  /** Text before a terminator is one line behind what was held. */
  lemma {:induction false} TextIsOneLine(p: string, text: string, rest: string, max: nat)
    requires FreeOf(IsCrLf, text)
    ensures Ended(p, text + rest, 0, max) == Ended(p + text, rest, 0, max)
    decreases |text|
  {
    if text == [] {
      assert text + rest == rest && p + text == p;
    } else {
      var data := text + rest;
      assert data[1..] == text[1..] + rest && p + [text[0]] + text[1..] == p + text;
      EndedFrom(p + [text[0]], data, 1, max);
      TextIsOneLine(p + [text[0]], text[1..], rest, max);
    }
  }

  /** A carriage return and a line feed together end one line, in either order; two of a kind end two. */
  lemma TerminatorsEndLines(p: string, text: string, c: char, d: char, rest: string, max: nat)
    requires FreeOf(IsCrLf, text) && IsCrLf(c) && IsCrLf(d)
    ensures Ended(p, text + [c, d] + rest, 0, max)
      == [Cap(p + text, max)] + Ended("", if c == d then [d] + rest else rest, 0, max)
    ensures rest == "" || !IsCrLf(rest[0]) ==>
      Ended(p, text + [c] + rest, 0, max) == [Cap(p + text, max)] + Ended("", rest, 0, max)
    ensures Ended(p, text, 0, max) == []
  {
    var data := [c, d] + rest;
    assert text + [c, d] + rest == text + data;
    TextIsOneLine(p, text, data, max);
    assert data[1..] == [d] + rest && data[2..] == rest;
    EndedFrom("", data, if c == d then 1 else 2, max);
    assert text + [c] + rest == text + ([c] + rest) && ([c] + rest)[1..] == rest;
    TextIsOneLine(p, text, [c] + rest, max);
    EndedFrom("", [c] + rest, 1, max);
    TextIsOneLine(p, text, "", max);
    assert text + "" == text;
  }

  lemma OneMoreOf(data: string, i: nat, before: string)
    requires i < |data|
    ensures before + data[..i + 1] == before + data[..i] + [data[i]]
  {
    assert data[..i + 1] == data[..i] + [data[i]];
  }

  /** The state of a `Feed` loop, `data[..i]` having been consumed after `was`: what is held, what has
      been completed, and what is still to come. */
  ghost predicate Consumed(was: string, data: string, i: nat, max: nat, buf: string, overflow: bool, out: seq<string>) {
    && i <= |data|
    && Holds(was + data[..i], max, buf, overflow)
    && CappedLines(was + data[..i], max) == CappedLines(was, max) + NonEmpty(out)
  }

  ghost predicate Emitted(was: string, data: string, i: nat, max: nat, out: seq<string>) {
    i <= |data| && Ended(Partial(was), data, 0, max) == out + Ended(Partial(was + data[..i]), data, i, max)
  }

  ghost predicate Fed(was: string, data: string, i: nat, max: nat, buf: string, overflow: bool, out: seq<string>) {
    Consumed(was, data, i, max, buf, overflow, out) && Emitted(was, data, i, max, out)
  }

  lemma FedNothing(was: string, data: string, max: nat, buf: string, overflow: bool)
    requires Holds(was, max, buf, overflow)
    ensures Fed(was, data, 0, max, buf, overflow, [])
  {
    assert was + data[..0] == was;
  }

  lemma ConsumedOrdinary(was: string, data: string, i: nat, max: nat, buf: string, overflow: bool, out: seq<string>)
    requires Consumed(was, data, i, max, buf, overflow, out) && i < |data| && !IsCrLf(data[i])
    ensures |buf| >= max ==>
      Consumed(was, data, i + 1, max, buf, overflow, out) && Consumed(was, data, i + 1, max, buf, true, out)
    ensures |buf| < max ==> !overflow && Consumed(was, data, i + 1, max, buf + [data[i]], false, out)
  {
    OneMoreOf(data, i, was);
    OrdinaryByte(was + data[..i], data[i], max, buf, overflow);
  }

  lemma ConsumedTerminator(was: string, data: string, i: nat, max: nat, buf: string, overflow: bool, out: seq<string>)
    requires Consumed(was, data, i, max, buf, overflow, out) && i < |data| && IsCrLf(data[i])
    ensures Consumed(was, data, if Pair(data, i) then i + 2 else i + 1, max, "", false, out + [buf])
  {
    OneMoreOf(data, i, was);
    TerminatorByte(was + data[..i], data[i], max, buf, overflow, CappedLines(was, max), out);
    if Pair(data, i) {
      OneMoreOf(data, i + 1, was);
      PairedByte(was + data[..i + 1], data[i + 1], max);
    }
  }

  lemma EmittedOrdinary(was: string, data: string, i: nat, max: nat, out: seq<string>)
    requires Emitted(was, data, i, max, out) && i < |data| && !IsCrLf(data[i])
    ensures Emitted(was, data, i + 1, max, out)
  {
    OneMoreOf(data, i, was);
    OneMoreByte(was + data[..i], data[i]);
  }

  lemma PartialAfter(was: string, data: string, i: nat)
    requires i < |data| && IsCrLf(data[i])
    ensures Partial(was + data[..i + 1]) == ""
    ensures Pair(data, i) ==> Partial(was + data[..i + 2]) == ""
  {
    OneMoreOf(data, i, was);
    OneMoreByte(was + data[..i], data[i]);
    if Pair(data, i) {
      OneMoreOf(data, i + 1, was);
      OneMoreByte(was + data[..i + 1], data[i + 1]);
    }
  }

  lemma EmittedTerminator(was: string, data: string, i: nat, max: nat, out: seq<string>)
    requires Emitted(was, data, i, max, out) && i < |data| && IsCrLf(data[i])
    ensures Emitted(was, data, if Pair(data, i) then i + 2 else i + 1, max, out + [Cap(Partial(was + data[..i]), max)])
  {
    PartialAfter(was, data, i);
    var j := if Pair(data, i) then i + 2 else i + 1;
    var line := Cap(Partial(was + data[..i]), max);
    assert out + ([line] + Ended("", data, j, max)) == (out + [line]) + Ended("", data, j, max);
  }

  /** What an ordinary byte makes of the buffer. */
  predicate PutInto(max: nat, buf: string, overflow: bool, c: char, buf': string, overflow': bool) {
    if overflow || |buf| >= max then buf' == buf && overflow' else buf' == buf + [c] && !overflow'
  }

  lemma FedOrdinary(was: string, data: string, i: nat, max: nat, buf: string, overflow: bool, out: seq<string>,
                    buf': string, overflow': bool)
    requires Fed(was, data, i, max, buf, overflow, out) && i < |data| && !IsCrLf(data[i])
    requires PutInto(max, buf, overflow, data[i], buf', overflow')
    ensures Fed(was, data, i + 1, max, buf', overflow', out)
  {
    ConsumedOrdinary(was, data, i, max, buf, overflow, out);
    EmittedOrdinary(was, data, i, max, out);
  }

  lemma FedTerminator(was: string, data: string, i: nat, max: nat, buf: string, overflow: bool, out: seq<string>, j: nat)
    requires Fed(was, data, i, max, buf, overflow, out) && i < |data| && IsCrLf(data[i])
    requires j == if Pair(data, i) then i + 2 else i + 1
    ensures Fed(was, data, j, max, "", false, out + [buf])
  {
    ConsumedTerminator(was, data, i, max, buf, overflow, out);
    EmittedTerminator(was, data, i, max, out);
  }

  lemma FedAll(was: string, data: string, max: nat, buf: string, overflow: bool, out: seq<string>)
    requires Fed(was, data, |data|, max, buf, overflow, out)
    ensures Holds(was + data, max, buf, overflow) && out == Ended(Partial(was), data, 0, max)
    ensures CappedLines(was + data, max) == CappedLines(was, max) + NonEmpty(out)
  {
    assert data[..|data|] == data;
  }

  class LineAssembler {
    const max: nat
    var buf: string
    var overflow: bool

    /** Everything fed so far. */
    ghost var stream: string

    ghost predicate Valid()
      reads this
    {
      Holds(stream, max, buf, overflow)
    }

    constructor (max: int)
      ensures Valid() && stream == "" && this.max == (if max <= 0 then MAX_LINE else max)
    {
      this.max := if max <= 0 then MAX_LINE else max;
      buf, overflow, stream := "", false, "";
    }

    /** Takes an ordinary byte into the line, unless the cap is reached. */
    method Put(c: char)
      modifies this`buf, this`overflow
      ensures PutInto(max, old(buf), old(overflow), c, buf, overflow)
    {
      if overflow { return; }
      if |buf| >= max {
        overflow := true;
        return;
      }
      buf := buf + [c];
    }

    /** Hands the line over and starts the next. */
    method Finish() returns (line: string)
      modifies this`buf, this`overflow
      ensures line == old(buf) && buf == "" && !overflow
    {
      line, buf, overflow := buf, "", false;
    }

    /** Takes what is at byte `i`: an ordinary byte, or a terminator or a pair of them. */
    method Take(data: string, i: nat, out: seq<string>) returns (j: nat, more: seq<string>)
      requires i < |data| && Fed(stream, data, i, max, buf, overflow, out)
      modifies this`buf, this`overflow
      ensures i < j <= |data| && Fed(stream, data, j, max, buf, overflow, more)
    {
      var c := data[i];
      ghost var held, over := buf, overflow;
      if c == '\r' || c == '\n' {
        j := i + 1;
        if i + 1 < |data| && (data[i + 1] == '\r' || data[i + 1] == '\n') && data[i + 1] != c { j := i + 2; }
        FedTerminator(stream, data, i, max, held, over, out, j);
        var line := Finish();
        more := out + [line];
      } else {
        Put(c);
        FedOrdinary(stream, data, i, max, held, over, out, buf, overflow);
        j, more := i + 1, out;
      }
    }

    /** Consumes a chunk. Whatever the chunk boundaries, the non-empty lines completed so far are the
        non-empty lines of the stream under the cap, and no more than the cap is buffered. What this
        chunk completes is exact, empty lines included. */
    method Feed(data: string) returns (out: seq<string>)
      requires Valid()
      modifies this
      ensures Valid() && stream == old(stream) + data && |buf| <= max
      ensures CappedLines(stream, max) == CappedLines(old(stream), max) + NonEmpty(out)
      ensures out == Ended(Partial(old(stream)), data, 0, max)
    {
      out := [];
      var i: nat := 0;
      FedNothing(stream, data, max, buf, overflow);
      while i < |data|
        invariant i <= |data| && stream == old(stream)
        invariant Fed(stream, data, i, max, buf, overflow, out)
      {
        i, out := Take(data, i, out);
      }
      FedAll(stream, data, max, buf, overflow, out);
      stream := stream + data;
    }
  }

  function Concat(chunks: seq<string>): string {
    if chunks == [] then "" else Concat(chunks[..|chunks| - 1]) + chunks[|chunks| - 1]
  }

  /** A session's input loop: the chunks of a stream, however it was cut up, fed to one assembler. */
  method FeedAll(chunks: seq<string>, max: int) returns (out: seq<string>)
    ensures NonEmpty(out) == CappedLines(Concat(chunks), if max <= 0 then MAX_LINE else max)
  {
    var a := new LineAssembler(max);
    out := [];
    var i := 0;
    while i < |chunks|
      invariant 0 <= i <= |chunks| && fresh(a) && a.Valid() && a.stream == Concat(chunks[..i])
      invariant NonEmpty(out) == CappedLines(a.stream, a.max)
    {
      assert chunks[..i + 1][..i] == chunks[..i];
      var lines := a.Feed(chunks[i]);
      NonEmptyBoth(out, lines);
      out := out + lines;
      i := i + 1;
    }
    assert chunks[..i] == chunks;
  }

  // ---- the link's line reader ----

  /** A buffered reader: the bytes still to come, after which the stream has ended. */
  class ByteReader {
    var rest: string

    constructor (rest: string)
      ensures this.rest == rest
    {
      this.rest := rest;
    }

    method ReadByte() returns (eof: bool, c: char)
      modifies this
      ensures eof == (old(rest) == "")
      ensures eof ==> rest == ""
      ensures !eof ==> c == old(rest)[0] && rest == old(rest)[1..]
    {
      if rest == "" { return true, ' '; }
      c, rest := rest[0], rest[1..];
      return false, c;
    }
  }

  /** Reads one terminated line, keeping at most the cap; an unterminated tail is end of stream. */
  method ReadLine(br: ByteReader) returns (eof: bool, line: string)
    modifies br
    ensures eof == (Segments(old(br.rest)) == [])
    ensures !eof ==> line == Cap(Segments(old(br.rest))[0], MAX_LINK_LINE)
                     && Segments(br.rest) == Segments(old(br.rest))[1..] && |br.rest| < |old(br.rest)|
                     && Partial(br.rest) == Partial(old(br.rest))
  {
    var b := "";
    ghost var s := br.rest;
    ghost var n := 0;
    assert s[..0] == "" && s[0..] == s;
    while true
      invariant 0 <= n <= |s| && br.rest == s[n..] && FreeOf(IsCrLf, s[..n]) && b == Cap(s[..n], MAX_LINK_LINE)
      decreases |br.rest|
    {
      var ended, c := br.ReadByte();
      if ended {
        assert s[..n] == s;
        TokenLenUnique(IsCrLf, s, n);
        return true, "";
      }
      assert c == s[n] && s[n..][1..] == s[n + 1..];
      if c == '\r' || c == '\n' {
        TokenLenUnique(IsCrLf, s, n);
        return false, b;
      }
      assert s[..n + 1] == s[..n] + [c];
      if |b| < MAX_LINK_LINE { b := b + [c]; }
      n := n + 1;
    }
  }

  /** The lines a link reader takes from a stream. */
  function LinesOf(s: string): seq<string> { CapAll(Segments(s), MAX_LINK_LINE) }

  lemma {:induction false} CapAllFirst(lines: seq<string>, max: nat)
    requires lines != []
    ensures CapAll(lines, max) == [Cap(lines[0], max)] + CapAll(lines[1..], max)
  {
    var n := |lines| - 1;
    if n > 0 {
      CapAllFirst(lines[..n], max);
      assert lines[..n][1..] == lines[1..][..n - 1];
      CapAllOneMore(lines[1..][..n - 1], lines[n], max);
      assert lines[1..][..n - 1] + [lines[n]] == lines[1..];
    } else {
      assert lines[..0] == [] && lines[1..] == [];
    }
  }

  /** Reading line after line yields every terminated segment of the stream, capped: on terminated
      input the same non-empty lines as an assembler with the same cap. */
  method ReadAllLines(stream: string) returns (out: seq<string>)
    ensures out == CapAll(Segments(stream), MAX_LINK_LINE)
    ensures NonEmpty(out) == CappedLines(stream, MAX_LINK_LINE)
  {
    var br := new ByteReader(stream);
    out := [];
    while true
      invariant fresh(br)
      invariant CapAll(Segments(stream), MAX_LINK_LINE) == out + CapAll(Segments(br.rest), MAX_LINK_LINE)
      decreases |br.rest|
    {
      ghost var before := Segments(br.rest);
      var eof, line := ReadLine(br);
      if eof { return; }
      CapAllFirst(before, MAX_LINK_LINE);
      out := out + [line];
    }
  }
}
