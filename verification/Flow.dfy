/** One direction of a link as bytes and as lines: everything written to it, how much of that has been
    read, and which lines that makes. */
module Flows {
  import opened Text
  import opened Lines

  /** One byte more either ends the line in progress or extends it. */
  lemma LinesOneMore(s: string, c: char)
    ensures LinesOf(s + [c]) == if IsCrLf(c) then LinesOf(s) + [Cap(Partial(s), MAX_LINK_LINE)] else LinesOf(s)
  {
    OneMoreByte(s, c);
    if IsCrLf(c) { CapAllOneMore(Segments(s), Partial(s), MAX_LINK_LINE); }
  }

  /** What is read never changes the lines already read. */
  lemma {:induction false} LinesGrow(s: string, t: string)
    ensures LinesOf(s) <= LinesOf(s + t)
    decreases |t|
  {
    if t == "" {
      assert s + t == s;
    } else {
      var init, c := t[..|t| - 1], t[|t| - 1];
      LinesGrow(s, init);
      assert s + t == (s + init) + [c];
      LinesOneMore(s + init, c);
    }
  }

  lemma {:induction false} PartialGrows(s: string, t: string)
    requires FreeOf(IsCrLf, t)
    ensures Partial(s + t) == Partial(s) + t && LinesOf(s + t) == LinesOf(s)
    decreases |t|
  {
    if t == "" {
      assert s + t == s;
    } else {
      var init, c := t[..|t| - 1], t[|t| - 1];
      PartialGrows(s, init);
      assert s + t == (s + init) + [c];
      OneMoreByte(s + init, c);
      LinesOneMore(s + init, c);
    }
  }

  /** A record written to a stream ends the line in progress there. */
  lemma FrameEndsLine(s: string, raw: string)
    requires FreeOf(IsCrLf, raw)
    ensures LinesOf(s + raw + ['\r']) == LinesOf(s) + [Cap(Partial(s) + raw, MAX_LINK_LINE)]
    ensures Partial(s + raw + ['\r']) == ""
  {
    PartialGrows(s, raw);
    OneMoreByte(s + raw, '\r');
    LinesOneMore(s + raw, '\r');
  }

  lemma NoBytesNoLines()
    ensures LinesOf("") == [] && Partial("") == ""
  {
    TokenLenUnique(IsCrLf, "", 0);
  }

  lemma LinesAppendByte(a: string, b: string, c: char, front: seq<string>)
    requires LinesOf(a) == front + LinesOf(b) && Partial(a) == Partial(b)
    ensures LinesOf(a + [c]) == front + LinesOf(b + [c]) && Partial(a + [c]) == Partial(b + [c])
  {
    LinesOneMore(a, c);
    LinesOneMore(b, c);
    OneMoreByte(a, c);
    OneMoreByte(b, c);
  }

  /** After a whole line, lines start afresh. */
  lemma {:induction false} LinesAppend(s: string, t: string)
    requires Partial(s) == ""
    ensures LinesOf(s + t) == LinesOf(s) + LinesOf(t) && Partial(s + t) == Partial(t)
    decreases |t|
  {
    if t == "" {
      assert s + t == s;
      NoBytesNoLines();
      assert LinesOf(s) + [] == LinesOf(s);
    } else {
      var init, c := t[..|t| - 1], t[|t| - 1];
      assert s + t == (s + init) + [c] && t == init + [c];
      LinesAppend(s, init);
      LinesAppendByte(s + init, init, c, LinesOf(s));
    }
  }

  /** The lines of bytes, then a frame, then more bytes. */
  lemma LinesAround(s: string, raw: string, t: string)
    requires FreeOf(IsCrLf, raw)
    ensures LinesOf(s + raw + ['\r'] + t) == LinesOf(s) + [Cap(Partial(s) + raw, MAX_LINK_LINE)] + LinesOf(t)
  {
    FrameEndsLine(s, raw);
    LinesAppend(s + raw + ['\r'], t);
  }

  /** The bytes written so far, of which `pos` have been read, are the lines in front, `before`, and
      then the lines `sent`; all but `left` of those in front and `read` of those sent have been read. */
  ghost predicate Flow(before: seq<string>, total: string, pos: nat, left: nat, sent: seq<string>, read: nat) {
    && pos <= |total| && left <= |before| && (read > 0 ==> left == 0)
    && LinesOf(total) == before + sent
    && |LinesOf(total[..pos])| == |before| - left + read
  }

  lemma FlowStarts(pre: string)
    ensures Flow(LinesOf(pre), pre, 0, |LinesOf(pre)|, [], 0)
  {
    assert pre[..0] == "";
    NoBytesNoLines();
  }

  /** How far the reader is, in lines, is how far it is in bytes. */
  lemma FlowExtent(before: seq<string>, total: string, pos: nat, left: nat, sent: seq<string>, read: nat)
    requires Flow(before, total, pos, left, sent, read)
    ensures read <= |sent| && LinesOf(total[..pos]) == (before + sent)[..|before| - left + read]
    ensures pos == |total| ==> left == 0 && read == |sent|
  {
    assert total == total[..pos] + total[pos..];
    LinesGrow(total[..pos], total[pos..]);
    assert total[..|total|] == total;
  }

  lemma FlowWrites(before: seq<string>, total: string, pos: nat, left: nat, sent: seq<string>, read: nat, raw: string)
    requires Flow(before, total, pos, left, sent, read) && FreeOf(IsCrLf, raw)
    ensures Flow(before, total + raw + ['\r'], pos, left, sent + [Cap(Partial(total) + raw, MAX_LINK_LINE)], read)
  {
    FrameEndsLine(total, raw);
    assert (total + raw + ['\r'])[..pos] == total[..pos];
    assert before + sent + [Cap(Partial(total) + raw, MAX_LINK_LINE)] == before + (sent + [Cap(Partial(total) + raw, MAX_LINK_LINE)]);
  }

  lemma FlowReadsByte(before: seq<string>, total: string, pos: nat, left: nat, sent: seq<string>, read: nat)
    requires Flow(before, total, pos, left, sent, read) && pos < |total| && !IsCrLf(total[pos])
    ensures Flow(before, total, pos + 1, left, sent, read)
  {
    assert total[..pos + 1] == total[..pos] + [total[pos]];
    LinesOneMore(total[..pos], total[pos]);
  }

  /** A terminator completes the next line. */
  lemma FlowReadsLine(before: seq<string>, total: string, pos: nat, left: nat, sent: seq<string>, read: nat)
    requires Flow(before, total, pos, left, sent, read) && pos < |total| && IsCrLf(total[pos])
    ensures
      var line := Cap(Partial(total[..pos]), MAX_LINK_LINE);
      if left > 0 then Flow(before, total, pos + 1, left - 1, sent, read) && line == before[|before| - left]
      else read < |sent| && Flow(before, total, pos + 1, left, sent, read + 1) && line == sent[read]
  {
    var done, line := LinesOf(total[..pos]), Cap(Partial(total[..pos]), MAX_LINK_LINE);
    assert total[..pos + 1] == total[..pos] + [total[pos]];
    LinesOneMore(total[..pos], total[pos]);
    assert total == total[..pos + 1] + total[pos + 1..];
    LinesGrow(total[..pos + 1], total[pos + 1..]);
    assert (before + sent)[|done|] == (done + [line])[|done|] == line;
  }
}
