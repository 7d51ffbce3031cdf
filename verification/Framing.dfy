/** RHPv2 framing: a two-byte big-endian length, then exactly that many payload bytes. */
module Framing {

  newtype byte = b: int | 0 <= b < 256

  const MAX_PAYLOAD_LENGTH: nat := 0xFFFF

  // ---- the wire format ----

  function Header(n: nat): seq<byte>
    requires n <= MAX_PAYLOAD_LENGTH
  {
    [(n / 256) as byte, (n % 256) as byte]
  }

  function Length(hi: byte, lo: byte): nat { hi as nat * 256 + lo as nat }

  function Frame(payload: seq<byte>): seq<byte>
    requires |payload| <= MAX_PAYLOAD_LENGTH
  {
    Header(|payload|) + payload
  }

  predicate Fits(payloads: seq<seq<byte>>) {
    forall i :: 0 <= i < |payloads| ==> |payloads[i]| <= MAX_PAYLOAD_LENGTH
  }

  /** The bytes of a list of frames. */
  function Wire(payloads: seq<seq<byte>>): seq<byte>
    requires Fits(payloads)
  {
    if payloads == [] then [] else Frame(payloads[0]) + Wire(payloads[1..])
  }

  // ---- writing ----

  class Writer {
    var out: seq<byte>

    constructor ()
      ensures out == []
    {
      out := [];
    }

    method Write(bytes: seq<byte>)
      modifies this
      ensures out == old(out) + bytes
    {
      out := out + bytes;
    }
  }

  /** Writes one frame, or refuses an over-long payload and writes nothing. */
  method WriteFrame(w: Writer, payload: seq<byte>) returns (ok: bool)
    modifies w
    ensures ok == (|payload| <= MAX_PAYLOAD_LENGTH)
    ensures w.out == if ok then old(w.out) + Frame(payload) else old(w.out)
    ensures ok ==> |w.out| == |old(w.out)| + 2 + |payload| && w.out[|old(w.out)| + 2..] == payload
    ensures ok ==> w.out[|old(w.out)|] as int * 256 + w.out[|old(w.out)| + 1] as int == |payload|
  {
    if |payload| > MAX_PAYLOAD_LENGTH { return false; }
    var header := new byte[2];
    header[0], header[1] := (|payload| / 256) as byte, (|payload| % 256) as byte;
    w.Write(header[..]);
    w.Write(payload);
    return true;
  }

  // ---- reading ----

  datatype End = Eof | UnexpectedEof

  datatype Got = Payload(bytes: seq<byte>) | Ended(end: End)

  class Reader {
    var rest: seq<byte>

    constructor (rest: seq<byte>)
      ensures this.rest == rest
    {
      this.rest := rest;
    }

    /** Fills a buffer of `n` bytes: end of stream before its first byte is a clean end, end of
        stream within it is not. */
    method ReadFull(n: nat) returns (got: Got)
      modifies this
      ensures
        if n <= |old(rest)| then got == Payload(old(rest)[..n]) && rest == old(rest)[n..]
        else got == Ended(if old(rest) == [] then Eof else UnexpectedEof) && rest == []
    {
      if n <= |rest| {
        got, rest := Payload(rest[..n]), rest[n..];
      } else {
        got, rest := Ended(if rest == [] then Eof else UnexpectedEof), [];
      }
    }
  }

  /** The stream starts with a whole frame. */
  predicate Whole(s: seq<byte>) { |s| >= 2 && |s| - 2 >= Length(s[0], s[1]) }

  /** What the first read of a stream returns. */
  function First(s: seq<byte>): Got {
    if Whole(s) then Payload(s[2..2 + Length(s[0], s[1])])
    else Ended(if s == [] then Eof else UnexpectedEof)
  }

  lemma PayloadSlice(s: seq<byte>, n: nat)
    requires 2 + n <= |s|
    ensures s[2..][..n] == s[2..2 + n] && s[2..][n..] == s[2 + n..]
  {
  }

  method ReadFrame(r: Reader) returns (got: Got)
    modifies r
    ensures got == First(old(r.rest))
    ensures r.rest == if got.Payload? then old(r.rest)[2 + |got.bytes|..] else []
  {
    var header := r.ReadFull(2);
    if header.Ended? { return header; }
    var length := Length(header.bytes[0], header.bytes[1]);
    if Whole(old(r.rest)) { PayloadSlice(old(r.rest), length); }
    got := r.ReadFull(length);
    if got.Ended? && got.end.Eof? { return Ended(UnexpectedEof); }
  }

  /** Everything a stream yields: its frames, then how it ended. */
  function Frames(s: seq<byte>): (seq<seq<byte>>, End)
    decreases |s|
  {
    match First(s)
    case Ended(end) => ([], end)
    case Payload(p) => var more := Frames(s[2 + |p|..]); ([p] + more.0, more.1)
  }

  /** The read loop of a client. */
  method ReadAll(r: Reader) returns (payloads: seq<seq<byte>>, end: End)
    modifies r
    ensures payloads == Frames(old(r.rest)).0 && end == Frames(old(r.rest)).1 && r.rest == []
  {
    payloads := [];
    while true
      invariant Frames(old(r.rest)).0 == payloads + Frames(r.rest).0
      invariant Frames(old(r.rest)).1 == Frames(r.rest).1
      decreases |r.rest|
    {
      var got := ReadFrame(r);
      if got.Ended? { return payloads, got.end; }
      payloads := payloads + [got.bytes];
    }
  }

  // ---- the two together ----

  lemma HeaderRoundTrip(n: nat)
    requires n <= MAX_PAYLOAD_LENGTH
    ensures Length(Header(n)[0], Header(n)[1]) == n
  {
  }

  lemma LengthRoundTrip(hi: byte, lo: byte)
    ensures Length(hi, lo) <= MAX_PAYLOAD_LENGTH && Header(Length(hi, lo)) == [hi, lo]
  {
  }

  /** A frame in front is the first thing read, and what follows it is read next. */
  lemma FrameFirst(p: seq<byte>, s: seq<byte>)
    requires |p| <= MAX_PAYLOAD_LENGTH
    ensures Frames(Frame(p) + s) == ([p] + Frames(s).0, Frames(s).1)
  {
    var t := Frame(p) + s;
    HeaderRoundTrip(|p|);
    assert t[0] == Header(|p|)[0] && t[1] == Header(|p|)[1];
    assert t[2..2 + |p|] == p && t[2 + |p|..] == s;
  }

  /** Reading what was written returns it, up to a torn tail that is not a whole frame. */
  lemma {:induction false} WrittenThenRead(payloads: seq<seq<byte>>, tail: seq<byte>)
    requires Fits(payloads) && !Whole(tail)
    ensures Frames(Wire(payloads) + tail) == (payloads, if tail == [] then Eof else UnexpectedEof)
  {
    if payloads == [] {
      assert Wire(payloads) + tail == tail;
    } else {
      WrittenThenRead(payloads[1..], tail);
      assert Wire(payloads) + tail == Frame(payloads[0]) + (Wire(payloads[1..]) + tail);
      FrameFirst(payloads[0], Wire(payloads[1..]) + tail);
      assert payloads == [payloads[0]] + payloads[1..];
    }
  }

  /** Every byte stream is the frames it yields followed by a tail, empty exactly at a clean end. */
  lemma {:induction false} ReadThenWritten(s: seq<byte>) returns (tail: seq<byte>)
    ensures Fits(Frames(s).0) && s == Wire(Frames(s).0) + tail && !Whole(tail)
    ensures Frames(s).1 == Eof <==> tail == []
    decreases |s|
  {
    match First(s)
    case Ended(_) => tail := s;
    case Payload(p) =>
      LengthRoundTrip(s[0], s[1]);
      tail := ReadThenWritten(s[2 + |p|..]);
      assert s == Frame(p) + s[2 + |p|..];
      assert Frames(s).0[1..] == Frames(s[2 + |p|..]).0;
  }

  /** How many of the frames are complete within the first `n` bytes. */
  function Complete(payloads: seq<seq<byte>>, n: nat): (k: nat)
    requires Fits(payloads)
    ensures k <= |payloads|
  {
    if payloads == [] || |payloads[0]| + 2 > n then 0
    else 1 + Complete(payloads[1..], n - |payloads[0]| - 2)
  }

  lemma {:induction false} CompleteIsMost(payloads: seq<seq<byte>>, n: nat)
    requires Fits(payloads)
    ensures
      var k := Complete(payloads, n);
      |Wire(payloads[..k])| <= n && (k < |payloads| ==> n < |Wire(payloads[..k + 1])|)
  {
    if payloads != [] {
      WireFirst(payloads, 1);
      if |payloads[0]| + 2 <= n {
        CompleteIsMost(payloads[1..], n - |payloads[0]| - 2);
        var k := Complete(payloads, n);
        WireFirst(payloads, k);
        if k < |payloads| { WireFirst(payloads, k + 1); }
      }
    }
  }

  /** A stream cut anywhere yields the frames that are complete before the cut, then a clean end if
      the cut is on a frame boundary and a torn one otherwise. */
  lemma {:induction false} Truncated(payloads: seq<seq<byte>>, n: nat)
    requires Fits(payloads) && n <= |Wire(payloads)|
    ensures
      var k := Complete(payloads, n);
      && Frames(Wire(payloads)[..n]).0 == payloads[..k]
      && (Frames(Wire(payloads)[..n]).1 == Eof <==> OnBoundary(payloads, n))
  {
    if payloads == [] {
      assert Wire(payloads[..0]) == [];
    } else {
      var p, rest := payloads[0], payloads[1..];
      var s := Wire(payloads)[..n];
      if |p| + 2 > n {
        CutFrame(p, Wire(rest), n);
        forall j | 0 <= j <= |payloads|
          ensures n == |Wire(payloads[..j])| <==> n == 0 == j
        {
          if j > 0 { WireFirst(payloads, j); }
        }
      } else {
        var m := n - |p| - 2;
        Truncated(rest, m);
        assert s == Frame(p) + Wire(rest)[..m];
        FrameFirst(p, Wire(rest)[..m]);
        assert payloads[..Complete(payloads, n)] == [p] + rest[..Complete(rest, m)];
        BoundaryShifts(payloads, n);
      }
    }
  }

  lemma CutFrame(p: seq<byte>, s: seq<byte>, n: nat)
    requires |p| <= MAX_PAYLOAD_LENGTH && n < |p| + 2
    ensures Frames((Frame(p) + s)[..n]) == ([], if n == 0 then Eof else UnexpectedEof)
  {
    var t := (Frame(p) + s)[..n];
    HeaderRoundTrip(|p|);
    assert n >= 2 ==> t[0] == Header(|p|)[0] && t[1] == Header(|p|)[1];
  }

  lemma WireFirst(payloads: seq<seq<byte>>, j: nat)
    requires Fits(payloads) && 0 < j <= |payloads|
    ensures |Wire(payloads[..j])| == |payloads[0]| + 2 + |Wire(payloads[1..][..j - 1])|
  {
    assert payloads[..j][1..] == payloads[1..][..j - 1];
  }

  ghost predicate OnBoundary(payloads: seq<seq<byte>>, n: nat)
    requires Fits(payloads)
  {
    exists j :: 0 <= j <= |payloads| && n == |Wire(payloads[..j])|
  }

  lemma BoundaryShifts(payloads: seq<seq<byte>>, n: nat)
    requires Fits(payloads) && payloads != [] && n >= |payloads[0]| + 2
    ensures OnBoundary(payloads, n) <==> OnBoundary(payloads[1..], n - |payloads[0]| - 2)
  {
    var rest := payloads[1..];
    var m := n - |payloads[0]| - 2;
    if OnBoundary(payloads, n) {
      var j :| 0 <= j <= |payloads| && n == |Wire(payloads[..j])|;
      assert j != 0;
      WireFirst(payloads, j);
      assert m == |Wire(rest[..j - 1])|;
    }
    if OnBoundary(rest, m) {
      var j :| 0 <= j <= |rest| && m == |Wire(rest[..j])|;
      WireFirst(payloads, j + 1);
      assert n == |Wire(payloads[..j + 1])|;
    }
  }
}
