/** The TCP wire format: a four-byte big-endian length, then that many bytes. */
module Frames {
  newtype byte = x: int | 0 <= x < 256

  const HeaderBytes: nat := 4
  const DefaultMax: nat := 0x80_0000
  const Uint32: nat := 0x1_0000_0000

  type Bytes = seq<byte>

  function Limit(max: int): nat {
    if max <= 0 then DefaultMax else max
  }

  // ---------------------------------------------------------------- the header

  /** The conversion to 32 bits drops what does not fit. */
  function Header(n: nat): (h: Bytes)
    ensures |h| == HeaderBytes
  {
    [(n / 256 / 256 / 256 % 256) as byte, (n / 256 / 256 % 256) as byte, (n / 256 % 256) as byte, (n % 256) as byte]
  }

  function Length(h: Bytes): (n: nat)
    requires |h| == HeaderBytes
    ensures n < Uint32
  {
    h[0] as int * 0x100_0000 + h[1] as int * 0x1_0000 + h[2] as int * 0x100 + h[3] as int
  }

  lemma {:induction false} LengthOfHeader(n: nat)
    ensures Length(Header(n)) == n % Uint32
  {
    var q1, q2, q3 := n / 256, n / 256 / 256, n / 256 / 256 / 256;
    assert n == 256 * q1 + n % 256 && q1 == 256 * q2 + q1 % 256 && q2 == 256 * q3 + q2 % 256 &&
        q3 == 256 * (q3 / 256) + q3 % 256;
    assert n == Uint32 * (q3 / 256) + Length(Header(n));
    RemainderIsUnique(n, q3 / 256, Length(Header(n)));
  }

  lemma {:induction false} RemainderIsUnique(n: nat, q: nat, r: nat)
    requires n == Uint32 * q + r && r < Uint32
    ensures r == n % Uint32
  {
  }

  /** The most significant byte comes first. */
  lemma {:induction false} HeaderIsBigEndian(a: byte, b: byte, c: byte, d: byte)
    ensures Header(((a as nat * 256 + b as nat) * 256 + c as nat) * 256 + d as nat) == [a, b, c, d]
  {
    var x, y := a as nat * 256 + b as nat, (a as nat * 256 + b as nat) * 256 + c as nat;
    assert (y * 256 + d as nat) / 256 == y && y / 256 == x && x / 256 == a as nat;
  }

  /** What a writer puts on the wire for one payload. */
  function Frame(payload: Bytes): Bytes {
    Header(|payload|) + payload
  }

  // ---------------------------------------------------------------- reading

  /** One read from the front of a stream that has ended: a payload and what follows it, or why
      there is none. */
  datatype Read = Got(payload: Bytes, rest: Bytes) | EndOfStream | Truncated | Zero | TooLarge

  function Decode(stream: Bytes, max: int): Read {
    if |stream| == 0 then EndOfStream
    else if |stream| < HeaderBytes then Truncated
    else
      var n := Length(stream[..HeaderBytes]);
      if n == 0 then Zero
      else if n > Limit(max) then TooLarge
      else if |stream| - HeaderBytes < n then Truncated
      else Got(stream[HeaderBytes..HeaderBytes + n], stream[HeaderBytes + n..])
  }

  datatype Stop = AtEnd | CutShort | WasZero | WasTooLarge

  function StopOf(r: Read): Stop
    requires !r.Got?
  {
    match r
    case EndOfStream => AtEnd
    case Truncated => CutShort
    case Zero => WasZero
    case TooLarge => WasTooLarge
  }

  /** Every frame up to the first read that gives none, and how that one ended. */
  function DecodeAll(stream: Bytes, max: int): (seq<Bytes>, Stop)
    decreases |stream|
  {
    var r := Decode(stream, max);
    if r.Got? then
      var (more, stop) := DecodeAll(r.rest, max);
      ([r.payload] + more, stop)
    else ([], StopOf(r))
  }

  /** What is left of a finished stream. */
  class Reader {
    var stream: Bytes

    constructor (stream: Bytes)
      ensures this.stream == stream
    {
      this.stream := stream;
    }

    /** Fills a buffer of `n` bytes, or consumes what there is. */
    method ReadFull(n: nat) returns (buffer: Bytes, full: bool)
      modifies this
      ensures full <==> n <= |old(stream)|
      ensures full ==> buffer == old(stream)[..n] && stream == old(stream)[n..]
      ensures !full ==> buffer == old(stream) && stream == []
    {
      full := n <= |stream|;
      if full {
        buffer, stream := stream[..n], stream[n..];
      } else {
        buffer, stream := stream, [];
      }
    }

    /** The size, or the read that ends here; nothing is allocated for a size out of bounds. */
    method ReadFrameSize(max: int) returns (n: nat, bad: Read)
      modifies this
      ensures bad.Got? <==> |old(stream)| >= HeaderBytes && 0 < Length(old(stream)[..HeaderBytes]) <= Limit(max)
      ensures bad.Got? ==> n == Length(old(stream)[..HeaderBytes]) && stream == old(stream)[HeaderBytes..]
      ensures !bad.Got? ==> bad == Decode(old(stream), max)
    {
      var header, full := ReadFull(HeaderBytes);
      if !full {
        return 0, if |header| == 0 then EndOfStream else Truncated;
      }
      n := Length(header);
      if n == 0 {
        return 0, Zero;
      }
      if n > Limit(max) {
        return 0, TooLarge;
      }
      bad := Got([], []);
    }

    /** A body cut short is truncated even when none of it arrived. */
    method ReadFrameBody(n: nat) returns (r: Read)
      modifies this
      ensures r == if n <= |old(stream)| then Got(old(stream)[..n], old(stream)[n..]) else Truncated
      ensures r.Got? ==> stream == r.rest
    {
      var payload, full := ReadFull(n);
      if !full {
        return Truncated;
      }
      r := Got(payload, stream);
    }

    method ReadFrame(max: int) returns (r: Read)
      modifies this
      ensures r == Decode(old(stream), max)
      ensures r.Got? ==> stream == r.rest
    {
      var n, bad := ReadFrameSize(max);
      if !bad.Got? {
        return bad;
      }
      r := ReadFrameBody(n);
    }

    /** A connection's read loop. */
    method ReadAll(max: int) returns (payloads: seq<Bytes>, stop: Stop)
      modifies this
      ensures (payloads, stop) == DecodeAll(old(stream), max)
    {
      payloads := [];
      var r := ReadFrame(max);
      ghost var left := old(stream);
      while r.Got?
        invariant r == Decode(left, max) && (r.Got? ==> stream == r.rest)
        invariant DecodeAll(old(stream), max).0 == payloads + DecodeAll(left, max).0
        invariant DecodeAll(old(stream), max).1 == DecodeAll(left, max).1
        decreases |left|
      {
        payloads := payloads + [r.payload];
        left := r.rest;
        r := ReadFrame(max);
      }
      stop := StopOf(r);
      assert payloads + [] == payloads;
    }
  }

  // ---------------------------------------------------------------- writing

  datatype WriteError = None | ZeroFrame | FrameTooLarge | Broken

  /** A connection's writer; the caller holds its mutex for a whole frame. */
  class Writer {
    var sent: Bytes

    constructor ()
      ensures sent == []
    {
      sent := [];
    }

    /** Nothing of a refused payload is written. `room` is how many more bytes the connection takes
        before it breaks. */
    method WriteFrame(payload: Bytes, max: int, room: nat) returns (error: WriteError)
      modifies this
      ensures error == ZeroFrame <==> payload == []
      ensures error == FrameTooLarge <==> |payload| > Limit(max)
      ensures error == Broken <==> 0 < |payload| <= Limit(max) && room < |Frame(payload)|
      ensures error == ZeroFrame || error == FrameTooLarge ==> sent == old(sent)
      ensures error == None ==> sent == old(sent) + Frame(payload)
      ensures error == Broken ==> sent == old(sent) + Frame(payload)[..room]
    {
      if |payload| == 0 {
        return ZeroFrame;
      }
      if |payload| > Limit(max) {
        return FrameTooLarge;
      }
      var frame := Header(|payload|) + payload;
      if room < |frame| {
        sent := sent + frame[..room];
        return Broken;
      }
      sent := sent + frame;
      error := None;
    }
  }

  // ---------------------------------------------------------------- round trips

  lemma {:induction false} FrameParts(payload: Bytes, rest: Bytes)
    ensures var s := Frame(payload) + rest;
      && |s| == HeaderBytes + |payload| + |rest|
      && s[..HeaderBytes] == Header(|payload|)
      && s[HeaderBytes..] == payload + rest
  {
  }

  /** An accepted payload comes back exactly when its length fits the header. */
  lemma {:induction false} DecodesIff(payload: Bytes, rest: Bytes, max: int)
    requires 0 < |payload| <= Limit(max)
    ensures Decode(Frame(payload) + rest, max) == Got(payload, rest) <==> |payload| < Uint32
  {
    var s := Frame(payload) + rest;
    FrameParts(payload, rest);
    LengthOfHeader(|payload|);
    if |payload| < Uint32 {
      var n := |payload|;
      assert n % Uint32 == n;
      assert s[HeaderBytes..HeaderBytes + n] == s[HeaderBytes..][..n] == payload;
      assert s[HeaderBytes + n..] == s[HeaderBytes..][n..] == rest;
    }
  }

  /** The bytes of the payloads from `i` to `n`, written one after another. */
  function Wire(payloads: seq<Bytes>, i: nat, n: nat): Bytes
    requires i <= n <= |payloads|
    decreases n - i
  {
    if i == n then [] else Frame(payloads[i]) + Wire(payloads, i + 1, n)
  }

  ghost predicate Sendable(payloads: seq<Bytes>, max: int) {
    forall i :: 0 <= i < |payloads| ==> 0 < |payloads[i]| <= Limit(max) && |payloads[i]| < Uint32
  }

  lemma {:induction false} DecodeOneMore(p: Bytes, rest: Bytes, max: int)
    requires 0 < |p| <= Limit(max) && |p| < Uint32
    ensures DecodeAll(Frame(p) + rest, max) == ([p] + DecodeAll(rest, max).0, DecodeAll(rest, max).1)
  {
    DecodesIff(p, rest, max);
  }

  lemma {:induction false} Regroup<T>(a: seq<T>, b: seq<T>, c: seq<T>)
    ensures a + b + c == a + (b + c)
  {
  }

  /** Reading on from `i`, whatever follows the wire. */
  lemma {:induction false} DecodeWire(payloads: seq<Bytes>, i: nat, n: nat, rest: Bytes, max: int,
                                      after: (seq<Bytes>, Stop))
    requires i <= n <= |payloads| && Sendable(payloads, max) && after == DecodeAll(rest, max)
    ensures DecodeAll(Wire(payloads, i, n) + rest, max) == (payloads[i..n] + after.0, after.1)
    decreases n - i
  {
    if i == n {
      assert Wire(payloads, i, n) + rest == rest;
      assert payloads[i..n] + after.0 == after.0;
    } else {
      var p, wire := payloads[i], Wire(payloads, i + 1, n);
      DecodeWire(payloads, i + 1, n, rest, max, after);
      Regroup(Frame(p), wire, rest);
      DecodeOneMore(p, wire + rest, max);
      Regroup([p], payloads[i + 1..n], after.0);
      assert [p] + payloads[i + 1..n] == payloads[i..n];
    }
  }

  /** Whatever was written is read back, in order, and then the stream ends cleanly. */
  lemma {:induction false} WholeStream(payloads: seq<Bytes>, max: int)
    requires Sendable(payloads, max)
    ensures DecodeAll(Wire(payloads, 0, |payloads|), max) == (payloads, AtEnd)
  {
    var wire := Wire(payloads, 0, |payloads|);
    DecodeWire(payloads, 0, |payloads|, [], max, ([], AtEnd));
    assert wire + [] == wire && payloads[0..|payloads|] + [] == payloads;
  }

  /** Part of a frame, but not all of it, is a truncation. */
  lemma {:induction false} PartIsTruncated(payload: Bytes, k: nat, max: int)
    requires 0 < |payload| <= Limit(max) && |payload| < Uint32 && k < |Frame(payload)|
    ensures Decode(Frame(payload)[..k], max) == if k == 0 then EndOfStream else Truncated
  {
    var s := Frame(payload)[..k];
    if k >= HeaderBytes {
      assert s[..HeaderBytes] == Header(|payload|);
      LengthOfHeader(|payload|);
    }
  }

  /** A stream cut anywhere: after `n` whole frames and `k` bytes of the next. The whole frames are
      read, and the end is clean exactly at a frame boundary. */
  lemma {:induction false} CutStream(payloads: seq<Bytes>, n: nat, k: nat, max: int)
    requires Sendable(payloads, max) && n < |payloads| && k < |Frame(payloads[n])|
    ensures DecodeAll(Wire(payloads, 0, n) + Frame(payloads[n])[..k], max) == (payloads[..n],
        if k == 0 then AtEnd else CutShort)
  {
    PartIsTruncated(payloads[n], k, max);
    DecodeWire(payloads, 0, n, Frame(payloads[n])[..k], max, ([], if k == 0 then AtEnd else CutShort));
    assert payloads[0..n] + [] == payloads[..n];
  }

  /** Every cut of the wire is of that form. */
  lemma {:induction false} EveryCut(payloads: seq<Bytes>, i: nat, m: nat, c: nat) returns (n: nat, k: nat)
    requires i <= m <= |payloads| && c < |Wire(payloads, i, m)|
    ensures i <= n < m && k < |Frame(payloads[n])|
    ensures Wire(payloads, i, m)[..c] == Wire(payloads, i, n) + Frame(payloads[n])[..k]
    decreases m - i
  {
    var frame := Frame(payloads[i]);
    if c < |frame| {
      n, k := i, c;
    } else {
      n, k := EveryCut(payloads, i + 1, m, c - |frame|);
      Regroup(frame, Wire(payloads, i + 1, n), Frame(payloads[n])[..k]);
    }
  }
}
