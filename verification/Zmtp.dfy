/**
  The frame codec of the message sockets, after the Framing section of 23/ZMTP: a flags byte, a
  length of one byte or of eight bytes in network order, and the body.

  Reading the body may take several reads; how many bytes each of them returns is a parameter.
*/
module Zmtp {
  import opened Bytes
  import opened Division
  import opened Outcomes

  const FLAG_MORE: Byte := 1
  const FLAG_LARGE: Byte := 2
  const MAX_U64: nat := 0xFFFF_FFFF_FFFF_FFFF

  datatype Frame = Frame(data: seq<Byte>, more: bool)

  datatype RecvError = RecvFailed

  predicate HasMore(flags: Byte) {
    flags % 2 == 1
  }

  predicate IsLarge(flags: Byte) {
    flags / 2 % 2 == 1
  }

  // ----- Lengths in network order

  function BigEndian(n: nat, width: nat): (bytes: seq<Byte>)
    ensures |bytes| == width
  {
    if width == 0 then [] else BigEndian(n / 256, width - 1) + [n % 256]
  }

  function FromBigEndian(bytes: seq<Byte>): nat {
    if bytes == [] then 0 else FromBigEndian(bytes[..|bytes| - 1]) * 256 + bytes[|bytes| - 1]
  }

  function Power256(k: nat): (p: nat)
    ensures p > 0
  {
    if k == 0 then 1 else 256 * Power256(k - 1)
  }

  lemma {:induction false} BigEndianRoundTrip(n: nat, width: nat)
    requires n < Power256(width)
    ensures FromBigEndian(BigEndian(n, width)) == n
  {
    if width > 0 {
      BigEndianRoundTrip(n / 256, width - 1);
      var front := BigEndian(n / 256, width - 1);
      assert (front + [n % 256])[..width - 1] == front;
    }
  }

  lemma EightBytes()
    ensures Power256(8) == MAX_U64 + 1
  {
  }

  // ----- Sending

  function Header(length: nat, more: bool): seq<Byte> {
    if length < 255 then [if more then FLAG_MORE else 0, length]
    else [if more then FLAG_MORE + FLAG_LARGE else FLAG_LARGE] + BigEndian(length, 8)
  }

  function Encode(f: Frame): seq<Byte> {
    Header(|f.data|, f.more) + f.data
  }

  function EncodeAll(frames: seq<Frame>): seq<Byte> {
    if frames == [] then [] else Encode(frames[0]) + EncodeAll(frames[1..])
  }

  /** `sendFrame`: the header is filled in place and written together with the body. */
  method SendFrame(data: seq<Byte>, more: bool) returns (wire: seq<Byte>)
    ensures wire == Encode(Frame(data, more))
  {
    if |data| < 255 {
      var header := new Byte[2](_ => 0);
      header[0] := if more then FLAG_MORE else 0;
      header[1] := |data|;
      wire := header[..] + data;
    } else {
      var header := new Byte[9](_ => 0);
      header[0] := if more then FLAG_MORE + FLAG_LARGE else FLAG_LARGE;
      var n: nat, i := |data|, 9;
      while i > 1
        invariant 1 <= i <= 9
        invariant header[0] == if more then FLAG_MORE + FLAG_LARGE else FLAG_LARGE
        invariant BigEndian(|data|, 8) == BigEndian(n, i - 1) + header[i..]
      {
        i := i - 1;
        header[i] := n % 256;
        assert header[i..] == [n % 256] + header[i + 1..];
        n := n / 256;
      }
      assert header[..] == [header[0]] + header[1..];
      wire := header[..] + data;
    }
  }

  /** Byte `k` of a number in network order: the most significant byte comes first. */
  lemma {:induction false} BigEndianByte(n: nat, width: nat, k: nat)
    requires k < width
    ensures BigEndian(n, width)[k] == n / Power256(width - 1 - k) % 256
  {
    if k < width - 1 {
      BigEndianByte(n / 256, width - 1, k);
      DivTwice(n, Power256(width - 2 - k));
    }
  }

  lemma DivTwice(n: nat, d: nat)
    requires d > 0
    ensures 256 * d > 0 && n / 256 / d == n / (256 * d)
  {
    var q, r := n / 256, n % 256;
    var p, t := q / d, q % d;
    assert n == 256 * (p * d + t) + r;
    assert 256 * (p * d + t) + r == 256 * d * p + (256 * t + r);
    Euclid(n, p, 256 * t + r, 256 * d);
  }

  /**
    What a peer sees: up to 254 bytes of body follow one flag byte, 1 if more frames follow, and one
    length byte; a longer body follows a flag byte with 2 added and eight length bytes, the most
    significant first.
  */
  lemma SentBytes(f: Frame)
    ensures var wire, flag := Encode(f), if f.more then 1 else 0;
            if |f.data| <= 254 then wire == [flag, |f.data|] + f.data
            else
              && |wire| == 9 + |f.data| && wire[0] == flag + 2 && wire[9..] == f.data
              && forall k: nat :: k < 8 ==> wire[1..9][k] == |f.data| / Power256(7 - k) % 256
  {
    if |f.data| > 254 {
      assert Encode(f)[1..9] == BigEndian(|f.data|, 8);
      forall k: nat | k < 8 ensures Encode(f)[1..9][k] == |f.data| / Power256(7 - k) % 256 {
        BigEndianByte(|f.data|, 8, k);
      }
    }
  }

  /** A received flag byte is read by its two lowest bits, whatever the others are. */
  lemma FlagBits(rest: nat, large: bool, more: bool)
    requires rest < 64
    ensures var flags: Byte := 4 * rest + (if large then 2 else 0) + (if more then 1 else 0);
            (HasMore(flags) <==> more) && (IsLarge(flags) <==> large)
  {
  }

  // ----- Receiving

  datatype Received = Received(frame: Frame, rest: seq<Byte>)

  /** What a frame's header says: the flags, the body length and the header's own length. */
  datatype HeaderInfo = HeaderInfo(more: bool, length: nat, size: nat)

  function ReadHeader(input: seq<Byte>): Option<HeaderInfo> {
    if |input| < 1 then None
    else if IsLarge(input[0]) then
      if |input| < 9 then None else Some(HeaderInfo(HasMore(input[0]), FromBigEndian(input[1..9]), 9))
    else if |input| < 2 then None
    else Some(HeaderInfo(HasMore(input[0]), input[1], 2))
  }

  function Decode(input: seq<Byte>): Result<Received, RecvError> {
    var h := ReadHeader(input);
    if h.None? || |input| < h.value.size + h.value.length then Err(RecvFailed)
    else
      var end := h.value.size + h.value.length;
      Ok(Received(Frame(input[h.value.size..end], h.value.more), input[end..]))
  }

  /** A connected socket: the bytes still to come. */
  class Stream {
    var input: seq<Byte>

    constructor (input: seq<Byte>)
      ensures this.input == input
    {
      this.input := input;
    }

    /** A read of up to `limit` bytes; it returns at most `chunk` of them, and none only at the end. */
    method Read(limit: nat, chunk: nat) returns (bytes: seq<Byte>)
      requires limit > 0 && chunk > 0
      modifies this
      ensures bytes + input == old(input) && |bytes| <= limit
      ensures bytes == [] ==> old(input) == []
    {
      var n := if limit < chunk then limit else chunk;
      n := if n < |input| then n else |input|;
      bytes, input := input[..n], input[n..];
    }

    /** Reads the header; its two parts arrive whole. */
    method ReadFrameHeader() returns (h: Option<HeaderInfo>)
      modifies this
      ensures h == ReadHeader(old(input))
      ensures h.Some? ==> h.value.size <= |old(input)| && input == old(input)[h.value.size..]
    {
      if |input| < 1 { return None; }
      var flags := input[0];
      if IsLarge(flags) {
        if |input| < 9 { return None; }
        h := Some(HeaderInfo(HasMore(flags), FromBigEndian(input[1..9]), 9));
        input := input[9..];
      } else {
        if |input| < 2 { return None; }
        h := Some(HeaderInfo(HasMore(flags), input[1], 2));
        input := input[2..];
      }
    }

    /** Assembles a body of the given length from as many reads as it takes, whatever their sizes. */
    method ReadBody(length: nat, chunks: nat -> nat) returns (r: Option<seq<Byte>>)
      requires forall k :: chunks(k) > 0
      modifies this
      ensures |old(input)| >= length ==> r == Some(old(input)[..length]) && input == old(input)[length..]
      ensures |old(input)| < length ==> r == None
    {
      ghost var start := input;
      var data, k := [], 0;
      while |data| < length
        invariant |data| <= length && data + input == start
        decreases length - |data|
      {
        var bytes := Read(length - |data|, chunks(k));
        if bytes == [] { return None; }
        data := data + bytes;
        k := k + 1;
      }
      return Some(data);
    }

    /** `recvFrame`. */
    method RecvFrame(chunks: nat -> nat) returns (r: Result<Frame, RecvError>)
      requires forall k :: chunks(k) > 0
      modifies this
      ensures match Decode(old(input))
              case Ok(received) => r == Ok(received.frame) && input == received.rest
              case Err(_) => r == Err(RecvFailed)
    {
      ghost var all := input;
      var h := ReadFrameHeader();
      if h.None? { return Err(RecvFailed); }
      var data := ReadBody(h.value.length, chunks);
      if data.None? { return Err(RecvFailed); }
      ghost var size, end := h.value.size, h.value.size + h.value.length;
      assert all[size..][..h.value.length] == all[size..end] && all[size..][h.value.length..] == all[end..];
      return Ok(Frame(data.value, h.value.more));
    }

    /** Receives `n` frames, one after the other; `chunks(i, k)` bounds read `k` of frame `i`. */
    method RecvFrames(n: nat, chunks: (nat, nat) -> nat) returns (r: Result<seq<Frame>, RecvError>)
      requires forall i, k :: chunks(i, k) > 0
      modifies this
      ensures match DecodeMany(old(input), n)
              case Ok((frames, rest)) => r == Ok(frames) && input == rest
              case Err(_) => r == Err(RecvFailed)
    {
      ghost var all := DecodeMany(input, n);
      var frames: seq<Frame> := [];
      var i := 0;
      AfterNothing(all);
      while i < n
        invariant 0 <= i <= n && all == After(frames, DecodeMany(input, n - i))
      {
        var f := RecvFrame(k => chunks(i, k));
        if f.Err? { return Err(RecvFailed); }
        AfterStep(frames, f.value, DecodeMany(input, n - i - 1));
        frames := frames + [f.value];
        i := i + 1;
      }
      assert frames + [] == frames;
      return Ok(frames);
    }
  }

  lemma {:induction false} EncodeAllSnoc(frames: seq<Frame>, f: Frame)
    ensures EncodeAll(frames + [f]) == EncodeAll(frames) + Encode(f)
  {
    if frames == [] {
      assert [f][1..] == [];
    } else {
      assert (frames + [f])[1..] == frames[1..] + [f];
      EncodeAllSnoc(frames[1..], f);
    }
  }

  /** A peer's frames on the wire, one after the other. */
  method SendFrames(frames: seq<Frame>) returns (wire: seq<Byte>)
    ensures wire == EncodeAll(frames)
  {
    wire := [];
    var i := 0;
    while i < |frames|
      invariant 0 <= i <= |frames| && wire == EncodeAll(frames[..i])
    {
      var bytes := SendFrame(frames[i].data, frames[i].more);
      EncodeAllSnoc(frames[..i], frames[i]);
      assert frames[..i + 1] == frames[..i] + [frames[i]];
      wire := wire + bytes;
      i := i + 1;
    }
    assert frames[..i] == frames;
  }

  /** End to end: frames that were sent are received, however the reads split them, and nothing is left. */
  method SendThenReceive(frames: seq<Frame>, chunks: (nat, nat) -> nat) returns (received: seq<Frame>, left: seq<Byte>)
    requires forall i, k :: chunks(i, k) > 0
    requires forall i :: 0 <= i < |frames| ==> |frames[i].data| <= MAX_U64
    ensures received == frames && left == []
  {
    var wire := SendFrames(frames);
    var stream := new Stream(wire);
    var r := stream.RecvFrames(|frames|, chunks);
    StreamRoundTrip(frames);
    return r.value, stream.input;
  }

  /** A decoding result with frames already received in front. */
  function After(frames: seq<Frame>, r: Result<(seq<Frame>, seq<Byte>), RecvError>)
    : Result<(seq<Frame>, seq<Byte>), RecvError>
  {
    if r.Err? then r else Ok((frames + r.value.0, r.value.1))
  }

  lemma AfterNothing(r: Result<(seq<Frame>, seq<Byte>), RecvError>)
    ensures After([], r) == r
  {
    if r.Ok? { assert [] + r.value.0 == r.value.0; }
  }

  lemma AfterStep(frames: seq<Frame>, f: Frame, r: Result<(seq<Frame>, seq<Byte>), RecvError>)
    ensures After(frames, After([f], r)) == After(frames + [f], r)
  {
    if r.Ok? { assert frames + ([f] + r.value.0) == (frames + [f]) + r.value.0; }
  }

  // ----- Round trips

  lemma HeaderRoundTrip(length: nat, more: bool, rest: seq<Byte>)
    requires length <= MAX_U64
    ensures ReadHeader(Header(length, more) + rest) == Some(HeaderInfo(more, length, |Header(length, more)|))
  {
    var h := Header(length, more);
    var input := h + rest;
    if length >= 255 {
      EightBytes();
      BigEndianRoundTrip(length, 8);
      assert input[1..9] == BigEndian(length, 8);
    }
  }

  /** Decoding what was encoded gives the frame back and leaves exactly what follows. */
  lemma FrameRoundTrip(f: Frame, rest: seq<Byte>)
    requires |f.data| <= MAX_U64
    ensures Decode(Encode(f) + rest) == Ok(Received(f, rest))
  {
    var h := Header(|f.data|, f.more);
    assert Encode(f) + rest == h + (f.data + rest);
    HeaderRoundTrip(|f.data|, f.more, f.data + rest);
    assert (h + (f.data + rest))[|h|..|h| + |f.data|] == f.data;
    assert (h + (f.data + rest))[|h| + |f.data|..] == rest;
  }

  /** Decodes `n` frames. */
  function DecodeMany(input: seq<Byte>, n: nat): Result<(seq<Frame>, seq<Byte>), RecvError> {
    if n == 0 then Ok(([], input))
    else
      var r := Decode(input);
      if r.Err? then Err(r.error)
      else
        After([r.value.frame], DecodeMany(r.value.rest, n - 1))
  }

  /** A stream of frames is read back frame by frame, to its last byte. */
  lemma {:induction false} StreamRoundTrip(frames: seq<Frame>)
    requires forall i :: 0 <= i < |frames| ==> |frames[i].data| <= MAX_U64
    ensures DecodeMany(EncodeAll(frames), |frames|) == Ok((frames, []))
  {
    if frames != [] {
      FrameRoundTrip(frames[0], EncodeAll(frames[1..]));
      StreamRoundTrip(frames[1..]);
      assert [frames[0]] + frames[1..] == frames;
    }
  }

  /** Different lists of frames never look alike on the wire, even if one is longer. */
  lemma {:induction false} EncodingIsUnambiguous(a: seq<Frame>, b: seq<Frame>)
    requires forall i :: 0 <= i < |a| ==> |a[i].data| <= MAX_U64
    requires forall i :: 0 <= i < |b| ==> |b[i].data| <= MAX_U64
    requires EncodeAll(a) == EncodeAll(b)
    ensures a == b
  {
    if a != [] && b != [] {
      FrameRoundTrip(a[0], EncodeAll(a[1..]));
      FrameRoundTrip(b[0], EncodeAll(b[1..]));
      EncodingIsUnambiguous(a[1..], b[1..]);
      assert a == [a[0]] + a[1..] && b == [b[0]] + b[1..];
    }
  }

  /** A frame cut short inside its body is refused, never delivered truncated. */
  lemma TruncatedFrameFails(f: Frame, k: nat)
    requires |f.data| <= MAX_U64 && |Header(|f.data|, f.more)| <= k < |Encode(f)|
    ensures Decode(Encode(f)[..k]) == Err(RecvFailed)
  {
    var h := Header(|f.data|, f.more);
    assert Encode(f)[..k] == h + f.data[..k - |h|];
    HeaderRoundTrip(|f.data|, f.more, f.data[..k - |h|]);
  }
}
