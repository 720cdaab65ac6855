/**
 Protocol frames (src/protocol/frame.cpp): a sixteen-byte header, then a body of at most 64 MiB.
 */
module Frames {
  import opened Base
  import opened Wire

  datatype MessageType =
    | Hello
    | FileBegin
    | Chunk
    | FileEnd
    | ErrorMessage
    | Ack
    | ManifestMessage
    | PlanMessage
    | DeltaMessage
    | DeltaBegin
    | DeltaEnd

  datatype Frame = Frame(kind: MessageType, flags: U16, body: Bytes)

  const MAX_FRAME_BODY: nat := 64 * 1024 * 1024
  const HEADER_SIZE: nat := 16
  const FRAME_MAGIC: Bytes := [76, 70, 84, 80]
  const FRAME_VERSION: U8 := 1

  function KindByte(kind: MessageType): U8 {
    match kind
    case Hello => 1
    case FileBegin => 2
    case Chunk => 3
    case FileEnd => 4
    case ErrorMessage => 5
    case Ack => 6
    case ManifestMessage => 7
    case PlanMessage => 8
    case DeltaMessage => 9
    case DeltaBegin => 10
    case DeltaEnd => 11
  }

  function KindOf(code: U8): Option<MessageType> {
    match code
    case 1 => Some(Hello)
    case 2 => Some(FileBegin)
    case 3 => Some(Chunk)
    case 4 => Some(FileEnd)
    case 5 => Some(ErrorMessage)
    case 6 => Some(Ack)
    case 7 => Some(ManifestMessage)
    case 8 => Some(PlanMessage)
    case 9 => Some(DeltaMessage)
    case 10 => Some(DeltaBegin)
    case 11 => Some(DeltaEnd)
    case _ => None
  }

  function HeaderOf(f: Frame): (b: Bytes)
    ensures |b| == HEADER_SIZE
  {
    FRAME_MAGIC + U8Bytes(FRAME_VERSION) + U8Bytes(KindByte(f.kind)) + BigEndian(2, f.flags)
      + BigEndian(8, |f.body| % U64_LIMIT)
  }

  function FrameBytes(f: Frame): Bytes {
    HeaderOf(f) + f.body
  }

  /** What sixteen received bytes announce: the kind, the flags and the body size. */
  function ParseHeaderFields(h: Bytes): Option<(MessageType, U16, nat)>
    requires |h| == HEADER_SIZE
  {
    Widths();
    BigEndianCanonical(h[6..8]);
    if h[..4] != FRAME_MAGIC || h[4] as int != FRAME_VERSION then None else
      var kind := KindOf(h[5] as int);
      var size := FromBigEndian(h[8..16]);
      if kind.None? || size > MAX_FRAME_BODY then None
      else Some((kind.value, FromBigEndian(h[6..8]), size))
  }

  function ParseFrame(b: Bytes): Parsed<Frame> {
    var (header, b) :- Take(HEADER_SIZE, b);
    var fields := ParseHeaderFields(header);
    if fields.None? then Bad else
      var (body, b) :- Take(fields.value.2, b);
      Got(Frame(fields.value.0, fields.value.1, body), b)
  }

  // ----- Writing and reading -----

  /** A byte stream between two hosts, seen from one end: what has been sent and what is still to be received. */
  class ByteChannel {
    const faulty: bool
    var sent: Bytes
    var incoming: Bytes

    constructor (incoming: Bytes, faulty: bool)
      ensures this.incoming == incoming && sent == [] && this.faulty == faulty
    {
      this.faulty, this.incoming, sent := faulty, incoming, [];
    }

    /** A failed send may leave a part of the data on the wire. */
    method SendAll(data: Bytes) returns (r: Result<bool>)
      modifies this`sent
      ensures r.Ok? ==> sent == old(sent) + data
      ensures r.Err? ==> faulty && old(sent) <= sent <= old(sent) + data
    {
      if faulty {
        var fails: bool := *;
        if fails {
          var n: nat :| n <= |data|;
          sent := sent + data[..n];
          return Err(NetworkError);
        }
      }
      sent := sent + data;
      r := Ok(true);
    }

    /** Exactly n bytes, or an error when the peer has sent fewer. */
    method RecvExact(n: nat) returns (r: Result<Bytes>)
      modifies this`incoming
      ensures r.Ok? ==> Take(n, old(incoming)) == Got(r.value, incoming)
      ensures r.Err? ==> faulty || Take(n, old(incoming)).Bad?
    {
      var fails: bool := *;
      if |incoming| < n || (faulty && fails) {
        return Err(NetworkError);
      }
      r := Ok(incoming[..n]);
      incoming := incoming[n..];
    }
  }

  method BuildHeader(f: Frame) returns (header: Bytes)
    requires |f.body| <= MAX_FRAME_BODY
    ensures header == HeaderOf(f)
  {
    hide BigEndian;
    var w := new Writer();
    w.AppendBytes(FRAME_MAGIC);
    w.AppendU8(FRAME_VERSION);
    w.AppendU8(KindByte(f.kind));
    w.AppendUint(2, f.flags);
    w.AppendUint(8, |f.body|);
    header := w.output;
  }

  method WriteFrame(channel: ByteChannel, f: Frame) returns (r: Result<bool>)
    modifies channel`sent
    ensures |f.body| > MAX_FRAME_BODY ==> r == Err(ProtocolError) && channel.sent == old(channel.sent)
    ensures r.Ok? ==> channel.sent == old(channel.sent) + FrameBytes(f)
    ensures |f.body| <= MAX_FRAME_BODY && !channel.faulty ==> r.Ok?
  {
    hide HeaderOf;
    if |f.body| > MAX_FRAME_BODY {
      return Err(ProtocolError);
    }
    var header := BuildHeader(f);
    r := channel.SendAll(header);
    if r.Ok? && f.body != [] {
      r := channel.SendAll(f.body);
      JoinAssoc(old(channel.sent), HeaderOf(f), f.body);
    } else if r.Ok? {
      assert HeaderOf(f) + [] == HeaderOf(f);
    }
  }

  /** The checks on a received header, in the order the program makes them. */
  method CheckHeader(h: Bytes) returns (r: Result<(MessageType, U16, nat)>)
    requires |h| == HEADER_SIZE
    ensures r == if ParseHeaderFields(h).Some? then Ok(ParseHeaderFields(h).value) else Err(ProtocolError)
    ensures r.Ok? <==> h[..4] == [76, 70, 84, 80] && h[4] == 1 && 1 <= h[5] <= 11 && FromBigEndian(h[8..16]) <= 64 * 1024 * 1024
    ensures r.Ok? ==> KindByte(r.value.0) == h[5] as int && r.value.1 == FromBigEndian(h[6..8]) && r.value.2 == FromBigEndian(h[8..16])
  {
    if h[..4] != FRAME_MAGIC {
      return Err(ProtocolError);
    }
    if h[4] as int != FRAME_VERSION {
      return Err(ProtocolError);
    }
    var kind := KindOf(h[5] as int);
    if kind.None? {
      return Err(ProtocolError);
    }
    var size := ReadBigEndian(h[8..16]);
    if size > MAX_FRAME_BODY {
      return Err(ProtocolError);
    }
    Widths();
    BigEndianCanonical(h[6..8]);
    var flags := ReadBigEndian(h[6..8]);
    r := Ok((kind.value, flags, size));
  }

  method ReadBigEndian(b: Bytes) returns (value: nat)
    ensures value == FromBigEndian(b)
  {
    value := 0;
    for i := 0 to |b|
      invariant value == FromBigEndian(b[..i])
    {
      assert b[..i + 1][..i] == b[..i];
      value := value * 256 + b[i] as int;
    }
    assert b[..|b|] == b;
  }

  method ReadFrame(channel: ByteChannel) returns (r: Result<Frame>)
    modifies channel`incoming
    ensures r.Ok? ==> ParseFrame(old(channel.incoming)) == Got(r.value, channel.incoming)
    ensures !channel.faulty ==> (r.Ok? <==> ParseFrame(old(channel.incoming)).Got?)
  {
    hide ParseHeaderFields;
    var header := channel.RecvExact(HEADER_SIZE);
    if header.Err? {
      return Err(header.error);
    }
    var fields := CheckHeader(header.value);
    if fields.Err? {
      return Err(fields.error);
    }
    var (kind, flags, size) := fields.value;
    if size == 0 {
      assert Take(0, channel.incoming) == Got([], channel.incoming);
      return Ok(Frame(kind, flags, []));
    }
    var body := channel.RecvExact(size);
    if body.Err? {
      return Err(body.error);
    }
    r := Ok(Frame(kind, flags, body.value));
  }

  // ----- Round trips over whole streams -----

  lemma HeaderFields(f: Frame)
    requires |f.body| <= MAX_FRAME_BODY
    ensures ParseHeaderFields(HeaderOf(f)) == Some((f.kind, f.flags, |f.body|))
  {
    hide BigEndian, FromBigEndian;
    Widths();
    BigEndianRoundTrip(2, f.flags);
    BigEndianRoundTrip(8, |f.body|);
    var h := HeaderOf(f);
    assert h[..4] == FRAME_MAGIC && h[6..8] == BigEndian(2, f.flags) && h[8..16] == BigEndian(8, |f.body|);
  }

  lemma ReadsFrame(f: Frame, rest: Bytes)
    requires |f.body| <= MAX_FRAME_BODY
    ensures ParseFrame(FrameBytes(f) + rest) == Got(f, rest)
  {
    hide HeaderOf, ParseHeaderFields;
    JoinAssoc(HeaderOf(f), f.body, rest);
    TakeFront(HeaderOf(f), f.body + rest);
    HeaderFields(f);
    TakeFront(f.body, rest);
  }

  /**
   Writing any list of frames and reading that many gives the same kinds, flags and bodies, and leaves whatever
   follows untouched.
   */
  lemma FramesRoundTrip(frames: seq<Frame>, rest: Bytes)
    requires forall i :: 0 <= i < |frames| ==> |frames[i].body| <= MAX_FRAME_BODY
    ensures ParseMany(ParseFrame, |frames|, ManyBytes(FrameBytes, frames) + rest) == Got(frames, rest)
  {
    hide ParseFrame, FrameBytes;
    forall i, r: Bytes | 0 <= i < |frames|
      ensures ParseFrame(FrameBytes(frames[i]) + r) == Got(frames[i], r)
    {
      ReadsFrame(frames[i], r);
    }
    ReadsMany(ParseFrame, FrameBytes, frames, rest);
  }

  lemma FrameStable(b: Bytes, more: Bytes)
    ensures StableAt(ParseFrame, b, more)
  {
    hide ParseHeaderFields;
    if ParseFrame(b).Got? {
      TakeStable(HEADER_SIZE, b, more);
      TakeStable(ParseHeaderFields(b[..HEADER_SIZE]).value.2, b[HEADER_SIZE..], more);
    }
  }

  /** A stream cut short inside a frame is never read as a frame. */
  lemma TruncatedFrameRejected(f: Frame, k: nat)
    requires |f.body| <= MAX_FRAME_BODY && k < |FrameBytes(f)|
    ensures ParseFrame(FrameBytes(f)[..k]).Bad?
  {
    hide ParseFrame, FrameBytes;
    var b := FrameBytes(f);
    FrameStable(b[..k], b[k..]);
    assert b[..k] + b[k..] == b && b + [] == b;
    ReadsFrame(f, []);
  }
}
