/**
 One file of a directory synchronisation on the wire: how the sender streams it and how the receiver applies the
 stream through a part file (src/transfer/sync_session.cpp).
 */
module FileStreams {
  import opened Base
  import opened Frames
  import opened Delta
  import opened SyncCodec

  const DELTA_OP_METADATA: nat := 1 + 8 + 8 + 8
  const MAX_DELTA_DATA: nat := MAX_FRAME_BODY - DELTA_OP_METADATA

  /** One end of a connection at the level of whole frames. */
  class Connection {
    const faulty: bool
    var incoming: seq<Frame>
    var sent: seq<Frame>

    constructor (incoming: seq<Frame>, faulty: bool)
      ensures this.incoming == incoming && sent == [] && this.faulty == faulty
    {
      this.incoming, this.faulty, sent := incoming, faulty, [];
    }

    method Fails() returns (fails: bool)
      ensures fails ==> faulty
    {
      fails := *;
      fails := fails && faulty;
    }

    method Write(f: Frame) returns (r: Result<bool>)
      modifies this`sent
      ensures r.Ok? ==> sent == old(sent) + [f] && |f.body| <= MAX_FRAME_BODY
      ensures r.Err? ==> sent == old(sent) && (faulty || |f.body| > MAX_FRAME_BODY)
      ensures |f.body| > MAX_FRAME_BODY ==> r == Err(ProtocolError)
    {
      if |f.body| > MAX_FRAME_BODY {
        return Err(ProtocolError);
      }
      var fails := Fails();
      if fails {
        return Err(NetworkError);
      }
      sent := sent + [f];
      r := Ok(true);
    }

    method Read() returns (r: Result<Frame>)
      modifies this`incoming
      ensures r.Ok? ==> old(incoming) == [r.value] + incoming
      ensures r.Err? ==> r.error == NetworkError && incoming == old(incoming) && (faulty || incoming == [])
    {
      var fails := Fails();
      if fails || incoming == [] {
        return Err(NetworkError);
      }
      r := Ok(incoming[0]);
      incoming := incoming[1..];
    }
  }

  function Message(kind: MessageType, body: Bytes): Frame {
    Frame(kind, 0, body)
  }

  // ----- The frames of a file -----

  function BeginFrame(e: ManifestEntry): Frame {
    Message(DeltaBegin, HeaderBytes(e.size, e.sha256))
  }

  function OpFrame(op: DeltaOp): Frame {
    Message(DeltaMessage, OpBody(op))
  }

  function EndFrame(opCount: U32): Frame {
    Message(DeltaEnd, EndBytes(opCount))
  }

  function OpFrames(ops: seq<DeltaOp>): (fs: seq<Frame>)
    ensures |fs| == |ops| && forall i :: 0 <= i < |ops| ==> fs[i] == OpFrame(ops[i])
  {
    if ops == [] then [] else OpFrames(ops[..|ops| - 1]) + [OpFrame(ops[|ops| - 1])]
  }

  /** The frames of a stream that does not break off. */
  function StreamFrames(e: ManifestEntry, ops: seq<DeltaOp>): seq<Frame>
    requires |ops| < U32_LIMIT
  {
    [BeginFrame(e)] + OpFrames(ops) + [EndFrame(|ops|)]
  }

  function PayloadOf(frames: seq<Frame>): nat {
    if frames == [] then 0 else PayloadOf(frames[..|frames| - 1]) + |frames[|frames| - 1].body|
  }

  predicate Fits(f: Frame) {
    |f.body| <= MAX_FRAME_BODY
  }

  predicate AllFit(frames: seq<Frame>) {
    forall i :: 0 <= i < |frames| ==> Fits(frames[i])
  }

  /** The sender can send all of a file: it has enough bytes, and every frame and the count fit. */
  predicate FullSendable(e: ManifestEntry, source: Option<Bytes>, chunkSize: U32) {
    && 0 < chunkSize <= MAX_DELTA_DATA
    && source.Some? && |source.value| >= e.size
    && Fits(BeginFrame(e))
    && |ChunksOf(source.value[..e.size], chunkSize)| < U32_LIMIT
  }

  predicate DeltaSendable(h: Digest, lookup: Lookup, e: ManifestEntry, source: Option<Bytes>, blockSize: U32) {
    && 0 < blockSize <= MAX_DELTA_DATA
    && source.Some?
    && Fits(BeginFrame(e))
    && |DeltaOps(h, lookup, blockSize, source.value)| < U32_LIMIT
    && AllFit(OpFrames(DeltaOps(h, lookup, blockSize, source.value)))
  }

  lemma PayloadAppend(frames: seq<Frame>, f: Frame)
    ensures PayloadOf(frames + [f]) == PayloadOf(frames) + |f.body|
  {
    assert (frames + [f])[..|frames|] == frames;
  }

  lemma OpFramesAppend(ops: seq<DeltaOp>, op: DeltaOp)
    ensures OpFrames(ops + [op]) == OpFrames(ops) + [OpFrame(op)]
  {
    assert (ops + [op])[..|ops|] == ops;
  }

  lemma LiteralFrameSize(op: DeltaOp)
    ensures |OpFrame(op).body| == DELTA_OP_METADATA + |op.data|
  {
  }
}
