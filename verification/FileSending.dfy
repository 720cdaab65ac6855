/**
 How the sender of a directory synchronisation streams one file (src/transfer/sync_session.cpp): a begin frame, one
 frame per operation, an end frame with their number; and what it has put on the wire when it breaks off.
 */
module FileSending {
  import opened Base
  import opened FileIO
  import opened Frames
  import opened BlockSignatures
  import opened Delta
  import opened SyncCodec
  import opened FileStreams

  // ----- What a file puts on the wire -----

  /** The frames a file's stream writes, and the error it stops with if it does. */
  datatype Transmission = Transmission(frames: seq<Frame>, failure: Option<ErrorCode>)

  /** The part of a source that a full stream carries. */
  function Carried(source: Bytes, size: nat): Bytes {
    if |source| >= size then source[..size] else source
  }

  function Stream(e: ManifestEntry, ops: seq<DeltaOp>, enough: bool): Transmission {
    if |ops| >= U32_LIMIT then Transmission([BeginFrame(e)] + OpFrames(ops[..U32_LIMIT - 1]), Some(InvalidArgument))
    else if !enough then Transmission([BeginFrame(e)] + OpFrames(ops), Some(IoError))
    else Transmission(StreamFrames(e, ops), None)
  }

  function FullTransmission(e: ManifestEntry, source: Option<Bytes>, chunkSize: U32): Transmission {
    if chunkSize == 0 || chunkSize > MAX_DELTA_DATA then Transmission([], Some(InvalidArgument))
    else if source.None? then Transmission([], Some(IoError))
    else Stream(e, ChunksOf(Carried(source.value, e.size), chunkSize), |source.value| >= e.size)
  }

  function DeltaTransmission(h: Digest, lookup: Lookup, e: ManifestEntry, source: Option<Bytes>, blockSize: U32): Transmission {
    if blockSize == 0 || blockSize > MAX_DELTA_DATA then Transmission([], Some(InvalidArgument))
    else if source.None? then Transmission([BeginFrame(e)], Some(IoError))
    else Stream(e, DeltaOps(h, lookup, blockSize, source.value), true)
  }

  /** Sending a file succeeds exactly when its transmission neither breaks off nor has a frame that is too large. */
  predicate Sound(t: Transmission) {
    t.failure.None? && AllFit(t.frames)
  }

  function FirstTooLarge(frames: seq<Frame>): (k: nat)
    ensures k <= |frames| && AllFit(frames[..k]) && (k < |frames| ==> !Fits(frames[k]))
  {
    if frames == [] || !Fits(frames[0]) then 0 else
      var k := FirstTooLarge(frames[1..]);
      assert frames[..k + 1] == [frames[0]] + frames[1..][..k];
      k + 1
  }

  /** The frames that get written: those before the first that is too large. */
  function Fitting(frames: seq<Frame>): seq<Frame> {
    frames[..FirstTooLarge(frames)]
  }

  lemma FittingIs(frames: seq<Frame>, k: nat)
    requires k <= |frames| && AllFit(frames[..k]) && (k < |frames| ==> !Fits(frames[k]))
    ensures Fitting(frames) == frames[..k]
  {
  }

  lemma AllFitting(frames: seq<Frame>)
    requires AllFit(frames)
    ensures Fitting(frames) == frames
  {
    hide Fits;
    assert frames[..|frames|] == frames;
    FittingIs(frames, |frames|);
  }

  // ----- Which frames fit -----

  lemma FitJoin(xs: seq<Frame>, ys: seq<Frame>)
    ensures AllFit(xs + ys) <==> AllFit(xs) && AllFit(ys)
  {
    hide Fits;
    var all := xs + ys;
    if AllFit(all) {
      forall i | 0 <= i < |xs| ensures Fits(xs[i]) {
        assert all[i] == xs[i];
      }
      forall i | 0 <= i < |ys| ensures Fits(ys[i]) {
        assert all[|xs| + i] == ys[i];
      }
    }
  }

  lemma FitOne(f: Frame)
    ensures AllFit([f]) <==> Fits(f)
  {
    assert [f][0] == f;
  }

  lemma EndFits(opCount: U32)
    ensures Fits(EndFrame(opCount))
  {
  }

  lemma StreamFit(e: ManifestEntry, ops: seq<DeltaOp>)
    requires |ops| < U32_LIMIT
    ensures AllFit(StreamFrames(e, ops)) <==> Fits(BeginFrame(e)) && AllFit(OpFrames(ops))
  {
    hide BeginFrame, EndFrame, OpFrames, AllFit;
    EndFits(|ops|);
    FitJoin([BeginFrame(e)] + OpFrames(ops), [EndFrame(|ops|)]);
    FitJoin([BeginFrame(e)], OpFrames(ops));
    FitOne(BeginFrame(e));
    FitOne(EndFrame(|ops|));
  }

  lemma {:induction false} ChunksFit(data: Bytes, chunkSize: U32)
    requires 0 < chunkSize <= MAX_DELTA_DATA
    ensures forall i :: 0 <= i < |ChunksOf(data, chunkSize)| ==> Fits(OpFrame(ChunksOf(data, chunkSize)[i]))
    ensures AllFit(OpFrames(ChunksOf(data, chunkSize)))
    decreases |data|
  {
    hide OpBody;
    var ops := ChunksOf(data, chunkSize);
    forall i | 0 <= i < |ops| ensures Fits(OpFrame(ops[i])) {
      ChunkIsSmall(data, chunkSize, i);
      LiteralFrameSize(ops[i]);
    }
  }

  lemma {:induction false} ChunkIsSmall(data: Bytes, chunkSize: U32, i: nat)
    requires 0 < chunkSize && i < |ChunksOf(data, chunkSize)|
    ensures |ChunksOf(data, chunkSize)[i].data| <= chunkSize
    decreases |data|
  {
    if data != [] && |data| > chunkSize && i > 0 {
      ChunkIsSmall(data[chunkSize..], chunkSize, i - 1);
    }
  }

  lemma FullSound(e: ManifestEntry, source: Option<Bytes>, chunkSize: U32)
    ensures var t := FullTransmission(e, source, chunkSize);
            && (Sound(t) <==> FullSendable(e, source, chunkSize))
            && (Sound(t) ==> t.frames == StreamFrames(e, ChunksOf(source.value[..e.size], chunkSize)))
  {
    hide HeaderBytes, OpBody, EndBytes, Fits, ChunksOf, OpFrames;
    if 0 < chunkSize <= MAX_DELTA_DATA && source.Some? {
      var ops := ChunksOf(Carried(source.value, e.size), chunkSize);
      ChunksFit(Carried(source.value, e.size), chunkSize);
      if |ops| < U32_LIMIT {
        StreamFit(e, ops);
      }
    }
  }

  lemma DeltaIsSound(h: Digest, lookup: Lookup, e: ManifestEntry, source: Option<Bytes>, blockSize: U32)
    ensures var t := DeltaTransmission(h, lookup, e, source, blockSize);
            && (Sound(t) <==> DeltaSendable(h, lookup, e, source, blockSize))
            && (Sound(t) ==> t.frames == StreamFrames(e, DeltaOps(h, lookup, blockSize, source.value)))
  {
    hide HeaderBytes, OpBody, EndBytes, Fits, Greedy, OpFrames;
    if 0 < blockSize <= MAX_DELTA_DATA && source.Some? {
      var ops := DeltaOps(h, lookup, blockSize, source.value);
      if |ops| < U32_LIMIT {
        StreamFit(e, ops);
      }
    }
  }

  // ----- Writing -----

  /** Writes frames and counts their bodies. */
  class StreamWriter {
    const conn: Connection
    ghost const base: seq<Frame>
    ghost var frames: seq<Frame>
    var payload: nat

    /** These frames are on the wire. */
    ghost predicate Written()
      reads this, conn
    {
      conn.sent == base + frames
    }

    ghost predicate Valid()
      reads this, conn
    {
      Written() && payload == PayloadOf(frames)
    }

    constructor (conn: Connection)
      ensures Valid() && this.conn == conn && base == conn.sent && frames == []
    {
      this.conn, base, frames, payload := conn, conn.sent, [], 0;
    }

    method Put(f: Frame) returns (r: Result<bool>)
      requires Valid()
      modifies this, conn`sent
      ensures r.Ok? ==> Valid() && frames == old(frames) + [f] && Fits(f)
      ensures r.Err? ==> Written() && frames == old(frames) && (conn.faulty || !Fits(f))
    {
      payload := payload + |f.body|;
      r := conn.Write(f);
      if r.Ok? {
        PayloadAppend(frames, f);
        JoinAssoc(base, frames, [f]);
        frames := frames + [f];
      }
    }
  }

  /** A chunk taken from the front leaves the other chunks. */
  lemma {:induction false} ChunksStep(data: Bytes, chunkSize: U32, from: nat)
    requires chunkSize > 0 && from < |data| < U63_LIMIT
    ensures var n := if |data| - from < chunkSize then |data| - from else chunkSize;
            ChunksOf(data[from..], chunkSize) == [Literal(data[from..from + n])] + ChunksOf(data[from + n..], chunkSize)
  {
    var rest := data[from..];
    if |rest| <= chunkSize {
      assert rest == data[from..|data|] && data[|data|..] == [];
      assert [Literal(rest)] + [] == [Literal(rest)];
    } else {
      assert rest[..chunkSize] == data[from..from + chunkSize] && rest[chunkSize..] == data[from + chunkSize..];
    }
  }

  /** What one more chunk does to the operations sent and still to come. */
  lemma ChunkAdvance(data: Bytes, chunkSize: U32, at: nat, n: nat, ops: seq<DeltaOp>)
    requires chunkSize > 0 && at < |data| < U63_LIMIT
    requires n == if |data| - at < chunkSize then |data| - at else chunkSize
    ensures var op := Literal(data[at..at + n]);
            ops + ChunksOf(data[at..], chunkSize) == (ops + [op]) + ChunksOf(data[at + n..], chunkSize)
  {
    hide ChunksOf;
    ChunksStep(data, chunkSize, at);
    JoinAssoc(ops, [Literal(data[at..at + n])], ChunksOf(data[at + n..], chunkSize));
  }

  /** The operations that get sent before the counter is full. */
  function Countable(ops: seq<DeltaOp>): seq<DeltaOp> {
    if |ops| >= U32_LIMIT then ops[..U32_LIMIT - 1] else ops
  }

  /** Writes one chunk as an operation. */
  method PutChunk(w: StreamWriter, chunk: Bytes, ghost before: seq<Frame>, ghost ops: seq<DeltaOp>) returns (r: Result<bool>)
    requires w.Valid() && |chunk| <= MAX_DELTA_DATA && w.frames == before + OpFrames(ops)
    modifies w, w.conn`sent
    ensures r.Ok? ==> w.Valid() && w.frames == before + OpFrames(ops + [Literal(chunk)])
    ensures r.Err? ==> w.Written() && w.conn.faulty
  {
    hide OpBody, PayloadOf, OpFrames;
    var op := Literal(chunk);
    LiteralFrameSize(op);
    r := w.Put(OpFrame(op));
    OpFramesAppend(ops, op);
    JoinAssoc(before, OpFrames(ops), [OpFrame(op)]);
  }

  lemma CarriedSize(source: Bytes, size: nat)
    ensures Carried(source, size) <= source
    ensures |Carried(source, size)| == if |source| >= size then size else |source|
  {
  }

  /** What a read of a chunk is of the data to send. */
  lemma ChunkRead(input: Bytes, data: Bytes, at: nat, got: Bytes, rest: Bytes)
    requires data <= input && at + |got| <= |data| && input[at..] == got + rest
    ensures got == data[at..at + |got|] && rest == input[at + |got|..]
  {
    assert input[at..][..|got|] == got && input[at..][|got|..] == rest;
  }

  /** Reads and sends chunk after chunk until `size` bytes are gone. */
  method SendChunks(w: StreamWriter, input: InputFile, size: U64, chunkSize: U32) returns (r: Result<U32>)
    requires w.Valid() && chunkSize > 0 && chunkSize <= MAX_DELTA_DATA
    requires input.Valid() && input.pos == 0 && !input.failed && |input.data| < U63_LIMIT
    modifies w, w.conn`sent, input
    ensures w.Written()
    ensures var all := ChunksOf(Carried(input.data, size), chunkSize);
            && (r.Ok? ==> w.Valid() && |input.data| >= size && r.value == |all| && w.frames == old(w.frames) + OpFrames(all))
            && (r.Err? && !w.conn.faulty && !input.faulty ==>
                  && w.frames == old(w.frames) + OpFrames(Countable(all))
                  && (|all| >= U32_LIMIT || |input.data| < size))
  {
    hide OpBody, PayloadOf, ChunksOf, OpFrames;
    ghost var data := Carried(input.data, size);
    ghost var all := ChunksOf(data, chunkSize);
    CarriedSize(input.data, size);
    hide Carried;
    var bytesSent, opsSent: U32 := 0, 0;
    ghost var ops: seq<DeltaOp> := [];
    assert data[0..] == data;
    NoOps(w.frames, all);
    while bytesSent < size
      invariant w.Valid() && input.Valid()
      invariant bytesSent == input.pos && bytesSent <= |data|
      invariant opsSent == |ops|
      invariant input.failed ==> bytesSent < size && (input.faulty || bytesSent == |input.data|)
      invariant !input.failed || !input.faulty ==> ops + ChunksOf(data[bytesSent..], chunkSize) == all
      invariant w.frames == old(w.frames) + OpFrames(ops)
      decreases size - bytesSent
    {
      var remaining := size - bytesSent;
      var want := if chunkSize < remaining then chunkSize else remaining;
      var got := input.ReadChunk(want);
      if got == [] {
        if !input.faulty {
          NoChunks(data[bytesSent..], chunkSize);
          assert ops + [] == ops;
        }
        return Err(IoError);
      }
      ChunkRead(input.data, data, bytesSent, got, input.Rest());
      if |got| == want || !input.faulty {
        ChunkAdvance(data, chunkSize, bytesSent, |got|, ops);
      }
      if opsSent == U32_LIMIT - 1 {
        assert !input.faulty ==> all[..U32_LIMIT - 1] == ops;
        return Err(InvalidArgument);
      }
      var written := PutChunk(w, got, old(w.frames), ops);
      if written.Err? {
        return Err(written.error);
      }
      ops := ops + [Literal(got)];
      bytesSent := bytesSent + |got|;
      opsSent := opsSent + 1;
    }
    NoChunks(data[bytesSent..], chunkSize);
    assert ops + [] == ops;
    r := Ok(opsSent);
  }

  lemma NoOps(base: seq<Frame>, ops: seq<DeltaOp>)
    ensures base + OpFrames([]) == base && [] + ops == ops
  {
  }

  lemma NoChunks(data: Bytes, chunkSize: U32)
    requires data == [] && chunkSize > 0
    ensures ChunksOf(data, chunkSize) == []
  {
  }

  function DataOf(source: Option<InputFile>): Option<Bytes> {
    if source.None? then None else Some(source.value.data)
  }

  /** When a stream breaks off after operations that fit, they are on the wire. */
  lemma BrokenOff(e: ManifestEntry, ops: seq<DeltaOp>, enough: bool)
    requires Fits(BeginFrame(e)) && (forall i :: 0 <= i < |ops| ==> Fits(OpFrame(ops[i]))) && (|ops| >= U32_LIMIT || !enough)
    ensures Fitting(Stream(e, ops, enough).frames) == [BeginFrame(e)] + OpFrames(Countable(ops))
  {
    hide Fits, BeginFrame, OpFrame;
    FitOne(BeginFrame(e));
    FitJoin([BeginFrame(e)], OpFrames(Countable(ops)));
    AllFitting([BeginFrame(e)] + OpFrames(Countable(ops)));
  }

  /** When the begin frame is too large nothing is. */
  lemma NotBegun(e: ManifestEntry, ops: seq<DeltaOp>, enough: bool)
    requires !Fits(BeginFrame(e))
    ensures Fitting(Stream(e, ops, enough).frames) == []
  {
    hide Fits, BeginFrame, OpFrames, EndFrame;
    FittingIs(Stream(e, ops, enough).frames, 0);
  }

  /** Sends all of a file. If it fails without a fault, what its transmission writes before that is on the wire. */
  method SendFullStream(conn: Connection, source: Option<InputFile>, e: ManifestEntry, chunkSize: U32)
    returns (r: Result<nat>)
    requires source.Some? ==>
               source.value.Valid() && source.value.pos == 0 && !source.value.failed && |source.value.data| < U63_LIMIT
    modifies conn`sent, if source.Some? then {source.value} else {}
    ensures r.Ok? ==>
              && FullSendable(e, DataOf(source), chunkSize)
              && var frames := StreamFrames(e, ChunksOf(source.value.data[..e.size], chunkSize));
                 conn.sent == old(conn.sent) + frames && r.value == PayloadOf(frames)
    ensures !conn.faulty && (source.Some? ==> !source.value.faulty) ==>
              && (r.Ok? <==> FullSendable(e, DataOf(source), chunkSize))
              && (r.Err? ==> conn.sent == old(conn.sent) + Fitting(FullTransmission(e, DataOf(source), chunkSize).frames))
  {
    hide HeaderBytes, OpBody, EndBytes, PayloadOf, ChunksOf, Stream, Fitting, Fits;
    NothingFits(conn.sent);
    if chunkSize == 0 {
      return Err(InvalidArgument);
    }
    if chunkSize > MAX_DELTA_DATA {
      return Err(InvalidArgument);
    }
    if source.None? {
      return Err(IoError);
    }
    ghost var data := Carried(source.value.data, e.size);
    ghost var all, enough := ChunksOf(data, chunkSize), |source.value.data| >= e.size;
    ghost var t := FullTransmission(e, DataOf(source), chunkSize);
    assert t == Stream(e, all, enough);
    var w := new StreamWriter(conn);
    var beginWritten := w.Put(BeginFrame(e));
    if beginWritten.Err? {
      if !conn.faulty {
        NotBegun(e, all, enough);
      }
      return Err(beginWritten.error);
    }
    var opsSent := SendChunks(w, source.value, e.size, chunkSize);
    ChunksFit(data, chunkSize);
    if opsSent.Err? {
      if !conn.faulty && !source.value.faulty {
        BrokenOff(e, all, enough);
        assert w.frames == Fitting(t.frames);
      }
      return Err(opsSent.error);
    }
    EndFits(opsSent.value);
    var endWritten := w.Put(EndFrame(opsSent.value));
    if endWritten.Err? {
      return Err(endWritten.error);
    }
    assert [] + [BeginFrame(e)] == [BeginFrame(e)];
    r := Ok(w.payload);
  }

  lemma NothingFits(sent: seq<Frame>)
    ensures sent + Fitting([]) == sent
  {
  }

  /** The frame writer behind the operation callback: an operation is taken when its frame fits. */
  function FrameReply(op: DeltaOp): Result<bool> {
    if Fits(OpFrame(op)) then Ok(true) else Err(ProtocolError)
  }

  method SendOps(w: StreamWriter, ops: seq<DeltaOp>) returns (r: Result<bool>)
    requires w.Valid()
    modifies w, w.conn`sent
    ensures r.Ok? ==> w.Valid() && w.frames == old(w.frames) + OpFrames(ops) && AllFit(OpFrames(ops))
    ensures r.Err? ==> w.conn.faulty || !AllFit(OpFrames(ops))
  {
    hide OpBody, PayloadOf;
    for i := 0 to |ops|
      invariant w.Valid()
      invariant w.frames == old(w.frames) + OpFrames(ops[..i])
      invariant forall j :: 0 <= j < i ==> Fits(OpFrame(ops[j]))
    {
      var written := w.Put(OpFrame(ops[i]));
      if written.Err? {
        assert OpFrames(ops)[i] == OpFrame(ops[i]);
        return written;
      }
      assert ops[..i + 1] == ops[..i] + [ops[i]];
      OpFramesAppend(ops[..i], ops[i]);
      JoinAssoc(old(w.frames), OpFrames(ops[..i]), [OpFrame(ops[i])]);
    }
    assert ops[..|ops|] == ops;
    r := Ok(true);
  }

  /** Operation n is the first that is not sent. */
  predicate IsRefused(ops: seq<DeltaOp>, n: nat) {
    && n < |ops| && AllFit(OpFrames(ops[..n]))
    && n < U32_LIMIT && (n == U32_LIMIT - 1 || !Fits(OpFrame(ops[n])))
  }

  /** The stream of a delta whose operation n is the first that is not taken. */
  lemma RefusedAt(e: ManifestEntry, ops: seq<DeltaOp>, n: nat)
    requires Fits(BeginFrame(e)) && IsRefused(ops, n)
    ensures Fitting(Stream(e, ops, true).frames) == [BeginFrame(e)] + OpFrames(ops[..n])
  {
    hide Fits, BeginFrame, OpFrame, EndFrame;
    var frames, sent := Stream(e, ops, true).frames, [BeginFrame(e)] + OpFrames(ops[..n]);
    FitOne(BeginFrame(e));
    FitJoin([BeginFrame(e)], OpFrames(ops[..n]));
    assert frames[..n + 1] == sent;
    if n < U32_LIMIT - 1 {
      assert frames[n + 1] == OpFrame(ops[n]);
    }
    FittingIs(frames, n + 1);
  }

  /** Streams the operations of a delta to the wire. */
  method SendDeltaOps(h: Digest, w: StreamWriter, input: InputFile, sigs: seq<BlockSignature>, lookup: Lookup, blockSize: U32,
                      ghost all: seq<DeltaOp>)
    returns (r: Result<U32>, ghost n: nat)
    requires w.Valid() && input.Valid() && Indexes(lookup, sigs) && blockSize > 0
    requires all == DeltaOps(h, lookup, blockSize, input.Rest())
    modifies w, w.conn`sent, input
    ensures r.Ok? ==> w.Valid() && w.frames == old(w.frames) + OpFrames(all) && AllFit(OpFrames(all)) && r.value == |all|
    ensures r.Err? && !w.conn.faulty && !input.faulty ==>
              w.Written() && IsRefused(all, n) && w.frames == old(w.frames) + OpFrames(all[..n])
    ensures !w.conn.faulty && !input.faulty ==> (r.Ok? <==> |all| < U32_LIMIT && AllFit(OpFrames(all)))
  {
    hide OpBody, PayloadOf, Greedy, Fits;
    var sink := new OpSink((n: nat, op: DeltaOp) => FrameReply(op));
    r := StreamDeltaOps(h, input, sigs, lookup, blockSize, sink);
    n := |sink.ops|;
    TakenFramesFit(sink);
    var sent := SendOps(w, sink.ops);
    if sent.Err? {
      return Err(sent.error), n;
    }
    AllTakenIffFit(sink, all);
    if r.Err? && !input.faulty {
      assert all[..|sink.ops|] == sink.ops;
    }
  }

  lemma AllTakenIffFit(sink: OpSink, all: seq<DeltaOp>)
    requires forall n, op :: sink.answer(n, op) == FrameReply(op)
    ensures (forall i :: 0 <= i < |all| ==> sink.Takes(all[i], i)) <==> AllFit(OpFrames(all))
    ensures forall i :: 0 <= i < |all| ==> (sink.Takes(all[i], i) <==> Fits(OpFrame(all[i])))
  {
    hide OpFrame, Fits;
    forall i | 0 <= i < |all| ensures sink.Takes(all[i], i) <==> Fits(OpFrames(all)[i]) {
    }
  }

  /** Sends a delta. If it fails without a fault, what its transmission writes before that is on the wire. */
  method SendStreamingDelta(h: Digest, conn: Connection, source: Option<InputFile>, e: ManifestEntry,
                            sigs: seq<BlockSignature>, lookup: Lookup, blockSize: U32)
    returns (r: Result<nat>)
    requires Indexes(lookup, sigs)
    requires source.Some? ==> source.value.Valid() && source.value.pos == 0 && |source.value.data| < U63_LIMIT
    modifies conn`sent, if source.Some? then {source.value} else {}
    ensures r.Ok? ==>
              && DeltaSendable(h, lookup, e, DataOf(source), blockSize)
              && var frames := StreamFrames(e, DeltaOps(h, lookup, blockSize, source.value.data));
                 conn.sent == old(conn.sent) + frames && r.value == PayloadOf(frames)
    ensures !conn.faulty && (source.Some? ==> !source.value.faulty) ==>
              && (r.Ok? <==> DeltaSendable(h, lookup, e, DataOf(source), blockSize))
              && (r.Err? ==>
                    conn.sent == old(conn.sent) + Fitting(DeltaTransmission(h, lookup, e, DataOf(source), blockSize).frames))
  {
    hide HeaderBytes, OpBody, EndBytes, PayloadOf, Greedy, Stream, Fitting, Fits;
    NothingFits(conn.sent);
    if blockSize == 0 {
      return Err(InvalidArgument);
    }
    if blockSize > MAX_DELTA_DATA {
      return Err(InvalidArgument);
    }
    var w := new StreamWriter(conn);
    var beginWritten := w.Put(BeginFrame(e));
    OnlyBegin(e);
    if beginWritten.Err? {
      if !conn.faulty && source.Some? {
        NotBegun(e, DeltaOps(h, lookup, blockSize, source.value.data), true);
      }
      return Err(beginWritten.error);
    }
    assert [] + [BeginFrame(e)] == [BeginFrame(e)];
    if source.None? {
      return Err(IoError);
    }
    assert source.value.Rest() == source.value.data;
    ghost var all := DeltaOps(h, lookup, blockSize, source.value.data);
    var opCount, n := SendDeltaOps(h, w, source.value, sigs, lookup, blockSize, all);
    if opCount.Err? {
      if !conn.faulty && !source.value.faulty {
        RefusedAt(e, all, n);
      }
      return Err(opCount.error);
    }
    EndFits(opCount.value);
    var endWritten := w.Put(EndFrame(opCount.value));
    if endWritten.Err? {
      return Err(endWritten.error);
    }
    r := Ok(w.payload);
  }

  lemma OnlyBegin(e: ManifestEntry)
    ensures Fitting([BeginFrame(e)]) == if Fits(BeginFrame(e)) then [BeginFrame(e)] else []
  {
    hide Fits, BeginFrame;
    FitOne(BeginFrame(e));
    if Fits(BeginFrame(e)) {
      AllFitting([BeginFrame(e)]);
    } else {
      FittingIs([BeginFrame(e)], 0);
    }
  }

  lemma TakenFramesFit(sink: OpSink)
    requires sink.Valid() && forall n, op :: sink.answer(n, op) == FrameReply(op)
    ensures AllFit(OpFrames(sink.ops))
  {
    forall i | 0 <= i < |sink.ops| ensures Fits(OpFrame(sink.ops[i])) {
      assert sink.Takes(sink.ops[i], i);
    }
  }
}
