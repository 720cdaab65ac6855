/**
 Both ends of a single-file transfer as they run (src/transfer/single_file.cpp). The hello has been exchanged before;
 error frames carry a message for people, which is left empty here.
 */
module SingleFileTransfer {
  import opened Base
  import opened FileIO
  import opened Wire
  import opened Frames
  import opened SyncCodec
  import opened Trees
  import opened FileStreams
  import opened FileReceiving
  import opened Numbers
  import opened FileMetadata
  import opened SingleFile

  datatype TransferStatus = Transferred | Resumed | Skipped

  datatype Received = Received(path: Text, bytesReceived: nat, sha256: Text, status: TransferStatus, resumedFrom: nat)

  datatype Sent = Sent(bytesSent: nat, sha256: Text, status: TransferStatus, resumedFrom: nat)

  const STORED: Text := [115, 116, 111, 114, 101, 100]

  function BeginAckFrame(ack: BeginAck): Frame {
    Message(Ack, BeginAckText(ack))
  }

  const STORED_FRAME: Frame := Message(Ack, STORED)

  // ----- Sizes of acknowledgements -----

  function Pow10(k: nat): nat {
    if k == 0 then 1 else 10 * Pow10(k - 1)
  }

  lemma {:induction false} DecimalLength(n: nat, k: nat)
    requires n < Pow10(k)
    ensures |Decimal(n)| <= k + 1
  {
    if n >= 10 && k >= 1 {
      DecimalLength(n / 10, k - 1);
    }
  }

  lemma TwentyDigits()
    ensures U64_LIMIT <= Pow10(20)
  {
    assert Pow10(5) == 100000;
    assert Pow10(10) == 10000000000;
    assert Pow10(15) == 1000000000000000;
  }

  lemma AckFits(ack: BeginAck)
    ensures Fits(BeginAckFrame(ack)) && Fits(STORED_FRAME)
  {
    TwentyDigits();
    DecimalLength(ack.offset, 20);
  }

  // ----- The receiver -----

  method ExistingTargetMatches(h: Digest, disk: Disk, path: Text, m: FileBegin) returns (r: Result<bool>)
    ensures r.Err? ==> disk.faulty
    ensures r.Ok? ==> r.value == Matches(h, disk.files, path, m)
  {
    var unreadable := disk.Fails();
    if unreadable {
      return Err(IoError);
    }
    if path !in disk.files {
      return Ok(false);
    }
    if |disk.files[path].bytes| != m.size {
      return Ok(false);
    }
    r := Ok(h(disk.files[path].bytes) == m.sha256);
  }

  method ChooseResumeOffset(disk: Disk, part: Text, m: FileBegin) returns (r: Result<nat>)
    ensures r.Err? ==> disk.faulty
    ensures r.Ok? ==> r.value == ResumeOffset(disk.files, part, m)
  {
    if !m.resume {
      return Ok(0);
    }
    var unreadable := disk.Fails();
    if unreadable {
      return Err(IoError);
    }
    if part !in disk.files {
      return Ok(0);
    }
    var size := |disk.files[part].bytes|;
    r := Ok(if size >= m.size then 0 else size);
  }

  /** All checks before anything is written. */
  method OpenTransfer(h: Digest, cfg: ReceiverConfig, disk: Disk, m: FileBegin) returns (o: Opening)
    ensures !disk.faulty ==> o == Open(h, cfg, disk.files, m)
    ensures !o.Refusal? ==> o == Open(h, cfg, disk.files, m)
  {
    hide BaseName;
    var target := TargetOf(m.name);
    if target.None? {
      return Refusal(ProtocolError);
    }
    if target.value in cfg.directories {
      return Refusal(InvalidArgument);
    }
    var matched := ExistingTargetMatches(h, disk, target.value, m);
    if matched.Err? {
      return Refusal(matched.error);
    }
    if matched.value {
      return Held(target.value);
    }
    if target.value in disk.files && !cfg.allowOverwrite {
      return Refusal(InvalidArgument);
    }
    var offset := ChooseResumeOffset(disk, PartPath(target.value), m);
    if offset.Err? {
      return Refusal(offset.error);
    }
    o := Wanted(target.value, offset.value);
  }

  /** Tells the sender why, as far as the connection still works. */
  method Complain(conn: Connection)
    modifies conn`sent
  {
    var _ := conn.Write(Message(ErrorMessage, []));
  }

  /** Opens the part file: from scratch, or at its end. */
  method OpenPart(disk: Disk, path: Text, offset: nat) returns (r: Result<bool>)
    requires offset > 0 ==> PartPath(path) in disk.files
    modifies disk`files
    ensures r.Err? ==> disk.faulty && disk.files == old(disk.files)
    ensures r.Ok? ==> PartPath(path) in disk.files && disk.files[PartPath(path)].bytes == Kept(old(disk.files), path, offset)
    ensures disk.files - {PartPath(path)} == old(disk.files) - {PartPath(path)}
  {
    if offset == 0 {
      r := disk.Create(PartPath(path));
    } else {
      var fails := disk.Fails();
      r := if fails then Err(IoError) else Ok(true);
    }
  }

  /** Appends chunk after chunk to the part file until the end frame. */
  method TakeChunks(conn: Connection, disk: Disk, part: Text, size: nat, offset: nat)
    returns (r: Result<nat>, ghost frames: seq<Frame>)
    requires part in disk.files && |disk.files[part].bytes| == offset <= size
    modifies conn`incoming, disk`files
    ensures part in disk.files && disk.files - {part} == old(disk.files) - {part}
    ensures old(conn.incoming) == frames + conn.incoming
    ensures r.Ok? ==> OnChunks(size, old(disk.files[part].bytes), frames) == Ended(disk.files[part].bytes)
                      && r.value == |disk.files[part].bytes| <= size
    ensures r.Err? ==> var st := OnChunks(size, old(disk.files[part].bytes), frames);
                       conn.faulty || disk.faulty || st.Broken? || (st.More? && conn.incoming == [])
  {
    hide OnChunks, FromBigEndian;
    ghost var start := disk.files[part].bytes;
    var bytesReceived := offset;
    frames := [];
    NoChunksYet(size, start);
    while true
      invariant part in disk.files && disk.files - {part} == old(disk.files) - {part}
      invariant bytesReceived == |disk.files[part].bytes| <= size
      invariant old(conn.incoming) == frames + conn.incoming
      invariant OnChunks(size, start, frames) == More(disk.files[part].bytes)
      decreases |conn.incoming|
    {
      var frame := conn.Read();
      if frame.Err? {
        return Err(frame.error), frames;
      }
      OnChunksStep(size, start, frames, frame.value);
      JoinAssoc(frames, [frame.value], conn.incoming);
      frames := frames + [frame.value];
      if frame.value.kind == FileEnd {
        return Ok(bytesReceived), frames;
      }
      if frame.value.kind != Chunk {
        return Err(ProtocolError), frames;
      }
      var chunk := ChunkOf(frame.value.body);
      if chunk.None? {
        return Err(ProtocolError), frames;
      }
      if chunk.value.offset != bytesReceived {
        return Err(ProtocolError), frames;
      }
      if |chunk.value.data| > size - bytesReceived {
        return Err(ProtocolError), frames;
      }
      var written := disk.Append(part, chunk.value.data);
      if written.Err? {
        return Err(written.error), frames;
      }
      bytesReceived := bytesReceived + |chunk.value.data|;
    }
  }

  /** Checks a finished part file and renames it over the target. */
  method CommitReceived(h: Digest, disk: Disk, path: Text, m: FileBegin, bytesReceived: nat) returns (r: Result<bool>)
    requires PartPath(path) in disk.files && bytesReceived == |disk.files[PartPath(path)].bytes|
    modifies disk`files
    ensures var data := old(disk.files[PartPath(path)].bytes);
            && (r.Ok? ==> |data| == m.size && h(data) == m.sha256 && Replaced(old(disk.files), disk.files, path, data))
            && (r.Err? ==> disk.files == old(disk.files) && (disk.faulty || |data| != m.size || h(data) != m.sha256))
  {
    if bytesReceived != m.size {
      return Err(ProtocolError);
    }
    var unsynced := disk.Fails();
    if unsynced {
      return Err(IoError);
    }
    var unreadable := disk.Fails();
    if unreadable {
      return Err(IoError);
    }
    if h(disk.files[PartPath(path)].bytes) != m.sha256 {
      return Err(ChecksumMismatch);
    }
    r := disk.Rename(PartPath(path), path);
  }

  /** The target is held already: nothing is written. */
  method SkipHeld(conn: Connection, path: Text, m: FileBegin) returns (r: Result<Received>)
    modifies conn
    ensures r.Ok? ==> old(conn.incoming) != [] && old(conn.incoming)[0].kind == FileEnd
                      && conn.sent == old(conn.sent) + [BeginAckFrame(BeginAck(m.size, true)), STORED_FRAME]
                      && r.value == Received(path, m.size, m.sha256, Skipped, 0)
    ensures !conn.faulty ==> (r.Ok? <==> old(conn.incoming) != [] && old(conn.incoming)[0].kind == FileEnd)
  {
    hide BeginAckText, Fits;
    var ack := BeginAck(m.size, true);
    AckFits(ack);
    var begun := conn.Write(BeginAckFrame(ack));
    if begun.Err? {
      return Err(begun.error);
    }
    var end := conn.Read();
    if end.Err? {
      return Err(end.error);
    }
    if end.value.kind != FileEnd {
      Complain(conn);
      return Err(ProtocolError);
    }
    var stored := conn.Write(STORED_FRAME);
    if stored.Err? {
      return Err(stored.error);
    }
    r := Ok(Received(path, m.size, m.sha256, Skipped, 0));
  }

  /** Opens the part file, which is guarded from then on, says where to start, and takes chunks up to the end frame. */
  method FillPart(conn: Connection, disk: Disk, path: Text, size: nat, offset: U64)
    returns (r: Result<nat>, guarded: bool)
    requires offset == |Kept(disk.files, path, offset)| <= size
    modifies conn, disk`files
    ensures disk.files - {PartPath(path)} == old(disk.files) - {PartPath(path)}
    ensures !guarded ==> r.Err? && disk.files == old(disk.files)
    ensures var st := OnChunks(size, Kept(old(disk.files), path, offset), old(conn.incoming));
            && (r.Ok? ==> PartPath(path) in disk.files && st == Ended(disk.files[PartPath(path)].bytes) && r.value == |st.data|)
            && (r.Err? && !conn.faulty && !disk.faulty ==> !st.Ended?)
    ensures r.Ok? ==> conn.sent == old(conn.sent) + [BeginAckFrame(BeginAck(offset, false))]
  {
    hide BeginAckText, Fits, OnChunks, Kept;
    ghost var start := Kept(disk.files, path, offset);
    KeptNeedsPart(disk.files, path, offset);
    var ready := OpenPart(disk, path, offset);
    if ready.Err? {
      Complain(conn);
      return Err(ready.error), false;
    }
    guarded := true;
    AckFits(BeginAck(offset, false));
    var begun := conn.Write(BeginAckFrame(BeginAck(offset, false)));
    if begun.Err? {
      return Err(begun.error), true;
    }
    ghost var frames;
    r, frames := TakeChunks(conn, disk, PartPath(path), size, offset);
    ChunksSettle(size, start, frames, conn.incoming);
    if r.Err? {
      Complain(conn);
    }
  }

  /** Receives into the part file and commits it; without a commit the guard removes the part file. */
  method ReceiveInto(h: Digest, conn: Connection, disk: Disk, path: Text, m: FileBegin, offset: U64)
    returns (r: Result<Received>, committed: bool)
    requires offset == |Kept(disk.files, path, offset)| <= m.size
    modifies conn, disk`files
    ensures var st := OnChunks(m.size, Kept(old(disk.files), path, offset), old(conn.incoming));
            && (committed ==> Acceptable(h, m, st) && Replaced(old(disk.files), disk.files, path, st.data))
            && (!committed ==> r.Err? && disk.files in {old(disk.files), old(disk.files) - {PartPath(path)}})
            && (r.Ok? ==> r.value == Received(path, |st.data|, m.sha256, if offset > 0 then Resumed else Transferred, offset))
            && (r.Err? && committed ==> conn.faulty)
            && (r.Err? && !conn.faulty && !disk.faulty ==> !Acceptable(h, m, st))
    ensures r.Ok? ==> conn.sent == old(conn.sent) + [BeginAckFrame(BeginAck(offset, false)), STORED_FRAME]
  {
    hide BeginAckText, Fits, OnChunks, Kept, PartPath;
    committed := false;
    var received, guarded := FillPart(conn, disk, path, m.size, offset);
    if received.Err? {
      if guarded {
        disk.Remove(PartPath(path));
      }
      return Err(received.error), false;
    }
    ghost var filled := disk.files;
    var done := CommitReceived(h, disk, path, m, received.value);
    if done.Err? {
      Complain(conn);
      disk.Remove(PartPath(path));
      return Err(done.error), false;
    }
    committed := true;
    ReplacedAnyway(old(disk.files), filled, disk.files, path, disk.files[path].bytes);
    AckFits(BeginAck(offset, false));
    var stored := conn.Write(STORED_FRAME);
    if stored.Err? {
      return Err(stored.error), true;
    }
    r := Ok(Received(path, received.value, m.sha256, if offset > 0 then Resumed else Transferred, offset));
  }

  lemma KeptNeedsPart(files: Tree, path: Text, offset: nat)
    requires offset == |Kept(files, path, offset)|
    ensures offset > 0 ==> PartPath(path) in files
  {
  }

  lemma ChunksSettle(size: nat, start: Bytes, frames: seq<Frame>, rest: seq<Frame>)
    ensures !OnChunks(size, start, frames).More? ==> OnChunks(size, start, frames + rest) == OnChunks(size, start, frames)
    ensures rest == [] ==> frames + rest == frames
  {
    if !OnChunks(size, start, frames).More? {
      Settled(size, start, frames, rest);
    }
  }

  /** What the announcement in the first frame leads to. */
  function Opened(h: Digest, cfg: ReceiverConfig, files: Tree, frames: seq<Frame>): Opening {
    if frames == [] || Announced(frames[0]).Err? then Refusal(ProtocolError) else Open(h, cfg, files, Announced(frames[0]).value)
  }

  /** Where the receiver tells the sender to start. */
  function Answer(h: Digest, cfg: ReceiverConfig, files: Tree, frames: seq<Frame>): Option<BeginAck> {
    match Opened(h, cfg, files, frames)
    case Refusal(_) => None
    case Held(_) => Some(BeginAck(Announced(frames[0]).value.size, true))
    case Wanted(_, offset) => Some(BeginAck(offset, false))
  }

  /**
   What is stored has the announced name, size and hash; its name has no slash and is no directory's; and a file that was
   there keeps its contents unless it may be overwritten.
   */
  predicate StoredRightly(h: Digest, cfg: ReceiverConfig, files: Tree, frames: seq<Frame>) {
    && frames != [] && Announced(frames[0]).Ok?
    && var m, accepted := Announced(frames[0]).value, Accepted(h, cfg, files, frames);
    && accepted.Some?
    && var (path, data) := accepted.value;
    && TargetOf(m.name) == Some(path) && |data| == m.size && h(data) == m.sha256
    && SLASH !in path && path !in cfg.directories
    && (path in files && !cfg.allowOverwrite ==> data == files[path].bytes)
  }

  lemma AcceptedIsStoredRightly(h: Digest, cfg: ReceiverConfig, files: Tree, frames: seq<Frame>)
    requires Accepted(h, cfg, files, frames).Some?
    ensures StoredRightly(h, cfg, files, frames)
  {
    hide OnChunks;
  }

  /**
   For any incoming frames: success means the file that those frames carry is stored under its name, or was there
   already; without a commit the target and every other file are as before, and a part file that was opened is gone;
   only the last acknowledgement can fail after the commit.
   */
  method ReceiveSingleFile(h: Digest, cfg: ReceiverConfig, conn: Connection, disk: Disk)
    returns (r: Result<Received>, committed: bool)
    modifies conn, disk`files
    ensures var was, accepted := old(disk.files), Accepted(h, cfg, old(disk.files), old(conn.incoming));
            && (r.Ok? || committed ==> accepted.Some?)
            && (r.Ok? ==> r.value.path == accepted.value.0 && r.value.bytesReceived == |accepted.value.1|)
            && (committed ==> Replaced(was, disk.files, accepted.value.0, accepted.value.1))
            && (r.Ok? && !committed ==> disk.files == was && r.value.status == Skipped)
            && (r.Err? && committed ==> conn.faulty)
            && (!conn.faulty && !disk.faulty ==> (r.Ok? <==> accepted.Some?))
    ensures committed ==> StoredRightly(h, cfg, old(disk.files), old(conn.incoming))
    ensures var opening := Opened(h, cfg, old(disk.files), old(conn.incoming));
            !committed ==>
              || disk.files == old(disk.files)
              || (opening.Wanted? && disk.files == old(disk.files) - {PartPath(opening.path)})
    ensures var answer := Answer(h, cfg, old(disk.files), old(conn.incoming));
            r.Ok? ==> answer.Some? && conn.sent == old(conn.sent) + [BeginAckFrame(answer.value), STORED_FRAME]
    ensures r.Ok? ==> old(conn.incoming) != [] && Announced(old(conn.incoming)[0]).Ok?
                      && r.value.sha256 == Announced(old(conn.incoming)[0]).value.sha256
    ensures r.Ok? && !committed ==>
              var m := Announced(old(conn.incoming)[0]).value;
              conn.sent == old(conn.sent) + [BeginAckFrame(BeginAck(m.size, true)), STORED_FRAME]
    ensures r.Ok? && committed ==>
              var m, was, part := Announced(old(conn.incoming)[0]).value, old(disk.files), PartPath(r.value.path);
              if m.resume && part in was && |was[part].bytes| < m.size
              then conn.sent == old(conn.sent) + [BeginAckFrame(BeginAck(|was[part].bytes|, false)), STORED_FRAME]
                   && r.value.resumedFrom == |was[part].bytes|
              else conn.sent == old(conn.sent) + [BeginAckFrame(BeginAck(0, false)), STORED_FRAME] && r.value.resumedFrom == 0
    ensures r.Ok? && committed ==> r.value.status == if r.value.resumedFrom > 0 then Resumed else Transferred
  {
    hide OnChunks, Kept, Open, FileBeginOf, BeginAckText, Replaced, TargetOf, PartPath, StoredRightly;
    committed := false;
    var begin := conn.Read();
    if begin.Err? {
      return Err(begin.error), false;
    }
    if begin.value.kind != MessageType.FileBegin {
      return Err(ProtocolError), false;
    }
    var meta := DecodeFileBegin(begin.value.body);
    if meta.Err? {
      Complain(conn);
      return Err(meta.error), false;
    }
    var m := meta.value;
    ghost var frames := conn.incoming;
    assert old(conn.incoming)[1..] == frames;
    var dirFails := disk.Fails();
    if dirFails {
      Complain(conn);
      return Err(IoError), false;
    }
    var opening := OpenTransfer(h, cfg, disk, m);
    OpenFacts(h, cfg, disk.files, m);
    OffsetIs(h, cfg, disk.files, m);
    match opening {
      case Refusal(error) =>
        Complain(conn);
        r := Err(error);
      case Held(path) =>
        r := SkipHeld(conn, path, m);
      case Wanted(path, offset) =>
        KeptSize(h, cfg, disk.files, m);
        r, committed := ReceiveInto(h, conn, disk, path, m, offset);
        if committed {
          AcceptedIsStoredRightly(h, cfg, old(disk.files), old(conn.incoming));
        }
    }
  }

  lemma OffsetIs(h: Digest, cfg: ReceiverConfig, files: Tree, m: FileBegin)
    ensures var o := Open(h, cfg, files, m);
            o.Wanted? ==>
              o.offset == if m.resume && PartPath(o.path) in files && |files[PartPath(o.path)].bytes| < m.size
                          then |files[PartPath(o.path)].bytes| else 0
  {
    hide BaseName, PartPath;
    OpeningIs(h, cfg, files, m);
  }

  lemma OpenFacts(h: Digest, cfg: ReceiverConfig, files: Tree, m: FileBegin)
    ensures var o := Open(h, cfg, files, m);
            && (!o.Refusal? ==> TargetOf(m.name) == Some(o.path))
            && (o.Held? ==> Matches(h, files, o.path, m))
  {
    hide TargetOf;
  }

  // ----- The sender -----

  /** The receiver's answers let a transfer of a file of some size succeed. */
  predicate PeerAgrees(incoming: seq<Frame>, size: nat) {
    && |incoming| >= 2 && incoming[0].kind == Ack && incoming[1].kind == Ack
    && var ack := BeginAckOf(incoming[0].body);
       ack.Ok? && ack.value.offset <= size && (ack.value.complete ==> ack.value.offset == size)
  }

  method WaitForBeginAck(conn: Connection, size: nat) returns (r: Result<BeginAck>)
    modifies conn`incoming
    ensures r.Ok? ==> old(conn.incoming) != [] && conn.incoming == old(conn.incoming)[1..]
                      && old(conn.incoming)[0].kind == Ack && BeginAckOf(old(conn.incoming)[0].body) == r
                      && r.value.offset <= size && (r.value.complete ==> r.value.offset == size)
    ensures r.Err? && !conn.faulty ==> !PeerAgrees(old(conn.incoming), size)
  {
    hide BeginAckOf;
    var frame := conn.Read();
    if frame.Err? {
      return Err(frame.error);
    }
    assert old(conn.incoming)[0] == frame.value;
    if frame.value.kind == ErrorMessage {
      return Err(ProtocolError);
    }
    if frame.value.kind != Ack {
      return Err(ProtocolError);
    }
    r := DecodeBeginAck(frame.value.body);
    if r.Err? {
      return;
    }
    if r.value.offset > size {
      return Err(ProtocolError);
    }
    if r.value.complete && r.value.offset != size {
      return Err(ProtocolError);
    }
  }

  lemma OnePieceMore(offset: nat, pieces: seq<Bytes>, piece: Bytes)
    requires offset + |Concatenated(pieces + [piece])| < U64_LIMIT
    ensures Concatenated(pieces + [piece]) == Concatenated(pieces) + piece
    ensures ChunkFrames(offset, pieces + [piece])
         == ChunkFrames(offset, pieces) + [ChunkFrame(offset + |Concatenated(pieces)|, piece)]
  {
    assert (pieces + [piece])[..|pieces|] == pieces;
  }

  lemma JoinedMore(pieces: seq<Bytes>, piece: Bytes)
    ensures Concatenated(pieces + [piece]) == Concatenated(pieces) + piece
  {
    assert (pieces + [piece])[..|pieces|] == pieces;
  }

  lemma ChunkFits(offset: U64, data: Bytes)
    requires |data| + 8 <= MAX_FRAME_BODY
    ensures Fits(ChunkFrame(offset, data))
  {
  }

  /** Reads the source to its end and sends what it reads, each piece with its offset. */
  method SendPieces(conn: Connection, source: InputFile, offset: nat, chunkSize: nat)
    returns (r: Result<nat>, ghost pieces: seq<Bytes>)
    requires source.Valid() && source.pos == offset && |source.data| < U63_LIMIT && chunkSize > 0
    modifies conn`sent, source`pos
    ensures r.Ok? ==> Concatenated(pieces) == source.data[offset..] && r.value == |source.data|
                      && offset + |Concatenated(pieces)| < U64_LIMIT
                      && conn.sent == old(conn.sent) + ChunkFrames(offset, pieces)
    ensures forall i :: 0 <= i < |pieces| ==> 0 < |pieces[i]| <= chunkSize
    ensures source.whole ==> forall i :: 0 <= i < |pieces| - 1 ==> |pieces[i]| == chunkSize
    ensures r.Err? ==> conn.faulty || source.faulty || chunkSize + 8 > MAX_FRAME_BODY
  {
    hide ChunkFrame, Fits, ChunkFrames, Concatenated;
    var bytesSent := offset;
    pieces := [];
    NoPieces(offset);
    assert [] + source.data[offset..] == source.data[offset..];
    while true
      invariant source.Valid() && bytesSent == offset + |Concatenated(pieces)| == source.pos < U63_LIMIT
      invariant Concatenated(pieces) + source.Rest() == source.data[offset..]
      invariant conn.sent == old(conn.sent) + ChunkFrames(offset, pieces)
      invariant forall i :: 0 <= i < |pieces| ==> 0 < |pieces[i]| <= chunkSize
      invariant source.whole ==> forall i :: 0 <= i < |pieces| ==> |pieces[i]| == chunkSize || source.Rest() == []
      invariant source.whole ==> forall i :: 0 <= i < |pieces| - 1 ==> |pieces[i]| == chunkSize
      decreases |source.Rest()|
    {
      ghost var rest := source.Rest();
      var read := source.Read(chunkSize);
      if read.Err? {
        return Err(read.error), pieces;
      }
      if read.value == [] {
        break;
      }
      if |read.value| + 8 <= MAX_FRAME_BODY {
        ChunkFits(bytesSent, read.value);
      }
      var written := conn.Write(ChunkFrame(bytesSent, read.value));
      if written.Err? {
        ChunkFrameSize(bytesSent, read.value);
        return Err(written.error), pieces;
      }
      JoinedMore(pieces, read.value);
      OnePieceMore(offset, pieces, read.value);
      JoinAssoc(Concatenated(pieces), read.value, source.Rest());
      JoinAssoc(old(conn.sent), ChunkFrames(offset, pieces), [ChunkFrame(bytesSent, read.value)]);
      pieces := pieces + [read.value];
      bytesSent := bytesSent + |read.value|;
    }
    assert Concatenated(pieces) + [] == Concatenated(pieces);
    r := Ok(bytesSent);
  }

  lemma NoPieces(offset: nat)
    requires offset < U64_LIMIT
    ensures Concatenated([]) == [] && ChunkFrames(offset, []) == []
  {
  }

  lemma ChunkFrameSize(offset: U64, data: Bytes)
    ensures Fits(ChunkFrame(offset, data)) <==> |data| + 8 <= MAX_FRAME_BODY
  {
  }

  /**
   Sends a file from where the receiver wants it. On success the receiver has been sent exactly an honest transfer of
   the source from that offset, cut into pieces as the reads fell.
   */
  method SendSingleFile(h: Digest, conn: Connection, source: InputFile, hello: Bytes, name: Text, resume: bool,
                        kind: TransferSource, chunkSize: nat)
    returns (r: Result<Sent>, ghost pieces: seq<Bytes>)
    requires source.Valid() && source.pos == 0 && |source.data| < U63_LIMIT && chunkSize > 0
    modifies conn, source`pos
    ensures r.Ok? ==>
              && PeerAgrees(old(conn.incoming), |source.data|)
              && var ack := BeginAckOf(old(conn.incoming)[0].body).value;
              && Concatenated(pieces) == source.data[ack.offset..] && ack.offset + |Concatenated(pieces)| < U64_LIMIT
              && (ack.complete ==> pieces == [])
              && (forall i :: 0 <= i < |pieces| ==> 0 < |pieces[i]| <= chunkSize)
              && (source.whole ==> forall i :: 0 <= i < |pieces| - 1 ==> |pieces[i]| == chunkSize)
              && conn.sent == old(conn.sent) + [Message(Hello, hello)]
                              + HonestFrames(FileBegin.FileBegin(name, |source.data|, h(source.data), resume, kind),
                                             ack.offset, pieces)
              && r.value == Sent(|source.data|, h(source.data),
                                 if ack.complete then Skipped else if ack.offset > 0 then Resumed else Transferred, ack.offset)
    ensures !conn.faulty && !source.faulty && chunkSize + 8 <= MAX_FRAME_BODY && Fits(Message(Hello, hello))
            && Fits(AnnouncementFrame(Announcement(h, name, source.data, resume, kind))) ==>
              (r.Ok? <==> PeerAgrees(old(conn.incoming), |source.data|))
  {
    hide AnnouncementFrame, ChunkFrames, Concatenated, BeginAckOf;
    pieces := [];
    var unreadable: bool := *;
    if source.faulty && unreadable {
      return Err(IoError), pieces;
    }
    var m := Announcement(h, name, source.data, resume, kind);
    var greeted := conn.Write(Message(Hello, hello));
    if greeted.Err? {
      return Err(greeted.error), pieces;
    }
    var announced := conn.Write(AnnouncementFrame(m));
    if announced.Err? {
      return Err(announced.error), pieces;
    }
    var ack := WaitForBeginAck(conn, m.size);
    if ack.Err? {
      return Err(ack.error), pieces;
    }
    var offset := ack.value.offset;
    source.pos := offset;
    var bytesSent := offset;
    NoPieces(offset);
    assert m.size == |source.data| && source.data[m.size..] == [];
    ghost var before := conn.sent;
    assert before + [] == before;
    if !ack.value.complete {
      var sent, cut := SendPieces(conn, source, offset, chunkSize);
      if sent.Err? {
        return Err(sent.error), cut;
      }
      bytesSent, pieces := sent.value, cut;
    }
    var ended := conn.Write(END_FRAME);
    if ended.Err? {
      EndFrameFits();
      return Err(ended.error), pieces;
    }
    FramesInOrder(old(conn.sent), Message(Hello, hello), m, offset, pieces);
    var stored := conn.Read();
    if stored.Err? {
      return Err(stored.error), pieces;
    }
    assert old(conn.incoming)[1] == old(conn.incoming)[1..][0] == stored.value;
    if stored.value.kind != Ack {
      return Err(ProtocolError), pieces;
    }
    var status := if ack.value.complete then Skipped else if offset > 0 then Resumed else Transferred;
    r := Ok(Sent(bytesSent, m.sha256, status, offset));
  }

  lemma EndFrameFits()
    ensures Fits(END_FRAME)
  {
  }

  lemma FramesInOrder(base: seq<Frame>, hello: Frame, m: FileBegin, offset: nat, pieces: seq<Bytes>)
    requires offset + |Concatenated(pieces)| < U64_LIMIT
    ensures base + [hello] + [AnnouncementFrame(m)] + ChunkFrames(offset, pieces) + [END_FRAME]
         == base + [hello] + HonestFrames(m, offset, pieces)
  {
    hide AnnouncementFrame, ChunkFrames;
  }

  /** What a receiver answers is what the sender understands, and lets the transfer succeed. */
  lemma AnswersAreUnderstood(ack: BeginAck, size: nat)
    requires ack.offset <= size && (ack.complete ==> ack.offset == size)
    ensures PeerAgrees([BeginAckFrame(ack), STORED_FRAME], size)
    ensures BeginAckOf([BeginAckFrame(ack), STORED_FRAME][0].body) == Ok(ack)
    ensures STORED_FRAME == Message(Ack, [115, 116, 111, 114, 101, 100])
  {
    hide BeginAckOf, BeginAckText;
    BeginAckRoundTrip(ack);
  }

  /**
   Both sides together. The receiver's answer to an honest announcement is understood and lets the sender go on; what
   the sender then sends gets the same answer; and it is accepted, as the source, exactly when the part file the answer
   points into is a prefix of the source, or as what is there when the receiver holds the file already.
   */
  lemma TransferMeets(h: Digest, cfg: ReceiverConfig, files: Tree, m: FileBegin, source: Bytes, o: Opening, ack: BeginAck,
                      pieces: seq<Bytes>)
    requires m.size == |source| && m.sha256 == h(source) && Plain(m.name) && Plain(m.sha256)
    requires o == Open(h, cfg, files, m) && Answer(h, cfg, files, [AnnouncementFrame(m)]) == Some(ack)
    requires ack.offset <= |source| ==> Concatenated(pieces) == source[ack.offset..]
    requires ack.complete ==> pieces == []
    requires o.Wanted? ==> TellsApart(h, Continued(files, o.path, m), source)
    ensures PeerAgrees([BeginAckFrame(ack), STORED_FRAME], |source|)
    ensures BeginAckOf([BeginAckFrame(ack), STORED_FRAME][0].body) == Ok(ack)
    ensures ack.offset + |Concatenated(pieces)| == |source|
    ensures Answer(h, cfg, files, HonestFrames(m, ack.offset, pieces)) == Some(ack)
    ensures Accepted(h, cfg, files, HonestFrames(m, ack.offset, pieces)) == Delivered(files, o, m, source)
  {
    hide Open, Continued, Accepted, BeginAckOf, BeginAckText, Plain, FileBeginOf, FileBeginText, TellsApart, HonestFrames, PeerAgrees,
         Concatenated;
    AnswerIs(h, cfg, files, m, source, ack);
    AnswersAreUnderstood(ack, |source|);
    if o.Wanted? {
      ResumeSucceedsIffPrefix(h, cfg, files, m, source, pieces);
    } else {
      NoPieces(ack.offset);
      HeldFileIsSkipped(h, cfg, files, m);
    }
    FirstIsAnnouncement(m, ack.offset, pieces);
  }

  /** What an honest transfer leaves the receiver with, if it succeeds. */
  function Delivered(files: Tree, o: Opening, m: FileBegin, source: Bytes): Option<(Text, Bytes)> {
    match o
    case Refusal(_) => None
    case Held(path) => if path in files then Some((path, files[path].bytes)) else None
    case Wanted(path, _) => if Continued(files, path, m) <= source then Some((path, source)) else None
  }

  lemma AnswerIs(h: Digest, cfg: ReceiverConfig, files: Tree, m: FileBegin, source: Bytes, ack: BeginAck)
    requires m.size == |source| && Plain(m.name) && Plain(m.sha256)
    requires Answer(h, cfg, files, [AnnouncementFrame(m)]) == Some(ack)
    ensures Announced(AnnouncementFrame(m)) == Ok(m)
    ensures ack.offset <= |source| && (ack.complete ==> ack.offset == |source|)
    ensures var o := Open(h, cfg, files, m);
            !o.Refusal? && (o.Wanted? ==> o.offset == ack.offset && !ack.complete) && (o.Held? ==> ack == BeginAck(m.size, true))
  {
    hide Open, Kept, Continued, Plain, FileBeginOf, FileBeginText;
    AnnouncementIsRead(m);
    if Open(h, cfg, files, m).Wanted? {
      KeptSize(h, cfg, files, m);
    }
  }

  lemma FirstIsAnnouncement(m: FileBegin, offset: nat, pieces: seq<Bytes>)
    requires offset + |Concatenated(pieces)| < U64_LIMIT
    ensures HonestFrames(m, offset, pieces) != [] && HonestFrames(m, offset, pieces)[0] == AnnouncementFrame(m)
  {
    hide ChunkFrames;
  }

  lemma AnnouncementIsRead(m: FileBegin)
    requires Plain(m.name) && Plain(m.sha256)
    ensures Announced(AnnouncementFrame(m)) == Ok(m)
  {
    hide FileBeginText, FileBeginOf;
    FileBeginRoundTrip(m);
  }
}
