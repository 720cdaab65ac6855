/**
 The single-file protocol with resume, read as a whole: what a receiver accepts from any incoming frames, and what an
 honest sender makes of it (src/transfer/single_file.cpp, src/transfer/chunk_codec.cpp).
 */
module SingleFile {
  import opened Base
  import opened Wire
  import opened Frames
  import opened SyncCodec
  import opened Trees
  import opened FileStreams
  import opened FileMetadata

  // ----- Chunks -----

  datatype ChunkBody = ChunkBody(offset: U64, data: Bytes)

  function ChunkBytes(c: ChunkBody): Bytes {
    BigEndian(8, c.offset) + c.data
  }

  function ChunkOf(b: Bytes): Option<ChunkBody> {
    var parsed := Wire.ParseU64(b);
    if parsed.Bad? then None else Some(ChunkBody(parsed.value, parsed.rest))
  }

  lemma ChunkRoundTrip(c: ChunkBody)
    ensures ChunkOf(ChunkBytes(c)) == Some(c)
  {
    hide BigEndian, FromBigEndian;
    Widths();
    BigEndianRoundTrip(8, c.offset);
    TakeFront(BigEndian(8, c.offset), c.data);
  }

  // ----- Opening a transfer -----

  /** Whether existing files may be replaced, and which names in the receive directory are directories. */
  datatype ReceiverConfig = ReceiverConfig(allowOverwrite: bool, directories: set<Text>)

  /** What follows the last slash. */
  function BaseName(name: Text): (base: Text)
    ensures SLASH !in base && |base| <= |name| && name[|name| - |base|..] == base
    ensures |base| < |name| ==> name[|name| - |base| - 1] == SLASH
  {
    if name == [] || name[|name| - 1] == SLASH then [] else
      BaseName(name[..|name| - 1]) + [name[|name| - 1]]
  }

  function TargetOf(name: Text): Option<Text> {
    var base := BaseName(name);
    if base == [] || base == [DOT] || base == [DOT, DOT] then None else Some(base)
  }

  /** The receiver refuses, holds the file already, or wants it from an offset on. */
  datatype Opening = Refusal(error: ErrorCode) | Held(path: Text) | Wanted(path: Text, offset: U64)

  /** How much of a part file is kept: none when resuming is off or it is not shorter than the file. */
  function ResumeOffset(files: Tree, part: Text, m: FileBegin): nat {
    if m.resume && part in files && |files[part].bytes| < m.size then |files[part].bytes| else 0
  }

  predicate Matches(h: Digest, files: Tree, path: Text, m: FileBegin) {
    path in files && |files[path].bytes| == m.size && h(files[path].bytes) == m.sha256
  }

  function Open(h: Digest, cfg: ReceiverConfig, files: Tree, m: FileBegin): Opening {
    var target := TargetOf(m.name);
    if target.None? then Refusal(ProtocolError)
    else if target.value in cfg.directories then Refusal(InvalidArgument)
    else if Matches(h, files, target.value, m) then Held(target.value)
    else if target.value in files && !cfg.allowOverwrite then Refusal(InvalidArgument)
    else Wanted(target.value, ResumeOffset(files, PartPath(target.value), m))
  }

  function Announced(f: Frame): Result<FileBegin> {
    if f.kind != MessageType.FileBegin then Err(ProtocolError) else FileBeginOf(f.body)
  }

  /** The bytes a part file starts with. */
  function Kept(files: Tree, path: Text, offset: nat): Bytes {
    if offset > 0 && PartPath(path) in files then files[PartPath(path)].bytes else []
  }

  lemma KeptSize(h: Digest, cfg: ReceiverConfig, files: Tree, m: FileBegin)
    requires Open(h, cfg, files, m).Wanted?
    ensures var o := Open(h, cfg, files, m); |Kept(files, o.path, o.offset)| == o.offset <= m.size
    ensures var o := Open(h, cfg, files, m); Kept(files, o.path, o.offset) == Continued(files, o.path, m)
  {
    hide BaseName;
  }

  /** The part file that a transfer continues: the one next to the target, if it may be resumed and is shorter than the file. */
  function Continued(files: Tree, path: Text, m: FileBegin): Bytes {
    if m.resume && PartPath(path) in files && |files[PartPath(path)].bytes| < m.size then files[PartPath(path)].bytes else []
  }

  /**
   What a receiver makes of an announcement, in terms of its directory: it refuses names that end in nothing, a dot or two
   dots, directories, and existing other files without leave; it holds a file with the announced size and hash; and it
   wants any other file from the end of a part file that is shorter, if the sender would resume, and else from the start.
   */
  lemma OpeningIs(h: Digest, cfg: ReceiverConfig, files: Tree, m: FileBegin)
    ensures var o, t := Open(h, cfg, files, m), BaseName(m.name);
            var held := t in files && |files[t].bytes| == m.size && h(files[t].bytes) == m.sha256;
            && (o == Refusal(ProtocolError) <==> t == [] || t == [46] || t == [46, 46])
            && (o == Refusal(InvalidArgument) <==>
                  && t != [] && t != [46] && t != [46, 46]
                  && (t in cfg.directories || (!held && t in files && !cfg.allowOverwrite)))
            && (o.Held? <==> t != [] && t != [46] && t != [46, 46] && t !in cfg.directories && held)
            && (!o.Refusal? ==> o.path == t)
            && (o.Wanted? && m.resume && PartPath(t) in files && |files[PartPath(t)].bytes| < m.size ==>
                  o.offset == |files[PartPath(t)].bytes|)
            && (o.Wanted? && (!m.resume || PartPath(t) !in files || |files[PartPath(t)].bytes| >= m.size) ==> o.offset == 0)
            && (o.Refusal? ==> o.error == ProtocolError || o.error == InvalidArgument)
  {
    hide BaseName;
  }

  // ----- Receiving chunks -----

  datatype Taking = More(data: Bytes) | Ended(data: Bytes) | Broken(error: ErrorCode)

  /** One frame while chunks are expected: each must continue where the part file ends and stay within the size. */
  function OnChunk(size: nat, st: Taking, f: Frame): Taking {
    if !st.More? then st
    else if f.kind == FileEnd then Ended(st.data)
    else if f.kind != Chunk then Broken(ProtocolError)
    else
      var c := ChunkOf(f.body);
      if c.None? || c.value.offset != |st.data| || |c.value.data| > size - |st.data| then Broken(ProtocolError)
      else More(st.data + c.value.data)
  }

  function OnChunks(size: nat, start: Bytes, frames: seq<Frame>): Taking {
    if frames == [] then More(start)
    else OnChunk(size, OnChunks(size, start, frames[..|frames| - 1]), frames[|frames| - 1])
  }

  lemma OnChunksStep(size: nat, start: Bytes, frames: seq<Frame>, f: Frame)
    ensures OnChunks(size, start, frames + [f]) == OnChunk(size, OnChunks(size, start, frames), f)
  {
    assert (frames + [f])[..|frames|] == frames;
  }

  /** Once ended or broken, later frames do not count. */
  lemma {:induction false} Settled(size: nat, start: Bytes, frames: seq<Frame>, later: seq<Frame>)
    requires !OnChunks(size, start, frames).More?
    ensures OnChunks(size, start, frames + later) == OnChunks(size, start, frames)
  {
    hide OnChunks;
    if later == [] {
      assert frames + later == frames;
    } else {
      var n := |later| - 1;
      Settled(size, start, frames, later[..n]);
      assert frames + later == (frames + later[..n]) + [later[n]];
      OnChunksStep(size, start, frames + later[..n], later[n]);
    }
  }

  /** What the chunk frames among some frames carry, one after the other. */
  function ChunkData(frames: seq<Frame>): Bytes {
    if frames == [] then [] else
      var c := ChunkOf(frames[|frames| - 1].body);
      ChunkData(frames[..|frames| - 1]) + if frames[|frames| - 1].kind == Chunk && c.Some? then c.value.data else []
  }

  /**
   Whatever frames arrive, the part file never outgrows the declared size, so the room that is left is never negative;
   it holds what it started with and then the data of the chunks, in order.
   */
  lemma {:induction false} PartStaysInBounds(size: nat, start: Bytes, frames: seq<Frame>)
    requires |start| <= size
    ensures var st := OnChunks(size, start, frames);
            && (!st.Broken? ==> start <= st.data && |start| <= |st.data| <= size)
            && (st.More? ==> st.data == start + ChunkData(frames))
  {
    hide ChunkOf;
    if frames != [] {
      PartStaysInBounds(size, start, frames[..|frames| - 1]);
    } else {
      assert start + [] == start;
    }
  }

  /** Chunks one after the other from where the part file ends, that do not go beyond the declared size. */
  predicate InOrder(size: nat, start: Bytes, frames: seq<Frame>) {
    forall i :: 0 <= i < |frames| ==> IsNextChunk(size, |start| + |ChunkData(frames[..i])|, frames[i])
  }

  predicate IsNextChunk(size: nat, at: nat, f: Frame) {
    f.kind == Chunk && ChunkOf(f.body).Some? && ChunkOf(f.body).value.offset == at && at + |ChunkOf(f.body).value.data| <= size
  }

  lemma {:induction false} MoreIffInOrder(size: nat, start: Bytes, frames: seq<Frame>)
    requires |start| <= size
    ensures OnChunks(size, start, frames).More? <==> InOrder(size, start, frames)
  {
    hide InOrder, ChunkData, OnChunk, IsNextChunk;
    if frames == [] {
      NoneInOrder(size, start);
    } else {
      var n := |frames| - 1;
      MoreIffInOrder(size, start, frames[..n]);
      PartStaysInBounds(size, start, frames[..n]);
      OneMoreInOrder(size, start, frames);
      if OnChunks(size, start, frames[..n]).More? {
        NextChunk(size, OnChunks(size, start, frames[..n]).data, frames[n]);
      } else {
        NoMoreAfter(size, OnChunks(size, start, frames[..n]), frames[n]);
      }
    }
  }

  lemma NoneInOrder(size: nat, start: Bytes)
    ensures InOrder(size, start, [])
  {
  }

  lemma OneMoreInOrder(size: nat, start: Bytes, frames: seq<Frame>)
    requires frames != []
    ensures var n := |frames| - 1;
            InOrder(size, start, frames) <==>
              InOrder(size, start, frames[..n]) && IsNextChunk(size, |start| + |ChunkData(frames[..n])|, frames[n])
  {
    hide ChunkData, IsNextChunk;
    var n := |frames| - 1;
    forall i | 0 <= i < n ensures frames[..n][..i] == frames[..i] && frames[..n][i] == frames[i] {
    }
  }

  lemma NextChunk(size: nat, data: Bytes, f: Frame)
    requires |data| <= size
    ensures OnChunk(size, More(data), f).More? <==> IsNextChunk(size, |data|, f)
  {
    hide ChunkOf;
  }

  lemma NoMoreAfter(size: nat, st: Taking, f: Frame)
    requires !st.More?
    ensures !OnChunk(size, st, f).More?
  {
  }

  /**
   Exactly what a receiver takes: an end frame behind chunks that follow each other from where the part file ends, each
   at its own offset; then it has what it started with and their data. Anything else before the end frame is refused.
   */
  lemma {:induction false} EndedIffInOrder(size: nat, start: Bytes, frames: seq<Frame>)
    requires |start| <= size
    ensures OnChunks(size, start, frames).Ended? <==>
              exists k :: 0 <= k < |frames| && frames[k].kind == FileEnd && InOrder(size, start, frames[..k])
    ensures forall k :: 0 <= k < |frames| && frames[k].kind == FileEnd && InOrder(size, start, frames[..k]) ==>
              OnChunks(size, start, frames) == Ended(start + ChunkData(frames[..k]))
  {
    hide OnChunks, InOrder, ChunkData;
    forall k | 0 <= k < |frames| && frames[k].kind == FileEnd && InOrder(size, start, frames[..k])
      ensures OnChunks(size, start, frames) == Ended(start + ChunkData(frames[..k]))
    {
      MoreIffInOrder(size, start, frames[..k]);
      PartStaysInBounds(size, start, frames[..k]);
      OnChunksStep(size, start, frames[..k], frames[k]);
      Settled(size, start, frames[..k] + [frames[k]], frames[k + 1..]);
      assert frames[..k] + [frames[k]] + frames[k + 1..] == frames;
    }
    if OnChunks(size, start, frames).Ended? {
      var k := WhereEnded(size, start, frames);
      MoreIffInOrder(size, start, frames[..k]);
    }
  }

  lemma {:induction false} WhereEnded(size: nat, start: Bytes, frames: seq<Frame>) returns (k: nat)
    requires OnChunks(size, start, frames).Ended?
    ensures k < |frames| && frames[k].kind == FileEnd && OnChunks(size, start, frames[..k]).More?
  {
    k := |frames| - 1;
    if !OnChunks(size, start, frames[..k]).More? {
      var n := k;
      k := WhereEnded(size, start, frames[..n]);
      assert frames[..n][..k] == frames[..k];
    }
  }

  predicate Acceptable(h: Digest, m: FileBegin, st: Taking) {
    st.Ended? && |st.data| == m.size && h(st.data) == m.sha256
  }

  /** The file a receiver ends up with, from its tree and all incoming frames; None when it fails. */
  function Accepted(h: Digest, cfg: ReceiverConfig, files: Tree, frames: seq<Frame>): Option<(Text, Bytes)> {
    if frames == [] || Announced(frames[0]).Err? then None else
      var m := Announced(frames[0]).value;
      match Open(h, cfg, files, m)
      case Refusal(_) => None
      case Held(path) =>
        if |frames| >= 2 && frames[1].kind == FileEnd && path in files then Some((path, files[path].bytes)) else None
      case Wanted(path, offset) =>
        var st := OnChunks(m.size, Kept(files, path, offset), frames[1..]);
        if Acceptable(h, m, st) then Some((path, st.data)) else None
  }

  // ----- An honest sender -----

  function AnnouncementFrame(m: FileBegin): Frame {
    Message(MessageType.FileBegin, FileBeginText(m))
  }

  function ChunkFrame(offset: U64, data: Bytes): Frame {
    Message(Chunk, ChunkBytes(ChunkBody(offset, data)))
  }

  const END_FRAME: Frame := Message(FileEnd, [])

  function Concatenated(pieces: seq<Bytes>): Bytes {
    if pieces == [] then [] else Concatenated(pieces[..|pieces| - 1]) + pieces[|pieces| - 1]
  }

  /** The frames for consecutive pieces of a file from an offset on. */
  function ChunkFrames(offset: nat, pieces: seq<Bytes>): seq<Frame>
    requires offset + |Concatenated(pieces)| < U64_LIMIT
  {
    if pieces == [] then [] else
      var front := pieces[..|pieces| - 1];
      ChunkFrames(offset, front) + [ChunkFrame(offset + |Concatenated(front)|, pieces[|pieces| - 1])]
  }

  /** What a sender of a file announces. */
  function Announcement(h: Digest, name: Text, source: Bytes, resume: bool, kind: TransferSource): FileBegin
    requires |source| < U64_LIMIT
  {
    FileBegin.FileBegin(name, |source|, h(source), resume, kind)
  }

  /** The frames of a whole transfer, after the hello, to a receiver that wants the file from an offset on. */
  function HonestFrames(m: FileBegin, offset: nat, pieces: seq<Bytes>): seq<Frame>
    requires offset + |Concatenated(pieces)| < U64_LIMIT
  {
    [AnnouncementFrame(m)] + (ChunkFrames(offset, pieces) + [END_FRAME])
  }

  lemma {:induction false} ChunksArrive(size: nat, start: Bytes, pieces: seq<Bytes>)
    requires |start| + |Concatenated(pieces)| <= size < U64_LIMIT
    ensures OnChunks(size, start, ChunkFrames(|start|, pieces)) == More(start + Concatenated(pieces))
  {
    hide OnChunks, ChunkOf, ChunkBytes;
    if pieces == [] {
      NoChunksYet(size, start);
    } else {
      var front, piece := pieces[..|pieces| - 1], pieces[|pieces| - 1];
      ChunksArrive(size, start, front);
      var offset := |start| + |Concatenated(front)|;
      OnChunksStep(size, start, ChunkFrames(|start|, front), ChunkFrame(offset, piece));
      ChunkRoundTrip(ChunkBody(offset, piece));
      JoinAssoc(start, Concatenated(front), piece);
    }
  }

  lemma NoChunksYet(size: nat, start: Bytes)
    ensures OnChunks(size, start, []) == More(start) && start + [] == start
  {
  }

  /**
   An honest sender that continues from the receiver's offset: what the receiver accepts is the part file followed by
   the rest of the source, and only when that has the source's hash.
   */
  lemma HonestOutcome(h: Digest, cfg: ReceiverConfig, files: Tree, m: FileBegin, source: Bytes, pieces: seq<Bytes>)
    requires m.size == |source| && m.sha256 == h(source) && Plain(m.name) && Plain(m.sha256)
    requires Open(h, cfg, files, m).Wanted?
    requires Open(h, cfg, files, m).offset <= |source| && Concatenated(pieces) == source[Open(h, cfg, files, m).offset..]
    ensures var o := Open(h, cfg, files, m);
            var whole := Kept(files, o.path, o.offset) + source[o.offset..];
            Accepted(h, cfg, files, HonestFrames(m, o.offset, pieces))
            == if h(whole) == h(source) then Some((o.path, whole)) else None
  {
    hide FileBeginText, FileBeginOf, Open, OnChunks, Kept, ChunkFrames;
    var o := Open(h, cfg, files, m);
    KeptSize(h, cfg, files, m);
    FileBeginRoundTrip(m);
    var start, chunks := Kept(files, o.path, o.offset), ChunkFrames(o.offset, pieces);
    ChunksArrive(m.size, start, pieces);
    OnChunksStep(m.size, start, chunks, END_FRAME);
    var frames := HonestFrames(m, o.offset, pieces);
    assert frames[0] == AnnouncementFrame(m) && frames[1..] == chunks + [END_FRAME];
  }

  /** The digest does not confuse the source with the part file continued by the rest of the source. */
  ghost predicate TellsApart(h: Digest, part: Bytes, source: Bytes) {
    |part| <= |source| && h(part + source[|part|..]) == h(source) ==> part + source[|part|..] == source
  }

  /**
   Resuming delivers the source, sending only what is missing, exactly when the part file is a prefix of it; for any
   other part file the receiver fails.
   */
  lemma ResumeSucceedsIffPrefix(h: Digest, cfg: ReceiverConfig, files: Tree, m: FileBegin, source: Bytes, pieces: seq<Bytes>)
    requires m.size == |source| && m.sha256 == h(source) && Plain(m.name) && Plain(m.sha256)
    requires Open(h, cfg, files, m).Wanted?
    requires Open(h, cfg, files, m).offset <= |source| && Concatenated(pieces) == source[Open(h, cfg, files, m).offset..]
    requires TellsApart(h, Continued(files, Open(h, cfg, files, m).path, m), source)
    ensures var o := Open(h, cfg, files, m);
            var part := Continued(files, o.path, m);
            && |part| + |Concatenated(pieces)| == |source| && o.offset == |part|
            && Accepted(h, cfg, files, HonestFrames(m, o.offset, pieces))
               == if part <= source then Some((o.path, source)) else None
  {
    hide Open, HonestFrames, Accepted, Plain;
    var o := Open(h, cfg, files, m);
    var part := Continued(files, o.path, m);
    HonestOutcome(h, cfg, files, m, source, pieces);
    KeptSize(h, cfg, files, m);
    PrefixIffWhole(part, source);
  }

  lemma PrefixIffWhole(part: Bytes, source: Bytes)
    requires |part| <= |source|
    ensures part <= source <==> part + source[|part|..] == source
  {
    assert (part + source[|part|..])[..|part|] == part;
    if part <= source {
      assert source == source[..|part|] + source[|part|..];
    }
  }

  /** Without a part file to keep, the whole source is sent and always accepted. */
  lemma FreshTransferSucceeds(h: Digest, cfg: ReceiverConfig, files: Tree, m: FileBegin, source: Bytes, pieces: seq<Bytes>)
    requires m.size == |source| && m.sha256 == h(source) && Plain(m.name) && Plain(m.sha256)
    requires Open(h, cfg, files, m).Wanted? && Open(h, cfg, files, m).offset == 0 && Concatenated(pieces) == source
    ensures Accepted(h, cfg, files, HonestFrames(m, 0, pieces)) == Some((Open(h, cfg, files, m).path, source))
  {
    hide Open, HonestFrames, Accepted, Plain;
    assert source[0..] == source && [] + source == source;
    HonestOutcome(h, cfg, files, m, source, pieces);
  }

  /**
   A failed resume is not repeated: the guard removes the part file, so the next attempt starts from nothing and
   delivers the source.
   */
  lemma RetryStartsOver(h: Digest, cfg: ReceiverConfig, files: Tree, m: FileBegin, source: Bytes, pieces: seq<Bytes>)
    requires m.size == |source| && m.sha256 == h(source) && Plain(m.name) && Plain(m.sha256)
    requires Open(h, cfg, files, m).Wanted? && Concatenated(pieces) == source
    ensures var path := Open(h, cfg, files, m).path;
            Accepted(h, cfg, files - {PartPath(path)}, HonestFrames(m, 0, pieces)) == Some((path, source))
  {
    hide HonestFrames, Accepted, Plain, BaseName, PartPath;
    var path := Open(h, cfg, files, m).path;
    PartIsNotTarget(path);
    assert Open(h, cfg, files - {PartPath(path)}, m) == Wanted(path, 0);
    FreshTransferSucceeds(h, cfg, files - {PartPath(path)}, m, source, pieces);
  }

  lemma PartIsNotTarget(path: Text)
    ensures PartPath(path) != path
  {
  }

  /** A file that the receiver holds already is announced and ended, and nothing is sent. */
  lemma HeldFileIsSkipped(h: Digest, cfg: ReceiverConfig, files: Tree, m: FileBegin)
    requires Plain(m.name) && Plain(m.sha256) && Open(h, cfg, files, m).Held?
    ensures var path := Open(h, cfg, files, m).path;
            path in files && Accepted(h, cfg, files, HonestFrames(m, m.size, [])) == Some((path, files[path].bytes))
  {
    hide FileBeginText, FileBeginOf, BaseName;
    FileBeginRoundTrip(m);
    assert HonestFrames(m, m.size, []) == [AnnouncementFrame(m), END_FRAME];
  }
}
