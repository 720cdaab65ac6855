/**
 How the receiver of a directory synchronisation applies one delta stream to one target, through a part file that
 is renamed over the target only after every check (src/transfer/sync_session.cpp, src/transfer/part_file_guard.cpp).
 */
module FileReceiving {
  import opened Base
  import opened FileIO
  import opened Wire
  import opened Frames
  import opened Delta
  import opened SyncCodec
  import opened Trees
  import opened FileStreams

  /** Where the receiver of one stream is. */
  datatype Receiving =
    | AwaitingBegin
    | Applying(header: DeltaHeader, ops: nat, data: Bytes, payload: nat)
    | Complete(data: Bytes, payload: nat)
    | Refused(error: ErrorCode)

  predicate HeaderMatches(e: ManifestEntry, header: DeltaHeader) {
    header.sourceSize == e.size && (e.sha256 != [] ==> header.sourceSha256 == e.sha256)
  }

  /** The size always, the hash when the sender announced one. */
  predicate Verified(h: Digest, e: ManifestEntry, header: DeltaHeader, data: Bytes) {
    |data| == e.size && (header.sourceSha256 != [] ==> h(data) == header.sourceSha256)
  }

  /** One frame. A stream that is complete or refused stays so. */
  function OnFrame(h: Digest, e: ManifestEntry, basis: Option<Bytes>, st: Receiving, f: Frame): Receiving {
    match st
    case AwaitingBegin =>
      if f.kind != DeltaBegin then Refused(ProtocolError) else
        var header := Whole(ParseHeader(f.body));
        if header.Err? then Refused(header.error)
        else if !HeaderMatches(e, header.value) then Refused(ProtocolError)
        else Applying(header.value, 0, [], |f.body|)
    case Applying(header, ops, data, payload) =>
      if f.kind == DeltaEnd then
        var opCount := Whole(ParseU32(f.body));
        if opCount.Err? then Refused(opCount.error)
        else if ops != opCount.value then Refused(ProtocolError)
        else if !Verified(h, e, header, data) then Refused(ChecksumMismatch)
        else Complete(data, payload + |f.body|)
      else if f.kind != DeltaMessage then Refused(ProtocolError)
      else
        var op := Whole(ParseOp(f.body));
        if op.Err? then Refused(op.error) else
          var bytes := OpBytes(basis, op.value);
          if bytes.None? then Refused(IoError)
          else Applying(header, ops + 1, data + bytes.value, payload + |f.body|)
    case Complete(_, _) => st
    case Refused(_) => st
  }

  function OnFrames(h: Digest, e: ManifestEntry, basis: Option<Bytes>, frames: seq<Frame>): Receiving {
    if frames == [] then AwaitingBegin
    else OnFrame(h, e, basis, OnFrames(h, e, basis, frames[..|frames| - 1]), frames[|frames| - 1])
  }

  lemma OnFramesStep(h: Digest, e: ManifestEntry, basis: Option<Bytes>, frames: seq<Frame>, f: Frame)
    ensures OnFrames(h, e, basis, frames + [f]) == OnFrame(h, e, basis, OnFrames(h, e, basis, frames), f)
  {
    assert (frames + [f])[..|frames|] == frames;
  }

  predicate IsOpen(st: Receiving) {
    st.AwaitingBegin? || st.Applying?
  }

  /** No frame but the last can have settled the stream. */
  predicate InTime(h: Digest, e: ManifestEntry, basis: Option<Bytes>, frames: seq<Frame>) {
    frames != [] ==> IsOpen(OnFrames(h, e, basis, frames[..|frames| - 1]))
  }

  /** A settled stream stays settled. */
  lemma OpenInTime(h: Digest, e: ManifestEntry, basis: Option<Bytes>, frames: seq<Frame>)
    requires IsOpen(OnFrames(h, e, basis, frames))
    ensures InTime(h, e, basis, frames)
  {
    hide ParseOp, ParseHeader, ParseU32, OpBytes, HeaderMatches, Verified;
  }

  // ----- What an accepted stream is -----

  /** The operations carried by a run of delta frames; None when one of them is something else. */
  function CarriedOps(frames: seq<Frame>): Option<seq<DeltaOp>> {
    if frames == [] then Some([]) else
      var front := CarriedOps(frames[..|frames| - 1]);
      var f := frames[|frames| - 1];
      var op := Whole(ParseOp(f.body));
      if front.None? || f.kind != DeltaMessage || op.Err? then None else Some(front.value + [op.value])
  }

  /**
   A begin frame whose header fits the manifest entry, delta frames whose operations rebuild `data` from the
   basis, and an end frame with exactly their number; the size is the manifest's and the announced hash, if any,
   is that of the data.
   */
  ghost predicate CarriesFile(h: Digest, e: ManifestEntry, basis: Option<Bytes>, frames: seq<Frame>, data: Bytes) {
    && |frames| >= 2
    && frames[0].kind == DeltaBegin
    && var header := Whole(ParseHeader(frames[0].body));
    && header.Ok? && HeaderMatches(e, header.value)
    && var ops := CarriedOps(frames[1..|frames| - 1]);
    && ops.Some? && Replay(basis, ops.value) == Some(data)
    && frames[|frames| - 1].kind == DeltaEnd
    && Whole(ParseU32(frames[|frames| - 1].body)) == Ok(|ops.value|)
    && Verified(h, e, header.value, data)
  }

  /** Some frames of a stream that is still being applied, read as a whole. */
  ghost predicate Underway(h: Digest, e: ManifestEntry, basis: Option<Bytes>, frames: seq<Frame>, st: Receiving) {
    && st.Applying? && |frames| >= 1
    && frames[0].kind == DeltaBegin
    && Whole(ParseHeader(frames[0].body)) == Ok(st.header) && HeaderMatches(e, st.header)
    && var ops := CarriedOps(frames[1..]);
    && ops.Some? && |ops.value| == st.ops && Replay(basis, ops.value) == Some(st.data)
    && st.payload == PayloadOf(frames)
  }

  lemma OneMoreOp(frames: seq<Frame>, f: Frame)
    requires f.kind == DeltaMessage && Whole(ParseOp(f.body)).Ok? && CarriedOps(frames).Some?
    ensures CarriedOps(frames + [f]) == Some(CarriedOps(frames).value + [Whole(ParseOp(f.body)).value])
  {
    hide ParseOp;
    assert (frames + [f])[..|frames|] == frames;
  }

  lemma OneMoreReplay(basis: Option<Bytes>, ops: seq<DeltaOp>, op: DeltaOp)
    requires Replay(basis, ops).Some? && OpBytes(basis, op).Some?
    ensures Replay(basis, ops + [op]) == Some(Replay(basis, ops).value + OpBytes(basis, op).value)
  {
    hide OpBytes;
    assert (ops + [op])[..|ops|] == ops;
  }

  /** One more operation keeps a stream underway. */
  lemma UnderwayOp(h: Digest, e: ManifestEntry, basis: Option<Bytes>, frames: seq<Frame>, f: Frame, st: Receiving)
    requires Underway(h, e, basis, frames, st)
    requires f.kind == DeltaMessage && Whole(ParseOp(f.body)).Ok? && OpBytes(basis, Whole(ParseOp(f.body)).value).Some?
    ensures OnFrame(h, e, basis, st, f).Applying?
    ensures Underway(h, e, basis, frames + [f], OnFrame(h, e, basis, st, f))
  {
    hide ParseOp, ParseHeader, OpBytes, Replay, CarriedOps, PayloadOf, HeaderMatches;
    PayloadAppend(frames, f);
    assert (frames + [f])[1..] == frames[1..] + [f] && (frames + [f])[0] == frames[0];
    OneMoreOp(frames[1..], f);
    OneMoreReplay(basis, CarriedOps(frames[1..]).value, Whole(ParseOp(f.body)).value);
  }

  /** An end frame completes a stream exactly when the whole carries a file. */
  lemma UnderwayEnd(h: Digest, e: ManifestEntry, basis: Option<Bytes>, frames: seq<Frame>, f: Frame, st: Receiving)
    requires Underway(h, e, basis, frames, st) && f.kind == DeltaEnd
    ensures !OnFrame(h, e, basis, st, f).Applying?
    ensures forall d, p :: OnFrame(h, e, basis, st, f) == Complete(d, p) <==>
              CarriesFile(h, e, basis, frames + [f], d) && p == PayloadOf(frames + [f])
  {
    hide ParseOp, ParseHeader, ParseU32, Replay, CarriedOps, PayloadOf, HeaderMatches, Verified;
    var longer := frames + [f];
    PayloadAppend(frames, f);
    assert longer[1..|longer| - 1] == frames[1..] && longer[0] == frames[0] && longer[|longer| - 1] == f;
  }

  lemma UnderwayStep(h: Digest, e: ManifestEntry, basis: Option<Bytes>, frames: seq<Frame>, f: Frame, st: Receiving)
    requires Underway(h, e, basis, frames, st)
    ensures OnFrame(h, e, basis, st, f).Applying? <==>
              f.kind == DeltaMessage && Whole(ParseOp(f.body)).Ok? && OpBytes(basis, Whole(ParseOp(f.body)).value).Some?
    ensures OnFrame(h, e, basis, st, f).Applying? ==> Underway(h, e, basis, frames + [f], OnFrame(h, e, basis, st, f))
    ensures forall d, p :: OnFrame(h, e, basis, st, f) == Complete(d, p) <==>
              CarriesFile(h, e, basis, frames + [f], d) && p == PayloadOf(frames + [f])
  {
    if f.kind == DeltaEnd {
      hide OnFrame, CarriesFile, Underway, PayloadOf;
      UnderwayEnd(h, e, basis, frames, f, st);
    } else {
      NotEnded(h, e, basis, frames, f);
      OtherFrame(h, e, basis, f, st);
      hide OnFrame, CarriesFile, Underway, PayloadOf, ParseOp, OpBytes;
      if f.kind == DeltaMessage && Whole(ParseOp(f.body)).Ok? && OpBytes(basis, Whole(ParseOp(f.body)).value).Some? {
        UnderwayOp(h, e, basis, frames, f, st);
      }
    }
  }

  lemma NotEnded(h: Digest, e: ManifestEntry, basis: Option<Bytes>, frames: seq<Frame>, f: Frame)
    requires f.kind != DeltaEnd
    ensures forall d :: !CarriesFile(h, e, basis, frames + [f], d)
  {
  }

  lemma OtherFrame(h: Digest, e: ManifestEntry, basis: Option<Bytes>, f: Frame, st: Receiving)
    requires st.Applying? && f.kind != DeltaEnd
    ensures !OnFrame(h, e, basis, st, f).Complete?
    ensures OnFrame(h, e, basis, st, f).Applying? <==>
              f.kind == DeltaMessage && Whole(ParseOp(f.body)).Ok? && OpBytes(basis, Whole(ParseOp(f.body)).value).Some?
  {
    hide ParseOp, OpBytes;
  }

  /**
   Whatever frames arrive: a receiver that is still applying holds the replay of the operations so far, and one
   that has accepted holds the file that the first n frames carry, none of the later ones counting.
   */
  lemma {:induction false} AcceptedStreamsCarryFiles(h: Digest, e: ManifestEntry, basis: Option<Bytes>, frames: seq<Frame>)
    returns (n: nat)
    ensures var st := OnFrames(h, e, basis, frames);
            && n <= |frames|
            && (st.AwaitingBegin? ==> frames == [])
            && (st.Applying? ==> Underway(h, e, basis, frames, st))
            && (st.Complete? ==> CarriesFile(h, e, basis, frames[..n], st.data) && st.payload == PayloadOf(frames[..n]))
  {
    hide CarriesFile, Underway, OnFrame;
    n := 0;
    if frames != [] {
      var front, f := frames[..|frames| - 1], frames[|frames| - 1];
      assert frames == front + [f] && frames[..|frames|] == frames;
      n := AcceptedStreamsCarryFiles(h, e, basis, front);
      assert front[..n] == frames[..n];
      n := OneMoreFrame(h, e, basis, front, f, OnFrames(h, e, basis, front), n);
    }
  }

  /** What is accepted has the size of the manifest's entry, its hash if it has one, and the hash of the header if it has one. */
  lemma AcceptedHasItsHashes(h: Digest, e: ManifestEntry, basis: Option<Bytes>, frames: seq<Frame>)
    requires OnFrames(h, e, basis, frames).Complete?
    ensures frames != [] && Whole(ParseHeader(frames[0].body)).Ok?
    ensures var header, data := Whole(ParseHeader(frames[0].body)).value, OnFrames(h, e, basis, frames).data;
            && |data| == e.size == header.sourceSize
            && (e.sha256 != [] ==> header.sourceSha256 == e.sha256)
            && (header.sourceSha256 != [] ==> h(data) == header.sourceSha256)
  {
    hide OnFrames, ParseHeader, ParseU32, CarriedOps, Replay;
    var n := AcceptedStreamsCarryFiles(h, e, basis, frames);
    assert frames[..n][0] == frames[0];
  }

  lemma OneMoreFrame(h: Digest, e: ManifestEntry, basis: Option<Bytes>, front: seq<Frame>, f: Frame, before: Receiving, n: nat)
    returns (k: nat)
    requires n <= |front|
    requires before.AwaitingBegin? ==> front == []
    requires before.Applying? ==> Underway(h, e, basis, front, before)
    requires before.Complete? ==> CarriesFile(h, e, basis, front[..n], before.data) && before.payload == PayloadOf(front[..n])
    ensures var st, frames := OnFrame(h, e, basis, before, f), front + [f];
            && k <= |frames| && !st.AwaitingBegin?
            && (st.Applying? ==> Underway(h, e, basis, frames, st))
            && (st.Complete? ==> CarriesFile(h, e, basis, frames[..k], st.data) && st.payload == PayloadOf(frames[..k]))
  {
    hide CarriesFile, Underway;
    var frames := front + [f];
    k := n;
    match before {
      case AwaitingBegin =>
        FirstFrame(h, e, basis, f);
        assert frames == [f];
      case Applying(_, _, _, _) =>
        UnderwayStep(h, e, basis, front, f, before);
        k := |frames|;
        assert frames[..k] == frames;
      case Complete(_, _) =>
        assert front[..n] == frames[..n];
      case Refused(_) =>
    }
  }

  /** Every stream that carries a file is accepted, with the data it carries. */
  lemma FileStreamsAreAccepted(h: Digest, e: ManifestEntry, basis: Option<Bytes>, frames: seq<Frame>, data: Bytes)
    requires CarriesFile(h, e, basis, frames, data)
    ensures OnFrames(h, e, basis, frames) == Complete(data, PayloadOf(frames))
  {
    hide CarriesFile, Underway, OnFrame, OnFrames;
    CarriesTwoFrames(h, e, basis, frames, data);
    var n := |frames| - 1;
    CarryingIsUnderway(h, e, basis, frames, n, data);
    assert frames == frames[..n] + [frames[n]];
    OnFramesStep(h, e, basis, frames[..n], frames[n]);
    UnderwayStep(h, e, basis, frames[..n], frames[n], OnFrames(h, e, basis, frames[..n]));
  }

  lemma CarriesTwoFrames(h: Digest, e: ManifestEntry, basis: Option<Bytes>, frames: seq<Frame>, data: Bytes)
    requires CarriesFile(h, e, basis, frames, data)
    ensures |frames| >= 2
  {
  }

  lemma FirstFrame(h: Digest, e: ManifestEntry, basis: Option<Bytes>, f: Frame)
    ensures var st := OnFrame(h, e, basis, AwaitingBegin, f);
            (st.Applying? ==> Underway(h, e, basis, [f], st)) && !st.Complete?
  {
    assert [f][..0] == [] && [f][1..] == [];
  }

  lemma BeginsWell(h: Digest, e: ManifestEntry, basis: Option<Bytes>, f: Frame)
    requires f.kind == DeltaBegin && Whole(ParseHeader(f.body)).Ok? && HeaderMatches(e, Whole(ParseHeader(f.body)).value)
    ensures OnFrame(h, e, basis, AwaitingBegin, f).Applying?
  {
  }

  /** A prefix of a carrying stream, before its end frame, is underway. */
  lemma {:induction false} CarryingIsUnderway(h: Digest, e: ManifestEntry, basis: Option<Bytes>, frames: seq<Frame>, n: nat,
                                              data: Bytes)
    requires CarriesFile(h, e, basis, frames, data) && 1 <= n < |frames|
    ensures OnFrames(h, e, basis, frames[..n]).Applying?
    ensures Underway(h, e, basis, frames[..n], OnFrames(h, e, basis, frames[..n]))
  {
    hide ParseOp, ParseHeader, ParseU32, OpBytes, OnFrame, Underway, HeaderMatches, Verified;
    if n == 1 {
      assert frames[..1] == [frames[0]];
      assert [frames[0]][..0] == [];
      BeginsWell(h, e, basis, frames[0]);
      FirstFrame(h, e, basis, frames[0]);
    } else {
      CarryingIsUnderway(h, e, basis, frames, n - 1, data);
      var f := frames[n - 1];
      assert frames[..n] == frames[..n - 1] + [f];
      OnFramesStep(h, e, basis, frames[..n - 1], f);
      MiddleFrame(basis, frames[1..|frames| - 1], n - 2);
      assert f == frames[1..|frames| - 1][n - 2];
      UnderwayStep(h, e, basis, frames[..n - 1], f, OnFrames(h, e, basis, frames[..n - 1]));
    }
  }

  lemma {:induction false} MiddleFrame(basis: Option<Bytes>, frames: seq<Frame>, i: nat)
    requires CarriedOps(frames).Some? && Replay(basis, CarriedOps(frames).value).Some? && i < |frames|
    ensures frames[i].kind == DeltaMessage && Whole(ParseOp(frames[i].body)).Ok?
    ensures OpBytes(basis, Whole(ParseOp(frames[i].body)).value).Some?
  {
    hide ParseOp;
    var front := frames[..|frames| - 1];
    var ops := CarriedOps(frames).value;
    assert ops[..|ops| - 1] == CarriedOps(front).value;
    if i < |frames| - 1 {
      MiddleFrame(basis, front, i);
    }
  }

  // ----- The receiver itself -----

  /** Reads the header frame and checks it against the plan. */
  method ReadBegin(conn: Connection, e: ManifestEntry) returns (r: Result<(DeltaHeader, nat)>, ghost frames: seq<Frame>)
    modifies conn`incoming
    ensures old(conn.incoming) == frames + conn.incoming && |frames| <= 1
    ensures forall h, basis :: r.Ok? ==> OnFrames(h, e, basis, frames) == Applying(r.value.0, 0, [], r.value.1)
    ensures forall h, basis :: r.Err? && frames != [] ==> OnFrames(h, e, basis, frames).Refused?
    ensures r.Err? && frames == [] ==> conn.faulty || conn.incoming == []
    ensures forall h, basis :: InTime(h, e, basis, frames)
  {
    hide ParseHeader;
    var begin := conn.Read();
    if begin.Err? {
      return Err(begin.error), [];
    }
    frames := [begin.value];
    assert frames[..0] == [];
    if begin.value.kind != DeltaBegin {
      return Err(ProtocolError), frames;
    }
    var payload := |begin.value.body|;
    var header := DecodeDeltaHeader(begin.value.body);
    if header.Err? {
      return Err(header.error), frames;
    }
    if header.value.sourceSize != e.size {
      return Err(ProtocolError), frames;
    }
    if e.sha256 != [] && header.value.sourceSha256 != e.sha256 {
      return Err(ProtocolError), frames;
    }
    r := Ok((header.value, payload));
  }

  /** Applies operation frames to the output until the end frame; the data is not yet checked. */
  method ReadOps(h: Digest, conn: Connection, e: ManifestEntry, basis: Option<Bytes>, output: OutputFile,
                 header: DeltaHeader, begun: nat, ghost first: seq<Frame>)
    returns (r: Result<nat>, ghost frames: seq<Frame>)
    requires OnFrames(h, e, basis, first) == Applying(header, 0, [], begun) && output.data == []
    modifies conn`incoming, output`data
    ensures old(conn.incoming) == frames + conn.incoming
    ensures r.Ok? ==> OnFrames(h, e, basis, first + frames) ==
                        if Verified(h, e, header, output.data) then Complete(output.data, r.value) else Refused(ChecksumMismatch)
    ensures r.Err? ==> conn.faulty || output.faulty
                       || OnFrames(h, e, basis, first + frames).Refused?
                       || (conn.incoming == [] && OnFrames(h, e, basis, first + frames).Applying?)
    ensures r.Err? ==> !OnFrames(h, e, basis, first + frames).Complete?
    ensures InTime(h, e, basis, first + frames)
  {
    hide ParseOp, ParseU32, OpBytes, OnFrames, Verified;
    frames := [];
    assert first + [] == first;
    OpenInTime(h, e, basis, first);
    var opsReceived: nat, payload: nat := 0, begun;
    while true
      invariant old(conn.incoming) == frames + conn.incoming
      invariant OnFrames(h, e, basis, first + frames) == Applying(header, opsReceived, output.data, payload)
      invariant InTime(h, e, basis, first + frames)
      decreases |conn.incoming|
    {
      var frame := conn.Read();
      if frame.Err? {
        return Err(frame.error), frames;
      }
      OnFramesStep(h, e, basis, first + frames, frame.value);
      JoinAssoc(first, frames, [frame.value]);
      JoinAssoc(frames, [frame.value], conn.incoming);
      assert ((first + frames) + [frame.value])[..|first + frames|] == first + frames;
      frames := frames + [frame.value];
      if frame.value.kind == DeltaEnd {
        payload := payload + |frame.value.body|;
        var expected := DecodeDeltaEnd(frame.value.body);
        if expected.Err? {
          return Err(expected.error), frames;
        }
        if opsReceived != expected.value {
          return Err(ProtocolError), frames;
        }
        return Ok(payload), frames;
      }
      if frame.value.kind != DeltaMessage {
        return Err(ProtocolError), frames;
      }
      payload := payload + |frame.value.body|;
      var op := DecodeDeltaOp(frame.value.body);
      if op.Err? {
        return Err(op.error), frames;
      }
      var applied := ApplyDeltaOp(basis, output, op.value);
      if applied.Err? {
        return Err(applied.error), frames;
      }
      opsReceived := opsReceived + 1;
    }
  }

  /** `path` now holds `bytes`, its part file is gone, and every other file is as it was. */
  ghost predicate Replaced(was: Tree, now: Tree, path: Text, bytes: Bytes) {
    path in now && now[path].bytes == bytes && now - {path} == was - {PartPath(path), path}
  }

  /** Checks a closed part file, renames it over the target, and sets times and mode. */
  method CommitPart(h: Digest, disk: Disk, e: ManifestEntry, header: DeltaHeader, data: Bytes)
    returns (r: Result<bool>, committed: bool)
    requires PartPath(e.path) in disk.files && disk.files[PartPath(e.path)] == FileState(data, 0, disk.platform.newMode)
    modifies disk`files
    ensures !committed ==> r.Err? && disk.files == old(disk.files) && (disk.faulty || !Verified(h, e, header, data))
    ensures committed ==> Verified(h, e, header, data) && Replaced(old(disk.files), disk.files, e.path, data)
    ensures r.Ok? ==> committed && disk.files == Committed(disk.platform, old(disk.files), e, data)
    ensures r.Ok? ==>
              && e.path in disk.files && disk.files[e.path].bytes == data
              && disk.files[e.path].mtime == SignedNs(e.mtime) + disk.platform.setError(e.path)
              && (e.mode != 0 ==> disk.files[e.path].mode == e.mode % 4096)
              && (e.mode == 0 ==> disk.files[e.path].mode == disk.platform.newMode)
    ensures r.Err? ==> disk.faulty || !committed
  {
    hide Stamped;
    var part := PartPath(e.path);
    var unreadable := disk.Fails();
    if unreadable {
      return Err(IoError), false;
    }
    if |disk.files[part].bytes| != e.size {
      return Err(ChecksumMismatch), false;
    }
    if header.sourceSha256 != [] && h(disk.files[part].bytes) != header.sourceSha256 {
      return Err(ChecksumMismatch), false;
    }
    var renamed := disk.Rename(part, e.path);
    if renamed.Err? {
      return Err(renamed.error), false;
    }
    committed := true;
    r := disk.ApplyMetadata(e);
  }

  /** Creates the part file and applies operations to it until the end frame. */
  method FillDeltaPart(h: Digest, conn: Connection, disk: Disk, e: ManifestEntry, basis: Option<Bytes>,
                       header: DeltaHeader, begun: nat, ghost first: seq<Frame>)
    returns (r: Result<nat>, data: Bytes, ghost frames: seq<Frame>)
    requires OnFrames(h, e, basis, first) == Applying(header, 0, [], begun)
    modifies conn`incoming, disk`files
    ensures old(conn.incoming) == frames + conn.incoming
    ensures disk.files - {PartPath(e.path)} == old(disk.files) - {PartPath(e.path)}
    ensures var st, part := OnFrames(h, e, basis, first + frames), PartPath(e.path);
            && (r.Ok? ==> part in disk.files && disk.files[part] == FileState(data, 0, disk.platform.newMode)
                          && st == if Verified(h, e, header, data) then Complete(data, r.value) else Refused(ChecksumMismatch))
            && (r.Err? && !disk.faulty ==> !st.Complete?)
            && (r.Err? && !conn.faulty && !disk.faulty ==> st.Refused? || conn.incoming == [])
    ensures InTime(h, e, basis, first + frames)
  {
    hide OnFrames, Verified, PartPath, InTime;
    var part := PartPath(e.path);
    var created := disk.Create(part);
    if created.Err? {
      assert first + [] == first;
      OpenInTime(h, e, basis, first);
      return Err(created.error), [], [];
    }
    var output := new OutputFile(disk.faulty);
    r, frames := ReadOps(h, conn, e, basis, output, header, begun, first);
    data := output.data;
    if r.Err? {
      return;
    }
    var closed := disk.Close(part, data);
    if closed.Err? {
      r := Err(closed.error);
    }
  }

  /** Reads the stream into the part file and commits it. */
  method ReceiveIntoPart(h: Digest, conn: Connection, disk: Disk, e: ManifestEntry)
    returns (r: Result<nat>, committed: bool, ghost frames: seq<Frame>)
    modifies conn`incoming, disk`files
    ensures old(conn.incoming) == frames + conn.incoming
    ensures !committed ==> r.Err? && disk.files - {PartPath(e.path)} == old(disk.files) - {PartPath(e.path)}
    ensures var was, st := old(disk.files), OnFrames(h, e, Contents(old(disk.files), e.path), frames);
            && (committed ==> st.Complete? && Replaced(was, disk.files, e.path, st.data))
            && (r.Ok? ==> committed && disk.files == Committed(disk.platform, was, e, st.data) && r.value == st.payload)
            && (r.Err? && !conn.faulty && !disk.faulty ==> !committed && (st.Refused? || conn.incoming == []))
            && (r.Err? && !disk.faulty ==> !st.Complete?)
    ensures InTime(h, e, Contents(old(disk.files), e.path), frames)
  {
    hide OnFrames, Stamped, Verified, PartPath, InTime;
    var begin, first := ReadBegin(conn, e);
    if begin.Err? {
      if first == [] {
        NoFrames(h, e, Contents(disk.files, e.path));
      }
      return Err(begin.error), false, first;
    }
    var basis := Contents(disk.files, e.path);
    ghost var was := disk.files;
    var received, data, more := FillDeltaPart(h, conn, disk, e, basis, begin.value.0, begin.value.1, first);
    frames := first + more;
    JoinAssoc(first, more, conn.incoming);
    if received.Err? {
      return Err(received.error), false, frames;
    }
    ghost var filled := disk.files;
    var done;
    done, committed := CommitPart(h, disk, e, begin.value.0, data);
    CommittedAnyway(disk.platform, was, filled, e, data);
    if committed {
      ReplacedAnyway(was, filled, disk.files, e.path, data);
    }
    r := if done.Err? then Err(done.error) else Ok(received.value);
  }

  // What the part file held before does not matter once it has been renamed.

  lemma ReplacedAnyway(was: Tree, filled: Tree, now: Tree, path: Text, bytes: Bytes)
    requires Replaced(filled, now, path, bytes) && filled - {PartPath(path)} == was - {PartPath(path)}
    ensures Replaced(was, now, path, bytes)
  {
    hide PartPath;
    var part := PartPath(path);
    assert filled - {part, path} == (filled - {part}) - {path};
    assert was - {part, path} == (was - {part}) - {path};
  }

  lemma CommittedAnyway(platform: Platform, was: Tree, filled: Tree, e: ManifestEntry, bytes: Bytes)
    requires filled - {PartPath(e.path)} == was - {PartPath(e.path)}
    ensures Committed(platform, filled, e, bytes) == Committed(platform, was, e, bytes)
  {
    hide PartPath, Stamped;
  }

  lemma NoFrames(h: Digest, e: ManifestEntry, basis: Option<Bytes>)
    ensures OnFrames(h, e, basis, []) == AwaitingBegin
  {
  }

  /**
   For any incoming frames: either the target is untouched and no part file is left, or the target holds exactly the
   bytes an accepted stream carries and nothing else changed. After the commit only the metadata step can fail.
   */
  method ApplyDeltaStreamToTarget(h: Digest, conn: Connection, disk: Disk, e: ManifestEntry)
    returns (r: Result<nat>, committed: bool, ghost frames: seq<Frame>)
    modifies conn`incoming, disk`files
    ensures old(conn.incoming) == frames + conn.incoming
    ensures !committed ==> r.Err? && (disk.files == old(disk.files) - {PartPath(e.path)} ||
                                      (disk.faulty && disk.files == old(disk.files)))
    ensures var was, st := old(disk.files), OnFrames(h, e, Contents(old(disk.files), e.path), frames);
            && (committed ==> st.Complete? && Replaced(was, disk.files, e.path, st.data))
            && (r.Ok? ==> committed && disk.files == Committed(disk.platform, was, e, st.data) && r.value == st.payload)
            && (r.Err? && !conn.faulty && !disk.faulty ==> !committed && (st.Refused? || conn.incoming == []))
            && (r.Err? && !disk.faulty ==> !st.Complete?)
    ensures InTime(h, e, Contents(old(disk.files), e.path), frames)
  {
    hide Stamped;
    var parentFails := disk.Fails();
    if parentFails {
      return Err(IoError), false, [];
    }
    r, committed, frames := ReceiveIntoPart(h, conn, disk, e);
    if !committed {
      disk.Remove(PartPath(e.path));
    }
  }
}
