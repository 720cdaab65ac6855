/**
 A single-file transfer as two hosts over the channels (src/transfer/single_file.cpp), from the announcement on. Each
 host is the step machine of its function; together, under every schedule, they deliver the source exactly when the part
 file that the receiver kept is a prefix of it.
 */
module SingleFileSession {
  import opened Base
  import opened Frames
  import opened Network
  import opened Trees
  import opened FileStreams
  import opened FileMetadata
  import opened SingleFile
  import opened SingleFileTransfer
  import SyncSession

  // ----- The sending host -----

  /** What is announced, the file, and how reads cut the file from each offset on. */
  datatype FileSender = FileSender(m: FileBegin, source: Bytes, pieces: nat -> seq<Bytes>)

  datatype SendingSide =
    | Announcing
    | AwaitBegin
    | Pushing(pending: seq<Frame>, ack: BeginAck)
    | AwaitStored(ack: BeginAck)
    | FileSent(ack: BeginAck)
    | SendFailed(error: ErrorCode)

  /** The frames after an acknowledgement. */
  function Remainder(host: FileSender, ack: BeginAck): seq<Frame> {
    var pieces := host.pieces(ack.offset);
    if ack.complete || ack.offset + |Concatenated(pieces)| >= U64_LIMIT then [END_FRAME]
    else ChunkFrames(ack.offset, pieces) + [END_FRAME]
  }

  function SendingAct(host: FileSender, s: SendingSide): Act {
    match s
    case Announcing => SyncSession.WriteAct(AnnouncementFrame(host.m))
    case AwaitBegin => Await
    case Pushing(pending, _) => if pending == [] then Think else SyncSession.WriteAct(pending[0])
    case AwaitStored(_) => Await
    case FileSent(_) => Halt
    case SendFailed(_) => Halt
  }

  function SendingNext(host: FileSender, s: SendingSide): SendingSide {
    match s
    case Announcing => if Fits(AnnouncementFrame(host.m)) then AwaitBegin else SendFailed(ProtocolError)
    case Pushing(pending, ack) =>
      if pending == [] then AwaitStored(ack)
      else if Fits(pending[0]) then Pushing(pending[1..], ack)
      else SendFailed(ProtocolError)
    case _ => s
  }

  function SendingGot(host: FileSender, s: SendingSide, f: Option<Frame>): SendingSide {
    match s
    case AwaitBegin =>
      if f.None? then SendFailed(NetworkError)
      else if f.value.kind != Ack then SendFailed(ProtocolError)
      else
        var ack := BeginAckOf(f.value.body);
        if ack.Err? then SendFailed(ack.error)
        else if ack.value.offset > |host.source| then SendFailed(ProtocolError)
        else if ack.value.complete && ack.value.offset != |host.source| then SendFailed(ProtocolError)
        else Pushing(Remainder(host, ack.value), ack.value)
    case AwaitStored(ack) =>
      if f.None? then SendFailed(NetworkError)
      else if f.value.kind != Ack then SendFailed(ProtocolError)
      else FileSent(ack)
    case _ => s
  }

  // ----- The receiving host -----

  datatype FileReceiver = FileReceiver(h: Digest, cfg: ReceiverConfig, newMode: int)

  datatype StoringSide =
    | AwaitAnnouncement
    | AnsweringHeld(m: FileBegin, path: Text)
    | AnsweringWanted(m: FileBegin, path: Text, offset: U64)
    | TakingChunks(m: FileBegin, path: Text, st: Taking)
    | AwaitEnd(path: Text)
    | Confirming(path: Text)
    | Objecting(error: ErrorCode)
    | FileStored(path: Text)
    | ReceiveFailed(error: ErrorCode)

  datatype StoringState = StoringState(tree: Tree, at: StoringSide)

  /** The part file renamed over the target. */
  function StoredIn(host: FileReceiver, tree: Tree, path: Text, data: Bytes): Tree {
    (tree - {PartPath(path)})[path := FileState(data, 0, host.newMode)]
  }

  function StoringAct(host: FileReceiver, r: StoringState): Act {
    match r.at
    case AwaitAnnouncement => Await
    case AnsweringHeld(m, _) => Emit(BeginAckFrame(BeginAck(m.size, true)))
    case AnsweringWanted(_, _, offset) => Emit(BeginAckFrame(BeginAck(offset, false)))
    case TakingChunks(_, _, st) => if st.More? then Await else Think
    case AwaitEnd(_) => Await
    case Confirming(_) => Emit(STORED_FRAME)
    case Objecting(_) => Emit(Message(ErrorMessage, []))
    case FileStored(_) => Halt
    case ReceiveFailed(_) => Halt
  }

  function StoringNext(host: FileReceiver, r: StoringState): StoringState {
    match r.at
    case AnsweringHeld(_, path) => r.(at := AwaitEnd(path))
    case AnsweringWanted(m, path, offset) => r.(at := TakingChunks(m, path, More(Kept(r.tree, path, offset))))
    case TakingChunks(m, path, st) =>
      if st.Broken? then StoringState(r.tree - {PartPath(path)}, Objecting(st.error))
      else if Acceptable(host.h, m, st) then StoringState(StoredIn(host, r.tree, path, st.data), Confirming(path))
      else StoringState(r.tree - {PartPath(path)}, Objecting(if |st.data| != m.size then ProtocolError else ChecksumMismatch))
    case Confirming(path) => r.(at := FileStored(path))
    case Objecting(error) => r.(at := ReceiveFailed(error))
    case _ => r
  }

  function StoringGot(host: FileReceiver, r: StoringState, f: Option<Frame>): StoringState {
    match r.at
    case AwaitAnnouncement =>
      if f.None? then r.(at := ReceiveFailed(NetworkError))
      else if f.value.kind != MessageType.FileBegin then r.(at := ReceiveFailed(ProtocolError))
      else
        var m := FileBeginOf(f.value.body);
        if m.Err? then r.(at := Objecting(m.error)) else
          (match Open(host.h, host.cfg, r.tree, m.value)
           case Refusal(error) => r.(at := Objecting(error))
           case Held(path) => r.(at := AnsweringHeld(m.value, path))
           case Wanted(path, offset) => r.(at := AnsweringWanted(m.value, path, offset)))
    case TakingChunks(m, path, st) =>
      if f.None? then StoringState(r.tree - {PartPath(path)}, ReceiveFailed(NetworkError))
      else r.(at := TakingChunks(m, path, OnChunk(m.size, st, f.value)))
    case AwaitEnd(path) =>
      if f.None? then r.(at := ReceiveFailed(NetworkError))
      else if f.value.kind != FileEnd then r.(at := Objecting(ProtocolError))
      else r.(at := Confirming(path))
    case _ => r
  }

  /** After a failed write the guard has removed the part file if it was opened. */
  function StoringBroken(r: StoringState): StoringState {
    match r.at
    case AnsweringWanted(_, path, _) => StoringState(r.tree - {PartPath(path)}, ReceiveFailed(NetworkError))
    case _ => r.(at := ReceiveFailed(NetworkError))
  }

  // ----- The transfer -----

  function SendingMachine(host: FileSender): Machine<SendingSide> {
    Machine((s: SendingSide) => SendingAct(host, s),
            (s: SendingSide) => SendingNext(host, s),
            (s: SendingSide, f: Option<Frame>) => SendingGot(host, s, f),
            (s: SendingSide) => SendFailed(NetworkError))
  }

  function StoringMachine(host: FileReceiver): Machine<StoringState> {
    Machine((r: StoringState) => StoringAct(host, r),
            (r: StoringState) => StoringNext(host, r),
            (r: StoringState, f: Option<Frame>) => StoringGot(host, r, f),
            StoringBroken)
  }

  function Transfer(snd: FileSender, rcv: FileReceiver, capacity: nat): System<SendingSide, StoringState> {
    System(SendingMachine(snd), StoringMachine(rcv), capacity)
  }

  function Facing(s: SendingSide, tree: Tree, at: StoringSide): Config<SendingSide, StoringState> {
    Config(s, StoringState(tree, at), [], [])
  }

  function Beginning(tree: Tree): Config<SendingSide, StoringState> {
    Facing(Announcing, tree, AwaitAnnouncement)
  }

  // ----- What an honest transfer is -----

  predicate PiecesFit(pieces: seq<Bytes>) {
    forall i :: 0 <= i < |pieces| ==> |pieces[i]| + 8 <= MAX_FRAME_BODY
  }

  /** The sender announces its file, its reads give what is there in pieces that fit a frame, and so does the announcement. */
  ghost predicate Honest(snd: FileSender, rcv: FileReceiver, tree: Tree) {
    && snd.m.size == |snd.source| && snd.m.sha256 == rcv.h(snd.source) && Plain(snd.m.name) && Plain(snd.m.sha256)
    && Fits(AnnouncementFrame(snd.m))
    && (forall o: nat :: o <= |snd.source| ==>
          Concatenated(snd.pieces(o)) == snd.source[o..] && PiecesFit(snd.pieces(o)))
    && var o := Open(rcv.h, rcv.cfg, tree, snd.m);
    && (o.Wanted? ==> TellsApart(rcv.h, Continued(tree, o.path, snd.m), snd.source))
  }

  /** How it ends. */
  function Ending(snd: FileSender, rcv: FileReceiver, tree: Tree): Config<SendingSide, StoringState> {
    var o := Open(rcv.h, rcv.cfg, tree, snd.m);
    match o
    case Refusal(error) => Facing(SendFailed(ProtocolError), tree, ReceiveFailed(error))
    case Held(path) => Facing(FileSent(BeginAck(snd.m.size, true)), tree, FileStored(path))
    case Wanted(path, offset) =>
      if Continued(tree, path, snd.m) <= snd.source
      then Facing(FileSent(BeginAck(offset, false)), StoredIn(rcv, tree, path, snd.source), FileStored(path))
      else Facing(SendFailed(ProtocolError), tree - {PartPath(path)}, ReceiveFailed(ChecksumMismatch))
  }

  // ----- One schedule -----

  /** The sender after k frames of the remainder, the receiver having read them. */
  function Midway(rcv: FileReceiver, m: FileBegin, path: Text, start: Bytes, frames: seq<Frame>, k: nat, ack: BeginAck, tree: Tree)
    : Config<SendingSide, StoringState>
    requires k <= |frames|
  {
    Facing(Pushing(frames[k..], ack), tree, TakingChunks(m, path, OnChunks(m.size, start, frames[..k])))
  }

  lemma ChunkPasses(snd: FileSender, rcv: FileReceiver, capacity: nat, path: Text, start: Bytes, frames: seq<Frame>, k: nat,
                    ack: BeginAck, tree: Tree)
    requires capacity >= 1 && k < |frames| && Fits(frames[k]) && OnChunks(snd.m.size, start, frames[..k]).More?
    ensures Run(Transfer(snd, rcv, capacity), Midway(rcv, snd.m, path, start, frames, k, ack, tree), [Left, Right])
         == Some(Midway(rcv, snd.m, path, start, frames, k + 1, ack, tree))
  {
    hide Run, OnChunk, OnChunks;
    assert frames[k..][0] == frames[k] && frames[k..][1..] == frames[k + 1..];
    assert frames[..k + 1] == frames[..k] + [frames[k]];
    OnChunksStep(snd.m.size, start, frames[..k], frames[k]);
    var here := Midway(rcv, snd.m, path, start, frames, k, ack, tree);
    FrameUp(Transfer(snd, rcv, capacity), here.left, here.right, frames[k]);
  }

  lemma {:induction false} ChunksPass(snd: FileSender, rcv: FileReceiver, capacity: nat, path: Text, start: Bytes,
                                      frames: seq<Frame>, k: nat, ack: BeginAck, tree: Tree)
    returns (moves: seq<Side>)
    requires capacity >= 1 && k <= |frames| && AllFit(frames)
    requires forall n :: 0 <= n < k ==> OnChunks(snd.m.size, start, frames[..n]).More?
    ensures Run(Transfer(snd, rcv, capacity), Midway(rcv, snd.m, path, start, frames, 0, ack, tree), moves)
         == Some(Midway(rcv, snd.m, path, start, frames, k, ack, tree))
    decreases k
  {
    hide Transfer, Midway, OnChunks;
    moves := [];
    if k > 0 {
      var front := ChunksPass(snd, rcv, capacity, path, start, frames, k - 1, ack, tree);
      ChunkPasses(snd, rcv, capacity, path, start, frames, k - 1, ack, tree);
      RunChain(Transfer(snd, rcv, capacity), Midway(rcv, snd.m, path, start, frames, 0, ack, tree), front,
               Midway(rcv, snd.m, path, start, frames, k - 1, ack, tree), [Left, Right],
               Midway(rcv, snd.m, path, start, frames, k, ack, tree));
      moves := front + [Left, Right];
    }
  }

  /** Chunks of an honest sender keep the receiver reading up to the end frame. */
  lemma OpenUpToEnd(size: nat, start: Bytes, chunks: seq<Frame>, n: nat)
    requires OnChunks(size, start, chunks).More? && n <= |chunks|
    ensures OnChunks(size, start, (chunks + [END_FRAME])[..n]).More?
  {
    hide OnChunks;
    assert (chunks + [END_FRAME])[..n] == chunks[..n] && chunks[..n] + chunks[n..] == chunks;
    if !OnChunks(size, start, chunks[..n]).More? {
      Settled(size, start, chunks[..n], chunks[n..]);
    }
  }

  lemma {:induction false} PiecesMakeFrames(offset: nat, pieces: seq<Bytes>)
    requires offset + |Concatenated(pieces)| < U64_LIMIT && PiecesFit(pieces)
    ensures AllFit(ChunkFrames(offset, pieces))
  {
    hide ChunkFrame, Fits;
    if pieces != [] {
      var front, last := pieces[..|pieces| - 1], pieces[|pieces| - 1];
      PiecesMakeFrames(offset, front);
      ChunkFrameSize(offset + |Concatenated(front)|, last);
    }
  }

  lemma LastFits(chunks: seq<Frame>)
    requires AllFit(chunks)
    ensures AllFit(chunks + [END_FRAME])
  {
  }

  /** What the receiver makes of the whole remainder. */
  lemma RemainderArrives(snd: FileSender, rcv: FileReceiver, tree: Tree) returns (start: Bytes, frames: seq<Frame>)
    requires Honest(snd, rcv, tree) && Open(rcv.h, rcv.cfg, tree, snd.m).Wanted?
    ensures var o := Open(rcv.h, rcv.cfg, tree, snd.m);
            && start == Continued(tree, o.path, snd.m) == Kept(tree, o.path, o.offset) && |start| == o.offset <= |snd.source|
            && frames == Remainder(snd, BeginAck(o.offset, false)) && frames != [] && AllFit(frames)
            && (forall n :: 0 <= n < |frames| ==> OnChunks(snd.m.size, start, frames[..n]).More?)
            && OnChunks(snd.m.size, start, frames) == Ended(start + snd.source[o.offset..])
  {
    hide Open, Kept, Continued, OnChunks, ChunkFrames, Plain, TellsApart, Concatenated;
    var o := Open(rcv.h, rcv.cfg, tree, snd.m);
    KeptSize(rcv.h, rcv.cfg, tree, snd.m);
    start := Kept(tree, o.path, o.offset);
    var pieces := snd.pieces(o.offset);
    var chunks := ChunkFrames(o.offset, pieces);
    frames := chunks + [END_FRAME];
    PiecesMakeFrames(o.offset, pieces);
    LastFits(chunks);
    ChunksArrive(snd.m.size, start, pieces);
    OnChunksStep(snd.m.size, start, chunks, END_FRAME);
    forall n | 0 <= n < |frames| ensures OnChunks(snd.m.size, start, frames[..n]).More? {
      OpenUpToEnd(snd.m.size, start, chunks, n);
    }
  }

  lemma AckIsRead(snd: FileSender, ack: BeginAck)
    requires ack.offset <= |snd.source| && (ack.complete ==> ack.offset == |snd.source|)
    ensures SendingGot(snd, AwaitBegin, Some(BeginAckFrame(ack))) == Pushing(Remainder(snd, ack), ack)
  {
    hide BeginAckText, BeginAckOf, Remainder;
    BeginAckRoundTrip(ack);
  }

  /** The announcement is read, and the receiver looks at what it has. */
  lemma Announces(snd: FileSender, rcv: FileReceiver, capacity: nat, tree: Tree)
    requires capacity >= 1 && Honest(snd, rcv, tree)
    ensures var at := match Open(rcv.h, rcv.cfg, tree, snd.m)
                      case Refusal(error) => Objecting(error)
                      case Held(path) => AnsweringHeld(snd.m, path)
                      case Wanted(path, offset) => AnsweringWanted(snd.m, path, offset);
            Run(Transfer(snd, rcv, capacity), Beginning(tree), [Left, Right]) == Some(Facing(AwaitBegin, tree, at))
  {
    hide Run, Open, FileBeginText, FileBeginOf, Plain, TellsApart, Kept, Continued;
    AnnouncementIsRead(snd.m);
    FrameUp(Transfer(snd, rcv, capacity), Announcing, StoringState(tree, AwaitAnnouncement), AnnouncementFrame(snd.m));
  }

  /** The receiver objects and stops, and the sender with it. */
  lemma Objects(snd: FileSender, rcv: FileReceiver, capacity: nat, s: SendingSide, tree: Tree, error: ErrorCode)
    requires capacity >= 1 && (s.AwaitBegin? || s.AwaitStored?)
    ensures Run(Transfer(snd, rcv, capacity), Facing(s, tree, Objecting(error)), [Right, Left])
         == Some(Facing(SendFailed(ProtocolError), tree, ReceiveFailed(error)))
  {
    hide Run, BeginAckOf;
    FrameDown(Transfer(snd, rcv, capacity), s, StoringState(tree, Objecting(error)), Message(ErrorMessage, []));
  }

  /** The receiver confirms, and both are done. */
  lemma Confirms(snd: FileSender, rcv: FileReceiver, capacity: nat, ack: BeginAck, tree: Tree, path: Text)
    requires capacity >= 1
    ensures Run(Transfer(snd, rcv, capacity), Facing(AwaitStored(ack), tree, Confirming(path)), [Right, Left])
         == Some(Facing(FileSent(ack), tree, FileStored(path)))
  {
    hide Run;
    FrameDown(Transfer(snd, rcv, capacity), AwaitStored(ack), StoringState(tree, Confirming(path)), STORED_FRAME);
  }

  /** A file that is held: only the end frame is sent. */
  lemma HeldEnds(snd: FileSender, rcv: FileReceiver, capacity: nat, tree: Tree, path: Text) returns (moves: seq<Side>)
    requires capacity >= 1 && snd.m.size == |snd.source|
    ensures Run(Transfer(snd, rcv, capacity), Facing(AwaitBegin, tree, AnsweringHeld(snd.m, path)), moves)
         == Some(Facing(FileSent(BeginAck(snd.m.size, true)), tree, FileStored(path)))
  {
    hide Run, BeginAckText, BeginAckOf;
    var sys, ack := Transfer(snd, rcv, capacity), BeginAck(snd.m.size, true);
    var c0, c1 := Facing(AwaitBegin, tree, AnsweringHeld(snd.m, path)), Facing(Pushing([END_FRAME], ack), tree, AwaitEnd(path));
    var c2, c3 := Facing(Pushing([], ack), tree, Confirming(path)), Facing(AwaitStored(ack), tree, Confirming(path));
    AckIsRead(snd, ack);
    FrameDown(sys, AwaitBegin, c0.right, BeginAckFrame(ack));
    assert [END_FRAME][1..] == [];
    FrameUp(sys, c1.left, c1.right, END_FRAME);
    NoMove(sys, c2);
    RunOneMore(sys, c2, [], c2, Left);
    Confirms(snd, rcv, capacity, ack, tree, path);
    RunChain(sys, c0, [Right, Left], c1, [Left, Right], c2);
    moves := [Right, Left] + [Left, Right];
    RunChain(sys, c0, moves, c2, [] + [Left], c3);
    moves := moves + ([] + [Left]);
    RunChain(sys, c0, moves, c3, [Right, Left], Facing(FileSent(ack), tree, FileStored(path)));
    moves := moves + [Right, Left];
  }

  lemma NoMove<S, R>(sys: System<S, R>, c: Config<S, R>)
    ensures Run(sys, c, []) == Some(c)
  {
  }

  /** What the receiver makes of the end of the chunks. */
  lemma Judged(snd: FileSender, rcv: FileReceiver, tree: Tree, path: Text, start: Bytes)
    requires snd.m.size == |snd.source| && snd.m.sha256 == rcv.h(snd.source) && |start| <= |snd.source|
    requires TellsApart(rcv.h, start, snd.source)
    ensures var whole := start + snd.source[|start|..];
            StoringNext(rcv, StoringState(tree, TakingChunks(snd.m, path, Ended(whole))))
            == if start <= snd.source then StoringState(StoredIn(rcv, tree, path, snd.source), Confirming(path))
               else StoringState(tree - {PartPath(path)}, Objecting(ChecksumMismatch))
  {
    PrefixIffWhole(start, snd.source);
  }

  /** A file that is wanted: the remainder is sent. */
  lemma WantedEnds(snd: FileSender, rcv: FileReceiver, capacity: nat, tree: Tree) returns (moves: seq<Side>)
    requires capacity >= 1 && Honest(snd, rcv, tree) && Open(rcv.h, rcv.cfg, tree, snd.m).Wanted?
    ensures var o := Open(rcv.h, rcv.cfg, tree, snd.m);
            Run(Transfer(snd, rcv, capacity), Facing(AwaitBegin, tree, AnsweringWanted(snd.m, o.path, o.offset)), moves)
            == Some(Ending(snd, rcv, tree))
  {
    hide Run, BeginAckText, BeginAckOf, Open, Kept, Continued, OnChunks, StoredIn, Remainder, Transfer, PartPath, Plain, Concatenated;
    var sys, o := Transfer(snd, rcv, capacity), Open(rcv.h, rcv.cfg, tree, snd.m);
    var ack := BeginAck(o.offset, false);
    var start, frames := RemainderArrives(snd, rcv, tree);
    var c0 := Facing(AwaitBegin, tree, AnsweringWanted(snd.m, o.path, o.offset));
    var c1 := Midway(rcv, snd.m, o.path, start, frames, 0, ack, tree);
    var c2 := Midway(rcv, snd.m, o.path, start, frames, |frames|, ack, tree);
    WantedAnswers(snd, rcv, capacity, tree, o.path, start, frames, ack);
    var pass := ChunksPass(snd, rcv, capacity, o.path, start, frames, |frames|, ack, tree);
    var judged := JudgesBoth(snd, rcv, capacity, tree, o.path, start, frames, ack);
    RunChain(sys, c0, [Right, Left], c1, pass, c2);
    moves := [Right, Left] + pass;
    RunChain(sys, c0, moves, c2, [Left, Right], judged);
    moves := moves + [Left, Right];
    if start <= snd.source {
      Confirms(snd, rcv, capacity, ack, judged.right.tree, o.path);
    } else {
      Objects(snd, rcv, capacity, judged.left, judged.right.tree, ChecksumMismatch);
    }
    RunChain(sys, c0, moves, judged, [Right, Left], Ending(snd, rcv, tree));
    moves := moves + [Right, Left];
  }

  lemma WantedAnswers(snd: FileSender, rcv: FileReceiver, capacity: nat, tree: Tree, path: Text, start: Bytes, frames: seq<Frame>,
                      ack: BeginAck)
    requires capacity >= 1 && ack.offset <= |snd.source| && !ack.complete
    requires start == Kept(tree, path, ack.offset) && frames == Remainder(snd, ack)
    ensures Run(Transfer(snd, rcv, capacity), Facing(AwaitBegin, tree, AnsweringWanted(snd.m, path, ack.offset)), [Right, Left])
         == Some(Midway(rcv, snd.m, path, start, frames, 0, ack, tree))
  {
    hide Run, BeginAckText, BeginAckOf, Kept, Remainder;
    AckIsRead(snd, ack);
    assert frames[0..] == frames && frames[..0] == [];
    FrameDown(Transfer(snd, rcv, capacity), AwaitBegin, StoringState(tree, AnsweringWanted(snd.m, path, ack.offset)),
              BeginAckFrame(ack));
  }

  lemma JudgesBoth(snd: FileSender, rcv: FileReceiver, capacity: nat, tree: Tree, path: Text, start: Bytes, frames: seq<Frame>,
                   ack: BeginAck)
    returns (judged: Config<SendingSide, StoringState>)
    requires snd.m.size == |snd.source| && snd.m.sha256 == rcv.h(snd.source) && |start| <= |snd.source|
    requires TellsApart(rcv.h, start, snd.source)
    requires OnChunks(snd.m.size, start, frames) == Ended(start + snd.source[|start|..])
    ensures Run(Transfer(snd, rcv, capacity), Midway(rcv, snd.m, path, start, frames, |frames|, ack, tree), [Left, Right])
         == Some(judged)
    ensures judged == if start <= snd.source then Facing(AwaitStored(ack), StoredIn(rcv, tree, path, snd.source), Confirming(path))
                      else Facing(AwaitStored(ack), tree - {PartPath(path)}, Objecting(ChecksumMismatch))
  {
    hide Run, OnChunks, StoredIn, PartPath, TellsApart;
    Judged(snd, rcv, tree, path, start);
    assert frames[|frames|..] == [] && frames[..|frames|] == frames;
    var here := Midway(rcv, snd.m, path, start, frames, |frames|, ack, tree);
    hide StoringNext;
    ThinkBoth(Transfer(snd, rcv, capacity), here.left, here.right);
    judged := Config(SendingNext(snd, here.left), StoringNext(rcv, here.right), [], []);
  }

  lemma SomeScheduleEnds(snd: FileSender, rcv: FileReceiver, capacity: nat, tree: Tree) returns (moves: seq<Side>)
    requires capacity >= 1 && Honest(snd, rcv, tree)
    ensures Run(Transfer(snd, rcv, capacity), Beginning(tree), moves) == Some(Ending(snd, rcv, tree))
    ensures Quiet(Transfer(snd, rcv, capacity), Ending(snd, rcv, tree))
  {
    EndingIsQuiet(snd, rcv, capacity, tree);
    hide Run, Open, Transfer, Honest, StoredIn, Continued, PartPath, Quiet;
    var sys, o := Transfer(snd, rcv, capacity), Open(rcv.h, rcv.cfg, tree, snd.m);
    Announces(snd, rcv, capacity, tree);
    var rest;
    var at;
    match o {
      case Refusal(error) =>
        at, rest := Objecting(error), [Right, Left];
        Objects(snd, rcv, capacity, AwaitBegin, tree, error);
      case Held(path) =>
        at := AnsweringHeld(snd.m, path);
        HonestSize(snd, rcv, tree);
        rest := HeldEnds(snd, rcv, capacity, tree, path);
      case Wanted(path, offset) =>
        at := AnsweringWanted(snd.m, path, offset);
        rest := WantedEnds(snd, rcv, capacity, tree);
    }
    RunChain(sys, Beginning(tree), [Left, Right], Facing(AwaitBegin, tree, at), rest, Ending(snd, rcv, tree));
    moves := [Left, Right] + rest;
  }

  lemma HonestSize(snd: FileSender, rcv: FileReceiver, tree: Tree)
    requires Honest(snd, rcv, tree)
    ensures snd.m.size == |snd.source|
  {
  }

  lemma EndingIsQuiet(snd: FileSender, rcv: FileReceiver, capacity: nat, tree: Tree)
    ensures Quiet(Transfer(snd, rcv, capacity), Ending(snd, rcv, tree))
  {
    hide Open, Continued, PartPath, StoredIn;
  }

  /**
   Under every schedule and for every capacity: a transfer can always go on to that end and comes to rest only there. So
   both hosts succeed if and only if the receiver holds the file already or wants it
   and has kept a prefix of it; then it has exactly the source, and otherwise the target is untouched.
   */
  lemma EveryScheduleEnds(snd: FileSender, rcv: FileReceiver, capacity: nat, tree: Tree, schedule: seq<Side>)
    returns (rest: seq<Side>)
    requires capacity >= 1 && Honest(snd, rcv, tree)
    requires Run(Transfer(snd, rcv, capacity), Beginning(tree), schedule).Some?
    ensures var sys := Transfer(snd, rcv, capacity);
            var here := Run(sys, Beginning(tree), schedule).value;
            && Run(sys, here, rest) == Some(Ending(snd, rcv, tree))
            && (Quiet(sys, here) ==> here == Ending(snd, rcv, tree))
  {
    hide Honest, Ending;
    var sys := Transfer(snd, rcv, capacity);
    var moves := SomeScheduleEnds(snd, rcv, capacity, tree);
    rest := AnySchedule(sys, Beginning(tree), moves, Ending(snd, rcv, tree), schedule);
    assert Quiet(sys, Run(sys, Beginning(tree), schedule).value) ==> rest == [];
  }

  /** No schedule runs forever. */
  lemma TransfersAreBounded(snd: FileSender, rcv: FileReceiver, capacity: nat, tree: Tree) returns (length: nat)
    requires capacity >= 1 && Honest(snd, rcv, tree)
    ensures forall schedule :: Run(Transfer(snd, rcv, capacity), Beginning(tree), schedule).Some? ==> |schedule| <= length
  {
    hide Honest, Ending;
    var sys := Transfer(snd, rcv, capacity);
    var moves := SomeScheduleEnds(snd, rcv, capacity, tree);
    length := |moves|;
    forall schedule | Run(sys, Beginning(tree), schedule).Some? ensures |schedule| <= length {
      var _ := AnySchedule(sys, Beginning(tree), moves, Ending(snd, rcv, tree), schedule);
    }
  }

  // ----- Transferring again -----

  /** The receiver has exactly the source under the announced name. */
  predicate HasSource(snd: FileSender, tree: Tree) {
    var target := TargetOf(snd.m.name);
    target.Some? && target.value in tree && tree[target.value].bytes == snd.source
  }

  /**
   What the next transfer of the same file does: after a success it sends nothing and changes nothing; after a failure
   because of the part file, which is gone now, it delivers the source. So two attempts always suffice.
   */
  lemma SecondTransfer(snd: FileSender, rcv: FileReceiver, tree: Tree)
    requires Honest(snd, rcv, tree) && Open(rcv.h, rcv.cfg, tree, snd.m).Wanted?
    ensures var first := Ending(snd, rcv, tree);
            var second := Ending(snd, rcv, first.right.tree);
            && Honest(snd, rcv, first.right.tree)
            && (first.right.at.FileStored? ==>
                  HasSource(snd, first.right.tree) && second.left == FileSent(BeginAck(snd.m.size, true))
                  && second.right == first.right)
            && (first.right.at.ReceiveFailed? ==>
                  first.right.tree == tree - {PartPath(Open(rcv.h, rcv.cfg, tree, snd.m).path)}
                  && second.left == FileSent(BeginAck(0, false)) && HasSource(snd, second.right.tree))
  {
    hide PartPath, BaseName, Plain, Concatenated, TellsApart;
    var o := Open(rcv.h, rcv.cfg, tree, snd.m);
    var first := Ending(snd, rcv, tree);
    PartIsNotTarget(o.path);
    if first.right.at.FileStored? {
      assert Open(rcv.h, rcv.cfg, first.right.tree, snd.m) == Held(o.path);
    } else {
      assert Open(rcv.h, rcv.cfg, first.right.tree, snd.m) == Wanted(o.path, 0);
      FromNothing(rcv.h, snd.source);
    }
  }

  lemma FromNothing(h: Digest, source: Bytes)
    ensures TellsApart(h, [], source)
  {
    assert [] + source[0..] == source;
  }
}
