/**
 The two single-file hosts, each on its own: from any incoming frames the step machines come to the end that the contracts
 of the two functions describe (`SingleFileTransfer.ReceiveSingleFile`, `SendSingleFile`).
 */
module SingleFileRuns {
  import opened Base
  import opened Frames
  import opened Network
  import opened Trees
  import opened FileStreams
  import opened FileMetadata
  import opened SingleFile
  import opened SingleFileTransfer
  import opened SingleFileSession

  // ----- The receiver -----

  /** What a receiver has come to when its frames are used up or have settled the matter. */
  ghost predicate CameTo(rcv: FileReceiver, tree: Tree, opening: Opening, accepted: Option<(Text, Bytes)>, end: Move<StoringState>) {
    && (accepted.Some? ==>
          && end.state.at == FileStored(accepted.value.0)
          && end.state.tree == if opening.Wanted? then StoredIn(rcv, tree, accepted.value.0, accepted.value.1) else tree)
    && (accepted.None? ==>
          && end.state.at.ReceiveFailed?
          && (end.state.tree == tree || (opening.Wanted? && end.state.tree == tree - {PartPath(opening.path)})))
  }

  lemma OneStep<S>(m: Machine<S>, from: Move<S>, via: Move<S>, to: Move<S>)
    requires Advance(m, from.state, from.inbox, from.outbox, |from.outbox| + 1, true) == Some(via) && Leads(m, via, to)
    ensures Leads(m, from, to)
  {
    hide Leads, Advance;
    OneMove(m, from, via);
    LeadsOn(m, from, via, to);
  }

  lemma ObjectsAlone(rcv: FileReceiver, tree: Tree, error: ErrorCode, inbox: seq<Frame>, outbox: seq<Frame>)
    returns (end: Move<StoringState>)
    ensures Leads(StoringMachine(rcv), Move(StoringState(tree, Objecting(error)), inbox, outbox), end)
    ensures end.state == StoringState(tree, ReceiveFailed(error))
  {
    hide Leads;
    end := Move(StoringState(tree, ReceiveFailed(error)), inbox, outbox + [Message(ErrorMessage, [])]);
    OneMove(StoringMachine(rcv), Move(StoringState(tree, Objecting(error)), inbox, outbox), end);
  }

  lemma ConfirmsAlone(rcv: FileReceiver, tree: Tree, path: Text, inbox: seq<Frame>, outbox: seq<Frame>)
    ensures Leads(StoringMachine(rcv), Move(StoringState(tree, Confirming(path)), inbox, outbox),
                  Move(StoringState(tree, FileStored(path)), inbox, outbox + [STORED_FRAME]))
  {
    hide Leads;
    OneMove(StoringMachine(rcv), Move(StoringState(tree, Confirming(path)), inbox, outbox),
            Move(StoringState(tree, FileStored(path)), inbox, outbox + [STORED_FRAME]));
  }

  /** The chunks, from the point where some have been read. */
  lemma {:induction false} TakesAlone(rcv: FileReceiver, tree: Tree, m: FileBegin, path: Text, start: Bytes, done: seq<Frame>,
                                      inbox: seq<Frame>, outbox: seq<Frame>)
    returns (end: Move<StoringState>)
    ensures Leads(StoringMachine(rcv),
                  Move(StoringState(tree, TakingChunks(m, path, OnChunks(m.size, start, done))), inbox, outbox), end)
    ensures var st := OnChunks(m.size, start, done + inbox);
            && (Acceptable(rcv.h, m, st) ==>
                  && end.state == StoringState(StoredIn(rcv, tree, path, st.data), FileStored(path))
                  && end.outbox == outbox + [STORED_FRAME])
            && (!Acceptable(rcv.h, m, st) ==> end.state.at.ReceiveFailed? && end.state.tree == tree - {PartPath(path)})
    decreases |inbox|
  {
    hide Leads, OnChunks, OnChunk, StoredIn, PartPath;
    var machine, st := StoringMachine(rcv), OnChunks(m.size, start, done);
    var here := Move(StoringState(tree, TakingChunks(m, path, st)), inbox, outbox);
    if !st.More? {
      Settled(m.size, start, done, inbox);
      var next := here.(state := StoringNext(rcv, here.state));
      if Acceptable(rcv.h, m, st) {
        ConfirmsAlone(rcv, next.state.tree, path, inbox, outbox);
        end := Move(StoringState(next.state.tree, FileStored(path)), inbox, outbox + [STORED_FRAME]);
      } else {
        end := ObjectsAlone(rcv, next.state.tree, next.state.at.error, inbox, outbox);
      }
      OneStep(machine, here, next, end);
    } else if inbox == [] {
      assert done + inbox == done;
      end := here.(state := StoringState(tree - {PartPath(path)}, ReceiveFailed(NetworkError)));
      OneMove(machine, here, end);
    } else {
      OnChunksStep(m.size, start, done, inbox[0]);
      assert (done + [inbox[0]]) + inbox[1..] == done + inbox;
      end := TakesAlone(rcv, tree, m, path, start, done + [inbox[0]], inbox[1..], outbox);
      var next := Move(StoringState(tree, TakingChunks(m, path, OnChunk(m.size, st, inbox[0]))), inbox[1..], outbox);
      OneStep(machine, here, next, end);
    }
  }

  /** A file that is wanted: the answer, then the chunks. */
  lemma WantedAlone(rcv: FileReceiver, tree: Tree, m: FileBegin, path: Text, offset: U64, inbox: seq<Frame>)
    returns (end: Move<StoringState>)
    ensures Leads(StoringMachine(rcv), Move(StoringState(tree, AnsweringWanted(m, path, offset)), inbox, []), end)
    ensures var st := OnChunks(m.size, Kept(tree, path, offset), inbox);
            && (Acceptable(rcv.h, m, st) ==>
                  && end.state == StoringState(StoredIn(rcv, tree, path, st.data), FileStored(path))
                  && end.outbox == [BeginAckFrame(BeginAck(offset, false)), STORED_FRAME])
            && (!Acceptable(rcv.h, m, st) ==> end.state.at.ReceiveFailed? && end.state.tree == tree - {PartPath(path)})
  {
    hide Leads, OnChunks, OnChunk, StoredIn, PartPath, BeginAckText, Kept;
    var start, answer := Kept(tree, path, offset), BeginAckFrame(BeginAck(offset, false));
    var here := Move(StoringState(tree, AnsweringWanted(m, path, offset)), inbox, []);
    var next := Move(StoringState(tree, TakingChunks(m, path, More(start))), inbox, [answer]);
    NoChunksYet(m.size, start);
    assert [] + inbox == inbox && [] + [answer] == [answer];
    end := TakesAlone(rcv, tree, m, path, start, [], inbox, [answer]);
    OneStep(StoringMachine(rcv), here, next, end);
  }

  lemma EndAlone(rcv: FileReceiver, tree: Tree, path: Text, inbox: seq<Frame>, outbox: seq<Frame>) returns (end: Move<StoringState>)
    ensures Leads(StoringMachine(rcv), Move(StoringState(tree, AwaitEnd(path)), inbox, outbox), end)
    ensures if inbox != [] && inbox[0].kind == FileEnd
            then end.state == StoringState(tree, FileStored(path)) && end.outbox == outbox + [STORED_FRAME]
            else end.state.tree == tree && end.state.at.ReceiveFailed?
  {
    hide Leads;
    var machine, here := StoringMachine(rcv), Move(StoringState(tree, AwaitEnd(path)), inbox, outbox);
    if inbox == [] {
      end := here.(state := StoringState(tree, ReceiveFailed(NetworkError)));
      OneMove(machine, here, end);
    } else if inbox[0].kind == FileEnd {
      var next := Move(StoringState(tree, Confirming(path)), inbox[1..], outbox);
      ConfirmsAlone(rcv, tree, path, inbox[1..], outbox);
      end := Move(StoringState(tree, FileStored(path)), inbox[1..], outbox + [STORED_FRAME]);
      OneStep(machine, here, next, end);
    } else {
      var next := Move(StoringState(tree, Objecting(ProtocolError)), inbox[1..], outbox);
      end := ObjectsAlone(rcv, tree, ProtocolError, inbox[1..], outbox);
      OneStep(machine, here, next, end);
    }
  }

  /** A file that is held: the answer, then the end frame. */
  lemma HeldAlone(rcv: FileReceiver, tree: Tree, m: FileBegin, path: Text, inbox: seq<Frame>) returns (end: Move<StoringState>)
    ensures Leads(StoringMachine(rcv), Move(StoringState(tree, AnsweringHeld(m, path)), inbox, []), end)
    ensures if inbox != [] && inbox[0].kind == FileEnd
            then end.state == StoringState(tree, FileStored(path))
                 && end.outbox == [BeginAckFrame(BeginAck(m.size, true)), STORED_FRAME]
            else end.state.tree == tree && end.state.at.ReceiveFailed?
  {
    hide Leads, BeginAckText;
    var answer := BeginAckFrame(BeginAck(m.size, true));
    var here := Move(StoringState(tree, AnsweringHeld(m, path)), inbox, []);
    assert [] + [answer] == [answer];
    end := EndAlone(rcv, tree, path, inbox, [answer]);
    OneStep(StoringMachine(rcv), here, Move(StoringState(tree, AwaitEnd(path)), inbox, [answer]), end);
  }

  /**
   For any incoming frames the receiving machine comes to the end that the contract of the receiving function describes:
   it stores what the frames carry, having answered where to start and confirmed, exactly when they are acceptable.
   */
  lemma ReceiverAlone(rcv: FileReceiver, tree: Tree, frames: seq<Frame>) returns (end: Move<StoringState>)
    ensures Leads(StoringMachine(rcv), Move(StoringState(tree, AwaitAnnouncement), frames, []), end)
    ensures CameTo(rcv, tree, Opened(rcv.h, rcv.cfg, tree, frames), Accepted(rcv.h, rcv.cfg, tree, frames), end)
    ensures Accepted(rcv.h, rcv.cfg, tree, frames).Some? ==>
              var answer := Answer(rcv.h, rcv.cfg, tree, frames);
              answer.Some? && end.outbox == [BeginAckFrame(answer.value), STORED_FRAME]
  {
    hide Leads, Open, OnChunks, Kept, FileBeginOf, BeginAckText, StoredIn, PartPath;
    var machine := StoringMachine(rcv);
    var here := Move(StoringState(tree, AwaitAnnouncement), frames, []);
    if frames == [] {
      end := here.(state := StoringState(tree, ReceiveFailed(NetworkError)));
      OneMove(machine, here, end);
      return;
    }
    var next := Move(StoringGot(rcv, here.state, Some(frames[0])), frames[1..], []);
    if Announced(frames[0]).Ok? {
      end := OpenedAlone(rcv, tree, Announced(frames[0]).value, frames);
      OneStep(machine, here, next, end);
    } else if frames[0].kind == MessageType.FileBegin {
      end := ObjectsAlone(rcv, tree, next.state.at.error, frames[1..], []);
      OneStep(machine, here, next, end);
    } else {
      end := next;
      OneMove(machine, here, end);
    }
  }

  /** What an announcement leads to. */
  function Looking(rcv: FileReceiver, tree: Tree, m: FileBegin): StoringSide {
    match Open(rcv.h, rcv.cfg, tree, m)
    case Refusal(error) => Objecting(error)
    case Held(path) => AnsweringHeld(m, path)
    case Wanted(path, offset) => AnsweringWanted(m, path, offset)
  }

  /** After an announcement that could be read. */
  lemma OpenedAlone(rcv: FileReceiver, tree: Tree, m: FileBegin, frames: seq<Frame>) returns (end: Move<StoringState>)
    requires frames != [] && Announced(frames[0]) == Ok(m)
    ensures Leads(StoringMachine(rcv), Move(StoringState(tree, Looking(rcv, tree, m)), frames[1..], []), end)
    ensures CameTo(rcv, tree, Opened(rcv.h, rcv.cfg, tree, frames), Accepted(rcv.h, rcv.cfg, tree, frames), end)
    ensures Accepted(rcv.h, rcv.cfg, tree, frames).Some? ==>
              var answer := Answer(rcv.h, rcv.cfg, tree, frames);
              answer.Some? && end.outbox == [BeginAckFrame(answer.value), STORED_FRAME]
  {
    hide Leads, Open, OnChunks, Kept, FileBeginOf, BeginAckText, StoredIn, PartPath, StoringMachine, Announced, Acceptable;
    OpenFacts(rcv.h, rcv.cfg, tree, m);
    match Open(rcv.h, rcv.cfg, tree, m) {
      case Refusal(error) =>
        end := ObjectsAlone(rcv, tree, error, frames[1..], []);
      case Held(path) =>
        end := HeldAlone(rcv, tree, m, path, frames[1..]);
      case Wanted(path, offset) =>
        end := WantedAlone(rcv, tree, m, path, offset, frames[1..]);
    }
  }

  // ----- The sender -----

  /** The machine writes frames that fit, one by one. */
  lemma {:induction false} PushesAlone(snd: FileSender, pending: seq<Frame>, ack: BeginAck, inbox: seq<Frame>, outbox: seq<Frame>)
    requires AllFit(pending)
    ensures Leads(SendingMachine(snd), Move(Pushing(pending, ack), inbox, outbox), Move(AwaitStored(ack), inbox, outbox + pending))
    decreases |pending|
  {
    hide Leads, Fits;
    var machine, here := SendingMachine(snd), Move(Pushing(pending, ack), inbox, outbox);
    if pending == [] {
      assert outbox + pending == outbox;
      OneMove(machine, here, Move(AwaitStored(ack), inbox, outbox));
    } else {
      PushesAlone(snd, pending[1..], ack, inbox, outbox + [pending[0]]);
      assert (outbox + [pending[0]]) + pending[1..] == outbox + pending;
      OneStep(machine, here, Move(Pushing(pending[1..], ack), inbox, outbox + [pending[0]]),
              Move(AwaitStored(ack), inbox, outbox + pending));
    }
  }

  /** What the sender puts on the wire, read as a whole. */
  lemma RemainderIsHonest(snd: FileSender, ack: BeginAck)
    requires ack.offset <= |snd.source| < U64_LIMIT && (ack.complete ==> ack.offset == |snd.source|)
    requires Concatenated(snd.pieces(ack.offset)) == snd.source[ack.offset..] && PiecesFit(snd.pieces(ack.offset))
    ensures var pieces := if ack.complete then [] else snd.pieces(ack.offset);
            && AllFit(Remainder(snd, ack))
            && ack.offset + |Concatenated(pieces)| < U64_LIMIT
            && [AnnouncementFrame(snd.m)] + Remainder(snd, ack) == HonestFrames(snd.m, ack.offset, pieces)
  {
    hide AnnouncementFrame, ChunkFrames, Fits;
    NoPieces(ack.offset);
    EndFrameFits();
    PiecesMakeFrames(ack.offset, snd.pieces(ack.offset));
    assert ChunkFrames(ack.offset, []) + [END_FRAME] == [END_FRAME];
  }

  /**
   For any incoming frames the sending machine comes to the end that the contract of the sending function describes: it
   succeeds exactly when the receiver's answers allow, and has then sent an honest transfer from the acknowledged offset.
   */
  lemma SenderAlone(snd: FileSender, frames: seq<Frame>) returns (end: Move<SendingSide>)
    requires |snd.source| < U64_LIMIT && Fits(AnnouncementFrame(snd.m))
    requires forall o: nat :: o <= |snd.source| ==>
               Concatenated(snd.pieces(o)) == snd.source[o..] && PiecesFit(snd.pieces(o))
    ensures Leads(SendingMachine(snd), Move(Announcing, frames, []), end)
    ensures !PeerAgrees(frames, |snd.source|) ==> end.state.SendFailed?
    ensures PeerAgrees(frames, |snd.source|) ==>
              var ack := BeginAckOf(frames[0].body).value;
              var pieces := if ack.complete then [] else snd.pieces(ack.offset);
              && end.state == FileSent(ack) && ack.offset + |Concatenated(pieces)| < U64_LIMIT
              && end.outbox == HonestFrames(snd.m, ack.offset, pieces)
  {
    hide Leads, AnnouncementFrame, BeginAckOf, Remainder, HonestFrames, Concatenated, PiecesFit;
    var machine, sent := SendingMachine(snd), [AnnouncementFrame(snd.m)];
    var here, next := Move(Announcing, frames, []), Move(AwaitBegin, frames, sent);
    assert [] + sent == sent;
    end := AnsweredAlone(snd, frames, sent);
    OneStep(machine, here, next, end);
    if PeerAgrees(frames, |snd.source|) {
      RemainderIsHonest(snd, BeginAckOf(frames[0].body).value);
    }
  }

  lemma AnsweredAlone(snd: FileSender, frames: seq<Frame>, outbox: seq<Frame>) returns (end: Move<SendingSide>)
    requires |snd.source| < U64_LIMIT
    requires forall o: nat :: o <= |snd.source| ==>
               Concatenated(snd.pieces(o)) == snd.source[o..] && PiecesFit(snd.pieces(o))
    ensures Leads(SendingMachine(snd), Move(AwaitBegin, frames, outbox), end)
    ensures !PeerAgrees(frames, |snd.source|) ==> end.state.SendFailed?
    ensures PeerAgrees(frames, |snd.source|) ==>
              var ack := BeginAckOf(frames[0].body).value;
              end.state == FileSent(ack) && end.outbox == outbox + Remainder(snd, ack)
  {
    hide Leads, BeginAckOf, Remainder, Concatenated, PiecesFit, AllFit;
    var machine, here := SendingMachine(snd), Move(AwaitBegin, frames, outbox);
    if frames == [] {
      end := here.(state := SendFailed(NetworkError));
      OneMove(machine, here, end);
      return;
    }
    var next := Move(SendingGot(snd, AwaitBegin, Some(frames[0])), frames[1..], outbox);
    if next.state.SendFailed? {
      end := next;
      OneMove(machine, here, end);
    } else {
      var ack := next.state.ack;
      RemainderIsHonest(snd, ack);
      PushesAlone(snd, Remainder(snd, ack), ack, frames[1..], outbox);
      var waiting := Move(AwaitStored(ack), frames[1..], outbox + Remainder(snd, ack));
      end := StoredAlone(snd, ack, frames[1..], waiting.outbox);
      LeadsOn(machine, next, waiting, end);
      OneStep(machine, here, next, end);
    }
  }

  lemma StoredAlone(snd: FileSender, ack: BeginAck, inbox: seq<Frame>, outbox: seq<Frame>) returns (end: Move<SendingSide>)
    ensures Leads(SendingMachine(snd), Move(AwaitStored(ack), inbox, outbox), end) && end.outbox == outbox
    ensures end.state == if inbox != [] && inbox[0].kind == Ack then FileSent(ack)
                         else SendFailed(if inbox == [] then NetworkError else ProtocolError)
  {
    hide Leads;
    var here := Move(AwaitStored(ack), inbox, outbox);
    end := if inbox == [] then here.(state := SendFailed(NetworkError))
           else Move(if inbox[0].kind == Ack then FileSent(ack) else SendFailed(ProtocolError), inbox[1..], outbox);
    OneMove(SendingMachine(snd), here, end);
  }

  // ----- In a transfer -----

  lemma BreaksShow(snd: FileSender, rcv: FileReceiver)
    ensures BreakingStops(SendingMachine(snd)) && BreakingStops(StoringMachine(rcv))
    ensures forall s :: BreaksOff(SendingMachine(snd), s) ==> s == SendFailed(NetworkError)
    ensures forall r :: BreaksOff(StoringMachine(rcv), r) ==> r.at == ReceiveFailed(NetworkError)
  {
    hide SendingNext, SendingGot, StoringNext, StoringGot;
  }

  lemma EndingStops(snd: FileSender, rcv: FileReceiver, tree: Tree)
    ensures var end := Ending(snd, rcv, tree);
            && SendingMachine(snd).act(end.left).Halt? && end.left != SendFailed(NetworkError)
            && StoringMachine(rcv).act(end.right).Halt? && end.right.at != ReceiveFailed(NetworkError)
  {
    hide BaseName, Matches, Continued, PartPath, StoredIn;
  }

  /**
   A transfer that has come to rest, in the terms of the two functions: what the sender has said is accepted by the
   receiving function exactly when the receiver has stored the file, and what the receiver has said lets the sending
   function succeed exactly when the sender has. Each function, run on what the other host said, ends as its host did.
   */
  lemma FunctionsMeet(snd: FileSender, rcv: FileReceiver, capacity: nat, tree: Tree, schedule: seq<Side>,
                      end: Config<SendingSide, StoringState>)
    requires capacity >= 1 && Honest(snd, rcv, tree)
    requires Run(Transfer(snd, rcv, capacity), Beginning(tree), schedule) == Some(end)
    requires Quiet(Transfer(snd, rcv, capacity), end)
    ensures var sys := Transfer(snd, rcv, capacity);
            var up, down := Said(sys, Beginning(tree), schedule, Left), Said(sys, Beginning(tree), schedule, Right);
            && CameTo(rcv, tree, Opened(rcv.h, rcv.cfg, tree, up), Accepted(rcv.h, rcv.cfg, tree, up), Move(end.right, end.up, down))
            && (Accepted(rcv.h, rcv.cfg, tree, up).Some? <==> end.right.at.FileStored?)
            && (PeerAgrees(down, |snd.source|) <==> end.left.FileSent?)
  {
    hide Run, Quiet, Said, Leads, Accepted, Opened, PeerAgrees, Ending, BreakingStops, BreaksOff, SendingMachine, StoringMachine,
         Concatenated, Plain, TellsApart, Open, AnnouncementFrame, Answer;
    var sys := Transfer(snd, rcv, capacity);
    var up, down := Said(sys, Beginning(tree), schedule, Left), Said(sys, Beginning(tree), schedule, Right);
    var _ := EveryScheduleEnds(snd, rcv, capacity, tree, schedule);
    BreaksShow(snd, rcv);
    EndingStops(snd, rcv, tree);
    var right := ReceiverAlone(rcv, tree, up);
    var left := SenderAlone(snd, down);
    AloneStops(snd, rcv);
    RightEnds(sys, Beginning(tree), schedule, right);
    LeftEnds(sys, Beginning(tree), schedule, left);
  }

  lemma AloneStops(snd: FileSender, rcv: FileReceiver)
    ensures forall s: SendingSide :: s.FileSent? || s.SendFailed? ==> SendingMachine(snd).act(s).Halt?
    ensures forall r: StoringState :: r.at.FileStored? || r.at.ReceiveFailed? ==> StoringMachine(rcv).act(r).Halt?
  {
  }
}
