/**
 One successful schedule of a synchronisation, entry by entry and frame by frame; then, since the order of moves
 does not matter, every schedule.
 */
module SyncLiveness {
  import opened Base
  import opened Frames
  import opened Network
  import opened DeltaCopies
  import opened SyncCodec
  import opened SyncCodecTheorems
  import opened Trees
  import opened SyncPlanning
  import opened FileStreams
  import opened FileSending
  import opened FileReceiving
  import opened SyncSession
  import opened SyncTheorems

  type State = Config<Sender, ReceiverState>

  function At(s: Sender, r: ReceiverState): State {
    Config(s, r, [], [])
  }

  // ----- Pairs of moves that pass one frame -----

  /** The sender writes a frame and the receiver reads it. */
  lemma PassUp(snd: SenderHost, rcv: ReceiverHost, capacity: nat, s: Sender, r: ReceiverState, f: Frame)
    requires capacity >= 1 && SenderAct(snd, s) == Emit(f) && ReceiverAct(rcv, r) == Await
    ensures Run(Session(snd, rcv, capacity), At(s, r), [Left, Right])
         == Some(At(SenderNext(snd, s), ReceiverGot(rcv, r, Some(f))))
  {
    hide SenderAct, SenderNext, ReceiverAct, ReceiverGot;
    FrameUp(Session(snd, rcv, capacity), s, r, f);
  }

  /** The receiver writes a frame and the sender reads it. */
  lemma PassDown(snd: SenderHost, rcv: ReceiverHost, capacity: nat, s: Sender, r: ReceiverState, f: Frame)
    requires capacity >= 1 && ReceiverAct(rcv, r) == Emit(f) && SenderAct(snd, s) == Await
    ensures Run(Session(snd, rcv, capacity), At(s, r), [Right, Left])
         == Some(At(SenderGot(snd, s, Some(f)), ReceiverNext(rcv, r)))
  {
    hide SenderAct, SenderGot, ReceiverAct, ReceiverNext;
    FrameDown(Session(snd, rcv, capacity), s, r, f);
  }

  /** Each host decides something on its own. */
  lemma BothThink(snd: SenderHost, rcv: ReceiverHost, capacity: nat, s: Sender, r: ReceiverState)
    requires SenderAct(snd, s) == Think && ReceiverAct(rcv, r) == Think
    ensures Run(Session(snd, rcv, capacity), At(s, r), [Left, Right]) == Some(At(SenderNext(snd, s), ReceiverNext(rcv, r)))
  {
    hide SenderAct, SenderNext, ReceiverAct, ReceiverNext;
    ThinkBoth(Session(snd, rcv, capacity), s, r);
  }

  // ----- The opening exchange -----

  /** Hello and manifest reach the receiver, which acknowledges. */
  lemma Greeting(snd: SenderHost, rcv: ReceiverHost, capacity: nat, tree: Tree) returns (moves: seq<Side>)
    requires capacity >= 1 && Ready(snd, rcv, tree)
    ensures Run(Session(snd, rcv, capacity), Start(tree), moves)
         == Some(At(AwaitPlan, ReceiverState(tree, SendPlan(snd.manifest))))
  {
    hide Run, Session, ManifestBytes, ParseManifest, PlanBytes, ParsePlan, PlanOf, EntryReady, EncodablePlan, DistinctPaths;
    var sys, m, r0 := Session(snd, rcv, capacity), snd.manifest, ReceiverState(tree, AwaitHello);
    var c1 := At(SendManifest, r0.(at := AwaitManifest));
    var c2 := At(AwaitManifestAck, r0.(at := AckManifest(m)));
    var c3 := At(AwaitPlan, r0.(at := SendPlan(m)));
    ManifestRoundTrip(m);
    PassUp(snd, rcv, capacity, SayHello, r0, Message(Hello, snd.hello));
    PassUp(snd, rcv, capacity, SendManifest, r0.(at := AwaitManifest), ManifestFrame(m));
    PassDown(snd, rcv, capacity, AwaitManifestAck, r0.(at := AckManifest(m)), AckFrame([]));
    RunChain(sys, Start(tree), [Left, Right], c1, [Left, Right], c2);
    moves := [Left, Right] + [Left, Right];
    RunChain(sys, Start(tree), moves, c2, [Right, Left], c3);
    moves := moves + [Right, Left];
  }

  /** The plan reaches the sender, which acknowledges. */
  lemma Planning(snd: SenderHost, rcv: ReceiverHost, capacity: nat, tree: Tree) returns (moves: seq<Side>)
    requires capacity >= 1 && Ready(snd, rcv, tree)
    ensures var plan, n := PlanOf(rcv, tree, snd.manifest).value, |snd.manifest.files|;
            Run(Session(snd, rcv, capacity), At(AwaitPlan, ReceiverState(tree, SendPlan(snd.manifest))), moves)
            == Some(At(SenderAt(plan, 0, NoSends(n)), ReceiverState(tree, ReceiverAt(plan, 0, NoReceipts(n)))))
  {
    hide Run, Session, ManifestBytes, ParseManifest, PlanBytes, ParsePlan, PlanOf, EntryReady, EncodablePlan, DistinctPaths;
    var sys, m := Session(snd, rcv, capacity), snd.manifest;
    var plan, r := PlanOf(rcv, tree, m).value, ReceiverState(tree, SendPlan(m));
    var acked := r.(at := AwaitPlanAck(plan, |m.files|));
    PlanRoundTrip(plan);
    PassDown(snd, rcv, capacity, AwaitPlan, r, PlanFrame(plan));
    PassUp(snd, rcv, capacity, AckPlan(plan), acked, AckFrame([]));
    RunChain(sys, At(AwaitPlan, r), [Right, Left], At(AckPlan(plan), acked), [Left, Right],
             At(SenderAt(plan, 0, NoSends(|m.files|)), r.(at := ReceiverAt(plan, 0, NoReceipts(|m.files|)))));
    moves := [Right, Left] + [Left, Right];
  }

  // ----- One stream -----

  /** The sender after k frames of a stream. */
  function SendingAt(plan: SyncPlan, i: nat, frames: seq<Frame>, k: nat, sr: SendReport): Sender
    requires k <= |frames|
  {
    Streaming(plan, i, frames[k..], None, sr.(payload := sr.payload + PayloadOf(frames[..k])))
  }

  /** The receiver after the same k frames. */
  function ReadingAt(rcv: ReceiverHost, plan: SyncPlan, i: nat, frames: seq<Frame>, k: nat, tree: Tree, rr: ReceiveReport)
    : ReceiverState
    requires k <= |frames| && i < |plan.entries|
  {
    var e := plan.entries[i].manifestEntry;
    ReceiverState(tree, ReceivingFile(plan, i, OnFrames(rcv.h, e, Contents(tree, e.path), frames[..k]), rr))
  }

  lemma FramePasses(snd: SenderHost, rcv: ReceiverHost, capacity: nat, plan: SyncPlan, i: nat, frames: seq<Frame>, k: nat,
                    tree: Tree, sr: SendReport, rr: ReceiveReport)
    requires capacity >= 1 && k < |frames| && i < |plan.entries| && Fits(frames[k])
    requires var e := plan.entries[i].manifestEntry; IsOpen(OnFrames(rcv.h, e, Contents(tree, e.path), frames[..k]))
    ensures Run(Session(snd, rcv, capacity),
                At(SendingAt(plan, i, frames, k, sr), ReadingAt(rcv, plan, i, frames, k, tree, rr)), [Left, Right])
         == Some(At(SendingAt(plan, i, frames, k + 1, sr), ReadingAt(rcv, plan, i, frames, k + 1, tree, rr)))
  {
    hide Run, Session, OnFrame, OnFrames, PayloadOf;
    var e := plan.entries[i].manifestEntry;
    assert frames[k..][0] == frames[k] && frames[k..][1..] == frames[k + 1..];
    assert frames[..k + 1] == frames[..k] + [frames[k]];
    PayloadAppend(frames[..k], frames[k]);
    OnFramesStep(rcv.h, e, Contents(tree, e.path), frames[..k], frames[k]);
    PassUp(snd, rcv, capacity, SendingAt(plan, i, frames, k, sr), ReadingAt(rcv, plan, i, frames, k, tree, rr), frames[k]);
  }

  /** All frames of a stream pass, one by one. */
  lemma {:induction false} StreamPasses(snd: SenderHost, rcv: ReceiverHost, capacity: nat, plan: SyncPlan, i: nat,
                                        frames: seq<Frame>, k: nat, tree: Tree, sr: SendReport, rr: ReceiveReport)
    returns (moves: seq<Side>)
    requires capacity >= 1 && k <= |frames| && i < |plan.entries| && AllFit(frames)
    requires var e := plan.entries[i].manifestEntry;
             forall n :: 0 <= n < k ==> IsOpen(OnFrames(rcv.h, e, Contents(tree, e.path), frames[..n]))
    ensures Run(Session(snd, rcv, capacity),
                At(SendingAt(plan, i, frames, 0, sr), ReadingAt(rcv, plan, i, frames, 0, tree, rr)), moves)
         == Some(At(SendingAt(plan, i, frames, k, sr), ReadingAt(rcv, plan, i, frames, k, tree, rr)))
    decreases k
  {
    hide Session, SendingAt, ReadingAt, OnFrames;
    moves := [];
    if k > 0 {
      var sys := Session(snd, rcv, capacity);
      var front := StreamPasses(snd, rcv, capacity, plan, i, frames, k - 1, tree, sr, rr);
      FramePasses(snd, rcv, capacity, plan, i, frames, k - 1, tree, sr, rr);
      RunChain(sys, At(SendingAt(plan, i, frames, 0, sr), ReadingAt(rcv, plan, i, frames, 0, tree, rr)), front,
               At(SendingAt(plan, i, frames, k - 1, sr), ReadingAt(rcv, plan, i, frames, k - 1, tree, rr)), [Left, Right],
               At(SendingAt(plan, i, frames, k, sr), ReadingAt(rcv, plan, i, frames, k, tree, rr)));
      moves := front + [Left, Right];
    }
  }

  /** A stream that ends complete was open before its last frame. */
  lemma {:induction false} OpenBeforeEnd(h: Digest, e: ManifestEntry, basis: Option<Bytes>, frames: seq<Frame>, data: Bytes, n: nat)
    requires CarriesFile(h, e, basis, frames, data) && n < |frames|
    ensures IsOpen(OnFrames(h, e, basis, frames[..n]))
  {
    hide CarriesFile, Underway, OnFrame;
    if n == 0 {
      assert frames[..0] == [];
    } else {
      CarryingIsUnderway(h, e, basis, frames, n, data);
    }
  }

  // ----- One entry -----

  /** Everything that is known about entry i when its turn comes. */
  ghost predicate Turn(snd: SenderHost, rcv: ReceiverHost, tree: Tree, plan: SyncPlan, i: nat) {
    && snd.h == rcv.h && i < |plan.entries| && DistinctSources(plan.entries, snd.source)
    && EntryReady(snd, plan.blockSize, tree, plan.entries[i])
  }

  function Now(snd: SenderHost, rcv: ReceiverHost, tree: Tree, plan: SyncPlan, n: nat): Tree
    requires n <= |plan.entries|
  {
    TreeAfter(rcv.platform, snd.source, tree, plan.entries, n)
  }

  function Between(snd: SenderHost, rcv: ReceiverHost, tree: Tree, plan: SyncPlan, n: nat, sr: SendReport, rr: ReceiveReport): State
    requires n <= |plan.entries|
  {
    At(SenderAt(plan, n, sr), ReceiverState(Now(snd, rcv, tree, plan, n), ReceiverAt(plan, n, rr)))
  }

  lemma SkippedEntry(snd: SenderHost, rcv: ReceiverHost, capacity: nat, tree: Tree, plan: SyncPlan, i: nat,
                     sr: SendReport, rr: ReceiveReport)
    requires i < |plan.entries| && plan.entries[i].action == Skip
    ensures Run(Session(snd, rcv, capacity), Between(snd, rcv, tree, plan, i, sr, rr), [Left, Right])
         == Some(Between(snd, rcv, tree, plan, i + 1, sr.(skipped := sr.skipped + 1), rr.(skipped := rr.skipped + 1)))
  {
    hide Run, Session;
    BothThink(snd, rcv, capacity, SenderAt(plan, i, sr), ReceiverState(Now(snd, rcv, tree, plan, i), ReceiverAt(plan, i, rr)));
  }

  /** The frames of entry i are known, fit, and are accepted with the sender's bytes. */
  lemma EntryFrames(snd: SenderHost, rcv: ReceiverHost, tree: Tree, plan: SyncPlan, i: nat) returns (frames: seq<Frame>)
    requires Turn(snd, rcv, tree, plan, i) && plan.entries[i].action != Skip
    requires !MissesBasis(snd, plan.blockSize, plan.entries, i)
    ensures var e := plan.entries[i].manifestEntry;
            var basis := Contents(Now(snd, rcv, tree, plan, i), e.path);
            && Transmit(snd, plan.entries[i], plan.blockSize) == Transmission(frames, None) && AllFit(frames)
            && e.path in snd.source
            && OnFrames(rcv.h, e, basis, frames) == Complete(snd.source[e.path], PayloadOf(frames))
            && forall n :: 0 <= n < |frames| ==> IsOpen(OnFrames(rcv.h, e, basis, frames[..n]))
  {
    hide OnFrames, Transmit, StreamFrames, EntryOps, Sendable, DeltaSound, CarriesFile, LosesBasis, HasCopy;
    var p := plan.entries[i];
    var now := Now(snd, rcv, tree, plan, i);
    if p.action == DeltaSync && !LosesBasis(plan.entries, i) {
      BasisIntact(rcv.platform, snd.source, tree, plan.entries, i, i);
    }
    EntryTransmission(snd, plan.blockSize, tree, p);
    frames := StreamFrames(p.manifestEntry, EntryOps(snd, plan.blockSize, p));
    EntryStreamAccepted(snd, plan.blockSize, tree, now, p);
    forall n | 0 <= n < |frames|
      ensures IsOpen(OnFrames(rcv.h, p.manifestEntry, Contents(now, p.manifestEntry.path), frames[..n]))
    {
      OpenBeforeEnd(rcv.h, p.manifestEntry, Contents(now, p.manifestEntry.path), frames, snd.source[p.manifestEntry.path], n);
    }
  }

  /** Both hosts start on an entry that is not skipped. */
  lemma TransferOpens(snd: SenderHost, rcv: ReceiverHost, capacity: nat, tree: Tree, plan: SyncPlan, i: nat,
                      frames: seq<Frame>, sr: SendReport, rr: ReceiveReport)
    requires i < |plan.entries| && plan.entries[i].action != Skip
    requires Transmit(snd, plan.entries[i], plan.blockSize) == Transmission(frames, None)
    ensures var now := Now(snd, rcv, tree, plan, i);
            Run(Session(snd, rcv, capacity), Between(snd, rcv, tree, plan, i, sr, rr), [Left, Right])
            == Some(At(SendingAt(plan, i, frames, 0, sr), ReadingAt(rcv, plan, i, frames, 0, now, rr)))
  {
    hide Run, Session, OnFrames, Transmit;
    StreamStart(rcv, plan, i, frames, Now(snd, rcv, tree, plan, i), sr, rr);
    BothThink(snd, rcv, capacity, SenderAt(plan, i, sr), ReceiverState(Now(snd, rcv, tree, plan, i), ReceiverAt(plan, i, rr)));
  }

  /** Nothing sent yet. */
  lemma StreamStart(rcv: ReceiverHost, plan: SyncPlan, i: nat, frames: seq<Frame>, now: Tree, sr: SendReport, rr: ReceiveReport)
    requires i < |plan.entries|
    ensures SendingAt(plan, i, frames, 0, sr) == Streaming(plan, i, frames, None, sr)
    ensures ReadingAt(rcv, plan, i, frames, 0, now, rr) == ReceiverState(now, ReceivingFile(plan, i, AwaitingBegin, rr))
  {
    hide OnFrame;
    assert frames[0..] == frames && frames[..0] == [];
    assert PayloadOf([]) == 0;
  }

  /** Everything sent. */
  lemma StreamFinish(rcv: ReceiverHost, plan: SyncPlan, i: nat, frames: seq<Frame>, now: Tree, sr: SendReport, rr: ReceiveReport)
    requires i < |plan.entries|
    ensures SendingAt(plan, i, frames, |frames|, sr) == Streaming(plan, i, [], None, sr.(payload := sr.payload + PayloadOf(frames)))
    ensures var e := plan.entries[i].manifestEntry;
            ReadingAt(rcv, plan, i, frames, |frames|, now, rr)
            == ReceiverState(now, ReceivingFile(plan, i, OnFrames(rcv.h, e, Contents(now, e.path), frames), rr))
  {
    hide OnFrames, PayloadOf;
    assert frames[|frames|..] == [] && frames[..|frames|] == frames;
  }

  /** The receiver has committed `data` for entry i and owes the acknowledgement. */
  function Owing(snd: SenderHost, rcv: ReceiverHost, tree: Tree, plan: SyncPlan, i: nat, sr: SendReport, rr: ReceiveReport): State
    requires i < |plan.entries|
  {
    At(AwaitFileAck(plan, i, sr), ReceiverState(Now(snd, rcv, tree, plan, i + 1), AckFile(plan, i, rr)))
  }

  lemma FileCommits(snd: SenderHost, rcv: ReceiverHost, capacity: nat, tree: Tree, plan: SyncPlan, i: nat,
                    frames: seq<Frame>, sr: SendReport, rr: ReceiveReport)
    requires i < |plan.entries| && plan.entries[i].action != Skip
    requires var e, now := plan.entries[i].manifestEntry, Now(snd, rcv, tree, plan, i);
             && e.path in snd.source
             && OnFrames(rcv.h, e, Contents(now, e.path), frames) == Complete(snd.source[e.path], PayloadOf(frames))
    ensures var now, payload := Now(snd, rcv, tree, plan, i), PayloadOf(frames);
            Run(Session(snd, rcv, capacity),
                At(SendingAt(plan, i, frames, |frames|, sr), ReadingAt(rcv, plan, i, frames, |frames|, now, rr)), [Left, Right])
            == Some(Owing(snd, rcv, tree, plan, i, sr.(payload := sr.payload + payload), rr.(payload := rr.payload + payload)))
  {
    hide Run, Session, OnFrames, PayloadOf, Trees.Committed, SendingAt, ReadingAt;
    var e, now := plan.entries[i].manifestEntry, Now(snd, rcv, tree, plan, i);
    StreamFinish(rcv, plan, i, frames, now, sr, rr);
    BothThink(snd, rcv, capacity, Streaming(plan, i, [], None, sr.(payload := sr.payload + PayloadOf(frames))),
              ReceiverState(now, ReceivingFile(plan, i, Complete(snd.source[e.path], PayloadOf(frames)), rr)));
  }

  lemma FileAcknowledged(snd: SenderHost, rcv: ReceiverHost, capacity: nat, tree: Tree, plan: SyncPlan, i: nat,
                         sr: SendReport, rr: ReceiveReport)
    requires capacity >= 1 && i < |plan.entries|
    ensures var action := plan.entries[i].action;
            Run(Session(snd, rcv, capacity), Owing(snd, rcv, tree, plan, i, sr, rr), [Right, Left])
            == Some(Between(snd, rcv, tree, plan, i + 1, CountSent(sr, action), CountWritten(rr, action)))
  {
    hide Run, Session, TreeAfter;
    PassDown(snd, rcv, capacity, AwaitFileAck(plan, i, sr),
             ReceiverState(Now(snd, rcv, tree, plan, i + 1), AckFile(plan, i, rr)), AckFrame([]));
  }

  lemma TransferredEntry(snd: SenderHost, rcv: ReceiverHost, capacity: nat, tree: Tree, plan: SyncPlan, i: nat,
                         sr: SendReport, rr: ReceiveReport)
    returns (moves: seq<Side>, payload: nat)
    requires capacity >= 1 && i < |plan.entries| && Turn(snd, rcv, tree, plan, i) && plan.entries[i].action != Skip
    requires !MissesBasis(snd, plan.blockSize, plan.entries, i)
    ensures var action := plan.entries[i].action;
            Run(Session(snd, rcv, capacity), Between(snd, rcv, tree, plan, i, sr, rr), moves)
            == Some(Between(snd, rcv, tree, plan, i + 1, CountSent(sr.(payload := sr.payload + payload), action),
                            CountWritten(rr.(payload := rr.payload + payload), action)))
  {
    hide Run, Session, OnFrames, OnFrame, Transmit, Turn, MissesBasis, SendingAt, ReadingAt, Between, Owing, PayloadOf,
         CountSent, CountWritten, TreeAfter;
    var sys, now := Session(snd, rcv, capacity), Now(snd, rcv, tree, plan, i);
    var frames := EntryFrames(snd, rcv, tree, plan, i);
    payload := PayloadOf(frames);
    var action := plan.entries[i].action;
    var c0 := Between(snd, rcv, tree, plan, i, sr, rr);
    var c1 := At(SendingAt(plan, i, frames, 0, sr), ReadingAt(rcv, plan, i, frames, 0, now, rr));
    var c2 := At(SendingAt(plan, i, frames, |frames|, sr), ReadingAt(rcv, plan, i, frames, |frames|, now, rr));
    var c3 := Between(snd, rcv, tree, plan, i + 1, CountSent(sr.(payload := sr.payload + payload), action),
                      CountWritten(rr.(payload := rr.payload + payload), action));
    TransferOpens(snd, rcv, capacity, tree, plan, i, frames, sr, rr);
    var pass := StreamPasses(snd, rcv, capacity, plan, i, frames, |frames|, now, sr, rr);
    var sent, written := sr.(payload := sr.payload + payload), rr.(payload := rr.payload + payload);
    FileCommits(snd, rcv, capacity, tree, plan, i, frames, sr, rr);
    FileAcknowledged(snd, rcv, capacity, tree, plan, i, sent, written);
    RunChain(sys, c0, [Left, Right], c1, pass, c2);
    moves := [Left, Right] + pass;
    RunChain(sys, c0, moves, c2, [Left, Right], Owing(snd, rcv, tree, plan, i, sent, written));
    moves := moves + [Left, Right];
    RunChain(sys, c0, moves, Owing(snd, rcv, tree, plan, i, sent, written), [Right, Left], c3);
    moves := moves + [Right, Left];
  }

  // ----- All entries, and the end -----

  lemma {:induction false} AllEntries(snd: SenderHost, rcv: ReceiverHost, capacity: nat, tree: Tree, plan: SyncPlan, n: nat,
                                      files: nat)
    returns (moves: seq<Side>, sr: SendReport, rr: ReceiveReport)
    requires capacity >= 1 && n <= |plan.entries|
    requires forall i :: 0 <= i < n ==> Turn(snd, rcv, tree, plan, i) && !MissesBasis(snd, plan.blockSize, plan.entries, i)
    ensures ReportsAgree(plan.entries, n, files, sr, rr)
    ensures Run(Session(snd, rcv, capacity), Between(snd, rcv, tree, plan, 0, NoSends(files), NoReceipts(files)), moves)
         == Some(Between(snd, rcv, tree, plan, n, sr, rr))
  {
    hide Session, Turn, MissesBasis, Between;
    moves, sr, rr := [], NoSends(files), NoReceipts(files);
    if n > 0 {
      var sys := Session(snd, rcv, capacity);
      var c0 := Between(snd, rcv, tree, plan, 0, sr, rr);
      var i := n - 1;
      var front, sr0, rr0 := AllEntries(snd, rcv, capacity, tree, plan, i, files);
      var c1 := Between(snd, rcv, tree, plan, i, sr0, rr0);
      assert Turn(snd, rcv, tree, plan, i);
      if plan.entries[i].action == Skip {
        SkippedEntry(snd, rcv, capacity, tree, plan, i, sr0, rr0);
        sr, rr := sr0.(skipped := sr0.skipped + 1), rr0.(skipped := rr0.skipped + 1);
        RunChain(sys, c0, front, c1, [Left, Right], Between(snd, rcv, tree, plan, n, sr, rr));
        moves := front + [Left, Right];
      } else {
        var pass, payload := TransferredEntry(snd, rcv, capacity, tree, plan, i, sr0, rr0);
        sr := CountSent(sr0.(payload := sr0.payload + payload), plan.entries[i].action);
        rr := CountWritten(rr0.(payload := rr0.payload + payload), plan.entries[i].action);
        RunChain(sys, c0, front, c1, pass, Between(snd, rcv, tree, plan, n, sr, rr));
        moves := front + pass;
      }
    }
  }

  lemma Closing(snd: SenderHost, rcv: ReceiverHost, capacity: nat, tree: Tree, plan: SyncPlan, sr: SendReport, rr: ReceiveReport)
    returns (moves: seq<Side>)
    requires capacity >= 1
    ensures var n := |plan.entries|;
            Run(Session(snd, rcv, capacity), Between(snd, rcv, tree, plan, n, sr, rr), moves)
            == Some(At(SenderDone(sr), ReceiverState(Now(snd, rcv, tree, plan, n), ReceiverDone(rr))))
  {
    hide Run, Session;
    var n := |plan.entries|;
    var r := ReceiverState(Now(snd, rcv, tree, plan, n), ReceiverAt(plan, n, rr));
    BothThink(snd, rcv, capacity, SenderAt(plan, n, sr), r);
    PassUp(snd, rcv, capacity, SayDone(sr), r.(at := AwaitDone(rr)), AckFrame(SYNC_DONE));
    RunChain(Session(snd, rcv, capacity), At(SenderAt(plan, n, sr), r), [Left, Right], At(SayDone(sr), r.(at := AwaitDone(rr))),
             [Left, Right], At(SenderDone(sr), r.(at := ReceiverDone(rr))));
    moves := [Left, Right] + [Left, Right];
  }

  lemma PlanIsTurns(snd: SenderHost, rcv: ReceiverHost, tree: Tree)
    requires Ready(snd, rcv, tree)
    ensures var plan := PlanOf(rcv, tree, snd.manifest).value;
            && |plan.entries| == |snd.manifest.files|
            && forall i :: 0 <= i < |plan.entries| ==> Turn(snd, rcv, tree, plan, i)
  {
    hide Sendable, DeltaSound, EncodablePlan, EncodableManifest, PlanBytes, ManifestBytes, ChooseAction;
    var plan := PlanOf(rcv, tree, snd.manifest).value;
    forall i | 0 <= i < |plan.entries| ensures PathOf(plan.entries[i]) in snd.source {
      assert EntryReady(snd, plan.blockSize, tree, plan.entries[i]);
    }
  }

  /** One schedule that succeeds. */
  lemma SomeScheduleSucceeds(snd: SenderHost, rcv: ReceiverHost, capacity: nat, tree: Tree)
    returns (moves: seq<Side>, sr: SendReport, rr: ReceiveReport)
    requires capacity >= 1 && Ready(snd, rcv, tree) && PlanOf(rcv, tree, snd.manifest).Ok?
    requires BasesServe(snd, PlanOf(rcv, tree, snd.manifest).value)
    ensures var plan := PlanOf(rcv, tree, snd.manifest).value;
            var n := |plan.entries|;
            && n == |snd.manifest.files|
            && ReportsAgree(plan.entries, n, n, sr, rr)
            && Run(Session(snd, rcv, capacity), Start(tree), moves)
               == Some(At(SenderDone(sr), ReceiverState(Now(snd, rcv, tree, plan, n), ReceiverDone(rr))))
  {
    hide Run, Session, EntryReady, ReportsAgree, Turn, PlanOf, MissesBasis;
    var sys := Session(snd, rcv, capacity);
    var plan := PlanOf(rcv, tree, snd.manifest).value;
    PlanIsTurns(snd, rcv, tree);
    var n := |plan.entries|;
    var greeting := Greeting(snd, rcv, capacity, tree);
    var planning := Planning(snd, rcv, capacity, tree);
    var c0 := At(AwaitPlan, ReceiverState(tree, SendPlan(snd.manifest)));
    var c1 := Between(snd, rcv, tree, plan, 0, NoSends(n), NoReceipts(n));
    var body;
    body, sr, rr := AllEntries(snd, rcv, capacity, tree, plan, n, n);
    var c2 := Between(snd, rcv, tree, plan, n, sr, rr);
    var closing := Closing(snd, rcv, capacity, tree, plan, sr, rr);
    RunChain(sys, Start(tree), greeting, c0, planning, c1);
    RunChain(sys, Start(tree), greeting + planning, c1, body, c2);
    moves := greeting + planning + body;
    RunChain(sys, Start(tree), moves, c2, closing,
             At(SenderDone(sr), ReceiverState(Now(snd, rcv, tree, plan, n), ReceiverDone(rr))));
    moves := moves + closing;
  }

  /**
   Every schedule: whatever both hosts have done so far, in whatever order and with whatever channel capacity, they
   can go on to success on both sides, and a run that cannot go on has ended there, with the directory as it should be
   and reports that agree.
   */
  lemma EveryScheduleSucceeds(snd: SenderHost, rcv: ReceiverHost, capacity: nat, tree: Tree, schedule: seq<Side>)
    returns (rest: seq<Side>, sr: SendReport, rr: ReceiveReport)
    requires capacity >= 1 && Ready(snd, rcv, tree) && PlanOf(rcv, tree, snd.manifest).Ok?
    requires BasesServe(snd, PlanOf(rcv, tree, snd.manifest).value)
    requires Run(Session(snd, rcv, capacity), Start(tree), schedule).Some?
    ensures var sys := Session(snd, rcv, capacity);
            var plan := PlanOf(rcv, tree, snd.manifest).value;
            var n := |plan.entries|;
            var end := At(SenderDone(sr), ReceiverState(Now(snd, rcv, tree, plan, n), ReceiverDone(rr)));
            var here := Run(sys, Start(tree), schedule).value;
            && n == |snd.manifest.files|
            && ReportsAgree(plan.entries, n, n, sr, rr)
            && Run(sys, here, rest) == Some(end)
            && (Quiet(sys, here) ==> here == end)
  {
    hide ReportsAgree, PlanOf, Ready, BasesServe;
    var moves;
    moves, sr, rr := SomeScheduleSucceeds(snd, rcv, capacity, tree);
    var sys := Session(snd, rcv, capacity);
    rest := AnySchedule(sys, Start(tree), moves, Run(sys, Start(tree), moves).value, schedule);
    assert Quiet(sys, Run(sys, Start(tree), schedule).value) ==> rest == [];
  }
}
