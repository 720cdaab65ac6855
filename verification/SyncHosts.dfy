/**
 The two functions that run a directory synchronisation (src/transfer/sync_session.cpp), as they loop over frames, plan
 entries and files. Each is shown to go exactly through the moves of its step machine; `SyncRuns` carries what
 is proved of sessions of the two machines over to them.
 */
module SyncHosts {
  import opened Base
  import opened FileIO
  import opened Frames
  import opened Network
  import opened BlockSignatures
  import opened Delta
  import opened SyncCodec
  import opened Trees
  import opened SyncPlanning
  import opened FileStreams
  import opened FileSending
  import opened FileReceiving
  import opened SyncSession
  import opened SyncSafety

  // ----- One move at a time -----

  /** A host has come to state s, with what the connection still holds to read and what has been written since. */
  ghost predicate Follows<S>(m: Machine<S>, start: Move<S>, conn: Connection, base: seq<Frame>, s: S)
    reads conn
  {
    base <= conn.sent && Leads(m, start, Move(s, conn.incoming, conn.sent[|base|..]))
  }

  lemma Begins<S>(m: Machine<S>, conn: Connection, s: S)
    ensures Follows(m, Move(s, conn.incoming, []), conn, conn.sent, s)
  {
    LeadsNowhere(m, Move(s, conn.incoming, []));
  }

  lemma Thinks<S>(m: Machine<S>, start: Move<S>, conn: Connection, base: seq<Frame>, s: S)
    requires Follows(m, start, conn, base, s) && m.act(s).Think?
    ensures Follows(m, start, conn, base, m.next(s))
  {
    hide Leads;
    var here := Move(s, conn.incoming, conn.sent[|base|..]);
    OneMove(m, here, here.(state := m.next(s)));
    LeadsOn(m, start, here, here.(state := m.next(s)));
  }

  /** Reads a frame where the machine awaits one. */
  method Hear<S>(ghost m: Machine<S>, ghost start: Move<S>, conn: Connection, ghost base: seq<Frame>, ghost s: S)
    returns (r: Result<Frame>)
    requires Follows(m, start, conn, base, s) && m.act(s).Await?
    modifies conn`incoming
    ensures r.Ok? ==> old(conn.incoming) == [r.value] + conn.incoming
    ensures r.Ok? ==> Follows(m, start, conn, base, m.got(s, Some(r.value)))
    ensures r.Err? && !conn.faulty ==> r.error == NetworkError && Follows(m, start, conn, base, m.got(s, None))
  {
    hide Leads;
    ghost var here := Move(s, conn.incoming, conn.sent[|base|..]);
    r := conn.Read();
    if r.Ok? {
      assert here.inbox[1..] == conn.incoming;
      OneMove(m, here, Move(m.got(s, Some(r.value)), conn.incoming, here.outbox));
      LeadsOn(m, start, here, Move(m.got(s, Some(r.value)), conn.incoming, here.outbox));
    } else if !conn.faulty {
      OneMove(m, here, Move(m.got(s, None), conn.incoming, here.outbox));
      LeadsOn(m, start, here, Move(m.got(s, None), conn.incoming, here.outbox));
    }
  }

  /** Writes a frame where the machine does; one that is too large only moves the machine on. */
  method Say<S>(ghost m: Machine<S>, ghost start: Move<S>, conn: Connection, ghost base: seq<Frame>, ghost s: S, f: Frame)
    returns (r: Result<bool>)
    requires Follows(m, start, conn, base, s) && m.act(s) == WriteAct(f)
    modifies conn`sent
    ensures r.Ok? ==> Fits(f) && Follows(m, start, conn, base, m.next(s))
    ensures r.Err? && !conn.faulty ==> !Fits(f) && r.error == ProtocolError && Follows(m, start, conn, base, m.next(s))
  {
    hide Leads;
    ghost var before := conn.sent;
    if !Fits(f) {
      Thinks(m, start, conn, base, s);
    }
    r := conn.Write(f);
    if r.Ok? {
      Wrote(m, start, conn, base, before, s, f);
    }
  }

  /** A frame that fits has been written where the machine writes it. */
  lemma Wrote<S>(m: Machine<S>, start: Move<S>, conn: Connection, base: seq<Frame>, before: seq<Frame>, s: S, f: Frame)
    requires base <= before && Leads(m, start, Move(s, conn.incoming, before[|base|..])) && m.act(s) == Emit(f)
    requires conn.sent == before + [f]
    ensures Follows(m, start, conn, base, m.next(s))
  {
    hide Leads;
    var here := Move(s, conn.incoming, before[|base|..]);
    assert conn.sent[|base|..] == here.outbox + [f];
    OneMove(m, here, Move(m.next(s), conn.incoming, here.outbox + [f]));
    LeadsOn(m, start, here, Move(m.next(s), conn.incoming, here.outbox + [f]));
  }

  // ----- The receiver -----

  /** The machine of the receiver has come to `at` with the directory as it is. */
  ghost predicate ReceiverIs(host: ReceiverHost, start: Move<ReceiverState>, conn: Connection, base: seq<Frame>, disk: Disk,
                             at: Receiver)
    reads conn, disk
  {
    Follows(ReceiverMachine(host), start, conn, base, ReceiverState(disk.files, at))
  }

  /** Tells the sender that it failed, and fails. */
  method FailReceiver(ghost host: ReceiverHost, conn: Connection, disk: Disk, ghost start: Move<ReceiverState>,
                      ghost base: seq<Frame>, ghost error: ErrorCode)
    requires !conn.faulty && !disk.faulty ==> ReceiverIs(host, start, conn, base, disk, Complain(error))
    modifies conn`sent
    ensures !conn.faulty && !disk.faulty ==> ReceiverIs(host, start, conn, base, disk, ReceiverFailed(error))
  {
    hide Leads;
    var f := Message(ErrorMessage, []);
    ghost var before := conn.sent;
    var told := conn.Write(f);
    if told.Ok? && !conn.faulty && !disk.faulty {
      Wrote(ReceiverMachine(host), start, conn, base, before, ReceiverState(disk.files, Complain(error)), f);
    }
  }

  /** Waits for an acknowledgement where the machine does. */
  method WaitForAck<S>(ghost m: Machine<S>, ghost start: Move<S>, conn: Connection, ghost base: seq<Frame>, ghost s: S)
    returns (r: Result<bool>, ghost f: Option<Frame>)
    requires Follows(m, start, conn, base, s) && m.act(s).Await?
    modifies conn`incoming
    ensures r.Ok? ==> IsAck(f)
    ensures r.Err? && !conn.faulty ==> !IsAck(f)
    ensures r.Ok? || !conn.faulty ==> Follows(m, start, conn, base, m.got(s, f))
  {
    hide Follows;
    var frame := Hear(m, start, conn, base, s);
    if frame.Err? {
      return Err(frame.error), None;
    }
    f := Some(frame.value);
    if frame.value.kind == Ack {
      return Ok(true), f;
    }
    r := Err(ProtocolError);
  }

  /** Takes and acknowledges the manifest. */
  method TakeManifest(host: ReceiverHost, conn: Connection, disk: Disk, ghost start: Move<ReceiverState>, ghost base: seq<Frame>)
    returns (r: Result<Manifest>, ghost error: ErrorCode)
    requires ReceiverIs(host, start, conn, base, disk, AwaitManifest)
    modifies conn
    ensures forall f :: r.Ok? ==> Offered([f] + old(conn.incoming)) == Some(r.value)
    ensures r.Ok? ==> ReceiverIs(host, start, conn, base, disk, SendPlan(r.value))
    ensures r.Err? && !conn.faulty && !disk.faulty ==> ReceiverIs(host, start, conn, base, disk, Complain(error))
  {
    hide Follows, ParseManifest, AckFrame, Offered;
    ghost var m := ReceiverMachine(host);
    error := NetworkError;
    var frame := Hear(m, start, conn, base, ReceiverState(disk.files, AwaitManifest));
    if frame.Err? {
      return Err(frame.error), error;
    }
    error := ProtocolError;
    if frame.value.kind != ManifestMessage {
      return Err(ProtocolError), error;
    }
    r := DecodeManifest(frame.value.body);
    if r.Err? {
      return r, r.error;
    }
    SecondIsOffered(frame.value, conn.incoming);
    var dirFails := disk.Fails();
    if dirFails {
      return Err(IoError), error;
    }
    AckAlwaysFits();
    var acked := Say(m, start, conn, base, ReceiverState(disk.files, AckManifest(r.value)), AckFrame([]));
    if acked.Err? {
      return Err(acked.error), error;
    }
  }

  /** Takes the manifest, plans, and sends the plan; `same` is the host with the bases cut as the planner's reads cut them. */
  method ReceiveManifestAndSendPlan(host: ReceiverHost, conn: Connection, disk: Disk, ghost start: Move<ReceiverState>,
                                    ghost base: seq<Frame>)
    returns (r: Result<(SyncPlan, nat)>, ghost error: ErrorCode, ghost same: ReceiverHost, ghost m: Manifest)
    requires disk.platform == host.platform && start.state.at == AwaitHello
    requires forall p :: p in disk.files ==> |disk.files[p].bytes| < U63_LIMIT
    requires ReceiverIs(host, start, conn, base, disk, AwaitManifest)
    modifies conn
    ensures same == host.(cut := same.cut)
    ensures forall f :: r.Ok? ==> Offered([f] + old(conn.incoming)) == Some(m) && PlanFollows(m, r.value.0)
    ensures r.Ok? ==>
              ReceiverIs(same, start, conn, base, disk, ReceiverAt(r.value.0, 0, NoReceipts(r.value.1)))
    ensures r.Err? && !conn.faulty && !disk.faulty ==> ReceiverIs(same, start, conn, base, disk, Complain(error))
  {
    hide Follows, PlanOf, PlanBytes, AckFrame, Plans, IsSafePath, Offered, PlanFollows;
    ghost var machine, tree := ReceiverMachine(host), disk.files;
    same, m := host, Manifest([], []);
    var manifest;
    manifest, error := TakeManifest(host, conn, disk, start, base);
    if manifest.Err? {
      return Err(manifest.error), error, host, m;
    }
    m := manifest.value;
    error := ProtocolError;
    ghost var s := ReceiverState(tree, SendPlan(m));
    var plan := BuildSyncPlan(host.h, disk, manifest.value, host.blockSize);
    if plan.Err? {
      if !disk.faulty {
        RefusedPlan(host, tree, m);
        Thinks(machine, start, conn, base, s);
      }
      return Err(plan.error), InvalidArgument, host, m;
    }
    same := PlannerIsMachine(host, tree, m, plan.value);
    PlanKeepsEntries(same, tree, m);
    machine := ReceiverMachine(same);
    PlanningHost(host, same, start, conn, base, s);
    var written := Say(machine, start, conn, base, s, PlanFrame(plan.value));
    if written.Err? {
      return Err(written.error), error, same, m;
    }
    s := ReceiverState(tree, AwaitPlanAck(plan.value, |m.files|));
    var acked, f := WaitForAck(machine, start, conn, base, s);
    if acked.Err? {
      return Err(acked.error), NoFrameError(f), same, m;
    }
    r := Ok((plan.value, |manifest.value.files|));
  }

  /** Where the planner refuses the machine does. */
  lemma RefusedPlan(host: ReceiverHost, tree: Tree, m: Manifest)
    requires !(host.blockSize > 0 && forall i :: 0 <= i < |m.files| ==> IsSafePath(m.files[i].path))
    ensures PlanOf(host, tree, m) == Err(InvalidArgument)
  {
    hide IsSafePath;
  }

  lemma AckAlwaysFits()
    ensures Fits(AckFrame([])) && Fits(AckFrame(SYNC_DONE))
  {
  }

  /** The machine reads a whole stream while it stays open. */
  lemma {:induction false} ReadsStream(host: ReceiverHost, plan: SyncPlan, i: nat, tree: Tree, report: ReceiveReport,
                                       frames: seq<Frame>, rest: seq<Frame>, outbox: seq<Frame>)
    requires i < |plan.entries|
    requires var e := plan.entries[i].manifestEntry; InTime(host.h, e, Contents(tree, e.path), frames)
    ensures var e := plan.entries[i].manifestEntry;
            var st := OnFrames(host.h, e, Contents(tree, e.path), frames);
            Leads(ReceiverMachine(host),
                  Move(ReceiverState(tree, ReceivingFile(plan, i, AwaitingBegin, report)), frames + rest, outbox),
                  Move(ReceiverState(tree, ReceivingFile(plan, i, st, report)), rest, outbox))
    decreases |frames|
  {
    hide OnFrames, OnFrame, Leads;
    var e, m := plan.entries[i].manifestEntry, ReceiverMachine(host);
    var from := Move(ReceiverState(tree, ReceivingFile(plan, i, AwaitingBegin, report)), frames + rest, outbox);
    if frames == [] {
      NoFrames(host.h, e, Contents(tree, e.path));
      assert frames + rest == rest;
      LeadsNowhere(m, from);
    } else {
      var front, f := frames[..|frames| - 1], frames[|frames| - 1];
      assert frames == front + [f];
      OpenInTime(host.h, e, Contents(tree, e.path), front);
      ReadsStream(host, plan, i, tree, report, front, [f] + rest, outbox);
      assert front + ([f] + rest) == frames + rest;
      OnFramesStep(host.h, e, Contents(tree, e.path), front, f);
      var st := OnFrames(host.h, e, Contents(tree, e.path), front);
      var via := Move(ReceiverState(tree, ReceivingFile(plan, i, st, report)), [f] + rest, outbox);
      var next := OnFrame(host.h, e, Contents(tree, e.path), st, f);
      var to := Move(ReceiverState(tree, ReceivingFile(plan, i, next, report)), rest, outbox);
      assert ([f] + rest)[1..] == rest;
      OneMove(m, via, to);
      LeadsOn(m, from, via, to);
    }
  }

  /** Receives and commits one file, where the machine does. */
  method ReceiveFile(h: Digest, ghost host: ReceiverHost, conn: Connection, disk: Disk, plan: SyncPlan, i: nat,
                     ghost report: ReceiveReport, ghost start: Move<ReceiverState>, ghost base: seq<Frame>)
    returns (r: Result<nat>, ghost error: ErrorCode)
    requires i < |plan.entries| && disk.platform == host.platform && h == host.h
    requires ReceiverIs(host, start, conn, base, disk, ReceivingFile(plan, i, AwaitingBegin, report))
    modifies conn`incoming, disk`files
    ensures FileStep(h, plan.entries[i].manifestEntry, old(disk.files), disk.files)
    ensures r.Ok? ==> ReceiverIs(host, start, conn, base, disk, AckFile(plan, i, report.(payload := report.payload + r.value)))
    ensures r.Err? && !conn.faulty && !disk.faulty ==> ReceiverIs(host, start, conn, base, disk, Complain(error))
  {
    hide OnFrames, OnFrame, Leads, InTime, Trees.Committed, PartPath;
    var e := plan.entries[i].manifestEntry;
    ghost var m, tree, outbox := ReceiverMachine(host), disk.files, conn.sent[|base|..];
    ghost var before := conn.incoming;
    var committed;
    ghost var frames;
    r, committed, frames := ApplyDeltaStreamToTarget(h, conn, disk, e);
    AcceptedIsIntact(h, e, Contents(tree, e.path), frames);
    error := NetworkError;
    if r.Ok? || (!conn.faulty && !disk.faulty) {
      ReadsStream(host, plan, i, tree, report, frames, conn.incoming, outbox);
      ghost var st := OnFrames(host.h, e, Contents(tree, e.path), frames);
      ghost var s := ReceiverState(tree, ReceivingFile(plan, i, st, report));
      assert base <= conn.sent;
      LeadsOn(m, start, Move(ReceiverState(tree, ReceivingFile(plan, i, AwaitingBegin, report)), before, outbox),
              Move(s, conn.incoming, outbox));
      assert Follows(m, start, conn, base, s);
      if st.Complete? || st.Refused? {
        Thinks(m, start, conn, base, s);
        error := if st.Refused? then st.error else NetworkError;
      } else {
        HearsNothing(m, start, conn, base, s);
      }
    }
  }

  lemma HearsNothing<S>(m: Machine<S>, start: Move<S>, conn: Connection, base: seq<Frame>, s: S)
    requires Follows(m, start, conn, base, s) && m.act(s).Await? && conn.incoming == []
    ensures Follows(m, start, conn, base, m.got(s, None))
  {
    hide Leads;
    var here := Move(s, conn.incoming, conn.sent[|base|..]);
    OneMove(m, here, here.(state := m.got(s, None)));
    LeadsOn(m, start, here, here.(state := m.got(s, None)));
  }

  /**
   The receiving host. On success, and on every failure that is not one of its own connection or disk, it has made
   exactly the moves of its machine from the frames it was given, and the directory is the machine's. How its reads cut
   the files it signed is settled by the run. Whatever arrives and whatever fails, nothing changes without a manifest, and
   with one the directory only gains complete files that it promises and loses part files of its paths.
   */
  method SyncReceiver(host: ReceiverHost, conn: Connection, disk: Disk)
    returns (r: Result<ReceiveReport>, ghost error: ErrorCode, ghost same: ReceiverHost)
    requires disk.platform == host.platform
    requires forall p :: p in disk.files ==> |disk.files[p].bytes| < U63_LIMIT
    modifies conn, disk`files
    ensures match Offered(old(conn.incoming))
            case None => disk.files == old(disk.files)
            case Some(m) => KeptSafe(host.h, m, old(disk.files), disk.files)
    ensures same == host.(cut := same.cut)
    ensures var start := Move(ReceiverState(old(disk.files), AwaitHello), old(conn.incoming), []);
            && (r.Ok? ==> ReceiverIs(same, start, conn, old(conn.sent), disk, ReceiverDone(r.value)))
            && (r.Err? && !conn.faulty && !disk.faulty ==>
                  ReceiverIs(same, start, conn, old(conn.sent), disk, ReceiverFailed(error)))
  {
    hide Follows, AckFrame, KeptSafe, Offered, PlanFollows;
    ghost var m, base := ReceiverMachine(host), conn.sent;
    ghost var start := Move(ReceiverState(disk.files, AwaitHello), conn.incoming, []);
    if Offered(conn.incoming).Some? {
      Untouched(host.h, Offered(conn.incoming).value, disk.files);
    }
    Begins(m, conn, ReceiverState(disk.files, AwaitHello));
    error, same := NetworkError, host;
    var hello := Hear(m, start, conn, base, ReceiverState(disk.files, AwaitHello));
    if hello.Err? {
      return Err(hello.error), NetworkError, host;
    }
    if hello.value.kind != Hello || !host.isSyncHello(hello.value.body) {
      FailReceiver(host, conn, disk, start, base, ProtocolError);
      return Err(ProtocolError), ProtocolError, host;
    }
    var planned;
    ghost var manifest;
    assert old(conn.incoming) == [hello.value] + conn.incoming;
    planned, error, same, manifest := ReceiveManifestAndSendPlan(host, conn, disk, start, base);
    if planned.Err? {
      FailReceiver(same, conn, disk, start, base, error);
      return Err(planned.error), error, same;
    }
    var (plan, manifestFiles) := planned.value;
    r, error := ReceiveFiles(host.h, same, conn, disk, plan, manifestFiles, manifest, start, base);
  }

  /** The entries one by one, and the end. */
  method ReceiveFiles(h: Digest, ghost host: ReceiverHost, conn: Connection, disk: Disk, plan: SyncPlan, manifestFiles: nat,
                      ghost m: Manifest, ghost start: Move<ReceiverState>, ghost base: seq<Frame>)
    returns (r: Result<ReceiveReport>, ghost error: ErrorCode)
    requires disk.platform == host.platform && h == host.h && PlanFollows(m, plan)
    requires ReceiverIs(host, start, conn, base, disk, ReceiverAt(plan, 0, NoReceipts(manifestFiles)))
    modifies conn, disk`files
    ensures KeptSafe(h, m, old(disk.files), disk.files)
    ensures r.Ok? ==> ReceiverIs(host, start, conn, base, disk, ReceiverDone(r.value))
    ensures r.Err? && !conn.faulty && !disk.faulty ==> ReceiverIs(host, start, conn, base, disk, ReceiverFailed(error))
  {
    hide Follows, AckFrame, KeptSafe, FileStep, PlanFollows;
    ghost var machine := ReceiverMachine(host);
    error := NetworkError;
    var report := NoReceipts(manifestFiles);
    Untouched(h, m, disk.files);
    for i := 0 to |plan.entries|
      invariant KeptSafe(h, m, old(disk.files), disk.files)
      invariant ReceiverIs(host, start, conn, base, disk, ReceiverAt(plan, i, report))
    {
      Thinks(machine, start, conn, base, ReceiverState(disk.files, ReceiverAt(plan, i, report)));
      if plan.entries[i].action == Skip {
        report := report.(skipped := report.skipped + 1);
        continue;
      }
      ghost var before := disk.files;
      var applied, wrong := ReceiveFile(h, host, conn, disk, plan, i, report, start, base);
      FollowedEntry(m, plan, i);
      FileStepKeeps(h, m, i, old(disk.files), before, disk.files);
      if applied.Err? {
        FailReceiver(host, conn, disk, start, base, wrong);
        return Err(applied.error), wrong;
      }
      report := report.(payload := report.payload + applied.value);
      AckAlwaysFits();
      var acked := Say(machine, start, conn, base, ReceiverState(disk.files, AckFile(plan, i, report)), AckFrame([]));
      if acked.Err? {
        return Err(acked.error), NetworkError;
      }
      report := CountWritten(report, plan.entries[i].action);
    }
    Thinks(machine, start, conn, base, ReceiverState(disk.files, ReceiverAt(plan, |plan.entries|, report)));
    var done := Hear(machine, start, conn, base, ReceiverState(disk.files, AwaitDone(report)));
    if done.Err? {
      return Err(done.error), NetworkError;
    }
    if done.value.kind != Ack || done.value.body != SYNC_DONE {
      FailReceiver(host, conn, disk, start, base, ProtocolError);
      return Err(ProtocolError), ProtocolError;
    }
    r := Ok(report);
  }

  lemma Untouched(h: Digest, m: Manifest, files: Tree)
    ensures KeptSafe(h, m, files, files)
  {
    hide Promised, IsPartFile;
  }

  // ----- The plan -----

  /** Whatever plan the planner builds, however reads cut the bases, is the plan of the machine that cuts them so. */
  lemma PlannerIsMachine(host: ReceiverHost, tree: Tree, m: Manifest, plan: SyncPlan) returns (same: ReceiverHost)
    requires Plans(host.h, host.platform, tree, host.blockSize, m, plan) && host.blockSize > 0
    requires forall i :: 0 <= i < |m.files| ==> IsSafePath(m.files[i].path)
    ensures PlanOf(same, tree, m) == Ok(plan) && same == host.(cut := same.cut)
  {
    hide IsSafePath, Signs, ChooseAction;
    same := host.(cut := (i: nat) => if i < |plan.entries| then plan.entries[i].basis else []);
    forall i | 0 <= i < |m.files| ensures PlanEntryFor(same, tree, i, m.files[i]) == plan.entries[i] {
      assert PlansEntry(host.h, host.platform, tree, host.blockSize, m.files[i], plan.entries[i]);
    }
    assert PlanEntriesFor(same, tree, m.files) == plan.entries;
  }

  /** Until it sends its plan a receiver's moves do not depend on how it cuts bases. */
  predicate IsEarly(at: Receiver) {
    at.AwaitHello? || at.AwaitManifest? || at.AckManifest? || at.SendPlan?
  }

  /** Whatever leads to an early state comes from one, the same way for every cut. */
  lemma EarlyState(host: ReceiverHost, same: ReceiverHost, r: ReceiverState)
    requires same == host.(cut := same.cut)
    ensures IsEarly(ReceiverNext(host, r).at) ==> IsEarly(r.at) && !r.at.SendPlan? && ReceiverNext(same, r) == ReceiverNext(host, r)
    ensures forall f :: IsEarly(ReceiverGot(host, r, f).at) && !r.at.SendPlan? ==>
                          IsEarly(r.at) && ReceiverGot(same, r, f) == ReceiverGot(host, r, f)
    ensures IsEarly(r.at) && !r.at.SendPlan? ==> ReceiverAct(same, r) == ReceiverAct(host, r)
    ensures r.at.SendPlan? ==> !ReceiverAct(host, r).Await? && !ReceiverAct(host, r).Halt?
  {
    hide PlanOf, ParseManifest, OnFrame, Trees.Committed, PartPath, PlanFrame, Fits, AckFrame;
  }

  lemma EarlyMove(host: ReceiverHost, same: ReceiverHost, from: Move<ReceiverState>)
    requires same == host.(cut := same.cut)
    requires var to := Advance(ReceiverMachine(host), from.state, from.inbox, from.outbox, |from.outbox| + 1, true);
             to.Some? && IsEarly(to.value.state.at)
    ensures IsEarly(from.state.at)
    ensures Advance(ReceiverMachine(same), from.state, from.inbox, from.outbox, |from.outbox| + 1, true)
         == Advance(ReceiverMachine(host), from.state, from.inbox, from.outbox, |from.outbox| + 1, true)
  {
    hide ReceiverNext, ReceiverGot, ReceiverAct;
    EarlyState(host, same, from.state);
  }

  lemma HaltedIsLate(host: ReceiverHost, r: ReceiverState)
    ensures IsEarly(r.at) ==> !ReceiverAct(host, r).Halt?
  {
    hide PlanOf, PlanFrame, Fits, AckFrame;
  }

  lemma {:induction false} EarlyMovesAgree(host: ReceiverHost, same: ReceiverHost, start: Move<ReceiverState>, n: nat)
    requires same == host.(cut := same.cut) && IsEarly(Alone(ReceiverMachine(host), start, n).state.at)
    ensures Alone(ReceiverMachine(same), start, n) == Alone(ReceiverMachine(host), start, n)
  {
    hide ReceiverNext, ReceiverGot, ReceiverAct;
    if n > 0 {
      var before := Alone(ReceiverMachine(host), start, n - 1);
      HaltedIsLate(host, before.state);
      if Advance(ReceiverMachine(host), before.state, before.inbox, before.outbox, |before.outbox| + 1, true).Some? {
        EarlyMove(host, same, before);
      }
      EarlyMovesAgree(host, same, start, n - 1);
    }
  }

  lemma PlanningHost(host: ReceiverHost, same: ReceiverHost, start: Move<ReceiverState>, conn: Connection, base: seq<Frame>,
                     s: ReceiverState)
    requires same == host.(cut := same.cut) && IsEarly(s.at)
    requires Follows(ReceiverMachine(host), start, conn, base, s)
    ensures Follows(ReceiverMachine(same), start, conn, base, s)
  {
    hide Alone;
    var to := Move(s, conn.incoming, conn.sent[|base|..]);
    var n: nat :| Alone(ReceiverMachine(host), start, n) == to;
    EarlyMovesAgree(host, same, start, n);
  }

  // ----- The sender -----

  /** Greets, offers the manifest, and takes the plan. */
  method SendManifestAndReceivePlan(host: SenderHost, conn: Connection, ghost start: Move<Sender>, ghost base: seq<Frame>)
    returns (r: Result<SyncPlan>, ghost error: ErrorCode)
    requires Follows(SenderMachine(host), start, conn, base, SayHello)
    modifies conn
    ensures r.Ok? ==> Follows(SenderMachine(host), start, conn, base,
                              SenderAt(r.value, 0, NoSends(|host.manifest.files|)))
    ensures r.Err? && !conn.faulty ==> Follows(SenderMachine(host), start, conn, base, SenderFailed(error))
  {
    hide Follows, ParsePlan, ManifestBytes, AckFrame, Fits;
    ghost var m := SenderMachine(host);
    error := ProtocolError;
    var greeted := Say(m, start, conn, base, SayHello, Message(Hello, host.hello));
    if greeted.Err? {
      return Err(greeted.error), error;
    }
    var offered := Say(m, start, conn, base, SendManifest, ManifestFrame(host.manifest));
    if offered.Err? {
      return Err(offered.error), error;
    }
    var acked, f := WaitForAck(m, start, conn, base, AwaitManifestAck);
    if acked.Err? {
      return Err(acked.error), NoFrameError(f);
    }
    var frame := Hear(m, start, conn, base, AwaitPlan);
    if frame.Err? {
      return Err(frame.error), NetworkError;
    }
    if frame.value.kind != PlanMessage {
      return Err(ProtocolError), error;
    }
    var plan := DecodeSyncPlan(frame.value.body);
    if plan.Err? {
      return Err(plan.error), plan.error;
    }
    AckAlwaysFits();
    acked := Say(m, start, conn, base, AckPlan(plan.value), AckFrame([]));
    if acked.Err? {
      return Err(acked.error), error;
    }
    r := Ok(plan.value);
  }

  function Sending(plan: SyncPlan, i: nat, t: Transmission, report: SendReport): Sender {
    Streaming(plan, i, t.frames, t.failure, report)
  }

  /** The machine writes frames that fit, one by one. */
  lemma {:induction false} WritesStream(host: SenderHost, plan: SyncPlan, i: nat, frames: seq<Frame>, rest: seq<Frame>,
                                        failure: Option<ErrorCode>, report: SendReport, inbox: seq<Frame>, outbox: seq<Frame>)
    requires AllFit(frames)
    ensures Leads(SenderMachine(host),
                  Move(Streaming(plan, i, frames + rest, failure, report), inbox, outbox),
                  Move(Streaming(plan, i, rest, failure, report.(payload := report.payload + PayloadOf(frames))), inbox,
                       outbox + frames))
    decreases |frames|
  {
    hide Leads, Fits;
    var m := SenderMachine(host);
    var from := Move(Streaming(plan, i, frames + rest, failure, report), inbox, outbox);
    if frames == [] {
      assert frames + rest == rest && outbox + frames == outbox;
      LeadsNowhere(m, from);
    } else {
      var front, f := frames[..|frames| - 1], frames[|frames| - 1];
      assert frames == front + [f];
      WritesStream(host, plan, i, front, [f] + rest, failure, report, inbox, outbox);
      assert front + ([f] + rest) == frames + rest;
      var via := Move(Streaming(plan, i, [f] + rest, failure, report.(payload := report.payload + PayloadOf(front))), inbox,
                      outbox + front);
      var to := Move(Streaming(plan, i, rest, failure, report.(payload := report.payload + PayloadOf(frames))), inbox,
                     outbox + frames);
      assert ([f] + rest)[1..] == rest && (outbox + front) + [f] == outbox + frames;
      OneMove(m, via, to);
      LeadsOn(m, from, via, to);
    }
  }

  /** A stream that breaks off, or has a frame that is too large, fails the machine after the frames before that. */
  lemma BadStreamFails(host: SenderHost, plan: SyncPlan, i: nat, t: Transmission, report: SendReport, inbox: seq<Frame>,
                       outbox: seq<Frame>)
    returns (error: ErrorCode)
    requires !Sound(t)
    ensures Leads(SenderMachine(host), Move(Sending(plan, i, t, report), inbox, outbox),
                  Move(SenderFailed(error), inbox, outbox + Fitting(t.frames)))
  {
    hide Leads, Fits;
    var m, k := SenderMachine(host), FirstTooLarge(t.frames);
    var fitting, rest := t.frames[..k], t.frames[k..];
    assert t.frames == fitting + rest;
    WritesStream(host, plan, i, fitting, rest, t.failure, report, inbox, outbox);
    var via := Move(Streaming(plan, i, rest, t.failure, report.(payload := report.payload + PayloadOf(fitting))), inbox,
                    outbox + fitting);
    error := if rest == [] then t.failure.value else ProtocolError;
    OneMove(m, via, Move(SenderFailed(error), inbox, outbox + fitting));
    LeadsOn(m, Move(Sending(plan, i, t, report), inbox, outbox), via, Move(SenderFailed(error), inbox, outbox + fitting));
  }

  /** Sends one file: everything the machine writes for it is written, up to where the machine fails if it does. */
  method SendFile(host: SenderHost, conn: Connection, faultyFiles: bool, p: SyncPlanEntry, blockSize: U32)
    returns (r: Result<nat>)
    requires Indexes(host.index(p.basis), p.basis) && p.action != Skip
    requires p.manifestEntry.path in host.source ==> |host.source[p.manifestEntry.path]| < U63_LIMIT
    modifies conn`sent
    ensures var t := Transmit(host, p, blockSize);
            && (r.Ok? ==> Sound(t) && conn.sent == old(conn.sent) + t.frames && r.value == PayloadOf(t.frames))
            && (r.Err? && !conn.faulty && !faultyFiles ==> !Sound(t) && conn.sent == old(conn.sent) + Fitting(t.frames))
  {
    hide StreamFrames, PayloadOf, ChunksOf, Greedy, FullTransmission, DeltaTransmission, Sound, AllFit, Fitting;
    var e := p.manifestEntry;
    var source := SourceAt(host.source, e.path);
    var input: Option<InputFile> := None;
    if source.Some? {
      var file := new InputFile(source.value, faultyFiles);
      input := Some(file);
    }
    if p.action == Full {
      FullSound(e, source, blockSize);
      r := SendFullStream(conn, input, e, blockSize);
    } else {
      DeltaIsSound(host.h, host.index(p.basis), e, source, blockSize);
      r := SendStreamingDelta(host.h, conn, input, e, p.basis, host.index(p.basis), blockSize);
    }
  }

  /**
   The sending host. On success, and on every failure that is not one of its own connection or files, it has made
   exactly the moves of its machine from the frames it was given, and written exactly what the machine writes.
   */
  method SyncSender(host: SenderHost, conn: Connection, faultyFiles: bool)
    returns (r: Result<SendReport>, ghost error: ErrorCode)
    requires forall sigs :: Indexes(host.index(sigs), sigs)
    requires forall path :: path in host.source ==> |host.source[path]| < U63_LIMIT
    modifies conn
    ensures var m, start := SenderMachine(host), Move(SayHello, old(conn.incoming), []);
            && (r.Ok? ==> Follows(m, start, conn, old(conn.sent), SenderDone(r.value)))
            && (r.Err? && !conn.faulty && !faultyFiles ==> Follows(m, start, conn, old(conn.sent), SenderFailed(error)))
  {
    hide Leads, Follows, AckFrame, Indexes;
    ghost var m, base := SenderMachine(host), conn.sent;
    ghost var start := Move(SayHello, conn.incoming, []);
    Begins(m, conn, SayHello);
    var planned;
    planned, error := SendManifestAndReceivePlan(host, conn, start, base);
    if planned.Err? {
      return Err(planned.error), error;
    }
    r, error := SendFiles(host, conn, faultyFiles, planned.value, start, base);
  }

  /** The entries one by one, and the end. */
  method SendFiles(host: SenderHost, conn: Connection, faultyFiles: bool, plan: SyncPlan, ghost start: Move<Sender>,
                   ghost base: seq<Frame>)
    returns (r: Result<SendReport>, ghost error: ErrorCode)
    requires forall sigs :: Indexes(host.index(sigs), sigs)
    requires forall path :: path in host.source ==> |host.source[path]| < U63_LIMIT
    requires Follows(SenderMachine(host), start, conn, base, SenderAt(plan, 0, NoSends(|host.manifest.files|)))
    modifies conn
    ensures r.Ok? ==> Follows(SenderMachine(host), start, conn, base, SenderDone(r.value))
    ensures r.Err? && !conn.faulty && !faultyFiles ==> Follows(SenderMachine(host), start, conn, base, SenderFailed(error))
  {
    hide Leads, Follows, Transmit, Sound, PayloadOf, Indexes, AckFrame, Fitting;
    ghost var m := SenderMachine(host);
    error := NetworkError;
    var report := NoSends(|host.manifest.files|);
    for i := 0 to |plan.entries|
      invariant Follows(m, start, conn, base, SenderAt(plan, i, report))
    {
      Thinks(m, start, conn, base, SenderAt(plan, i, report));
      var p := plan.entries[i];
      if p.action == Skip {
        report := report.(skipped := report.skipped + 1);
        continue;
      }
      ghost var t, before := Transmit(host, p, plan.blockSize), conn.sent;
      Stretches(m, start, conn, base, Sending(plan, i, t, report));
      var sent := SendFile(host, conn, faultyFiles, p, plan.blockSize);
      if sent.Err? {
        if !conn.faulty && !faultyFiles {
          error := FileFailed(host, start, conn, base, before, plan, i, t, report);
        }
        return Err(sent.error), error;
      }
      FileSent(host, start, conn, base, before, plan, i, t, report);
      report := report.(payload := report.payload + sent.value);
      Thinks(m, start, conn, base, Streaming(plan, i, [], None, report));
      var acked, f := WaitForAck(m, start, conn, base, AwaitFileAck(plan, i, report));
      if acked.Err? {
        return Err(acked.error), NoFrameError(f);
      }
      report := CountSent(report, p.action);
    }
    Thinks(m, start, conn, base, SenderAt(plan, |plan.entries|, report));
    AckAlwaysFits();
    var done := Say(m, start, conn, base, SayDone(report), AckFrame(SYNC_DONE));
    if done.Err? {
      return Err(done.error), error;
    }
    r := Ok(report);
  }

  lemma Stretches<S>(m: Machine<S>, start: Move<S>, conn: Connection, base: seq<Frame>, s: S)
    requires Follows(m, start, conn, base, s)
    ensures base <= conn.sent && Leads(m, start, Move(s, conn.incoming, conn.sent[|base|..]))
  {
    hide Leads;
  }

  lemma FileFailed(host: SenderHost, start: Move<Sender>, conn: Connection, base: seq<Frame>, before: seq<Frame>,
                   plan: SyncPlan, i: nat, t: Transmission, report: SendReport)
    returns (error: ErrorCode)
    requires base <= before && Leads(SenderMachine(host), start, Move(Sending(plan, i, t, report), conn.incoming, before[|base|..]))
    requires !Sound(t) && conn.sent == before + Fitting(t.frames)
    ensures Follows(SenderMachine(host), start, conn, base, SenderFailed(error))
  {
    hide Leads, AllFit, Fitting;
    var m, outbox := SenderMachine(host), before[|base|..];
    error := BadStreamFails(host, plan, i, t, report, conn.incoming, outbox);
    assert conn.sent[|base|..] == outbox + Fitting(t.frames);
    LeadsOn(m, start, Move(Sending(plan, i, t, report), conn.incoming, outbox),
            Move(SenderFailed(error), conn.incoming, outbox + Fitting(t.frames)));
  }

  lemma FileSent(host: SenderHost, start: Move<Sender>, conn: Connection, base: seq<Frame>, before: seq<Frame>,
                 plan: SyncPlan, i: nat, t: Transmission, report: SendReport)
    requires base <= before && Leads(SenderMachine(host), start, Move(Sending(plan, i, t, report), conn.incoming, before[|base|..]))
    requires Sound(t) && conn.sent == before + t.frames
    ensures Follows(SenderMachine(host), start, conn, base,
                    Streaming(plan, i, [], None, report.(payload := report.payload + PayloadOf(t.frames))))
  {
    hide Leads, PayloadOf, AllFit;
    var m, outbox := SenderMachine(host), before[|base|..];
    WritesStream(host, plan, i, t.frames, [], None, report, conn.incoming, outbox);
    assert t.frames + [] == t.frames && conn.sent[|base|..] == outbox + t.frames;
    LeadsOn(m, start, Move(Sending(plan, i, t, report), conn.incoming, outbox),
            Move(Streaming(plan, i, [], None, report.(payload := report.payload + PayloadOf(t.frames))), conn.incoming,
                 outbox + t.frames));
  }
}
