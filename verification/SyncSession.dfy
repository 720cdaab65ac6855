/**
 A directory synchronisation as two hosts that exchange frames (src/transfer/sync_session.cpp). Each host is the
 step machine of its function: one frame written or read, or one local decision, at a time.
 */
module SyncSession {
  import opened Base
  import opened Frames
  import opened Network
  import opened BlockSignatures
  import opened Delta
  import opened SyncCodec
  import opened Trees
  import opened SyncPlanning
  import opened FileStreams
  import opened FileSending
  import opened FileReceiving

  const SYNC_DONE: Bytes := [115, 121, 110, 99, 32, 100, 111, 110, 101]

  function AckFrame(text: Bytes): Frame {
    Message(Ack, text)
  }

  // ----- The sending host -----

  /** What the sender has: its hello body, the manifest, the files, and how its index orders equal checksums. */
  datatype SenderHost = SenderHost(h: Digest, hello: Bytes, manifest: Manifest, source: map<Text, Bytes>,
                                   index: seq<BlockSignature> -> Lookup)

  datatype SendReport = SendReport(manifestFiles: nat, skipped: nat, full: nat, delta: nat, framesSent: nat, payload: nat)

  function NoSends(manifestFiles: nat): SendReport {
    SendReport(manifestFiles, 0, 0, 0, 0, 0)
  }

  datatype Sender =
    | SayHello
    | SendManifest
    | AwaitManifestAck
    | AwaitPlan
    | AckPlan(plan: SyncPlan)
    | SenderAt(plan: SyncPlan, i: nat, report: SendReport)
    | Streaming(plan: SyncPlan, i: nat, pending: seq<Frame>, failure: Option<ErrorCode>, report: SendReport)
    | AwaitFileAck(plan: SyncPlan, i: nat, report: SendReport)
    | SayDone(report: SendReport)
    | SenderDone(report: SendReport)
    | SenderFailed(error: ErrorCode)

  function SourceAt(files: map<Text, Bytes>, path: Text): Option<Bytes> {
    if path in files then Some(files[path]) else None
  }

  /** What is written for an entry that is not skipped. */
  function Transmit(host: SenderHost, p: SyncPlanEntry, blockSize: U32): Transmission {
    var e := p.manifestEntry;
    var source := SourceAt(host.source, e.path);
    if p.action == Full then FullTransmission(e, source, blockSize)
    else DeltaTransmission(host.h, host.index(p.basis), e, source, blockSize)
  }

  /** Writing a frame that is too large fails before anything is written. */
  function WriteAct(f: Frame): Act {
    if Fits(f) then Emit(f) else Think
  }

  function AfterWrite(f: Frame, next: Sender): Sender {
    if Fits(f) then next else SenderFailed(ProtocolError)
  }

  function ManifestFrame(m: Manifest): Frame {
    Message(ManifestMessage, ManifestBytes(m))
  }

  function SenderAct(host: SenderHost, s: Sender): Act {
    match s
    case SayHello => WriteAct(Message(Hello, host.hello))
    case SendManifest => WriteAct(ManifestFrame(host.manifest))
    case AwaitManifestAck => Await
    case AwaitPlan => Await
    case AckPlan(_) => Emit(AckFrame([]))
    case SenderAt(_, _, _) => Think
    case Streaming(_, _, pending, _, _) => if pending == [] then Think else WriteAct(pending[0])
    case AwaitFileAck(_, _, _) => Await
    case SayDone(_) => Emit(AckFrame(SYNC_DONE))
    case SenderDone(_) => Halt
    case SenderFailed(_) => Halt
  }

  function SenderNext(host: SenderHost, s: Sender): Sender {
    match s
    case SayHello => AfterWrite(Message(Hello, host.hello), SendManifest)
    case SendManifest => AfterWrite(ManifestFrame(host.manifest), AwaitManifestAck)
    case AckPlan(plan) => SenderAt(plan, 0, NoSends(|host.manifest.files|))
    case SenderAt(plan, i, report) =>
      if i >= |plan.entries| then SayDone(report)
      else if plan.entries[i].action == Skip then SenderAt(plan, i + 1, report.(skipped := report.skipped + 1))
      else
        var t := Transmit(host, plan.entries[i], plan.blockSize);
        Streaming(plan, i, t.frames, t.failure, report)
    case Streaming(plan, i, pending, failure, report) =>
      if pending != [] then
        AfterWrite(pending[0], Streaming(plan, i, pending[1..], failure, report.(payload := report.payload + |pending[0].body|)))
      else if failure.Some? then SenderFailed(failure.value)
      else AwaitFileAck(plan, i, report)
    case SayDone(report) => SenderDone(report)
    case _ => s
  }

  /** What wait_for_ack makes of a frame. */
  predicate IsAck(f: Option<Frame>) {
    f.Some? && f.value.kind == Ack
  }

  function NoFrameError(f: Option<Frame>): ErrorCode {
    if f.None? then NetworkError else ProtocolError
  }

  function CountSent(report: SendReport, action: SyncAction): SendReport {
    var counted := report.(framesSent := report.framesSent + 1);
    if action == Full then counted.(full := counted.full + 1) else counted.(delta := counted.delta + 1)
  }

  function SenderGot(host: SenderHost, s: Sender, f: Option<Frame>): Sender {
    match s
    case AwaitManifestAck => if IsAck(f) then AwaitPlan else SenderFailed(NoFrameError(f))
    case AwaitPlan =>
      if f.None? || f.value.kind != PlanMessage then SenderFailed(NoFrameError(f)) else
        var plan := Whole(ParsePlan(f.value.body));
        if plan.Ok? then AckPlan(plan.value) else SenderFailed(plan.error)
    case AwaitFileAck(plan, i, report) =>
      if !IsAck(f) then SenderFailed(NoFrameError(f))
      else if i < |plan.entries| then SenderAt(plan, i + 1, CountSent(report, plan.entries[i].action))
      else SenderFailed(InternalError)
    case _ => s
  }

  // ----- The receiving host -----

  /**
   What the receiver has: which hello bodies announce a sync, its block size, its platform, and how reads cut the basis
   of each manifest entry.
   */
  datatype ReceiverHost = ReceiverHost(h: Digest, isSyncHello: Bytes -> bool, blockSize: U32, platform: Platform,
                                       cut: nat -> seq<BlockSignature>)

  datatype ReceiveReport =
    ReceiveReport(manifestFiles: nat, skipped: nat, full: nat, delta: nat, filesWritten: nat, payload: nat)

  function NoReceipts(manifestFiles: nat): ReceiveReport {
    ReceiveReport(manifestFiles, 0, 0, 0, 0, 0)
  }

  datatype Receiver =
    | AwaitHello
    | AwaitManifest
    | AckManifest(m: Manifest)
    | SendPlan(m: Manifest)
    | AwaitPlanAck(plan: SyncPlan, manifestFiles: nat)
    | ReceiverAt(plan: SyncPlan, i: nat, report: ReceiveReport)
    | ReceivingFile(plan: SyncPlan, i: nat, st: Receiving, report: ReceiveReport)
    | AckFile(plan: SyncPlan, i: nat, report: ReceiveReport)
    | AwaitDone(report: ReceiveReport)
    | Complain(error: ErrorCode)
    | ReceiverDone(report: ReceiveReport)
    | ReceiverFailed(error: ErrorCode)

  /** The receiver together with its directory. */
  datatype ReceiverState = ReceiverState(tree: Tree, at: Receiver)

  function PlanEntryFor(host: ReceiverHost, tree: Tree, i: nat, e: ManifestEntry): SyncPlanEntry {
    var action := ChooseAction(host.h, e, TargetIn(tree, e.path), host.platform.readError(e.path));
    SyncPlanEntry(e, action, if action == DeltaSync then host.cut(i) else [])
  }

  function PlanEntriesFor(host: ReceiverHost, tree: Tree, files: seq<ManifestEntry>): (ps: seq<SyncPlanEntry>)
    ensures |ps| == |files| && forall i :: 0 <= i < |files| ==> ps[i] == PlanEntryFor(host, tree, i, files[i])
  {
    seq(|files|, i requires 0 <= i < |files| => PlanEntryFor(host, tree, i, files[i]))
  }

  function PlanOf(host: ReceiverHost, tree: Tree, m: Manifest): Result<SyncPlan> {
    if host.blockSize == 0 || exists i :: 0 <= i < |m.files| && !IsSafePath(m.files[i].path) then Err(InvalidArgument)
    else Ok(SyncPlan(host.blockSize, PlanEntriesFor(host, tree, m.files)))
  }

  function PlanFrame(plan: SyncPlan): Frame {
    Message(PlanMessage, PlanBytes(plan))
  }

  function ReceiverAct(host: ReceiverHost, r: ReceiverState): Act {
    match r.at
    case AwaitHello => Await
    case AwaitManifest => Await
    case AckManifest(_) => Emit(AckFrame([]))
    case SendPlan(m) =>
      var plan := PlanOf(host, r.tree, m);
      if plan.Err? then Think else WriteAct(PlanFrame(plan.value))
    case AwaitPlanAck(_, _) => Await
    case ReceiverAt(_, _, _) => Think
    case ReceivingFile(_, _, st, _) => if st.Complete? || st.Refused? then Think else Await
    case AckFile(_, _, _) => Emit(AckFrame([]))
    case AwaitDone(_) => Await
    case Complain(_) => Emit(Message(ErrorMessage, []))
    case ReceiverDone(_) => Halt
    case ReceiverFailed(_) => Halt
  }

  function CountWritten(report: ReceiveReport, action: SyncAction): ReceiveReport {
    var counted := report.(filesWritten := report.filesWritten + 1);
    if action == Full then counted.(full := counted.full + 1) else counted.(delta := counted.delta + 1)
  }

  function ReceiverNext(host: ReceiverHost, r: ReceiverState): ReceiverState {
    match r.at
    case AckManifest(m) => r.(at := SendPlan(m))
    case SendPlan(m) =>
      var plan := PlanOf(host, r.tree, m);
      if plan.Err? then r.(at := Complain(plan.error))
      else if !Fits(PlanFrame(plan.value)) then r.(at := Complain(ProtocolError))
      else r.(at := AwaitPlanAck(plan.value, |m.files|))
    case ReceiverAt(plan, i, report) =>
      if i >= |plan.entries| then r.(at := AwaitDone(report))
      else if plan.entries[i].action == Skip then r.(at := ReceiverAt(plan, i + 1, report.(skipped := report.skipped + 1)))
      else r.(at := ReceivingFile(plan, i, AwaitingBegin, report))
    case ReceivingFile(plan, i, st, report) =>
      if i >= |plan.entries| then r.(at := Complain(InternalError)) else
        var e := plan.entries[i].manifestEntry;
        if st.Complete? then
          ReceiverState(Trees.Committed(host.platform, r.tree, e, st.data),
                        AckFile(plan, i, report.(payload := report.payload + st.payload)))
        else if st.Refused? then ReceiverState(r.tree - {PartPath(e.path)}, Complain(st.error))
        else r
    case AckFile(plan, i, report) =>
      if i >= |plan.entries| then r.(at := Complain(InternalError))
      else r.(at := ReceiverAt(plan, i + 1, CountWritten(report, plan.entries[i].action)))
    case Complain(error) => r.(at := ReceiverFailed(error))
    case _ => r
  }

  function ReceiverGot(host: ReceiverHost, r: ReceiverState, f: Option<Frame>): ReceiverState {
    match r.at
    case AwaitHello =>
      if f.None? then r.(at := ReceiverFailed(NetworkError))
      else if f.value.kind != Hello || !host.isSyncHello(f.value.body) then r.(at := Complain(ProtocolError))
      else r.(at := AwaitManifest)
    case AwaitManifest =>
      if f.None? || f.value.kind != ManifestMessage then r.(at := Complain(NoFrameError(f))) else
        var m := Whole(ParseManifest(f.value.body));
        if m.Ok? then r.(at := AckManifest(m.value)) else r.(at := Complain(m.error))
    case AwaitPlanAck(plan, manifestFiles) =>
      if IsAck(f) then r.(at := ReceiverAt(plan, 0, NoReceipts(manifestFiles)))
      else r.(at := Complain(NoFrameError(f)))
    case ReceivingFile(plan, i, st, report) =>
      if i >= |plan.entries| then r.(at := Complain(InternalError)) else
        var e := plan.entries[i].manifestEntry;
        if f.None? then ReceiverState(r.tree - {PartPath(e.path)}, Complain(NetworkError))
        else r.(at := ReceivingFile(plan, i, OnFrame(host.h, e, Contents(r.tree, e.path), st, f.value), report))
    case AwaitDone(report) =>
      if f.None? then r.(at := ReceiverFailed(NetworkError))
      else if f.value.kind == Ack && f.value.body == SYNC_DONE then r.(at := ReceiverDone(report))
      else r.(at := Complain(ProtocolError))
    case _ => r
  }

  // ----- The session -----

  function SenderMachine(host: SenderHost): Machine<Sender> {
    Machine((s: Sender) => SenderAct(host, s),
            (s: Sender) => SenderNext(host, s),
            (s: Sender, f: Option<Frame>) => SenderGot(host, s, f),
            (s: Sender) => SenderFailed(NetworkError))
  }

  function ReceiverMachine(host: ReceiverHost): Machine<ReceiverState> {
    Machine((r: ReceiverState) => ReceiverAct(host, r),
            (r: ReceiverState) => ReceiverNext(host, r),
            (r: ReceiverState, f: Option<Frame>) => ReceiverGot(host, r, f),
            (r: ReceiverState) => r.(at := ReceiverFailed(NetworkError)))
  }

  function Session(snd: SenderHost, rcv: ReceiverHost, capacity: nat): System<Sender, ReceiverState> {
    System(SenderMachine(snd), ReceiverMachine(rcv), capacity)
  }

  function Start(tree: Tree): Config<Sender, ReceiverState> {
    Config(SayHello, ReceiverState(tree, AwaitHello), [], [])
  }
}
