/**
 What a finished synchronisation leaves behind: which files are right, what the next synchronisation does, and
 which block sizes keep every operation inside one frame.
 */
module SyncOutcome {
  import opened Base
  import opened Wire
  import opened Network
  import opened BlockSignatures
  import opened Delta
  import opened DeltaTheorems
  import opened DeltaCopies
  import opened SyncCodec
  import opened SyncCodecTheorems
  import opened Trees
  import opened SyncPlanning
  import opened FileStreams
  import opened SyncSession
  import opened SyncTheorems
  import opened SyncLiveness

  // ----- The directory -----

  /** The plan the two hosts work from. */
  function AgreedPlan(snd: SenderHost, rcv: ReceiverHost, tree: Tree): SyncPlan
    requires PlanOf(rcv, tree, snd.manifest).Ok?
  {
    PlanOf(rcv, tree, snd.manifest).value
  }

  /** The receiver's directory when the session is over. */
  function Outcome(snd: SenderHost, rcv: ReceiverHost, tree: Tree): Tree
    requires PlanOf(rcv, tree, snd.manifest).Ok?
  {
    var plan := AgreedPlan(snd, rcv, tree);
    Now(snd, rcv, tree, plan, |plan.entries|)
  }

  ghost predicate NoClash(entries: seq<SyncPlanEntry>) {
    forall i, j :: 0 <= i < |entries| && 0 <= j < |entries| ==> !Clash(entries, i, j)
  }

  lemma ReadyHasPlan(snd: SenderHost, rcv: ReceiverHost, tree: Tree)
    requires Ready(snd, rcv, tree)
    ensures PlanOf(rcv, tree, snd.manifest).Ok?
  {
  }

  lemma PlanFollowsManifest(snd: SenderHost, rcv: ReceiverHost, tree: Tree)
    requires Ready(snd, rcv, tree)
    ensures var plan := AgreedPlan(snd, rcv, tree);
            && |plan.entries| == |snd.manifest.files|
            && DistinctSources(plan.entries, snd.source)
            && (forall j :: 0 <= j < |plan.entries| ==> plan.entries[j] == PlanEntryFor(rcv, tree, j, snd.manifest.files[j]))
            && (forall j :: 0 <= j < |plan.entries| && !Transferred(plan.entries[j]) ==> PathOf(plan.entries[j]) in tree)
  {
    hide Sendable, DeltaSound, EncodablePlan, EncodableManifest, PlanBytes, ManifestBytes;
    var plan := AgreedPlan(snd, rcv, tree);
    forall j | 0 <= j < |plan.entries|
      ensures PathOf(plan.entries[j]) in snd.source
      ensures !Transferred(plan.entries[j]) ==> PathOf(plan.entries[j]) in tree
    {
      assert EntryReady(snd, plan.blockSize, tree, plan.entries[j]);
      var e := snd.manifest.files[j];
      ActionsNeedTheirFiles(rcv.h, e, TargetIn(tree, e.path), rcv.platform.readError(e.path));
    }
  }

  /** In the directory that a session leaves every file of the manifest is right, exactly when no part name clashes. */
  lemma OutcomeHoldsIffNoClash(snd: SenderHost, rcv: ReceiverHost, tree: Tree)
    requires Ready(snd, rcv, tree)
    ensures var entries := AgreedPlan(snd, rcv, tree).entries;
            (forall j :: 0 <= j < |entries| ==> Holds(rcv.platform, snd.source, tree, Outcome(snd, rcv, tree), entries[j]))
            <==> NoClash(entries)
  {
    hide Ready, Holds, Clash, PlanOf;
    ReadyHasPlan(snd, rcv, tree);
    PlanFollowsManifest(snd, rcv, tree);
    AllHeldIffNoClash(rcv.platform, snd.source, tree, AgreedPlan(snd, rcv, tree).entries);
  }

  /** A session that has come to rest, where every stream found its basis. */
  ghost predicate FinishedSession(snd: SenderHost, rcv: ReceiverHost, capacity: nat, tree: Tree, schedule: seq<Side>, end: State) {
    && capacity >= 1 && Ready(snd, rcv, tree)
    && PlanOf(rcv, tree, snd.manifest).Ok? && BasesServe(snd, AgreedPlan(snd, rcv, tree))
    && Run(Session(snd, rcv, capacity), Start(tree), schedule) == Some(end) && Quiet(Session(snd, rcv, capacity), end)
  }

  /** However it was scheduled, the directory of a finished session has every file right exactly when no name clashes. */
  lemma SessionHoldsIffNoClash(snd: SenderHost, rcv: ReceiverHost, capacity: nat, tree: Tree, schedule: seq<Side>, end: State)
    requires FinishedSession(snd, rcv, capacity, tree, schedule, end)
    ensures var entries := AgreedPlan(snd, rcv, tree).entries;
            (forall j :: 0 <= j < |entries| ==> Holds(rcv.platform, snd.source, tree, end.right.tree, entries[j]))
            <==> NoClash(entries)
  {
    hide Ready, Holds, NoClash, PlanOf, Quiet, BasesServe, ReportsAgree, Run, Session;
    var _, _, _ := EveryScheduleSucceeds(snd, rcv, capacity, tree, schedule);
    OutcomeHoldsIffNoClash(snd, rcv, tree);
  }

  /**
   However it was scheduled, a finished session leaves each file it has sent, unless a part name takes it, with the
   sender's bytes, the manifest's time as far as the file clock goes, and the manifest's permission bits if it has any.
   */
  lemma SentFilesAsPromised(snd: SenderHost, rcv: ReceiverHost, capacity: nat, tree: Tree, schedule: seq<Side>, end: State, j: nat)
    requires FinishedSession(snd, rcv, capacity, tree, schedule, end)
    requires j < |AgreedPlan(snd, rcv, tree).entries| && Transferred(AgreedPlan(snd, rcv, tree).entries[j])
    requires var entries := AgreedPlan(snd, rcv, tree).entries; forall i :: 0 <= i < |entries| ==> !Clash(entries, i, j)
    ensures var e, now := AgreedPlan(snd, rcv, tree).entries[j].manifestEntry, end.right.tree;
            && e.path in now && e.path in snd.source && now[e.path].bytes == snd.source[e.path]
            && now[e.path].mtime == SignedNs(e.mtime) + rcv.platform.setError(e.path)
            && (e.mode != 0 ==> now[e.path].mode == e.mode % 4096)
            && (e.mode == 0 ==> now[e.path].mode == rcv.platform.newMode)
  {
    hide Ready, Clash, PlanOf, Quiet, BasesServe, ReportsAgree, Run, Session, TreeAfter;
    var _, _, _ := EveryScheduleSucceeds(snd, rcv, capacity, tree, schedule);
    PlanFollowsManifest(snd, rcv, tree);
    var entries := AgreedPlan(snd, rcv, tree).entries;
    HeldWithoutClash(rcv.platform, snd.source, tree, entries, |entries|, j);
  }

  // ----- Synchronising again -----

  /** The time of an entry's file after the first session, as the receiver's clock reads it when it plans again. */
  function TimeSeen(first: Platform, second: Platform, tree: Tree, p: SyncPlanEntry): int {
    var path := PathOf(p);
    var left := if Transferred(p) || path !in tree then SignedNs(p.manifestEntry.mtime) + first.setError(path)
                else tree[path].mtime;
    left + second.readError(path)
  }

  /** The quick check of the second plan will recognise this file, sent or skipped by the first. */
  predicate Settles(first: Platform, second: Platform, tree: Tree, p: SyncPlanEntry) {
    var seen := TimeSeen(first, second, tree, p);
    p.manifestEntry.sha256 != [] || (seen >= 0 && Abs(seen - SignedNs(p.manifestEntry.mtime)) <= MTIME_TOLERANCE_NS)
  }

  lemma SecondLook(snd: SenderHost, rcv: ReceiverHost, again: ReceiverHost, tree: Tree, now: Tree, i: nat, e: ManifestEntry)
    requires snd.h == rcv.h == again.h && DescribesFile(snd.h, snd.source, e)
    requires Holds(rcv.platform, snd.source, tree, now, PlanEntryFor(rcv, tree, i, e))
    ensures PlanEntryFor(again, now, i, e).action == Skip
            <==> Settles(rcv.platform, again.platform, tree, PlanEntryFor(rcv, tree, i, e))
  {
  }

  /** A file that is gone is not skipped. */
  lemma GoneIsNotSkipped(again: ReceiverHost, now: Tree, i: nat, e: ManifestEntry)
    requires e.path !in now
    ensures PlanEntryFor(again, now, i, e).action != Skip
  {
  }

  ghost predicate SkipsAll(entries: seq<SyncPlanEntry>) {
    forall i :: 0 <= i < |entries| ==> entries[i].action == Skip
  }

  ghost predicate AllSettle(first: Platform, second: Platform, tree: Tree, entries: seq<SyncPlanEntry>) {
    forall i :: 0 <= i < |entries| ==> Settles(first, second, tree, entries[i])
  }

  /**
   The plan made right after a session, by a receiver that may by now read times with other errors and use another
   block size, skips everything exactly when no file was lost to a part name and every file's time is recognised: the
   sent files' with the errors of setting and reading it, the skipped files' with the new error of reading it.
   */
  lemma ResyncSkipsIffSettled(snd: SenderHost, rcv: ReceiverHost, again: ReceiverHost, tree: Tree)
    requires Ready(snd, rcv, tree) && again.h == rcv.h && again.blockSize > 0
    ensures PlanOf(again, Outcome(snd, rcv, tree), snd.manifest).Ok?
    ensures var entries := AgreedPlan(snd, rcv, tree).entries;
            SkipsAll(AgreedPlan(snd, again, Outcome(snd, rcv, tree)).entries)
            <==> NoClash(entries) && AllSettle(rcv.platform, again.platform, tree, entries)
  {
    hide Sendable, DeltaSound, EncodablePlan, EncodableManifest, PlanBytes, ManifestBytes, Holds, Clash, TreeAfter,
         PlanEntryFor, Settles, DistinctPaths;
    var plan, now := AgreedPlan(snd, rcv, tree), Outcome(snd, rcv, tree);
    PlanFollowsManifest(snd, rcv, tree);
    OutcomeHoldsIffNoClash(snd, rcv, tree);
    var second := AgreedPlan(snd, again, now).entries;
    forall i | 0 <= i < |plan.entries| && Holds(rcv.platform, snd.source, tree, now, plan.entries[i])
      ensures second[i].action == Skip <==> Settles(rcv.platform, again.platform, tree, plan.entries[i])
    {
      assert EntryReady(snd, plan.blockSize, tree, plan.entries[i]);
      SameEntry(rcv, tree, i, snd.manifest.files[i]);
      SecondLook(snd, rcv, again, tree, now, i, snd.manifest.files[i]);
    }
    if i, j :| 0 <= i < |plan.entries| && 0 <= j < |plan.entries| && Clash(plan.entries, i, j) {
      ClashLosesFile(rcv.platform, snd.source, tree, plan.entries, |plan.entries|, i, j);
      SameEntry(rcv, tree, j, snd.manifest.files[j]);
      GoneIsNotSkipped(again, now, j, snd.manifest.files[j]);
      assert second[j].action != Skip;
    }
  }

  lemma SameEntry(rcv: ReceiverHost, tree: Tree, i: nat, e: ManifestEntry)
    ensures PlanEntryFor(rcv, tree, i, e).manifestEntry == e
  {
  }

  lemma {:induction false} SkippingChangesNothing(platform: Platform, source: map<Text, Bytes>, tree: Tree,
                                                  entries: seq<SyncPlanEntry>, n: nat)
    requires SkipsAll(entries) && n <= |entries|
    ensures TreeAfter(platform, source, tree, entries, n) == tree
    ensures CountOf(entries, n, Full) == 0 && CountOf(entries, n, DeltaSync) == 0
  {
    if n > 0 {
      SkippingChangesNothing(platform, source, tree, entries, n - 1);
    }
  }

  /** Signatures only lengthen a plan's body. */
  lemma {:induction false} PlanEntriesShrink(xs: seq<SyncPlanEntry>, ys: seq<SyncPlanEntry>)
    requires |xs| == |ys|
    requires forall i :: 0 <= i < |xs| ==> ys[i].manifestEntry == xs[i].manifestEntry && ys[i].basis == []
    ensures |ManyBytes(PlanEntryBytes, ys)| <= |ManyBytes(PlanEntryBytes, xs)|
  {
    hide PlanEntryBytes;
    if xs != [] {
      PlanEntryShrinks(xs[0], ys[0]);
      PlanEntriesShrink(xs[1..], ys[1..]);
    }
  }

  lemma PlanEntryShrinks(x: SyncPlanEntry, y: SyncPlanEntry)
    requires y.manifestEntry == x.manifestEntry && y.basis == []
    ensures |PlanEntryBytes(y)| <= |PlanEntryBytes(x)|
  {
    hide EntryBytes, SignatureBytes;
  }

  lemma ReadyAgain(snd: SenderHost, rcv: ReceiverHost, again: ReceiverHost, tree: Tree, now: Tree)
    requires Ready(snd, rcv, tree) && again.h == rcv.h && again.isSyncHello(snd.hello)
    requires PlanOf(again, now, snd.manifest).Ok? && SkipsAll(AgreedPlan(snd, again, now).entries)
    ensures Ready(snd, again, now) && BasesServe(snd, AgreedPlan(snd, again, now))
  {
    hide EntryBytes, PlanEntryBytes, ManyBytes, Sendable, DeltaSound, EncodableEntry, ChooseAction, ManifestBytes, HasCopy;
    var plan, second := AgreedPlan(snd, rcv, tree), AgreedPlan(snd, again, now);
    PlanEntriesShrink(plan.entries, second.entries);
    forall i | 0 <= i < |second.entries|
      ensures EntryReady(snd, second.blockSize, now, second.entries[i]) && EncodablePlanEntry(second.entries[i])
    {
      SkipIsReady(snd, plan.blockSize, second.blockSize, tree, now, plan.entries[i], second.entries[i]);
    }
  }

  lemma SkipIsReady(snd: SenderHost, before: U32, blockSize: U32, tree: Tree, now: Tree, p: SyncPlanEntry, q: SyncPlanEntry)
    requires EntryReady(snd, before, tree, p) && EncodablePlanEntry(p)
    requires q.manifestEntry == p.manifestEntry && q.action == Skip && q.basis == []
    ensures EntryReady(snd, blockSize, now, q) && EncodablePlanEntry(q)
  {
  }

  /**
   Synchronising again right after a finished session whose files all settle: under every schedule of the second
   session it ends well, sends no file, counts everything as skipped, and leaves the directory as it is.
   */
  lemma ResyncIsSilent(snd: SenderHost, rcv: ReceiverHost, again: ReceiverHost, capacity: nat, tree: Tree, first: seq<Side>,
                       end: State, schedule: seq<Side>)
    returns (rest: seq<Side>, sr: SendReport, rr: ReceiveReport)
    requires FinishedSession(snd, rcv, capacity, tree, first, end)
    requires again.h == rcv.h && again.isSyncHello(snd.hello) && again.blockSize > 0
    requires NoClash(AgreedPlan(snd, rcv, tree).entries)
    requires AllSettle(rcv.platform, again.platform, tree, AgreedPlan(snd, rcv, tree).entries)
    requires Run(Session(snd, again, capacity), Start(end.right.tree), schedule).Some?
    ensures var sys, now := Session(snd, again, capacity), end.right.tree;
            var over := At(SenderDone(sr), ReceiverState(now, ReceiverDone(rr)));
            var here := Run(sys, Start(now), schedule).value;
            && Run(sys, here, rest) == Some(over) && (Quiet(sys, here) ==> here == over)
            && sr.skipped == rr.skipped == |snd.manifest.files|
            && sr.framesSent == rr.filesWritten == 0 && sr.payload == rr.payload == 0
  {
    hide Ready, PlanOf, NoClash, AllSettle, Run, Session, CountOf, TreeAfter, Quiet, BasesServe;
    var _, _, _ := EveryScheduleSucceeds(snd, rcv, capacity, tree, first);
    var now := Outcome(snd, rcv, tree);
    ResyncSkipsIffSettled(snd, rcv, again, tree);
    ReadyAgain(snd, rcv, again, tree, now);
    rest, sr, rr := EveryScheduleSucceeds(snd, again, capacity, now, schedule);
    var second := AgreedPlan(snd, again, now).entries;
    SkippingChangesNothing(again.platform, snd.source, now, second, |second|);
    CountsAddUp(second, |second|);
  }

  /** After any finished session both hosts are done and their reports agree and add up. */
  lemma ReportsAddUp(snd: SenderHost, rcv: ReceiverHost, capacity: nat, tree: Tree, schedule: seq<Side>, end: State)
    requires FinishedSession(snd, rcv, capacity, tree, schedule, end)
    ensures end.left.SenderDone? && end.right.at.ReceiverDone?
    ensures var sr, rr := end.left.report, end.right.at.report;
            && sr.skipped + sr.full + sr.delta == sr.manifestFiles == |snd.manifest.files|
            && (sr.skipped, sr.full, sr.delta, sr.manifestFiles) == (rr.skipped, rr.full, rr.delta, rr.manifestFiles)
            && sr.framesSent == rr.filesWritten == sr.full + sr.delta && sr.payload == rr.payload
  {
    hide Ready, PlanOf, Run, Session, Quiet, BasesServe, TreeAfter;
    var _, _, _ := EveryScheduleSucceeds(snd, rcv, capacity, tree, schedule);
    var entries := AgreedPlan(snd, rcv, tree).entries;
    CountsAddUp(entries, |entries|);
  }

  // ----- Block sizes and frames -----

  /** Every operation of every delta fits one frame when the largest literal does. */
  lemma OpsFitFrames(h: Digest, basis: Bytes, sigs: seq<BlockSignature>, lookup: Lookup, blockSize: U32, source: Bytes)
    requires Matched(h, basis, sigs, lookup, blockSize) && LiteralBound(blockSize) <= MAX_DELTA_DATA
    ensures AllFit(OpFrames(DeltaOps(h, lookup, blockSize, source)))
  {
    hide Greedy, OpBody;
    var ops := DeltaOps(h, lookup, blockSize, source);
    DeltaOpsShape(h, basis, sigs, lookup, blockSize, source);
    forall i | 0 <= i < |ops| ensures Fits(OpFrames(ops)[i]) {
      assert WellShaped(ops[i], |basis|, if i < |ops| - 1 then blockSize else LiteralBound(blockSize));
      LiteralFrameSize(ops[i]);
    }
  }

  /**
   The sender's own guard is weaker: for a block size that passes it but whose bound does not fit, some source of
   twice the block size less two, over an empty basis, is one literal that no frame can carry.
   */
  lemma GuardIsTooWeak(h: Digest, blockSize: U32) returns (source: Bytes)
    requires 0 < blockSize <= MAX_DELTA_DATA < LiteralBound(blockSize)
    ensures Matched(h, [], [], map[], blockSize)
    ensures !AllFit(OpFrames(DeltaOps(h, map[], blockSize, source)))
  {
    source := seq(2 * blockSize - 2, i => 0);
    LiteralBoundReached(h, blockSize, source, []);
    var ops := DeltaOps(h, map[], blockSize, source);
    assert [] + source == source;
    LiteralFrameSize(ops[0]);
    assert !Fits(OpFrames(ops)[0]);
  }

  lemma {:induction false} OpsNoMoreThanBytes(ops: seq<DeltaOp>)
    requires forall i :: 0 <= i < |ops| ==> ops[i].size > 0
    ensures |ops| <= TotalSize(ops)
  {
    if ops != [] {
      OpsNoMoreThanBytes(ops[1..]);
    }
  }

  /** Any source below 4 GiB can be sent as a delta when the largest literal fits a frame. */
  lemma SmallDeltaSendable(h: Digest, basis: Bytes, sigs: seq<BlockSignature>, lookup: Lookup, e: ManifestEntry,
                           blockSize: U32, source: Bytes)
    requires Matched(h, basis, sigs, lookup, blockSize) && LiteralBound(blockSize) <= MAX_DELTA_DATA
    requires |source| < U32_LIMIT && Fits(BeginFrame(e))
    ensures DeltaSendable(h, lookup, e, Some(source), blockSize)
  {
    hide Greedy, OpBody, HeaderBytes;
    var ops := DeltaOps(h, lookup, blockSize, source);
    OpsFitFrames(h, basis, sigs, lookup, blockSize, source);
    DeltaOpsShape(h, basis, sigs, lookup, blockSize, source);
    forall i | 0 <= i < |ops| ensures ops[i].size > 0 {
      assert WellShaped(ops[i], |basis|, if i < |ops| - 1 then blockSize else LiteralBound(blockSize));
    }
    OpsNoMoreThanBytes(ops);
  }
}
