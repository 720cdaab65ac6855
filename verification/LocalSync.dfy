/**
 The same plan carried out on one host (src/transfer/sync_executor.cpp): the simple reference for the networked
 session.
 */
module LocalSync {
  import opened Base
  import opened FileIO
  import opened Network
  import opened BlockSignatures
  import opened Delta
  import opened DeltaTheorems
  import opened DeltaCopies
  import opened SyncCodec
  import opened Trees
  import opened FileStreams
  import opened FileReceiving
  import opened SyncSession
  import opened SyncTheorems
  import opened SyncLiveness
  import opened SyncFailure
  import opened SyncOutcome

  datatype SyncReport = SyncReport(skipped: nat, full: nat, delta: nat, bytesWritten: nat)

  /** What a local run writes for an entry; None when it fails. */
  function LocalContent(h: Digest, source: Option<Bytes>, basis: Option<Bytes>, p: SyncPlanEntry, lookup: Lookup, blockSize: U32)
    : Option<Bytes>
  {
    var e := p.manifestEntry;
    if source.None? then None
    else if p.action == Full then Checked(h, e, source)
    else if blockSize == 0 || |DeltaOps(h, lookup, blockSize, source.value)| >= U32_LIMIT then None
    else Checked(h, e, Replay(basis, DeltaOps(h, lookup, blockSize, source.value)))
  }

  function Checked(h: Digest, e: ManifestEntry, data: Option<Bytes>): Option<Bytes> {
    if data.Some? && Verified(h, e, DeltaHeader(e.size, e.sha256), data.value) then data else None
  }

  /** The tree after the first n entries of a local run; None when one of them fails. */
  function LocalAfter(h: Digest, platform: Platform, source: map<Text, Bytes>, index: seq<BlockSignature> -> Lookup,
                      tree: Tree, plan: SyncPlan, n: nat): Option<Tree>
    requires n <= |plan.entries|
  {
    if n == 0 then Some(tree) else
      var before := LocalAfter(h, platform, source, index, tree, plan, n - 1);
      var p := plan.entries[n - 1];
      if before.None? || p.action == Skip then before else
        var content := LocalContent(h, SourceAt(source, PathOf(p)), Contents(before.value, PathOf(p)), p, index(p.basis),
                                    plan.blockSize);
        if content.None? then None else Some(Trees.Committed(platform, before.value, p.manifestEntry, content.value))
  }

  /** Sum of the sizes of the transferred entries. */
  function TransferredSize(entries: seq<SyncPlanEntry>, n: nat): nat
    requires n <= |entries|
  {
    if n == 0 then 0 else
      TransferredSize(entries, n - 1) + if Transferred(entries[n - 1]) then entries[n - 1].manifestEntry.size else 0
  }

  // ----- The executor -----

  /** Copies a whole source, a buffer at a time. */
  method CopyFileToPart(input: InputFile, output: OutputFile) returns (r: Result<nat>)
    requires input.Valid() && input.pos == 0 && output.data == []
    modifies input`pos, output`data
    ensures r.Ok? ==> output.data == input.data && r.value == |input.data|
    ensures r.Err? ==> input.faulty || output.faulty
  {
    var bytesWritten := 0;
    while true
      invariant input.Valid()
      invariant output.data + input.Rest() == input.data
      invariant bytesWritten == |output.data|
      decreases |input.data| - input.pos
    {
      var bytes := input.Read(1024 * 1024);
      if bytes.Err? {
        return Err(bytes.error);
      }
      if bytes.value == [] {
        assert output.data + [] == output.data;
        return Ok(bytesWritten);
      }
      JoinAssoc(output.data, bytes.value, input.Rest());
      var written := output.Write(bytes.value);
      if written.Err? {
        return Err(written.error);
      }
      bytesWritten := bytesWritten + |bytes.value|;
    }
  }

  /** Puts finished bytes in the part file and commits it; a part file that is not committed is removed. */
  method StorePart(h: Digest, disk: Disk, e: ManifestEntry, data: Bytes) returns (r: Result<bool>, committed: bool)
    modifies disk`files
    ensures !committed ==> r.Err? && disk.files == old(disk.files) - {PartPath(e.path)}
    ensures !committed ==> disk.faulty || Checked(h, e, Some(data)).None?
    ensures committed ==> Checked(h, e, Some(data)).Some? && Replaced(old(disk.files), disk.files, e.path, data)
    ensures r.Ok? ==> disk.files == Trees.Committed(disk.platform, old(disk.files), e, data)
    ensures r.Err? ==> disk.faulty || !committed
  {
    hide Stamped, Verified, PartPath;
    ghost var was := disk.files;
    var part := PartPath(e.path);
    var created := disk.Create(part);
    if created.Err? {
      disk.Remove(part);
      return created, false;
    }
    var closed := disk.Close(part, data);
    if closed.Err? {
      disk.Remove(part);
      return closed, false;
    }
    ghost var filled := disk.files;
    r, committed := CommitPart(h, disk, e, DeltaHeader(e.size, e.sha256), data);
    if committed {
      ReplacedAnyway(was, filled, disk.files, e.path, data);
    } else {
      disk.Remove(part);
    }
    CommittedAnyway(disk.platform, was, filled, e, data);
  }

  /** What writing one entry makes of the tree, whatever faults the disk has. */
  ghost predicate Writes(platform: Platform, faulty: bool, was: Tree, now: Tree, e: ManifestEntry, content: Option<Bytes>,
                         r: Result<nat>, committed: bool)
  {
    && (!committed ==> r.Err? && now == was - {PartPath(e.path)} && (faulty || content.None?))
    && (committed ==> content.Some? && Replaced(was, now, e.path, content.value))
    && (r.Ok? ==> committed && now == Trees.Committed(platform, was, e, content.value) && r.value == |content.value|)
    && (r.Err? ==> faulty || !committed)
  }

  method WriteFullFile(h: Digest, disk: Disk, source: Option<Bytes>, p: SyncPlanEntry, ghost lookup: Lookup, ghost blockSize: U32)
    returns (r: Result<nat>, committed: bool)
    requires p.action == Full
    modifies disk`files
    ensures var content := LocalContent(h, source, Contents(old(disk.files), PathOf(p)), p, lookup, blockSize);
            Writes(disk.platform, disk.faulty, old(disk.files), disk.files, p.manifestEntry, content, r, committed)
  {
    hide Stamped, Verified, Replaced;
    if source.None? {
      disk.Remove(PartPath(PathOf(p)));
      return Err(IoError), false;
    }
    var input := new InputFile(source.value, disk.faulty);
    var output := new OutputFile(disk.faulty);
    var copied := CopyFileToPart(input, output);
    if copied.Err? {
      disk.Remove(PartPath(PathOf(p)));
      return Err(copied.error), false;
    }
    var stored;
    stored, committed := StorePart(h, disk, p.manifestEntry, output.data);
    r := if stored.Err? then Err(stored.error) else copied;
  }

  method WriteDeltaFile(h: Digest, disk: Disk, source: Option<Bytes>, p: SyncPlanEntry, lookup: Lookup, blockSize: U32)
    returns (r: Result<nat>, committed: bool)
    requires p.action == DeltaSync && Indexes(lookup, p.basis) && (source.Some? ==> |source.value| < U63_LIMIT)
    modifies disk`files
    ensures var content := LocalContent(h, source, Contents(old(disk.files), PathOf(p)), p, lookup, blockSize);
            Writes(disk.platform, disk.faulty, old(disk.files), disk.files, p.manifestEntry, content, r, committed)
  {
    hide Stamped, Greedy, Replaced;
    var delta := BuildDelta(h, source, p.basis, lookup, blockSize, disk.faulty);
    if delta.Err? {
      disk.Remove(PartPath(PathOf(p)));
      return Err(delta.error), false;
    }
    var basis := Contents(disk.files, PathOf(p));
    var data := ApplyDelta(basis, delta.value.ops, disk.faulty);
    if data.Err? {
      disk.Remove(PartPath(PathOf(p)));
      return Err(data.error), false;
    }
    var stored;
    stored, committed := StorePart(h, disk, p.manifestEntry, data.value);
    r := if stored.Err? then Err(stored.error) else Ok(p.manifestEntry.size);
  }

  /** The report of a run over the first n entries. */
  function ReportOf(entries: seq<SyncPlanEntry>, n: nat): SyncReport
    requires n <= |entries|
  {
    SyncReport(CountOf(entries, n, Skip), CountOf(entries, n, Full), CountOf(entries, n, DeltaSync), TransferredSize(entries, n))
  }

  lemma ReportStep(entries: seq<SyncPlanEntry>, n: nat)
    requires n < |entries|
    ensures var r, size := ReportOf(entries, n), entries[n].manifestEntry.size;
            ReportOf(entries, n + 1)
            == match entries[n].action
               case Skip => r.(skipped := r.skipped + 1)
               case Full => r.(full := r.full + 1, bytesWritten := r.bytesWritten + size)
               case DeltaSync => r.(delta := r.delta + 1, bytesWritten := r.bytesWritten + size)
  {
  }

  lemma LocalStep(h: Digest, platform: Platform, source: map<Text, Bytes>, index: seq<BlockSignature> -> Lookup,
                  tree: Tree, plan: SyncPlan, n: nat, now: Tree)
    requires n < |plan.entries| && LocalAfter(h, platform, source, index, tree, plan, n) == Some(now)
    ensures var p := plan.entries[n];
            var content := LocalContent(h, SourceAt(source, PathOf(p)), Contents(now, PathOf(p)), p, index(p.basis), plan.blockSize);
            LocalAfter(h, platform, source, index, tree, plan, n + 1)
            == if p.action == Skip then Some(now)
               else if content.None? then None else Some(Trees.Committed(platform, now, p.manifestEntry, content.value))
  {
    hide LocalContent, Trees.Committed;
  }

  /** The content a local run writes for entry k when the tree has become `now`. */
  function ContentAt(h: Digest, source: map<Text, Bytes>, index: seq<BlockSignature> -> Lookup, now: Tree, plan: SyncPlan, k: nat)
    : Option<Bytes>
    requires k < |plan.entries|
  {
    var p := plan.entries[k];
    LocalContent(h, SourceAt(source, PathOf(p)), Contents(now, PathOf(p)), p, index(p.basis), plan.blockSize)
  }

  /**
   A run that stops at entry k leaves the directory of the entries before it, without the entry's part file; or, when
   only setting the time or mode failed, with the entry's file already in place.
   */
  ghost predicate StoppedAt(platform: Platform, faulty: bool, was: Tree, now: Tree, e: ManifestEntry, content: Option<Bytes>) {
    || (now == was - {PartPath(e.path)} && (faulty || content.None?))
    || (faulty && content.Some? && Replaced(was, now, e.path, content.value))
  }

  method ExecuteLocalSync(h: Digest, disk: Disk, source: map<Text, Bytes>, index: seq<BlockSignature> -> Lookup, plan: SyncPlan)
    returns (r: Result<SyncReport>, ghost k: nat)
    requires forall i :: 0 <= i < |plan.entries| ==> Indexes(index(plan.entries[i].basis), plan.entries[i].basis)
    requires forall path :: path in source ==> |source[path]| < U63_LIMIT
    modifies disk`files
    ensures var n, entries := |plan.entries|, plan.entries;
            var end := LocalAfter(h, disk.platform, source, index, old(disk.files), plan, n);
            && (r.Ok? ==> end == Some(disk.files) && r.value == ReportOf(entries, n))
            && (r.Err? ==> disk.faulty || end.None?)
    ensures r.Ok? ==> forall j :: 0 <= j < |plan.entries| && Undisturbed(plan.entries, j) ==>
                        var e, files := plan.entries[j].manifestEntry, disk.files;
                        && e.path in files && |files[e.path].bytes| == e.size
                        && (e.sha256 != [] ==> h(files[e.path].bytes) == e.sha256)
                        && files[e.path].mtime == SignedNs(e.mtime) + disk.platform.setError(e.path)
                        && (e.mode != 0 ==> files[e.path].mode == e.mode % 4096)
                        && (e.mode == 0 ==> files[e.path].mode == disk.platform.newMode)
    ensures r.Err? ==>
              && k < |plan.entries| && Transferred(plan.entries[k])
              && var before := LocalAfter(h, disk.platform, source, index, old(disk.files), plan, k);
              && before.Some?
              && StoppedAt(disk.platform, disk.faulty, before.value, disk.files, plan.entries[k].manifestEntry,
                           ContentAt(h, source, index, before.value, plan, k))
  {
    hide LocalContent, Trees.Committed, LocalAfter, ReportOf, Indexes, Replaced, Undisturbed;
    var report := SyncReport(0, 0, 0, 0);
    k := 0;
    NothingYet(h, disk.platform, source, index, disk.files, plan);
    for i := 0 to |plan.entries|
      invariant LocalAfter(h, disk.platform, source, index, old(disk.files), plan, i) == Some(disk.files)
      invariant report == ReportOf(plan.entries, i)
    {
      k := i;
      var p := plan.entries[i];
      var data := SourceAt(source, PathOf(p));
      LocalStep(h, disk.platform, source, index, old(disk.files), plan, i, disk.files);
      ReportStep(plan.entries, i);
      ContentHasSize(h, data, Contents(disk.files, PathOf(p)), p, index(p.basis), plan.blockSize);
      FailureStays(h, disk.platform, source, index, old(disk.files), plan, i + 1, |plan.entries|);
      if p.action == Skip {
        report := report.(skipped := report.skipped + 1);
      } else if p.action == Full {
        var written, _ := WriteFullFile(h, disk, data, p, index(p.basis), plan.blockSize);
        if written.Err? {
          return Err(written.error), k;
        }
        report := report.(full := report.full + 1, bytesWritten := report.bytesWritten + written.value);
      } else {
        var written, _ := WriteDeltaFile(h, disk, data, p, index(p.basis), plan.blockSize);
        if written.Err? {
          return Err(written.error), k;
        }
        report := report.(delta := report.delta + 1, bytesWritten := report.bytesWritten + written.value);
      }
    }
    r := Ok(report);
    forall j | 0 <= j < |plan.entries| && Undisturbed(plan.entries, j)
      ensures AsPromised(h, disk.platform, disk.files, plan.entries[j].manifestEntry)
    {
      LocalLeaves(h, disk.platform, source, index, old(disk.files), plan, |plan.entries|, j);
    }
  }

  /** Entry j is written, and nothing later is written over it or takes it for its part file. */
  predicate Undisturbed(entries: seq<SyncPlanEntry>, j: nat)
    requires j < |entries|
  {
    && Transferred(entries[j])
    && forall i :: j < i < |entries| && Transferred(entries[i]) ==>
         PathOf(entries[i]) != PathOf(entries[j]) && PartPath(PathOf(entries[i])) != PathOf(entries[j])
  }

  /** An entry's file as the manifest has it. */
  predicate AsPromised(h: Digest, platform: Platform, files: Tree, e: ManifestEntry) {
    && e.path in files && |files[e.path].bytes| == e.size
    && (e.sha256 != [] ==> h(files[e.path].bytes) == e.sha256)
    && files[e.path].mtime == SignedNs(e.mtime) + platform.setError(e.path)
    && (e.mode != 0 ==> files[e.path].mode == e.mode % 4096)
    && (e.mode == 0 ==> files[e.path].mode == platform.newMode)
  }

  lemma {:induction false} LocalLeaves(h: Digest, platform: Platform, source: map<Text, Bytes>,
                                       index: seq<BlockSignature> -> Lookup, tree: Tree, plan: SyncPlan, n: nat, j: nat)
    requires j < n <= |plan.entries| && Undisturbed(plan.entries, j)
    requires LocalAfter(h, platform, source, index, tree, plan, n).Some?
    ensures AsPromised(h, platform, LocalAfter(h, platform, source, index, tree, plan, n).value, plan.entries[j].manifestEntry)
  {
    hide DeltaOps, Replay, PartPath;
    if j < n - 1 {
      LocalLeaves(h, platform, source, index, tree, plan, n - 1, j);
    }
  }

  lemma NothingYet(h: Digest, platform: Platform, source: map<Text, Bytes>, index: seq<BlockSignature> -> Lookup,
                   tree: Tree, plan: SyncPlan)
    ensures LocalAfter(h, platform, source, index, tree, plan, 0) == Some(tree)
    ensures ReportOf(plan.entries, 0) == SyncReport(0, 0, 0, 0)
  {
  }

  lemma {:induction false} FailureStays(h: Digest, platform: Platform, source: map<Text, Bytes>,
                                        index: seq<BlockSignature> -> Lookup, tree: Tree, plan: SyncPlan, k: nat, n: nat)
    requires k <= n <= |plan.entries|
    ensures LocalAfter(h, platform, source, index, tree, plan, k).None? ==>
              LocalAfter(h, platform, source, index, tree, plan, n).None?
  {
    if k < n {
      FailureStays(h, platform, source, index, tree, plan, k, n - 1);
    }
  }

  lemma ContentHasSize(h: Digest, source: Option<Bytes>, basis: Option<Bytes>, p: SyncPlanEntry, lookup: Lookup, blockSize: U32)
    ensures LocalContent(h, source, basis, p, lookup, blockSize).Some? ==>
              |LocalContent(h, source, basis, p, lookup, blockSize).value| == p.manifestEntry.size
  {
  }

  // ----- Local and networked runs -----

  lemma EntryContentLocal(snd: SenderHost, blockSize: U32, tree: Tree, now: Tree, p: SyncPlanEntry)
    requires EntryReady(snd, blockSize, tree, p) && Transferred(p) && blockSize > 0
    requires p.action == DeltaSync ==> SameAt(now, tree, PathOf(p)) || !HasCopy(EntryOps(snd, blockSize, p))
    ensures LocalContent(snd.h, SourceAt(snd.source, PathOf(p)), Contents(now, PathOf(p)), p, snd.index(p.basis), blockSize)
         == Some(snd.source[PathOf(p)])
  {
    hide Greedy, NoCollision, OpBody, HeaderBytes, ChunksOf, Replay;
    if p.action == DeltaSync {
      DeltaRebuildsSource(snd.h, tree[PathOf(p)].bytes, p.basis, snd.index(p.basis), blockSize, snd.source[PathOf(p)]);
      if !HasCopy(EntryOps(snd, blockSize, p)) {
        LiteralsNeedNoBasis(EntryOps(snd, blockSize, p), Some(tree[PathOf(p)].bytes), Contents(now, PathOf(p)));
      }
    }
  }

  /** As long as every stream finds its basis, a local run leaves what committing the sender's files leaves. */
  lemma {:induction false} LocalAfterIsTreeAfter(snd: SenderHost, rcv: ReceiverHost, tree: Tree, plan: SyncPlan, n: nat)
    requires n <= |plan.entries| && DistinctSources(plan.entries, snd.source)
    requires forall i :: 0 <= i < n ==>
               EntryReady(snd, plan.blockSize, tree, plan.entries[i]) && !MissesBasis(snd, plan.blockSize, plan.entries, i)
    ensures LocalAfter(snd.h, rcv.platform, snd.source, snd.index, tree, plan, n)
         == Some(TreeAfter(rcv.platform, snd.source, tree, plan.entries, n))
  {
    hide DeltaSound, LocalContent, Trees.Committed, LosesBasis, HasCopy, EntryOps, OpBody, ChunksOf;
    if n > 0 {
      var p := plan.entries[n - 1];
      LocalAfterIsTreeAfter(snd, rcv, tree, plan, n - 1);
      assert EntryReady(snd, plan.blockSize, tree, p);
      if Transferred(p) {
        hide EntryReady;
        BasisThere(snd, rcv, tree, plan, n - 1);
        EntryContentLocal(snd, plan.blockSize, tree, TreeAfter(rcv.platform, snd.source, tree, plan.entries, n - 1), p);
      }
    }
  }

  /** An entry's stream finds its basis as it was, or needs none. */
  lemma BasisThere(snd: SenderHost, rcv: ReceiverHost, tree: Tree, plan: SyncPlan, i: nat)
    requires i < |plan.entries| && DistinctSources(plan.entries, snd.source) && Transferred(plan.entries[i])
    requires EntryReady(snd, plan.blockSize, tree, plan.entries[i]) && !MissesBasis(snd, plan.blockSize, plan.entries, i)
    ensures plan.blockSize > 0 && PathOf(plan.entries[i]) in snd.source
    ensures plan.entries[i].action == DeltaSync ==>
              || SameAt(TreeAfter(rcv.platform, snd.source, tree, plan.entries, i), tree, PathOf(plan.entries[i]))
              || !HasCopy(EntryOps(snd, plan.blockSize, plan.entries[i]))
  {
    hide DeltaSound, LosesBasis, HasCopy, EntryOps, OpFrames, ChunksOf, TreeAfter;
    if plan.entries[i].action == DeltaSync && !LosesBasis(plan.entries, i) {
      BasisIntact(rcv.platform, snd.source, tree, plan.entries, i, i);
    }
  }

  /** And it stops at the first one that does not. */
  lemma LocalStopsAtMissing(snd: SenderHost, rcv: ReceiverHost, tree: Tree, plan: SyncPlan, k: nat)
    requires FirstMissing(snd, plan, k) && DistinctSources(plan.entries, snd.source)
    requires forall i :: 0 <= i < |plan.entries| ==> EntryReady(snd, plan.blockSize, tree, plan.entries[i])
    ensures LocalAfter(snd.h, rcv.platform, snd.source, snd.index, tree, plan, k)
         == Some(TreeAfter(rcv.platform, snd.source, tree, plan.entries, k))
    ensures LocalAfter(snd.h, rcv.platform, snd.source, snd.index, tree, plan, k + 1).None?
    ensures LocalAfter(snd.h, rcv.platform, snd.source, snd.index, tree, plan, |plan.entries|).None?
  {
    hide DeltaSound, Sendable, Trees.Committed, HasCopy, LocalAfter, OpBytes, Replay, Greedy, TreeAfter;
    var now := TreeAfter(rcv.platform, snd.source, tree, plan.entries, k);
    var p := plan.entries[k];
    LocalAfterIsTreeAfter(snd, rcv, tree, plan, k);
    var i :| 0 <= i < k && TakesBasis(plan.entries, i, k);
    BasisGone(rcv.platform, snd.source, tree, plan.entries, i, k, k);
    CopyNeedsBasis(EntryOps(snd, plan.blockSize, p));
    LocalStep(snd.h, rcv.platform, snd.source, snd.index, tree, plan, k, now);
    FailureStays(snd.h, rcv.platform, snd.source, snd.index, tree, plan, k + 1, |plan.entries|);
  }

  /**
   From the same manifest and plan, a local run succeeds if and only if the networked session does, under whatever
   schedule, and then leaves the same directory and reports the same counts of skipped, full and delta files.
   */
  lemma LocalAgreesWithNetwork(snd: SenderHost, rcv: ReceiverHost, capacity: nat, tree: Tree, schedule: seq<Side>, end: State)
    requires capacity >= 1 && Ready(snd, rcv, tree) && PlanOf(rcv, tree, snd.manifest).Ok?
    requires var sys := Session(snd, rcv, capacity); Run(sys, Start(tree), schedule) == Some(end) && Quiet(sys, end)
    ensures var plan := AgreedPlan(snd, rcv, tree);
            var n := |plan.entries|;
            var local := LocalAfter(snd.h, rcv.platform, snd.source, snd.index, tree, plan, n);
            && (local.Some? <==> end.left.SenderDone?)
            && (local.Some? <==> end.right.at.ReceiverDone?)
            && (local.Some? ==>
                  && end.right.tree == local.value
                  && var sr := end.left.report;
                     ReportOf(plan.entries, n) == SyncReport(sr.skipped, sr.full, sr.delta, TransferredSize(plan.entries, n)))
  {
    hide EntryReady, Ready, PlanOf, Run, Session, Quiet, MissesBasis, LocalAfter, TreeAfter, CountOf, TransferredSize;
    var plan := AgreedPlan(snd, rcv, tree);
    SucceedsIffBasesServe(snd, rcv, capacity, tree, schedule);
    PlanIsTurns(snd, rcv, tree);
    PlanFollowsManifest(snd, rcv, tree);
    assert forall i :: 0 <= i < |plan.entries| && Turn(snd, rcv, tree, plan, i) ==>
                         EntryReady(snd, plan.blockSize, tree, plan.entries[i]);
    var k := SomeIsFirst(snd, plan, |plan.entries|);
    if k < |plan.entries| {
      LocalStopsAtMissing(snd, rcv, tree, plan, k);
    } else {
      LocalAfterIsTreeAfter(snd, rcv, tree, plan, |plan.entries|);
      var _, _, _ := EveryScheduleSucceeds(snd, rcv, capacity, tree, schedule);
    }
  }

  /** When they fail, they fail at the same entry and leave the same directory. */
  lemma LocalFailsLikeNetwork(snd: SenderHost, rcv: ReceiverHost, capacity: nat, tree: Tree, schedule: seq<Side>, end: State,
                              k: nat, before: Tree)
    requires capacity >= 1 && Ready(snd, rcv, tree) && PlanOf(rcv, tree, snd.manifest).Ok?
    requires var sys := Session(snd, rcv, capacity); Run(sys, Start(tree), schedule) == Some(end) && Quiet(sys, end)
    requires var plan := AgreedPlan(snd, rcv, tree);
             && k < |plan.entries| && Transferred(plan.entries[k])
             && LocalAfter(snd.h, rcv.platform, snd.source, snd.index, tree, plan, k) == Some(before)
             && ContentAt(snd.h, snd.source, snd.index, before, plan, k).None?
    ensures end.left.SenderFailed? && end.right.at.ReceiverFailed?
    ensures end.right.tree == before - {PartPath(PathOf(AgreedPlan(snd, rcv, tree).entries[k]))}
  {
    hide EntryReady, Ready, PlanOf, Run, Session, Quiet, MissesBasis, LocalAfter, TreeAfter, LocalContent, PartPath;
    var plan := AgreedPlan(snd, rcv, tree);
    var n := |plan.entries|;
    LocalStep(snd.h, rcv.platform, snd.source, snd.index, tree, plan, k, before);
    FailureStays(snd.h, rcv.platform, snd.source, snd.index, tree, plan, k + 1, n);
    LocalAgreesWithNetwork(snd, rcv, capacity, tree, schedule, end);
    SucceedsIffBasesServe(snd, rcv, capacity, tree, schedule);
    PlanIsTurns(snd, rcv, tree);
    PlanFollowsManifest(snd, rcv, tree);
    assert forall i :: 0 <= i < n && Turn(snd, rcv, tree, plan, i) ==> EntryReady(snd, plan.blockSize, tree, plan.entries[i]);
    var first := SomeIsFirst(snd, plan, n);
    LocalStopsAtMissing(snd, rcv, tree, plan, first);
    if k < first {
      FailureStays(snd.h, rcv.platform, snd.source, snd.index, tree, plan, k + 1, first);
    } else if first < k {
      FailureStays(snd.h, rcv.platform, snd.source, snd.index, tree, plan, first + 1, k);
    }
    var _, _ := EveryScheduleFails(snd, rcv, capacity, tree, first, schedule);
  }

  /** A session sends, and commits, the manifest's number of bytes of a source that has at least so many. */
  lemma FullStreamCommitsPrefix(h: Digest, e: ManifestEntry, basis: Option<Bytes>, source: Bytes, blockSize: U32)
    requires e.sha256 == [] && FullSendable(e, Some(source), blockSize)
    ensures var frames := StreamFrames(e, ChunksOf(source[..e.size], blockSize));
            OnFrames(h, e, basis, frames) == Complete(source[..e.size], PayloadOf(frames))
  {
    hide OnFrames, StreamFrames, PayloadOf, ChunksOf, CarriesFile, HeaderBytes;
    ReplayChunks(basis, source[..e.size], blockSize);
    StreamCarriesFile(h, e, basis, ChunksOf(source[..e.size], blockSize), source[..e.size]);
  }

  /**
   Where they differ: a file that has grown since the manifest was made. The session commits the prefix the manifest
   promised; the local run copies everything and rejects it. On a full entry without announced hash both write the
   same exactly when the source has not grown.
   */
  lemma FullRunsAgreeIffNotGrown(h: Digest, e: ManifestEntry, basis: Option<Bytes>, source: Bytes, blockSize: U32)
    requires e.sha256 == [] && FullSendable(e, Some(source), blockSize)
    ensures var sent := OnFrames(h, e, basis, StreamFrames(e, ChunksOf(source[..e.size], blockSize)));
            && sent.Complete?
            && (LocalContent(h, Some(source), basis, SyncPlanEntry(e, Full, []), map[], blockSize) == Some(sent.data)
                <==> |source| <= e.size)
  {
    hide OnFrames, StreamFrames, PayloadOf, ChunksOf;
    FullStreamCommitsPrefix(h, e, basis, source, blockSize);
    assert |source| == e.size ==> source[..e.size] == source;
  }
}
