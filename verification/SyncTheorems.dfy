/**
 A directory synchronisation of honest hosts, entry by entry: what the receiver's directory becomes, which part files
 get in the way of which files, and what becomes of the stream of each entry.
 */
module SyncTheorems {
  import opened Base
  import opened Wire
  import opened Frames
  import opened Delta
  import opened DeltaTheorems
  import opened DeltaCopies
  import opened SyncCodec
  import opened SyncCodecTheorems
  import opened Trees
  import opened FileStreams
  import opened FileSending
  import opened FileReceiving
  import opened SyncSession

  // ----- What an honest pair of hosts is -----

  /** The manifest describes the sender's files as they are when they are sent. */
  ghost predicate ManifestDescribes(h: Digest, source: map<Text, Bytes>, m: Manifest) {
    forall i :: 0 <= i < |m.files| ==> DescribesFile(h, source, m.files[i])
  }

  ghost predicate DescribesFile(h: Digest, source: map<Text, Bytes>, e: ManifestEntry) {
    && e.path in source && |source[e.path]| == e.size < U63_LIMIT
    && (e.sha256 != [] ==> h(source[e.path]) == e.sha256)
  }

  ghost predicate DistinctPaths(files: seq<ManifestEntry>) {
    forall i, j :: 0 <= i < j < |files| ==> files[i].path != files[j].path
  }

  /** A delta entry's signatures are those of its basis, and the digest tells its blocks from windows of the source. */
  ghost predicate DeltaSound(snd: SenderHost, blockSize: U32, tree: Tree, p: SyncPlanEntry) {
    var path := p.manifestEntry.path;
    && path in tree && |tree[path].bytes| < U63_LIMIT && path in snd.source
    && Matched(snd.h, tree[path].bytes, p.basis, snd.index(p.basis), blockSize)
    && NoCollision(snd.h, tree[path].bytes, p.basis, snd.source[path])
  }

  ghost predicate Sendable(snd: SenderHost, blockSize: U32, p: SyncPlanEntry) {
    var source := SourceAt(snd.source, p.manifestEntry.path);
    match p.action
    case Skip => true
    case Full => FullSendable(p.manifestEntry, source, blockSize)
    case DeltaSync => DeltaSendable(snd.h, snd.index(p.basis), p.manifestEntry, source, blockSize)
  }

  /** One entry that both hosts can deal with. */
  ghost predicate EntryReady(snd: SenderHost, blockSize: U32, tree: Tree, p: SyncPlanEntry) {
    && DescribesFile(snd.h, snd.source, p.manifestEntry)
    && ShortText(p.manifestEntry.sha256)
    && (p.action == DeltaSync ==> DeltaSound(snd, blockSize, tree, p))
    && Sendable(snd, blockSize, p)
  }

  predicate Transferred(p: SyncPlanEntry) {
    p.action != Skip
  }

  function PathOf(p: SyncPlanEntry): Text {
    p.manifestEntry.path
  }

  ghost predicate Ready(snd: SenderHost, rcv: ReceiverHost, tree: Tree) {
    && snd.h == rcv.h
    && rcv.isSyncHello(snd.hello) && Fits(Message(Hello, snd.hello))
    && EncodableManifest(snd.manifest) && Fits(ManifestFrame(snd.manifest))
    && DistinctPaths(snd.manifest.files)
    && PlanOf(rcv, tree, snd.manifest).Ok?
    && var plan := PlanOf(rcv, tree, snd.manifest).value;
    && EncodablePlan(plan) && Fits(PlanFrame(plan))
    && forall i :: 0 <= i < |plan.entries| ==> EntryReady(snd, plan.blockSize, tree, plan.entries[i])
  }

  // ----- What the receiver's directory becomes -----

  /** The directory after the first n entries of a plan, with the sender's bytes for all but the skipped ones. */
  function TreeAfter(platform: Platform, source: map<Text, Bytes>, tree: Tree, entries: seq<SyncPlanEntry>, n: nat): Tree
    requires n <= |entries|
  {
    if n == 0 then tree else
      var before := TreeAfter(platform, source, tree, entries, n - 1);
      var p := entries[n - 1];
      if p.action == Skip || p.manifestEntry.path !in source then before
      else Trees.Committed(platform, before, p.manifestEntry, source[p.manifestEntry.path])
  }

  predicate SameAt(now: Tree, was: Tree, path: Text) {
    (path in now <==> path in was) && (path in was ==> now[path] == was[path])
  }

  /** A path that is no transferred entry and no part file of one is untouched. */
  ghost predicate Bystander(entries: seq<SyncPlanEntry>, path: Text) {
    forall i :: 0 <= i < |entries| && Transferred(entries[i]) ==>
      path != PathOf(entries[i]) && path != PartPath(PathOf(entries[i]))
  }

  lemma {:induction false} BystandersUntouched(platform: Platform, source: map<Text, Bytes>, tree: Tree,
                                               entries: seq<SyncPlanEntry>, n: nat, path: Text)
    requires n <= |entries| && Bystander(entries, path)
    ensures SameAt(TreeAfter(platform, source, tree, entries, n), tree, path)
  {
    if n > 0 {
      BystandersUntouched(platform, source, tree, entries, n - 1, path);
    }
  }

  /** The paths of a plan are those of distinct files, all of them on the sender. */
  ghost predicate DistinctSources(entries: seq<SyncPlanEntry>, source: map<Text, Bytes>) {
    && (forall i, j :: 0 <= i < j < |entries| ==> PathOf(entries[i]) != PathOf(entries[j]))
    && (forall i :: 0 <= i < |entries| ==> PathOf(entries[i]) in source)
  }

  // ----- What becomes of a basis -----

  /** Entry i, transferred earlier, takes the basis of delta entry j for its part file. */
  predicate TakesBasis(entries: seq<SyncPlanEntry>, i: nat, j: nat)
    requires i < |entries| && j < |entries|
  {
    && i < j && Transferred(entries[i]) && entries[j].action == DeltaSync
    && PathOf(entries[j]) == PartPath(PathOf(entries[i]))
  }

  predicate LosesBasis(entries: seq<SyncPlanEntry>, j: nat)
    requires j < |entries|
  {
    exists i :: 0 <= i < j && TakesBasis(entries, i, j)
  }

  /** Unless it is taken, the basis of a delta entry is exactly what it was when the plan was made, until its turn. */
  lemma {:induction false} BasisIntact(platform: Platform, source: map<Text, Bytes>, tree: Tree, entries: seq<SyncPlanEntry>,
                                       n: nat, j: nat)
    requires DistinctSources(entries, source) && n <= j < |entries| && entries[j].action == DeltaSync
    requires !LosesBasis(entries, j)
    ensures SameAt(TreeAfter(platform, source, tree, entries, n), tree, PathOf(entries[j]))
  {
    if n > 0 {
      BasisIntact(platform, source, tree, entries, n - 1, j);
      assert !TakesBasis(entries, n - 1, j);
    }
  }

  /** Once taken, it is gone, and still gone when its entry's turn comes. */
  lemma {:induction false} BasisGone(platform: Platform, source: map<Text, Bytes>, tree: Tree, entries: seq<SyncPlanEntry>,
                                     i: nat, j: nat, n: nat)
    requires DistinctSources(entries, source) && i < n <= j < |entries| && TakesBasis(entries, i, j)
    ensures PathOf(entries[j]) !in TreeAfter(platform, source, tree, entries, n)
  {
    if i < n - 1 {
      BasisGone(platform, source, tree, entries, i, j, n - 1);
    }
  }

  // ----- Exactly when every file ends up right -----

  /** A transferred entry holds the sender's bytes with the manifest's times and mode; a skipped one what it held. */
  predicate Holds(platform: Platform, source: map<Text, Bytes>, was: Tree, now: Tree, p: SyncPlanEntry) {
    var path := PathOf(p);
    if Transferred(p) && path in source then path in now && now[path] == Stamped(platform, p.manifestEntry, source[path])
    else SameAt(now, was, path)
  }

  /** Entry i, once transferred, takes entry j's file for its part file when j is skipped or already done. */
  predicate Clash(entries: seq<SyncPlanEntry>, i: nat, j: nat)
    requires i < |entries| && j < |entries|
  {
    && Transferred(entries[i]) && PathOf(entries[j]) == PartPath(PathOf(entries[i]))
    && (j < i || !Transferred(entries[j]))
  }

  /** Without a clash involving it, a file is right from its turn on. */
  lemma {:induction false} HeldWithoutClash(platform: Platform, source: map<Text, Bytes>, tree: Tree,
                                            entries: seq<SyncPlanEntry>, n: nat, j: nat)
    requires DistinctSources(entries, source) && n <= |entries| && j < |entries|
    requires forall i :: 0 <= i < |entries| ==> !Clash(entries, i, j)
    requires Transferred(entries[j]) ==> j < n
    ensures Holds(platform, source, tree, TreeAfter(platform, source, tree, entries, n), entries[j])
  {
    if n > 0 && !(Transferred(entries[j]) && j == n - 1) {
      HeldWithoutClash(platform, source, tree, entries, n - 1, j);
      assert !Clash(entries, n - 1, j);
    }
  }

  /** After a clash the file is gone, although both sides count it as skipped or written. */
  lemma {:induction false} ClashLosesFile(platform: Platform, source: map<Text, Bytes>, tree: Tree,
                                          entries: seq<SyncPlanEntry>, n: nat, i: nat, j: nat)
    requires DistinctSources(entries, source) && i < n <= |entries| && j < |entries| && Clash(entries, i, j)
    ensures PathOf(entries[j]) !in TreeAfter(platform, source, tree, entries, n)
  {
    if i < n - 1 {
      ClashLosesFile(platform, source, tree, entries, n - 1, i, j);
    }
  }

  /**
   Every file of the manifest ends up right if and only if no transferred entry's part name is the name of a file
   that was skipped or already written.
   */
  lemma AllHeldIffNoClash(platform: Platform, source: map<Text, Bytes>, tree: Tree, entries: seq<SyncPlanEntry>)
    requires DistinctSources(entries, source)
    requires forall j :: 0 <= j < |entries| && !Transferred(entries[j]) ==> PathOf(entries[j]) in tree
    ensures (forall j :: 0 <= j < |entries| ==>
               Holds(platform, source, tree, TreeAfter(platform, source, tree, entries, |entries|), entries[j]))
            <==> (forall i, j :: 0 <= i < |entries| && 0 <= j < |entries| ==> !Clash(entries, i, j))
  {
    var n := |entries|;
    var end := TreeAfter(platform, source, tree, entries, n);
    if i, j :| 0 <= i < n && 0 <= j < n && Clash(entries, i, j) {
      ClashLosesFile(platform, source, tree, entries, n, i, j);
      assert !Holds(platform, source, tree, end, entries[j]);
    } else {
      forall j | 0 <= j < n ensures Holds(platform, source, tree, end, entries[j]) {
        HeldWithoutClash(platform, source, tree, entries, n, j);
      }
    }
  }

  // ----- Reports -----

  function CountOf(entries: seq<SyncPlanEntry>, n: nat, action: SyncAction): nat
    requires n <= |entries|
  {
    if n == 0 then 0 else CountOf(entries, n - 1, action) + if entries[n - 1].action == action then 1 else 0
  }

  lemma {:induction false} CountsAddUp(entries: seq<SyncPlanEntry>, n: nat)
    requires n <= |entries|
    ensures CountOf(entries, n, Skip) + CountOf(entries, n, Full) + CountOf(entries, n, DeltaSync) == n
  {
    if n > 0 {
      CountsAddUp(entries, n - 1);
    }
  }

  /** What both reports say after n entries. */
  predicate ReportsAgree(entries: seq<SyncPlanEntry>, n: nat, files: nat, sr: SendReport, rr: ReceiveReport)
    requires n <= |entries|
  {
    && sr.manifestFiles == rr.manifestFiles == files
    && sr.skipped == rr.skipped == CountOf(entries, n, Skip)
    && sr.full == rr.full == CountOf(entries, n, Full)
    && sr.delta == rr.delta == CountOf(entries, n, DeltaSync)
    && sr.framesSent == rr.filesWritten == sr.full + sr.delta
    && sr.payload == rr.payload && (sr.framesSent == 0 ==> sr.payload == 0)
  }

  // ----- The stream of one entry is accepted with the sender's bytes -----

  lemma {:induction false} CarriedOpsOfFrames(ops: seq<DeltaOp>)
    requires forall i :: 0 <= i < |ops| ==> |ops[i].data| < U64_LIMIT
    ensures CarriedOps(OpFrames(ops)) == Some(ops)
  {
    hide ParseOp, OpBody;
    if ops != [] {
      var n := |ops| - 1;
      CarriedOpsOfFrames(ops[..n]);
      assert OpFrames(ops)[..n] == OpFrames(ops[..n]);
      OpRoundTrip(ops[n]);
      assert ops[..n] + [ops[n]] == ops;
    }
  }

  lemma StreamCarriesFile(h: Digest, e: ManifestEntry, basis: Option<Bytes>, ops: seq<DeltaOp>, data: Bytes)
    requires |ops| < U32_LIMIT && ShortText(e.sha256)
    requires forall i :: 0 <= i < |ops| ==> |ops[i].data| < U64_LIMIT
    requires Replay(basis, ops) == Some(data)
    requires |data| == e.size && (e.sha256 != [] ==> h(data) == e.sha256)
    ensures CarriesFile(h, e, basis, StreamFrames(e, ops), data)
    ensures OnFrames(h, e, basis, StreamFrames(e, ops)) == Complete(data, PayloadOf(StreamFrames(e, ops)))
  {
    hide ParseHeader, ParseU32, ParseOp, HeaderBytes, EndBytes, OpBody, OnFrames, PayloadOf;
    var frames := StreamFrames(e, ops);
    HeaderRoundTrip(DeltaHeader(e.size, e.sha256));
    EndRoundTrip(|ops|);
    CarriedOpsOfFrames(ops);
    assert frames[1..|frames| - 1] == OpFrames(ops);
    FileStreamsAreAccepted(h, e, basis, frames, data);
  }

  lemma {:induction false} ReplayChunks(basis: Option<Bytes>, data: Bytes, chunkSize: U32)
    requires chunkSize > 0
    ensures Replay(basis, ChunksOf(data, chunkSize)) == Some(data)
    ensures forall i :: 0 <= i < |ChunksOf(data, chunkSize)| ==> |ChunksOf(data, chunkSize)[i].data| <= chunkSize
    decreases |data|
  {
    hide OpBytes;
    if data == [] {
    } else if |data| <= chunkSize {
      LiteralReplay(basis, data);
    } else {
      ReplayChunks(basis, data[chunkSize..], chunkSize);
      LiteralReplay(basis, data[..chunkSize]);
      ReplayAppend(basis, [Literal(data[..chunkSize])], ChunksOf(data[chunkSize..], chunkSize));
      assert data[..chunkSize] + data[chunkSize..] == data;
    }
  }

  lemma LiteralReplay(basis: Option<Bytes>, data: Bytes)
    requires |data| < U64_LIMIT
    ensures Replay(basis, [Literal(data)]) == Some(data)
  {
    ReplayOne(basis, Literal(data));
  }

  /** The operations of an entry. */
  ghost function EntryOps(snd: SenderHost, blockSize: U32, p: SyncPlanEntry): seq<DeltaOp>
    requires p.manifestEntry.path in snd.source && blockSize > 0
  {
    var source := snd.source[p.manifestEntry.path];
    if p.action == Full then ChunksOf(source, blockSize)
    else DeltaOps(snd.h, snd.index(p.basis), blockSize, source)
  }

  lemma EntryTransmission(snd: SenderHost, blockSize: U32, tree: Tree, p: SyncPlanEntry)
    requires EntryReady(snd, blockSize, tree, p) && p.action != Skip
    ensures 0 < blockSize && |EntryOps(snd, blockSize, p)| < U32_LIMIT
    ensures var frames := StreamFrames(p.manifestEntry, EntryOps(snd, blockSize, p));
            Transmit(snd, p, blockSize) == Transmission(frames, None) && AllFit(frames)
  {
    hide OpBody, HeaderBytes, EndBytes, ChunksOf, DeltaOps;
    var e := p.manifestEntry;
    var source := snd.source[e.path];
    assert source[..e.size] == source;
    var ops := EntryOps(snd, blockSize, p);
    EndFits(|ops|);
    if p.action == Full {
      ReplayChunks(None, source, blockSize);
      forall i | 0 <= i < |ops| ensures Fits(OpFrame(ops[i])) {
        LiteralFrameSize(ops[i]);
      }
    } else {
      forall i | 0 <= i < |ops| ensures Fits(OpFrame(ops[i])) {
        assert OpFrames(ops)[i] == OpFrame(ops[i]);
      }
    }
  }

  lemma EntryStreamAccepted(snd: SenderHost, blockSize: U32, tree: Tree, now: Tree, p: SyncPlanEntry)
    requires EntryReady(snd, blockSize, tree, p) && p.action != Skip
    requires 0 < blockSize && |EntryOps(snd, blockSize, p)| < U32_LIMIT
    requires p.action == DeltaSync ==>
               || Contents(now, p.manifestEntry.path) == Contents(tree, p.manifestEntry.path)
               || !HasCopy(EntryOps(snd, blockSize, p))
    ensures var e := p.manifestEntry;
            var frames := StreamFrames(e, EntryOps(snd, blockSize, p));
            && CarriesFile(snd.h, e, Contents(now, e.path), frames, snd.source[e.path])
            && OnFrames(snd.h, e, Contents(now, e.path), frames) == Complete(snd.source[e.path], PayloadOf(frames))
  {
    hide StreamFrames, CarriesFile, OnFrames, PayloadOf, ChunksOf, DeltaOps;
    var e := p.manifestEntry;
    var source, ops := snd.source[e.path], EntryOps(snd, blockSize, p);
    var basis := Contents(now, e.path);
    if p.action == Full {
      ReplayChunks(basis, source, blockSize);
    } else {
      var old0 := tree[e.path].bytes;
      DeltaRebuildsSource(snd.h, old0, p.basis, snd.index(p.basis), blockSize, source);
      DeltaOpsShape(snd.h, old0, p.basis, snd.index(p.basis), blockSize, source);
      forall i | 0 <= i < |ops| ensures |ops[i].data| < U64_LIMIT {
        assert WellShaped(ops[i], |old0|, if i < |ops| - 1 then blockSize else LiteralBound(blockSize));
      }
      if !HasCopy(ops) {
        LiteralsNeedNoBasis(ops, Some(old0), basis);
      }
    }
    StreamCarriesFile(snd.h, e, basis, ops, source);
  }

  // ----- A stream that copies from a basis that is gone -----

  /** Literals are applied without a basis. */
  lemma {:induction false} LiteralsApply(h: Digest, e: ManifestEntry, ops: seq<DeltaOp>, k: nat)
    requires k <= |ops| && ShortText(e.sha256)
    requires forall i :: 0 <= i < k ==> ops[i].kind == LiteralData && |ops[i].data| < U64_LIMIT
    ensures OnFrames(h, e, None, [BeginFrame(e)] + OpFrames(ops)[..k]).Applying?
  {
    hide OnFrames, HeaderBytes, ParseHeader, OpBody, ParseOp, OpFrames;
    var frames := OpFrames(ops);
    if k == 0 {
      assert [BeginFrame(e)] + frames[..0] == [] + [BeginFrame(e)];
      NoFrames(h, e, None);
      OnFramesStep(h, e, None, [], BeginFrame(e));
      HeaderRoundTrip(DeltaHeader(e.size, e.sha256));
    } else {
      LiteralsApply(h, e, ops, k - 1);
      assert [BeginFrame(e)] + frames[..k] == ([BeginFrame(e)] + frames[..k - 1]) + [OpFrame(ops[k - 1])];
      OnFramesStep(h, e, None, [BeginFrame(e)] + frames[..k - 1], OpFrame(ops[k - 1]));
      OpRoundTrip(ops[k - 1]);
    }
  }

  /** The receiver goes along up to the first copy and refuses there. */
  lemma CopyIsRefused(h: Digest, e: ManifestEntry, ops: seq<DeltaOp>, n: nat)
    requires HasCopy(ops) && |ops| < U32_LIMIT && ShortText(e.sha256) && n <= FirstCopy(ops) + 2
    requires forall i :: 0 <= i < |ops| ==> |ops[i].data| < U64_LIMIT
    ensures var st := OnFrames(h, e, None, StreamFrames(e, ops)[..n]);
            if n == FirstCopy(ops) + 2 then st == Refused(IoError) else IsOpen(st)
  {
    hide OnFrames, HeaderBytes, ParseHeader, OpBody, ParseOp, OpFrames, EndFrame;
    var frames, k := StreamFrames(e, ops), FirstCopy(ops);
    if n == 0 {
      assert frames[..0] == [];
      NoFrames(h, e, None);
    } else if n <= k + 1 {
      assert frames[..n] == [BeginFrame(e)] + OpFrames(ops)[..n - 1];
      LiteralsApply(h, e, ops, n - 1);
    } else {
      assert frames[..n] == ([BeginFrame(e)] + OpFrames(ops)[..k]) + [OpFrame(ops[k])];
      LiteralsApply(h, e, ops, k);
      OnFramesStep(h, e, None, [BeginFrame(e)] + OpFrames(ops)[..k], OpFrame(ops[k]));
      OpRoundTrip(ops[k]);
    }
  }

  lemma {:induction false} RefusalStays(h: Digest, e: ManifestEntry, basis: Option<Bytes>, frames: seq<Frame>, n: nat)
    requires n <= |frames| && OnFrames(h, e, basis, frames[..n]).Refused?
    ensures OnFrames(h, e, basis, frames) == OnFrames(h, e, basis, frames[..n])
    decreases |frames|
  {
    if n == |frames| {
      assert frames[..n] == frames;
    } else {
      var front := frames[..|frames| - 1];
      assert front[..n] == frames[..n];
      RefusalStays(h, e, basis, front, n);
    }
  }

  /** A basis lost to a part file: every stream that copies from it is refused, whatever else it holds. */
  lemma LostBasisIsRefused(h: Digest, e: ManifestEntry, ops: seq<DeltaOp>)
    requires HasCopy(ops) && |ops| < U32_LIMIT && ShortText(e.sha256)
    requires forall i :: 0 <= i < |ops| ==> |ops[i].data| < U64_LIMIT
    ensures OnFrames(h, e, None, StreamFrames(e, ops)) == Refused(IoError)
  {
    hide OnFrames, StreamFrames;
    StreamSize(e, ops);
    CopyIsRefused(h, e, ops, FirstCopy(ops) + 2);
    RefusalStays(h, e, None, StreamFrames(e, ops), FirstCopy(ops) + 2);
  }

  lemma StreamSize(e: ManifestEntry, ops: seq<DeltaOp>)
    requires |ops| < U32_LIMIT
    ensures |StreamFrames(e, ops)| == |ops| + 2
  {
  }

  // ----- Whether every entry has the basis it needs -----

  /** The stream of entry j copies from a basis that an earlier entry has taken. */
  ghost predicate MissesBasis(snd: SenderHost, blockSize: U32, entries: seq<SyncPlanEntry>, j: nat)
    requires j < |entries|
  {
    && LosesBasis(entries, j) && PathOf(entries[j]) in snd.source && blockSize > 0
    && HasCopy(EntryOps(snd, blockSize, entries[j]))
  }

  ghost predicate BasesServe(snd: SenderHost, plan: SyncPlan) {
    forall j :: 0 <= j < |plan.entries| ==> !MissesBasis(snd, plan.blockSize, plan.entries, j)
  }
}
