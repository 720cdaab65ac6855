/**
 When two hosts are ready for a session: conditions on manifest, files and block size that can be checked before it.
 */
module SyncReadiness {
  import opened Base
  import opened Wire
  import opened Frames
  import opened BlockSignatures
  import opened Delta
  import opened DeltaTheorems
  import opened SyncCodec
  import opened SyncCodecTheorems
  import opened Trees
  import opened SyncPlanning
  import opened FileStreams
  import opened SyncSession
  import opened SyncTheorems
  import opened SyncOutcome

  lemma {:induction false} FewChunks(data: Bytes, chunkSize: U32)
    requires chunkSize > 0
    ensures |ChunksOf(data, chunkSize)| <= |data|
    decreases |data|
  {
    if |data| > chunkSize {
      FewChunks(data[chunkSize..], chunkSize);
    }
  }

  lemma CleanIsSafe(path: Text)
    requires IsCleanPath(path)
    ensures IsSafePath(path)
  {
  }

  // ----- A plan that fits a frame has few signatures -----

  lemma {:induction false} ManyIsLong<T>(encode: T -> Bytes, xs: seq<T>)
    requires forall x :: x in xs ==> encode(x) != []
    ensures |ManyBytes(encode, xs)| >= |xs|
    ensures forall x :: x in xs ==> |ManyBytes(encode, xs)| >= |encode(x)|
  {
    if xs != [] {
      ManyIsLong(encode, xs[1..]);
    }
  }

  lemma SignatureIsSomething(s: BlockSignature)
    ensures SignatureBytes(s) != []
  {
    hide TextBytes;
  }

  lemma PlanEntryIsLong(p: SyncPlanEntry)
    ensures |PlanEntryBytes(p)| > |p.basis|
  {
    hide EntryBytes, SignatureBytes, ManyBytes;
    forall s ensures SignatureBytes(s) != [] {
      SignatureIsSomething(s);
    }
    ManyIsLong(SignatureBytes, p.basis);
  }

  lemma FittingPlanIsShort(plan: SyncPlan)
    requires Fits(PlanFrame(plan))
    ensures |plan.entries| < U32_LIMIT && forall i :: 0 <= i < |plan.entries| ==> |plan.entries[i].basis| < U32_LIMIT
  {
    hide PlanEntryBytes, ManyBytes;
    forall p: SyncPlanEntry ensures |PlanEntryBytes(p)| > |p.basis| {
      PlanEntryIsLong(p);
    }
    ManyIsLong(PlanEntryBytes, plan.entries);
  }

  // ----- One entry -----

  /**
   Of a file that both hosts have: the receiver's signatures are of its file, the digest tells its blocks from windows of
   the sender's, and the largest literal fits a frame.
   */
  ghost predicate SignedHere(snd: SenderHost, rcv: ReceiverHost, tree: Tree, i: nat, e: ManifestEntry) {
    && e.path in tree && e.path in snd.source
    && var basis, sigs := tree[e.path].bytes, rcv.cut(i);
    && |basis| < U63_LIMIT
    && Matched(snd.h, basis, sigs, snd.index(sigs), rcv.blockSize)
    && NoCollision(snd.h, basis, sigs, snd.source[e.path])
    && (forall s :: s in sigs ==> ShortText(s.strong))
    && LiteralBound(rcv.blockSize) <= MAX_DELTA_DATA
  }

  lemma EntryIsReady(snd: SenderHost, rcv: ReceiverHost, tree: Tree, i: nat, e: ManifestEntry)
    requires DescribesFile(snd.h, snd.source, e) && EncodableEntry(e) && 0 < rcv.blockSize <= MAX_DELTA_DATA
    requires e.size < U32_LIMIT && Fits(BeginFrame(e))
    requires var p := PlanEntryFor(rcv, tree, i, e);
             |p.basis| < U32_LIMIT && (p.action == DeltaSync ==> SignedHere(snd, rcv, tree, i, e))
    ensures var p := PlanEntryFor(rcv, tree, i, e); EntryReady(snd, rcv.blockSize, tree, p) && EncodablePlanEntry(p)
  {
    hide IsCleanPath, BeginFrame, ChunksOf, Fits, ChooseAction, Matched, NoCollision, DeltaOps, LiteralBound, OpFrames;
    var source := snd.source[e.path];
    assert source[..e.size] == source;
    FewChunks(source, rcv.blockSize);
    if PlanEntryFor(rcv, tree, i, e).action == DeltaSync {
      var sigs := rcv.cut(i);
      SmallDeltaSendable(snd.h, tree[e.path].bytes, sigs, snd.index(sigs), e, rcv.blockSize, source);
    }
  }

  // ----- All of them -----

  /**
   A synchronisation into any directory: the hosts are ready as soon as the manifest describes files below 4 GiB under
   distinct clean paths, the frames of the negotiation fit, and each file that needs a delta is signed as it is, with a
   block size whose largest literal fits a frame.
   */
  lemma SyncIsReady(snd: SenderHost, rcv: ReceiverHost, tree: Tree)
    requires snd.h == rcv.h && rcv.isSyncHello(snd.hello) && Fits(Message(Hello, snd.hello))
    requires EncodableManifest(snd.manifest) && Fits(ManifestFrame(snd.manifest)) && DistinctPaths(snd.manifest.files)
    requires ManifestDescribes(snd.h, snd.source, snd.manifest) && 0 < rcv.blockSize <= MAX_DELTA_DATA
    requires forall i :: 0 <= i < |snd.manifest.files| ==>
               snd.manifest.files[i].size < U32_LIMIT && Fits(BeginFrame(snd.manifest.files[i]))
    requires Fits(PlanFrame(SyncPlan(rcv.blockSize, PlanEntriesFor(rcv, tree, snd.manifest.files))))
    requires forall i :: 0 <= i < |snd.manifest.files| && PlanEntryFor(rcv, tree, i, snd.manifest.files[i]).action == DeltaSync ==>
               SignedHere(snd, rcv, tree, i, snd.manifest.files[i])
    ensures Ready(snd, rcv, tree)
  {
    hide IsCleanPath, ManifestFrame, PlanFrame, BeginFrame, DistinctPaths, Fits, SignedHere, EntryReady, EncodablePlanEntry,
         PlanEntryFor;
    var files := snd.manifest.files;
    var entries := PlanEntriesFor(rcv, tree, files);
    FittingPlanIsShort(SyncPlan(rcv.blockSize, entries));
    forall i | 0 <= i < |files|
      ensures IsSafePath(files[i].path) && EntryReady(snd, rcv.blockSize, tree, entries[i]) && EncodablePlanEntry(entries[i])
    {
      CleanIsSafe(files[i].path);
      EntryIsReady(snd, rcv, tree, i, files[i]);
    }
  }

  /** A first synchronisation, into an empty directory: every file is sent whole, and every stream serves. */
  lemma FirstSyncIsReady(snd: SenderHost, rcv: ReceiverHost)
    requires snd.h == rcv.h && rcv.isSyncHello(snd.hello) && Fits(Message(Hello, snd.hello))
    requires EncodableManifest(snd.manifest) && Fits(ManifestFrame(snd.manifest)) && DistinctPaths(snd.manifest.files)
    requires ManifestDescribes(snd.h, snd.source, snd.manifest) && 0 < rcv.blockSize <= MAX_DELTA_DATA
    requires forall i :: 0 <= i < |snd.manifest.files| ==>
               snd.manifest.files[i].size < U32_LIMIT && Fits(BeginFrame(snd.manifest.files[i]))
    requires Fits(PlanFrame(SyncPlan(rcv.blockSize, PlanEntriesFor(rcv, map[], snd.manifest.files))))
    ensures Ready(snd, rcv, map[]) && BasesServe(snd, AgreedPlan(snd, rcv, map[]))
    ensures forall i :: 0 <= i < |snd.manifest.files| ==> AgreedPlan(snd, rcv, map[]).entries[i].action == Full
  {
    forall i | 0 <= i < |snd.manifest.files| ensures PlanEntryFor(rcv, map[], i, snd.manifest.files[i]).action == Full {
    }
    hide PlanFrame, ManifestFrame, EncodableManifest, DistinctPaths, ManifestDescribes, Fits, EntryReady, EncodablePlan, PlanEntryFor;
    SyncIsReady(snd, rcv, map[]);
  }
}
