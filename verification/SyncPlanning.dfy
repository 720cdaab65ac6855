/**
 The receiver's plan: per manifest entry, skip it, ask for all of it, or ask for a delta against the file it has
 (src/transfer/sync_plan.cpp).
 */
module SyncPlanning {
  import opened Base
  import opened FileIO
  import opened BlockSignatures
  import opened SyncCodec
  import opened Trees

  const MTIME_TOLERANCE_NS: int := 1_000_000

  /** What the receiver finds at a path. */
  datatype Target = Missing | NotRegular | Regular(file: FileState)

  function Abs(x: int): nat {
    if x < 0 then -x else x
  }

  function TargetIn(tree: Tree, path: Text): Target {
    if path in tree then Regular(tree[path]) else Missing
  }

  /** The quick check: size, then hash if the manifest has one, else modification time. */
  function ChooseAction(h: Digest, e: ManifestEntry, target: Target, readError: int): SyncAction {
    match target
    case Missing => Full
    case NotRegular => Full
    case Regular(file) =>
      if |file.bytes| != e.size then DeltaSync
      else if e.sha256 != [] then
        if h(file.bytes) == e.sha256 then Skip else DeltaSync
      else
        var localNs := file.mtime + readError;
        if localNs >= 0 && Abs(localNs - SignedNs(e.mtime)) <= MTIME_TOLERANCE_NS then Skip else DeltaSync
  }

  /** One entry of a plan made for this tree: the right action, and signatures of the basis when they are needed. */
  ghost predicate PlansEntry(h: Digest, platform: Platform, tree: Tree, blockSize: U32, e: ManifestEntry, p: SyncPlanEntry) {
    && p.manifestEntry == e
    && p.action == ChooseAction(h, e, TargetIn(tree, e.path), platform.readError(e.path))
    && (p.action == DeltaSync ==> Signs(h, tree[e.path].bytes, blockSize, p.basis))
    && (p.action != DeltaSync ==> p.basis == [])
  }

  ghost predicate Plans(h: Digest, platform: Platform, tree: Tree, blockSize: U32, m: Manifest, plan: SyncPlan) {
    && plan.blockSize == blockSize
    && |plan.entries| == |m.files|
    && forall i :: 0 <= i < |m.files| ==> PlansEntry(h, platform, tree, blockSize, m.files[i], plan.entries[i])
  }

  method BuildSyncPlan(h: Digest, disk: Disk, m: Manifest, blockSize: U32) returns (r: Result<SyncPlan>)
    requires forall p :: p in disk.files ==> |disk.files[p].bytes| < U63_LIMIT
    ensures blockSize == 0 ==> r == Err(InvalidArgument)
    ensures r.Ok? ==> Plans(h, disk.platform, disk.files, blockSize, m, r.value)
    ensures r.Ok? ==> forall i :: 0 <= i < |m.files| ==> IsSafePath(m.files[i].path)
    ensures r.Ok? ==> |r.value.entries| == |m.files| && forall i :: 0 <= i < |m.files| ==>
                        var e, p := m.files[i], r.value.entries[i];
                        && p.manifestEntry == e && (p.action == Full <==> e.path !in disk.files)
                        && (e.path in disk.files && |disk.files[e.path].bytes| != e.size ==> p.action == DeltaSync)
                        && (e.path in disk.files && e.sha256 != [] ==>
                              (p.action == Skip <==> |disk.files[e.path].bytes| == e.size && h(disk.files[e.path].bytes) == e.sha256))
    ensures !disk.faulty ==>
              (r.Ok? <==> blockSize > 0 && forall i :: 0 <= i < |m.files| ==> IsSafePath(m.files[i].path))
  {
    if blockSize == 0 {
      return Err(InvalidArgument);
    }
    var rootUnreadable := disk.Fails();
    if rootUnreadable {
      return Err(IoError);
    }
    var entries: seq<SyncPlanEntry> := [];
    for i := 0 to |m.files|
      invariant |entries| == i
      invariant forall j :: 0 <= j < i ==> PlansEntry(h, disk.platform, disk.files, blockSize, m.files[j], entries[j])
      invariant forall j :: 0 <= j < i ==> IsSafePath(m.files[j].path)
    {
      var entry := m.files[i];
      if !IsSafePath(entry.path) {
        return Err(InvalidArgument);
      }
      var unreadable := disk.Fails();
      if unreadable {
        return Err(IoError);
      }
      var target := TargetIn(disk.files, entry.path);
      var action := ChooseAction(h, entry, target, disk.platform.readError(entry.path));
      var basis: seq<BlockSignature> := [];
      if action == DeltaSync {
        var file := new InputFile(target.file.bytes, disk.faulty);
        var signatures := BuildBlockSignatures(h, file, blockSize);
        if signatures.Err? {
          return Err(signatures.error);
        }
        basis := signatures.value;
      }
      entries := entries + [SyncPlanEntry(entry, action, basis)];
    }
    r := Ok(SyncPlan(blockSize, entries));
  }

  // ----- Quick check -----

  /**
   When a regular file is skipped: with a hash in the manifest exactly when size and hash are its own; without one exactly
   when the size is and the time, read from the file clock, lies within a millisecond and not before the epoch.
   */
  lemma SkipIs(h: Digest, e: ManifestEntry, file: FileState, readError: int)
    ensures var action, localNs := ChooseAction(h, e, Regular(file), readError), file.mtime + readError;
            && (action == Skip || action == DeltaSync)
            && (e.sha256 != [] ==> (action == Skip <==> |file.bytes| == e.size && h(file.bytes) == e.sha256))
            && (e.sha256 == [] ==>
                  (action == Skip <==>
                     |file.bytes| == e.size && localNs >= 0 && -1_000_000 <= localNs - SignedNs(e.mtime) <= 1_000_000))
  {
  }

  /** A missing target is never skipped and never needs a basis; a present one of the wrong size is never skipped. */
  lemma ActionsNeedTheirFiles(h: Digest, e: ManifestEntry, target: Target, readError: int)
    ensures ChooseAction(h, e, target, readError) == Full <==> !target.Regular?
    ensures ChooseAction(h, e, target, readError) == Skip ==> target.Regular? && |target.file.bytes| == e.size
  {
  }
}
