/**
 Two files `x` and `x.part`, both on the sender, the second also on the receiver: whatever its time there, a
 synchronisation loses it, and only the time decides whether the hosts notice.
 */
module SyncExamples {
  import opened Base
  import opened Checksum
  import opened Wire
  import opened Network
  import opened BlockSignatures
  import opened Delta
  import opened DeltaTheorems
  import opened SyncCodec
  import opened SyncCodecTheorems
  import opened Trees
  import opened SyncPlanning
  import opened FileStreams
  import opened SyncSession
  import opened SyncTheorems
  import opened SyncLiveness
  import opened SyncFailure

  const X: Text := [120]
  const X_PART: Text := [120, 46, 112, 97, 114, 116]

  /** A digest that tells any two contents apart. */
  function Verbatim(b: Bytes): Text {
    b
  }

  function Offer(path: Text): ManifestEntry {
    ManifestEntry(path, 1, [], 0, 0)
  }

  function TwoFiles(): Manifest {
    Manifest([], [Offer(X), Offer(X_PART)])
  }

  /** The one signature of the contents of `x.part`. */
  function Signature(): BlockSignature {
    BlockSignature(0, 0, 1, WeakOf([2]), [2])
  }

  function TwoSender(): SenderHost {
    SenderHost(Verbatim, [], TwoFiles(), map[X := [1], X_PART := [2]],
               (sigs: seq<BlockSignature>) => map[WeakOf([2]) := sigs])
  }

  function PartReceiver(): ReceiverHost {
    ReceiverHost(Verbatim, (b: Bytes) => true, 1, Platform((p: Text) => 0, (p: Text) => 0, 0), (i: nat) => [Signature()])
  }

  /** The receiver has the sender's `x.part`, last changed at this time. */
  function PartOnly(mtime: int): Tree {
    map[X_PART := FileState([2], mtime, 0)]
  }

  predicate Recent(mtime: int) {
    0 <= mtime <= MTIME_TOLERANCE_NS
  }

  lemma NameIsPartName()
    ensures PartPath(X) == X_PART && X != X_PART
  {
  }

  lemma CleanNames()
    ensures IsCleanPath(X) && IsCleanPath(X_PART)
  {
    hide HasDotComponent, FirstComponent;
    NoDots(X);
    NoDots(X_PART);
    assert Normalised(X) == X;
    assert Normalised(X_PART) == X_PART by {
      NoSlashes(X_PART);
    }
  }

  /** A name without slashes is one component. */
  lemma {:induction false} OneComponent(p: Text)
    requires SLASH !in p
    ensures FirstComponent(p) == p
  {
    if p != [] {
      OneComponent(p[1..]);
    }
  }

  lemma NoDots(p: Text)
    requires SLASH !in p && p != [DOT] && p != [DOT, DOT]
    ensures !HasDotComponent(p)
  {
    OneComponent(p);
  }

  lemma {:induction false} NoSlashes(p: Text)
    requires SLASH !in p
    ensures Normalised(p) == p
  {
    if |p| >= 2 {
      NoSlashes(p[1..]);
    }
  }

  // ----- The plan -----

  function Planned(mtime: int): SyncPlan {
    SyncPlan(1, [SyncPlanEntry(Offer(X), Full, []),
                 if Recent(mtime) then SyncPlanEntry(Offer(X_PART), Skip, [])
                 else SyncPlanEntry(Offer(X_PART), DeltaSync, [Signature()])])
  }

  lemma PlanIs(mtime: int)
    ensures PlanOf(PartReceiver(), PartOnly(mtime), TwoFiles()) == Ok(Planned(mtime))
  {
    hide IsSafePath, PlanEntryFor, PartOnly, PartReceiver;
    CleanNames();
    ActionsAre(mtime);
    assert PlanEntriesFor(PartReceiver(), PartOnly(mtime), TwoFiles().files) == Planned(mtime).entries;
    HasBlockSize();
  }

  lemma HasBlockSize()
    ensures PartReceiver().blockSize == 1
  {
  }

  lemma ActionsAre(mtime: int)
    ensures PlanEntryFor(PartReceiver(), PartOnly(mtime), 0, Offer(X)) == Planned(mtime).entries[0]
    ensures PlanEntryFor(PartReceiver(), PartOnly(mtime), 1, Offer(X_PART)) == Planned(mtime).entries[1]
  {
    NameIsPartName();
  }

  lemma MessagesAreSmall(mtime: int)
    ensures Fits(ManifestFrame(TwoFiles())) && Fits(PlanFrame(Planned(mtime)))
    ensures Fits(BeginFrame(Offer(X))) && Fits(BeginFrame(Offer(X_PART)))
  {
    hide EntryBytes, PlanEntryBytes, ManyBytes;
    var files, entries := TwoFiles().files, Planned(mtime).entries;
    TwoOf(EntryBytes, files);
    TwoOf(PlanEntryBytes, entries);
    forall i | 0 <= i < 2 ensures |EntryBytes(files[i])| <= 64 && |PlanEntryBytes(entries[i])| <= 128 {
      EntryIsSmall(files[i]);
      PlanEntryIsSmall(entries[i]);
    }
  }

  lemma TwoOf<T>(encode: T -> Bytes, xs: seq<T>)
    requires |xs| == 2
    ensures |ManyBytes(encode, xs)| == |encode(xs[0])| + |encode(xs[1])|
  {
    assert xs[1..] == [xs[1]] && xs[1..][1..] == [];
    assert ManyBytes(encode, []) == [];
    assert ManyBytes(encode, [xs[1]]) == encode(xs[1]) + ManyBytes(encode, [xs[1]][1..]);
  }

  lemma EntryIsSmall(e: ManifestEntry)
    requires |e.path| <= 6 && e.sha256 == []
    ensures |EntryBytes(e)| <= 64
  {
  }

  lemma PlanEntryIsSmall(p: SyncPlanEntry)
    requires |PathOf(p)| <= 6 && p.manifestEntry.sha256 == [] && (p.basis == [] || p.basis == [Signature()])
    ensures |PlanEntryBytes(p)| <= 128
  {
    hide EntryBytes, BigEndian;
    EntryIsSmall(p.manifestEntry);
    assert [Signature()][1..] == [];
  }

  // ----- Both hosts are ready -----

  lemma SignedWhole()
    ensures Matched(Verbatim, [2], [Signature()], map[WeakOf([2]) := [Signature()]], 1)
  {
    var sigs := [Signature()];
    assert Block([2], sigs[0]) == [2];
    assert SignsNth(Verbatim, [2], 1, sigs, 0);
  }

  /** The delta of `x.part` is one copy. */
  lemma DeltaIsCopy()
    ensures DeltaOps(Verbatim, map[WeakOf([2]) := [Signature()]], 1, [2]) == [Copy(Signature())]
  {
    var lookup, w := map[WeakOf([2]) := [Signature()]], [2];
    assert w[..1] == [2] && w[1..] == [];
    assert Bucket(lookup, WeakOf(w)) == [Signature()];
    assert Found(Verbatim, lookup, w) == Some(Signature());
  }

  lemma EachIsReady(mtime: int, j: nat)
    requires j < 2
    ensures EntryReady(TwoSender(), 1, PartOnly(mtime), Planned(mtime).entries[j]) && EncodablePlanEntry(Planned(mtime).entries[j])
  {
    hide IsCleanPath, BeginFrame, OpFrames, Greedy, Matched, NoCollision, Fits;
    NameIsPartName();
    CleanNames();
    MessagesAreSmall(mtime);
    SignedWhole();
    DeltaIsCopy();
    IdentityTellsApart([2], [Signature()], [2]);
    CopyFits();
  }

  lemma IdentityTellsApart(basis: Bytes, sigs: seq<BlockSignature>, source: Bytes)
    ensures NoCollision(Verbatim, basis, sigs, source)
  {
  }

  lemma CopyFits()
    ensures AllFit(OpFrames([Copy(Signature())]))
  {
    hide OpBody;
    assert OpFrames([Copy(Signature())])[0] == OpFrame(Copy(Signature()));
    LiteralFrameSize(Copy(Signature()));
  }

  /** Whatever the time of the receiver's file, the two hosts are honest. */
  lemma PartsAreReady(mtime: int)
    ensures Ready(TwoSender(), PartReceiver(), PartOnly(mtime))
  {
    hide IsCleanPath, EntryReady, EncodablePlanEntry, PlanOf, PartOnly, ManifestBytes, PlanBytes;
    PlanIs(mtime);
    CleanNames();
    MessagesAreSmall(mtime);
    EachIsReady(mtime, 0);
    EachIsReady(mtime, 1);
    NameIsPartName();
  }

  // ----- What becomes of the second file -----

  lemma AfterFirst(mtime: int)
    ensures var one := TreeAfter(PartReceiver().platform, TwoSender().source, PartOnly(mtime), Planned(mtime).entries, 1);
            X in one && one[X].bytes == [1] && X_PART !in one
  {
    NameIsPartName();
    var first := TreeAfter(PartReceiver().platform, TwoSender().source, PartOnly(mtime), Planned(mtime).entries, 0);
    assert first == PartOnly(mtime);
  }

  lemma SecondMissesIffStale(mtime: int)
    ensures BasesServe(TwoSender(), Planned(mtime)) <==> Recent(mtime)
    ensures !Recent(mtime) ==> FirstMissing(TwoSender(), Planned(mtime), 1)
  {
    hide Greedy;
    NameIsPartName();
    DeltaIsCopy();
    assert [Copy(Signature())][0].kind == CopyFromBasis;
    if !Recent(mtime) {
      assert TakesBasis(Planned(mtime).entries, 0, 1);
      assert MissesBasis(TwoSender(), 1, Planned(mtime).entries, 1);
    }
  }

  /**
   The session sends `x` through the part file `x.part`. If the receiver's `x.part` looks up to date it is skipped,
   both hosts report success, and the file is gone. If only its time differs, its delta copies from what is no longer
   there, both hosts fail, and the file is gone as well. So under every schedule and with channels of any capacity.
   */
  lemma PartFileIsLost(mtime: int, capacity: nat, schedule: seq<Side>, end: State)
    requires var sys := Session(TwoSender(), PartReceiver(), capacity);
             capacity >= 1 && Run(sys, Start(PartOnly(mtime)), schedule) == Some(end) && Quiet(sys, end)
    ensures X in end.right.tree && end.right.tree[X].bytes == [1]
    ensures X_PART in PartOnly(mtime) && X_PART !in end.right.tree
    ensures if Recent(mtime) then end.left.SenderDone? && end.right.at.ReceiverDone?
            else end.left.SenderFailed? && end.right.at == ReceiverFailed(IoError)
  {
    hide Ready, PlanOf, Run, Session, Quiet, MissesBasis, PartOnly, Planned, TreeAfter, TwoSender, PartReceiver, ReportsAgree;
    var snd, rcv, tree := TwoSender(), PartReceiver(), PartOnly(mtime);
    SetUp(mtime);
    SucceedsIffBasesServe(snd, rcv, capacity, tree, schedule);
    if Recent(mtime) {
      var _, _, _ := EveryScheduleSucceeds(snd, rcv, capacity, tree, schedule);
    } else {
      var _, _ := EveryScheduleFails(snd, rcv, capacity, tree, 1, schedule);
    }
  }

  /** Everything about the two files in one place. */
  lemma SetUp(mtime: int)
    ensures Ready(TwoSender(), PartReceiver(), PartOnly(mtime)) && X_PART in PartOnly(mtime)
    ensures PlanOf(PartReceiver(), PartOnly(mtime), TwoSender().manifest) == Ok(Planned(mtime))
    ensures |Planned(mtime).entries| == 2 && PathOf(Planned(mtime).entries[1]) == X_PART
    ensures BasesServe(TwoSender(), Planned(mtime)) <==> Recent(mtime)
    ensures !Recent(mtime) ==> FirstMissing(TwoSender(), Planned(mtime), 1)
    ensures var one := Now(TwoSender(), PartReceiver(), PartOnly(mtime), Planned(mtime), 1);
            X in one && one[X].bytes == [1] && X_PART !in one && X != PartPath(X_PART)
    ensures var snd, rcv, tree, plan := TwoSender(), PartReceiver(), PartOnly(mtime), Planned(mtime);
            Recent(mtime) ==> Now(snd, rcv, tree, plan, 2) == Now(snd, rcv, tree, plan, 1)
  {
    hide Ready, PlanOf, MissesBasis;
    PartsAreReady(mtime);
    PlanIs(mtime);
    SecondMissesIffStale(mtime);
    AfterFirst(mtime);
    NameIsPartName();
  }
}
