/**
 What no sender can do to a receiver (src/transfer/sync_session.cpp): whatever machine is at the other end and however
 the two are interleaved, nothing changes before the receiver has taken a manifest; from then on its directory only
 gains complete files at the paths of that manifest, each with the size its entry there has and its hash if it has one,
 and only loses the part files of those paths.
 */
module SyncSafety {
  import opened Base
  import opened Wire
  import opened Frames
  import opened Network
  import opened Delta
  import opened SyncCodec
  import opened Trees
  import opened SyncPlanning
  import opened FileStreams
  import opened FileReceiving
  import opened SyncSession

  /** The manifest among the frames that a receiver has read: the second frame, if it holds one. */
  function Offered(heard: seq<Frame>): Option<Manifest> {
    if |heard| < 2 || heard[1].kind != ManifestMessage then None else
      var m := Whole(ParseManifest(heard[1].body));
      if m.Ok? then Some(m.value) else None
  }

  /** After any first frame. */
  lemma SecondIsOffered(f: Frame, rest: seq<Frame>)
    requires f.kind == ManifestMessage && Whole(ParseManifest(f.body)).Ok?
    ensures forall first :: Offered([first] + ([f] + rest)) == Some(Whole(ParseManifest(f.body)).value)
  {
    hide ParseManifest;
  }

  predicate Intact(h: Digest, e: ManifestEntry, bytes: Bytes) {
    |bytes| == e.size && (e.sha256 != [] ==> h(bytes) == e.sha256)
  }

  /** The file is what entry i of the manifest promises, at its path. */
  predicate Delivers(host: ReceiverHost, m: Manifest, i: nat, path: Text, file: FileState)
    requires i < |m.files|
  {
    var e := m.files[i];
    e.path == path && IsSafePath(path) && Intact(host.h, e, file.bytes) && file == Stamped(host.platform, e, file.bytes)
  }

  predicate WellReceived(host: ReceiverHost, m: Manifest, path: Text, file: FileState) {
    exists i :: 0 <= i < |m.files| && Delivers(host, m, i, path, file)
  }

  predicate IsPartOf(m: Manifest, i: nat, path: Text)
    requires i < |m.files|
  {
    IsSafePath(m.files[i].path) && path == PartPath(m.files[i].path)
  }

  predicate IsPartFile(m: Manifest, path: Text) {
    exists i :: 0 <= i < |m.files| && IsPartOf(m, i, path)
  }

  /** What has become of a directory at one path. */
  predicate SafeAt(host: ReceiverHost, m: Manifest, was: Tree, now: Tree, path: Text) {
    && (path in now ==> (path in was && was[path] == now[path]) || WellReceived(host, m, path, now[path]))
    && (path in was && path !in now ==> IsPartFile(m, path))
  }

  ghost predicate Safe(host: ReceiverHost, m: Manifest, was: Tree, now: Tree) {
    forall path :: SafeAt(host, m, was, now, path)
  }

  // ----- What the receiver keeps -----

  /** The plan is about the manifest's files, whose paths are safe. */
  ghost predicate PlanFollows(m: Manifest, plan: SyncPlan) {
    && |plan.entries| == |m.files|
    && forall i :: 0 <= i < |m.files| ==> plan.entries[i].manifestEntry == m.files[i] && IsSafePath(m.files[i].path)
  }

  predicate OnTrack(h: Digest, e: ManifestEntry, st: Receiving) {
    (st.Applying? ==> HeaderMatches(e, st.header)) && (st.Complete? ==> Intact(h, e, st.data))
  }

  /** Once a manifest has been taken, everything is about that manifest. */
  ghost predicate SafeAfter(host: ReceiverHost, m: Manifest, at: Receiver) {
    match at
    case AwaitHello => false
    case AwaitManifest => false
    case AckManifest(taken) => taken == m
    case SendPlan(taken) => taken == m
    case AwaitPlanAck(plan, _) => PlanFollows(m, plan)
    case ReceiverAt(plan, _, _) => PlanFollows(m, plan)
    case AckFile(plan, _, _) => PlanFollows(m, plan)
    case ReceivingFile(plan, i, st, _) =>
      PlanFollows(m, plan) && (i < |plan.entries| ==> OnTrack(host.h, plan.entries[i].manifestEntry, st))
    case _ => true
  }

  /** Before, it is still being awaited or the session is over. */
  predicate SafeBefore(heard: seq<Frame>, at: Receiver) {
    match at
    case AwaitHello => heard == []
    case AwaitManifest => |heard| == 1
    case Complain(_) => true
    case ReceiverFailed(_) => true
    case _ => false
  }

  ghost predicate SafeSoFar(host: ReceiverHost, was: Tree, heard: seq<Frame>, r: ReceiverState) {
    match Offered(heard)
    case None => r.tree == was && SafeBefore(heard, r.at)
    case Some(m) => Safe(host, m, was, r.tree) && SafeAfter(host, m, r.at)
  }

  lemma FrameStaysOnTrack(h: Digest, e: ManifestEntry, basis: Option<Bytes>, st: Receiving, f: Frame)
    requires OnTrack(h, e, st)
    ensures OnTrack(h, e, OnFrame(h, e, basis, st, f))
  {
    hide ParseOp, ParseHeader, ParseU32, OpBytes;
  }

  lemma CommitIsSafe(host: ReceiverHost, m: Manifest, was: Tree, now: Tree, i: nat, bytes: Bytes)
    requires Safe(host, m, was, now) && i < |m.files| && IsSafePath(m.files[i].path) && Intact(host.h, m.files[i], bytes)
    ensures Safe(host, m, was, Trees.Committed(host.platform, now, m.files[i], bytes))
  {
    hide IsSafePath, PartPath, Intact;
    var e := m.files[i];
    var after := Trees.Committed(host.platform, now, e, bytes);
    assert Delivers(host, m, i, e.path, Stamped(host.platform, e, bytes));
    assert IsPartOf(m, i, PartPath(e.path));
    forall path ensures SafeAt(host, m, was, after, path) {
      assert SafeAt(host, m, was, now, path);
    }
  }

  lemma DiscardIsSafe(host: ReceiverHost, m: Manifest, was: Tree, now: Tree, i: nat)
    requires Safe(host, m, was, now) && i < |m.files| && IsSafePath(m.files[i].path)
    ensures Safe(host, m, was, now - {PartPath(m.files[i].path)})
  {
    hide IsSafePath, PartPath, Delivers;
    var part := PartPath(m.files[i].path);
    assert IsPartOf(m, i, part);
    forall path ensures SafeAt(host, m, was, now - {part}, path) {
      assert SafeAt(host, m, was, now, path);
    }
  }

  lemma PlanKeepsEntries(host: ReceiverHost, tree: Tree, m: Manifest)
    requires PlanOf(host, tree, m).Ok?
    ensures PlanFollows(m, PlanOf(host, tree, m).value)
  {
    hide IsSafePath, ChooseAction;
    var plan := PlanOf(host, tree, m).value;
    forall i | 0 <= i < |m.files| ensures plan.entries[i].manifestEntry == m.files[i] && IsSafePath(m.files[i].path) {
      assert plan.entries[i] == PlanEntryFor(host, tree, i, m.files[i]);
    }
  }

  // ----- Every move keeps it -----

  lemma NextIsSafe(host: ReceiverHost, was: Tree, heard: seq<Frame>, r: ReceiverState)
    requires SafeSoFar(host, was, heard, r) && !ReceiverAct(host, r).Await? && !ReceiverAct(host, r).Halt?
    ensures SafeSoFar(host, was, heard, ReceiverNext(host, r))
  {
    hide Safe, IsSafePath, PlanOf, PlanFrame, Fits, Trees.Committed, PartPath, Intact, Offered, PlanFollows;
    if Offered(heard).Some? {
      var m := Offered(heard).value;
      match r.at {
        case SendPlan(_) =>
          if PlanOf(host, r.tree, m).Ok? {
            PlanKeepsEntries(host, r.tree, m);
          }
        case ReceivingFile(plan, i, st, _) =>
          FollowedEntry(m, plan, i);
          if i < |plan.entries| && st.Complete? {
            CommitIsSafe(host, m, was, r.tree, i, st.data);
          } else if i < |plan.entries| && st.Refused? {
            DiscardIsSafe(host, m, was, r.tree, i);
          }
        case _ =>
      }
    }
  }

  lemma FollowedEntry(m: Manifest, plan: SyncPlan, i: nat)
    requires PlanFollows(m, plan)
    ensures |plan.entries| == |m.files|
    ensures i < |plan.entries| ==> plan.entries[i].manifestEntry == m.files[i] && IsSafePath(m.files[i].path)
  {
    hide IsSafePath;
  }

  /** What has been read once stays read. */
  lemma OfferedStays(heard: seq<Frame>, f: Frame)
    ensures |heard| >= 2 ==> Offered(heard + [f]) == Offered(heard)
    ensures |heard| == 0 ==> Offered(heard + [f]).None?
    ensures |heard| == 1 ==>
              var m := Whole(ParseManifest(f.body));
              Offered(heard + [f]) == if f.kind == ManifestMessage && m.Ok? then Some(m.value) else None
  {
    hide ParseManifest;
  }

  lemma GotIsSafe(host: ReceiverHost, was: Tree, heard: seq<Frame>, r: ReceiverState, f: Frame)
    requires SafeSoFar(host, was, heard, r) && ReceiverAct(host, r).Await?
    ensures SafeSoFar(host, was, heard + [f], ReceiverGot(host, r, Some(f)))
  {
    hide IsSafePath, PartPath, OnFrame, OnTrack, ParseManifest, PlanFollows, Delivers, Offered;
    OfferedStays(heard, f);
    TwoHeard(heard);
    match r.at {
      case ReceivingFile(plan, i, st, _) =>
        if i < |plan.entries| {
          var e := plan.entries[i].manifestEntry;
          FrameStaysOnTrack(host.h, e, Contents(r.tree, e.path), st, f);
        }
      case _ =>
    }
  }

  lemma TwoHeard(heard: seq<Frame>)
    ensures Offered(heard).Some? ==> |heard| >= 2
  {
  }

  lemma SilenceIsSafe(host: ReceiverHost, was: Tree, heard: seq<Frame>, r: ReceiverState)
    requires SafeSoFar(host, was, heard, r) && ReceiverAct(host, r).Await?
    ensures SafeSoFar(host, was, heard, ReceiverGot(host, r, None))
  {
    hide IsSafePath, PartPath, OnFrame, OnTrack, ParseManifest, PlanFollows, Safe, Offered;
    match r.at {
      case ReceivingFile(plan, i, st, _) =>
        FollowedEntry(Offered(heard).value, plan, i);
        if i < |plan.entries| {
          DiscardIsSafe(host, Offered(heard).value, was, r.tree, i);
        }
      case _ =>
    }
  }

  lemma BrokenIsSafe(host: ReceiverHost, was: Tree, heard: seq<Frame>, r: ReceiverState)
    requires SafeSoFar(host, was, heard, r)
    ensures SafeSoFar(host, was, heard, r.(at := ReceiverFailed(NetworkError)))
  {
    hide Safe;
  }

  lemma MoveIsSafe(host: ReceiverHost, was: Tree, heard: seq<Frame>, r: ReceiverState, inbox: seq<Frame>, outbox: seq<Frame>,
                   capacity: nat, peerStopped: bool)
    requires SafeSoFar(host, was, heard, r)
    requires Advance(ReceiverMachine(host), r, inbox, outbox, capacity, peerStopped).Some?
    ensures SafeSoFar(host, was, heard + Taken(ReceiverMachine(host), r, inbox),
                      Advance(ReceiverMachine(host), r, inbox, outbox, capacity, peerStopped).value.state)
  {
    hide SafeSoFar, ReceiverAct, ReceiverNext, ReceiverGot;
    assert heard + [] == heard;
    if ReceiverAct(host, r).Await? {
      if inbox == [] {
        SilenceIsSafe(host, was, heard, r);
      } else {
        GotIsSafe(host, was, heard, r, inbox[0]);
      }
    } else {
      NextIsSafe(host, was, heard, r);
      BrokenIsSafe(host, was, heard, r);
    }
  }

  /** Whatever machine sends, under every schedule, the frames read so far justify what the directory has become. */
  lemma {:induction false} NoSenderCanHarm<S>(sender: Machine<S>, host: ReceiverHost, capacity: nat,
                                              c: Config<S, ReceiverState>, moves: seq<Side>, was: Tree, heard: seq<Frame>)
    requires SafeSoFar(host, was, heard, c.right)
    requires Run(System(sender, ReceiverMachine(host), capacity), c, moves).Some?
    ensures var sys := System(sender, ReceiverMachine(host), capacity);
            SafeSoFar(host, was, heard + Heard(sys, c, moves, Right), Run(sys, c, moves).value.right)
    decreases |moves|
  {
    hide SafeSoFar, Advance, ReceiverMachine, Taken;
    var sys := System(sender, ReceiverMachine(host), capacity);
    if moves == [] {
      assert heard + [] == heard;
    } else {
      var now := if moves[0] == Right then Taken(sys.right, c.right, c.up) else [];
      var c1 := Step(sys, c, moves[0]).value;
      if moves[0] == Right {
        MoveIsSafe(host, was, heard, c.right, c.up, c.down, capacity, sender.act(c.left).Halt?);
      } else {
        assert heard + [] == heard;
      }
      NoSenderCanHarm(sender, host, capacity, c1, moves[1..], was, heard + now);
      JoinAssoc(heard, now, Heard(sys, c1, moves[1..], Right));
    }
  }

  /**
   From the beginning of a session: without a manifest among the frames read, the directory is as it was; with one,
   every file is as it was or is what an entry of that one manifest promises at its path, and what is gone is the part
   file of one of its entries.
   */
  lemma SessionIsSafe<S>(sender: Machine<S>, host: ReceiverHost, capacity: nat, s: S, tree: Tree, moves: seq<Side>)
    requires Run(System(sender, ReceiverMachine(host), capacity), Config(s, ReceiverState(tree, AwaitHello), [], []), moves).Some?
    ensures var sys := System(sender, ReceiverMachine(host), capacity);
            var start := Config(s, ReceiverState(tree, AwaitHello), [], []);
            var end := Run(sys, start, moves).value.right.tree;
            match Offered(Heard(sys, start, moves, Right))
            case None => end == tree
            case Some(m) => forall path :: SafeAt(host, m, tree, end, path)
  {
    hide Run, SafeAt, ReceiverMachine, Heard, SafeAfter;
    var sys := System(sender, ReceiverMachine(host), capacity);
    var start := Config(s, ReceiverState(tree, AwaitHello), [], []);
    assert SafeSoFar(host, tree, [], start.right);
    NoSenderCanHarm(sender, host, capacity, start, moves, tree, []);
    var heard := Heard(sys, start, moves, Right);
    assert [] + heard == heard;
  }

  // ----- The same of a directory whose disk may fail -----

  predicate Promises(h: Digest, m: Manifest, i: nat, path: Text, bytes: Bytes)
    requires i < |m.files|
  {
    m.files[i].path == path && IsSafePath(path) && Intact(h, m.files[i], bytes)
  }

  predicate Promised(h: Digest, m: Manifest, path: Text, bytes: Bytes) {
    exists i :: 0 <= i < |m.files| && Promises(h, m, i, path, bytes)
  }

  /** As SafeAt, but a file's times and mode may be whatever a fault has left. */
  predicate KeptAt(h: Digest, m: Manifest, was: Tree, now: Tree, path: Text) {
    && (path in now ==> (path in was && was[path] == now[path]) || Promised(h, m, path, now[path].bytes))
    && (path in was && path !in now ==> IsPartFile(m, path))
  }

  ghost predicate KeptSafe(h: Digest, m: Manifest, was: Tree, now: Tree) {
    forall path :: KeptAt(h, m, was, now, path)
  }

  /** What receiving one file makes of a directory, whatever fails: nothing, a lost part file, or the complete file. */
  ghost predicate FileStep(h: Digest, e: ManifestEntry, was: Tree, now: Tree) {
    || now == was
    || now == was - {PartPath(e.path)}
    || (e.path in now && Intact(h, e, now[e.path].bytes) && Replaced(was, now, e.path, now[e.path].bytes))
  }

  lemma {:induction false} AcceptedIsIntact(h: Digest, e: ManifestEntry, basis: Option<Bytes>, frames: seq<Frame>)
    ensures OnTrack(h, e, OnFrames(h, e, basis, frames))
  {
    hide OnFrame, OnTrack;
    if frames == [] {
      NothingOnTrack(h, e);
    } else {
      AcceptedIsIntact(h, e, basis, frames[..|frames| - 1]);
      FrameStaysOnTrack(h, e, basis, OnFrames(h, e, basis, frames[..|frames| - 1]), frames[|frames| - 1]);
    }
  }

  lemma NothingOnTrack(h: Digest, e: ManifestEntry)
    ensures OnTrack(h, e, AwaitingBegin)
  {
  }

  lemma FileStepKeeps(h: Digest, m: Manifest, i: nat, was: Tree, before: Tree, now: Tree)
    requires KeptSafe(h, m, was, before) && i < |m.files| && IsSafePath(m.files[i].path)
    requires FileStep(h, m.files[i], before, now)
    ensures KeptSafe(h, m, was, now)
  {
    hide IsSafePath, PartPath, Intact;
    var e := m.files[i];
    assert IsPartOf(m, i, PartPath(e.path));
    forall path ensures KeptAt(h, m, was, now, path) {
      assert KeptAt(h, m, was, before, path);
      if path != e.path && path in now && now != before {
        assert path in now - {e.path} && (now - {e.path})[path] == now[path];
      }
      if path != e.path && path != PartPath(e.path) && path in before && now != before {
        assert path in before - {PartPath(e.path), e.path};
      }
      if path == e.path && path in now && now != before && now != before - {PartPath(e.path)} {
        assert Promises(h, m, i, path, now[path].bytes);
      }
    }
  }
}
