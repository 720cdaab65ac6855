/**
 A synchronisation in which some delta entry's basis has been taken by a part file and its stream copies from it: both
 hosts fail, under every schedule, at the first such entry. Together with `SyncLiveness`: when a session succeeds.
 */
module SyncFailure {
  import opened Base
  import opened Frames
  import opened Network
  import opened BlockSignatures
  import opened Delta
  import opened DeltaTheorems
  import opened DeltaCopies
  import opened SyncCodec
  import opened Trees
  import opened FileStreams
  import opened FileSending
  import opened FileReceiving
  import opened SyncSession
  import opened SyncTheorems
  import opened SyncLiveness

  /** Entry k is the first whose stream copies from a basis that is gone. */
  ghost predicate FirstMissing(snd: SenderHost, plan: SyncPlan, k: nat) {
    && k < |plan.entries| && MissesBasis(snd, plan.blockSize, plan.entries, k)
    && forall i :: 0 <= i < k ==> !MissesBasis(snd, plan.blockSize, plan.entries, i)
  }

  lemma {:induction false} SomeIsFirst(snd: SenderHost, plan: SyncPlan, n: nat) returns (k: nat)
    requires n <= |plan.entries|
    ensures k <= n && forall i :: 0 <= i < k ==> !MissesBasis(snd, plan.blockSize, plan.entries, i)
    ensures k < n ==> FirstMissing(snd, plan, k)
  {
    hide MissesBasis;
    k := 0;
    if n > 0 {
      k := SomeIsFirst(snd, plan, n - 1);
      if k == n - 1 && !MissesBasis(snd, plan.blockSize, plan.entries, k) {
        k := n;
      }
    }
  }

  // ----- The sender goes on against a receiver that has stopped -----

  lemma NoMoves<S, R>(sys: System<S, R>, c: Config<S, R>)
    ensures Run(sys, c, []) == Some(c)
  {
  }

  /** One move of the left host. */
  lemma LeftMove<S, R>(sys: System<S, R>, c: Config<S, R>, d: Config<S, R>, moves: seq<Side>, e: Config<S, R>)
    requires Step(sys, c, Left) == Some(d) && Run(sys, d, moves) == Some(e)
    ensures Run(sys, c, [Left] + moves) == Some(e)
  {
    hide Step;
    assert ([Left] + moves)[0] == Left && ([Left] + moves)[1..] == moves;
  }

  /**
   With a complaint waiting and nobody reading, the sender writes what the channel holds: either it gets rid of
   everything and then reads the complaint, or a write fails.
   */
  lemma {:induction false} SenderRunsOut(snd: SenderHost, rcv: ReceiverHost, capacity: nat, plan: SyncPlan, i: nat,
                                         pending: seq<Frame>, sr: SendReport, r: ReceiverState, up: seq<Frame>)
    returns (moves: seq<Side>, end: State)
    requires AllFit(pending) && r.at.ReceiverFailed? && |up| <= capacity
    ensures var sys := Session(snd, rcv, capacity);
            && Run(sys, Config(Streaming(plan, i, pending, None, sr), r, up, [Message(ErrorMessage, [])]), moves) == Some(end)
            && Quiet(sys, end) && end.right == r
            && end.left == SenderFailed(if |up| + |pending| <= capacity then ProtocolError else NetworkError)
    decreases |pending|
  {
    hide Run, Fits;
    var sys, complaint := Session(snd, rcv, capacity), Message(ErrorMessage, []);
    var here := Config(Streaming(plan, i, pending, None, sr), r, up, [complaint]);
    if pending == [] {
      var waiting := here.(left := AwaitFileAck(plan, i, sr));
      end := Config(SenderFailed(ProtocolError), r, up, []);
      assert [complaint][1..] == [];
      NoMoves(sys, end);
      LeftMove(sys, waiting, end, [], end);
      LeftMove(sys, here, waiting, [Left] + [], end);
      moves := [Left] + ([Left] + []);
    } else if |up| == capacity {
      end := here.(left := SenderFailed(NetworkError));
      NoMoves(sys, end);
      LeftMove(sys, here, end, [], end);
      moves := [Left] + [];
    } else {
      var longer := sr.(payload := sr.payload + |pending[0].body|);
      var next := Config(Streaming(plan, i, pending[1..], None, longer), r, up + [pending[0]], [complaint]);
      moves, end := SenderRunsOut(snd, rcv, capacity, plan, i, pending[1..], longer, r, up + [pending[0]]);
      LeftMove(sys, here, next, moves, end);
      moves := [Left] + moves;
    }
  }

  // ----- The entry whose basis is gone -----

  /** The stream of such an entry: it is sendable, and the receiver refuses it at its first copy. */
  lemma MissingEntry(snd: SenderHost, rcv: ReceiverHost, tree: Tree, plan: SyncPlan, k: nat)
    requires Turn(snd, rcv, tree, plan, k) && MissesBasis(snd, plan.blockSize, plan.entries, k)
    ensures PathOf(plan.entries[k]) in snd.source && plan.blockSize > 0
    ensures var p, now := plan.entries[k], Now(snd, rcv, tree, plan, k);
            var e, ops := p.manifestEntry, EntryOps(snd, plan.blockSize, p);
            && p.action == DeltaSync && |ops| < U32_LIMIT && HasCopy(ops)
            && var frames := StreamFrames(e, ops);
            && |frames| == |ops| + 2
            && Transmit(snd, p, plan.blockSize) == Transmission(frames, None) && AllFit(frames)
            && forall n :: 0 <= n <= FirstCopy(ops) + 2 ==>
                 var st := OnFrames(rcv.h, e, Contents(now, e.path), frames[..n]);
                 if n == FirstCopy(ops) + 2 then st == Refused(IoError) else IsOpen(st)
  {
    hide OnFrames, Transmit, StreamFrames, EntryOps, HasCopy, FirstCopy, TreeAfter, Sendable;
    var p := plan.entries[k];
    var i :| 0 <= i < k && TakesBasis(plan.entries, i, k);
    BasisGone(rcv.platform, snd.source, tree, plan.entries, i, k, k);
    EntryTransmission(snd, plan.blockSize, tree, p);
    var ops := EntryOps(snd, plan.blockSize, p);
    StreamSize(p.manifestEntry, ops);
    EntryOpsShort(snd, plan.blockSize, tree, p);
    forall n | 0 <= n <= FirstCopy(ops) + 2
      ensures var st := OnFrames(rcv.h, p.manifestEntry, None, StreamFrames(p.manifestEntry, ops)[..n]);
              if n == FirstCopy(ops) + 2 then st == Refused(IoError) else IsOpen(st)
    {
      CopyIsRefused(rcv.h, p.manifestEntry, ops, n);
    }
  }

  lemma EntryOpsShort(snd: SenderHost, blockSize: U32, tree: Tree, p: SyncPlanEntry)
    requires EntryReady(snd, blockSize, tree, p) && p.action == DeltaSync && blockSize > 0
    ensures var ops := EntryOps(snd, blockSize, p); forall i :: 0 <= i < |ops| ==> |ops[i].data| < U64_LIMIT
  {
    hide Greedy;
    var ops, basis, source := EntryOps(snd, blockSize, p), tree[PathOf(p)].bytes, snd.source[PathOf(p)];
    DeltaOpsShape(snd.h, basis, p.basis, snd.index(p.basis), blockSize, source);
    forall i | 0 <= i < |ops| ensures |ops[i].data| < U64_LIMIT {
      assert WellShaped(ops[i], |basis|, if i < |ops| - 1 then blockSize else LiteralBound(blockSize));
    }
  }

  /** The receiver refuses, removes its part file, complains and stops. */
  lemma ReceiverGivesUp(snd: SenderHost, rcv: ReceiverHost, capacity: nat, plan: SyncPlan, k: nat, s: Sender, now: Tree,
                        rr: ReceiveReport)
    requires capacity >= 1 && k < |plan.entries|
    ensures var part := PartPath(PathOf(plan.entries[k]));
            Run(Session(snd, rcv, capacity), At(s, ReceiverState(now, ReceivingFile(plan, k, Refused(IoError), rr))), [Right, Right])
            == Some(Config(s, ReceiverState(now - {part}, ReceiverFailed(IoError)), [], [Message(ErrorMessage, [])]))
  {
    hide Run, PartPath;
    var sys, complaint := Session(snd, rcv, capacity), Message(ErrorMessage, []);
    var start := At(s, ReceiverState(now, ReceivingFile(plan, k, Refused(IoError), rr)));
    var part := PartPath(PathOf(plan.entries[k]));
    var c1 := At(s, ReceiverState(now - {part}, Complain(IoError)));
    assert Step(sys, start, Right) == Some(c1);
    assert [] + [complaint] == [complaint];
    assert Step(sys, c1, Right) == Some(Config(s, ReceiverState(now - {part}, ReceiverFailed(IoError)), [], [complaint]));
    TwoMoves(sys, start, Right, Right);
  }

  // ----- The whole session -----

  /**
   How it ends: the files before entry k are done, nothing after them is, and the sender has noticed by the complaint
   or, if the channel is too short for the rest of the stream, by a failed write.
   */
  ghost predicate FailedAt(snd: SenderHost, rcv: ReceiverHost, capacity: nat, tree: Tree, plan: SyncPlan, k: nat, end: State)
    requires FirstMissing(snd, plan, k)
  {
    var ops := EntryOps(snd, plan.blockSize, plan.entries[k]);
    && end.left == SenderFailed(if |ops| - FirstCopy(ops) <= capacity then ProtocolError else NetworkError)
    && end.right.at == ReceiverFailed(IoError)
    && end.right.tree == Now(snd, rcv, tree, plan, k) - {PartPath(PathOf(plan.entries[k]))}
  }

  lemma EntryFails(snd: SenderHost, rcv: ReceiverHost, capacity: nat, tree: Tree, plan: SyncPlan, k: nat, sr: SendReport,
                   rr: ReceiveReport)
    returns (moves: seq<Side>, end: State)
    requires capacity >= 1 && FirstMissing(snd, plan, k) && Turn(snd, rcv, tree, plan, k)
    ensures var sys := Session(snd, rcv, capacity);
            && Run(sys, Between(snd, rcv, tree, plan, k, sr, rr), moves) == Some(end) && Quiet(sys, end)
            && FailedAt(snd, rcv, capacity, tree, plan, k, end)
  {
    hide Run, Session, OnFrames, Transmit, Turn, EntryOps, HasCopy, FirstCopy, StreamFrames, Between, MissesBasis, PayloadOf,
         TreeAfter, PartPath, Quiet, Fits;
    var sys, now, p := Session(snd, rcv, capacity), Now(snd, rcv, tree, plan, k), plan.entries[k];
    MissingEntry(snd, rcv, tree, plan, k);
    var ops := EntryOps(snd, plan.blockSize, p);
    var frames, n := StreamFrames(p.manifestEntry, ops), FirstCopy(ops) + 2;
    var c0 := Between(snd, rcv, tree, plan, k, sr, rr);
    var c1 := At(SendingAt(plan, k, frames, 0, sr), ReadingAt(rcv, plan, k, frames, 0, now, rr));
    var s := SendingAt(plan, k, frames, n, sr);
    var c2 := At(s, ReadingAt(rcv, plan, k, frames, n, now, rr));
    var gone := ReceiverState(now - {PartPath(PathOf(p))}, ReceiverFailed(IoError));
    var c3 := Config(s, gone, [], [Message(ErrorMessage, [])]);
    TransferOpens(snd, rcv, capacity, tree, plan, k, frames, sr, rr);
    var pass := StreamPasses(snd, rcv, capacity, plan, k, frames, n, now, sr, rr);
    ReceiverGivesUp(snd, rcv, capacity, plan, k, s, now, rr);
    var tail;
    tail, end := SenderRunsOut(snd, rcv, capacity, plan, k, frames[n..], s.report, gone, []);
    RunChain(sys, c0, [Left, Right], c1, pass, c2);
    moves := [Left, Right] + pass;
    RunChain(sys, c0, moves, c2, [Right, Right], c3);
    moves := moves + [Right, Right];
    RunChain(sys, c0, moves, c3, tail, end);
    moves := moves + tail;
  }

  lemma SomeScheduleFails(snd: SenderHost, rcv: ReceiverHost, capacity: nat, tree: Tree, k: nat)
    returns (moves: seq<Side>, end: State)
    requires capacity >= 1 && Ready(snd, rcv, tree) && PlanOf(rcv, tree, snd.manifest).Ok?
    requires FirstMissing(snd, PlanOf(rcv, tree, snd.manifest).value, k)
    ensures var sys := Session(snd, rcv, capacity);
            && Run(sys, Start(tree), moves) == Some(end) && Quiet(sys, end)
            && FailedAt(snd, rcv, capacity, tree, PlanOf(rcv, tree, snd.manifest).value, k, end)
  {
    hide Run, Session, EntryReady, ReportsAgree, Turn, PlanOf, MissesBasis, FailedAt, Quiet;
    var sys := Session(snd, rcv, capacity);
    var plan := PlanOf(rcv, tree, snd.manifest).value;
    PlanIsTurns(snd, rcv, tree);
    var n := |plan.entries|;
    var greeting := Greeting(snd, rcv, capacity, tree);
    var planning := Planning(snd, rcv, capacity, tree);
    var c0 := At(AwaitPlan, ReceiverState(tree, SendPlan(snd.manifest)));
    var c1 := Between(snd, rcv, tree, plan, 0, NoSends(n), NoReceipts(n));
    var body, sr, rr := AllEntries(snd, rcv, capacity, tree, plan, k, n);
    var c2 := Between(snd, rcv, tree, plan, k, sr, rr);
    var last;
    last, end := EntryFails(snd, rcv, capacity, tree, plan, k, sr, rr);
    RunChain(sys, Start(tree), greeting, c0, planning, c1);
    RunChain(sys, Start(tree), greeting + planning, c1, body, c2);
    moves := greeting + planning + body;
    RunChain(sys, Start(tree), moves, c2, last, end);
    moves := moves + last;
  }

  /** Under every schedule: a run can go on to that failure, and one that cannot go on has ended there. */
  lemma EveryScheduleFails(snd: SenderHost, rcv: ReceiverHost, capacity: nat, tree: Tree, k: nat, schedule: seq<Side>)
    returns (rest: seq<Side>, end: State)
    requires capacity >= 1 && Ready(snd, rcv, tree) && PlanOf(rcv, tree, snd.manifest).Ok?
    requires FirstMissing(snd, PlanOf(rcv, tree, snd.manifest).value, k)
    requires Run(Session(snd, rcv, capacity), Start(tree), schedule).Some?
    ensures var sys := Session(snd, rcv, capacity);
            var here := Run(sys, Start(tree), schedule).value;
            && Run(sys, here, rest) == Some(end) && (Quiet(sys, here) ==> here == end)
            && FailedAt(snd, rcv, capacity, tree, PlanOf(rcv, tree, snd.manifest).value, k, end)
  {
    hide PlanOf, Ready, FirstMissing, FailedAt;
    var moves;
    moves, end := SomeScheduleFails(snd, rcv, capacity, tree, k);
    var sys := Session(snd, rcv, capacity);
    rest := AnySchedule(sys, Start(tree), moves, end, schedule);
    assert Quiet(sys, Run(sys, Start(tree), schedule).value) ==> rest == [];
  }

  /**
   A session of honest hosts that has come to rest has succeeded on the sender, and on the receiver, if and only if
   every entry's stream finds the basis it copies from; otherwise both hosts have failed.
   */
  lemma SucceedsIffBasesServe(snd: SenderHost, rcv: ReceiverHost, capacity: nat, tree: Tree, schedule: seq<Side>)
    requires capacity >= 1 && Ready(snd, rcv, tree) && PlanOf(rcv, tree, snd.manifest).Ok?
    requires Run(Session(snd, rcv, capacity), Start(tree), schedule).Some?
    requires Quiet(Session(snd, rcv, capacity), Run(Session(snd, rcv, capacity), Start(tree), schedule).value)
    ensures var plan := PlanOf(rcv, tree, snd.manifest).value;
            var end := Run(Session(snd, rcv, capacity), Start(tree), schedule).value;
            && (end.left.SenderDone? <==> BasesServe(snd, plan))
            && (end.right.at.ReceiverDone? <==> BasesServe(snd, plan))
            && (!BasesServe(snd, plan) ==> end.left.SenderFailed? && end.right.at == ReceiverFailed(IoError))
  {
    hide PlanOf, Ready, Run, Session, Quiet, ReportsAgree, MissesBasis;
    var plan := PlanOf(rcv, tree, snd.manifest).value;
    var k := SomeIsFirst(snd, plan, |plan.entries|);
    if k < |plan.entries| {
      var _, _ := EveryScheduleFails(snd, rcv, capacity, tree, k, schedule);
    } else {
      var _, _, _ := EveryScheduleSucceeds(snd, rcv, capacity, tree, schedule);
    }
  }

  // ----- The condition in terms of files -----

  /** A block of entry j's basis, as the receiver signed it, occurs in the file that is sent. */
  ghost predicate BasisUsed(snd: SenderHost, blockSize: U32, tree: Tree, p: SyncPlanEntry) {
    && PathOf(p) in tree && PathOf(p) in snd.source
    && SomeBlockOccurs(tree[PathOf(p)].bytes, p.basis, blockSize, snd.source[PathOf(p)])
  }

  lemma MissesIffUsed(snd: SenderHost, blockSize: U32, tree: Tree, entries: seq<SyncPlanEntry>, j: nat)
    requires j < |entries| && EntryReady(snd, blockSize, tree, entries[j])
    ensures MissesBasis(snd, blockSize, entries, j) <==> LosesBasis(entries, j) && BasisUsed(snd, blockSize, tree, entries[j])
  {
    hide Matched, NoCollision, HasCopy, SomeBlockOccurs, Sendable, Greedy;
    if LosesBasis(entries, j) {
      var p := entries[j];
      CopiesIffBlockOccurs(snd.h, tree[PathOf(p)].bytes, p.basis, snd.index(p.basis), blockSize, snd.source[PathOf(p)]);
      MatchedHasBlocks(snd.h, tree[PathOf(p)].bytes, p.basis, snd.index(p.basis), blockSize);
    }
  }

  lemma MatchedHasBlocks(h: Digest, basis: Bytes, sigs: seq<BlockSignature>, lookup: Lookup, blockSize: U32)
    requires Matched(h, basis, sigs, lookup, blockSize)
    ensures blockSize > 0
  {
  }

  /**
   The same as a condition on files and names that can be checked before the session: it succeeds if and only if no file
   whose receiver's copy is taken for an earlier file's part file has a block of that copy in it.
   */
  lemma SucceedsIffBlocksUnused(snd: SenderHost, rcv: ReceiverHost, capacity: nat, tree: Tree, schedule: seq<Side>, end: State)
    requires capacity >= 1 && Ready(snd, rcv, tree) && PlanOf(rcv, tree, snd.manifest).Ok?
    requires Run(Session(snd, rcv, capacity), Start(tree), schedule) == Some(end) && Quiet(Session(snd, rcv, capacity), end)
    ensures var plan := PlanOf(rcv, tree, snd.manifest).value;
            end.left.SenderDone? && end.right.at.ReceiverDone?
            <==> forall j :: 0 <= j < |plan.entries| && LosesBasis(plan.entries, j) ==>
                   !BasisUsed(snd, plan.blockSize, tree, plan.entries[j])
  {
    hide PlanOf, Ready, Run, Session, Quiet, LosesBasis, BasisUsed, EntryReady, MissesBasis;
    var plan := PlanOf(rcv, tree, snd.manifest).value;
    SucceedsIffBasesServe(snd, rcv, capacity, tree, schedule);
    PlanIsTurns(snd, rcv, tree);
    forall j | 0 <= j < |plan.entries|
      ensures MissesBasis(snd, plan.blockSize, plan.entries, j)
              <==> LosesBasis(plan.entries, j) && BasisUsed(snd, plan.blockSize, tree, plan.entries[j])
    {
      assert Turn(snd, rcv, tree, plan, j);
      MissesIffUsed(snd, plan.blockSize, tree, plan.entries, j);
    }
  }

  /** No schedule of honest hosts runs forever. */
  lemma SchedulesAreBounded(snd: SenderHost, rcv: ReceiverHost, capacity: nat, tree: Tree) returns (length: nat)
    requires capacity >= 1 && Ready(snd, rcv, tree)
    ensures forall schedule :: Run(Session(snd, rcv, capacity), Start(tree), schedule).Some? ==> |schedule| <= length
  {
    hide ReportsAgree, PlanOf, MissesBasis, Quiet, FailedAt;
    assert PlanOf(rcv, tree, snd.manifest).Ok?;
    hide Ready;
    var sys, plan := Session(snd, rcv, capacity), PlanOf(rcv, tree, snd.manifest).value;
    var k := SomeIsFirst(snd, plan, |plan.entries|);
    var moves, end;
    if k < |plan.entries| {
      moves, end := SomeScheduleFails(snd, rcv, capacity, tree, k);
    } else {
      var sr, rr;
      moves, sr, rr := SomeScheduleSucceeds(snd, rcv, capacity, tree);
      end := Run(sys, Start(tree), moves).value;
      EndsQuiet(snd, rcv, capacity, end);
    }
    length := |moves|;
    forall schedule | Run(sys, Start(tree), schedule).Some? ensures |schedule| <= length {
      var _ := AnySchedule(sys, Start(tree), moves, end, schedule);
    }
  }

  lemma EndsQuiet(snd: SenderHost, rcv: ReceiverHost, capacity: nat, end: State)
    requires end.left.SenderDone? && end.right.at.ReceiverDone?
    ensures Quiet(Session(snd, rcv, capacity), end)
  {
  }
}
