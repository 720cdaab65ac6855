/**
 The two functions in a session: a host that runs its loops on the frames the other host says in a session ends where
 the session does, with the same directory, report and frames written. So what is proved of sessions of the step
 machines is proved of the functions that loop.
 */
module SyncRuns {
  import opened Base
  import opened Frames
  import opened Network
  import opened Trees
  import opened FileStreams
  import opened SyncSession
  import opened SyncTheorems
  import opened SyncLiveness
  import opened SyncFailure
  import opened SyncHosts

  lemma BreakingStopsBoth(snd: SenderHost, rcv: ReceiverHost)
    ensures BreakingStops(SenderMachine(snd)) && BreakingStops(ReceiverMachine(rcv))
    ensures forall s :: BreaksOff(SenderMachine(snd), s) ==> s == SenderFailed(NetworkError)
    ensures forall r :: BreaksOff(ReceiverMachine(rcv), r) ==> r.at == ReceiverFailed(NetworkError)
  {
    hide SenderNext, ReceiverNext, SenderGot, ReceiverGot;
  }

  /** One session that has come to rest. */
  ghost predicate Over(snd: SenderHost, rcv: ReceiverHost, capacity: nat, tree: Tree, schedule: seq<Side>, end: State) {
    && capacity >= 1 && Ready(snd, rcv, tree)
    && Run(Session(snd, rcv, capacity), Start(tree), schedule) == Some(end)
    && Quiet(Session(snd, rcv, capacity), end)
  }

  predicate ReceiverStopped(at: Receiver) {
    at.ReceiverDone? || at.ReceiverFailed?
  }

  predicate SenderStopped(s: Sender) {
    s.SenderDone? || s.SenderFailed?
  }

  lemma StoppedHalts(snd: SenderHost, rcv: ReceiverHost)
    ensures forall s :: SenderStopped(s) ==> SenderMachine(snd).act(s).Halt?
    ensures forall r: ReceiverState :: ReceiverStopped(r.at) ==> ReceiverMachine(rcv).act(r).Halt?
  {
  }

  lemma BothStop(snd: SenderHost, rcv: ReceiverHost, capacity: nat, tree: Tree, schedule: seq<Side>, end: State)
    requires Over(snd, rcv, capacity, tree, schedule, end)
    ensures SenderStopped(end.left)
    ensures end.right.at.ReceiverDone? || end.right.at == ReceiverFailed(IoError)
  {
    assert PlanOf(rcv, tree, snd.manifest).Ok?;
    hide Ready, Run, Quiet, Session, PlanOf;
    SucceedsIffBasesServe(snd, rcv, capacity, tree, schedule);
    var plan := PlanOf(rcv, tree, snd.manifest).value;
    var k := SomeIsFirst(snd, plan, |plan.entries|);
    if k < |plan.entries| {
      var _, _ := EveryScheduleFails(snd, rcv, capacity, tree, k, schedule);
    } else {
      var _, _, _ := EveryScheduleSucceeds(snd, rcv, capacity, tree, schedule);
    }
  }

  /**
   The receiving function, when it comes to an end (`SyncHosts.SyncReceiver`) on what the sender says in the session,
   ends in the session's state of the receiver, with the session's directory, and has written what it says there.
   */
  lemma ReceiverEndsSession(snd: SenderHost, rcv: ReceiverHost, capacity: nat, tree: Tree, schedule: seq<Side>, end: State,
                            conn: Connection, base: seq<Frame>, disk: Disk, at: Receiver)
    requires Over(snd, rcv, capacity, tree, schedule, end) && ReceiverStopped(at)
    requires var start := Move(ReceiverState(tree, AwaitHello), Said(Session(snd, rcv, capacity), Start(tree), schedule, Left), []);
             ReceiverIs(rcv, start, conn, base, disk, at)
    ensures at == end.right.at && disk.files == end.right.tree
    ensures conn.incoming == end.up
    ensures conn.sent == base + Said(Session(snd, rcv, capacity), Start(tree), schedule, Right)
  {
    BothStop(snd, rcv, capacity, tree, schedule, end);
    BreakingStopsBoth(snd, rcv);
    StoppedHalts(snd, rcv);
    hide Ready, Run, Quiet, Leads, Said, BreakingStops, BreaksOff, SenderMachine, ReceiverMachine;
    var here := Move(ReceiverState(disk.files, at), conn.incoming, conn.sent[|base|..]);
    RightEnds(Session(snd, rcv, capacity), Start(tree), schedule, here);
    assert conn.sent == base + conn.sent[|base|..];
  }

  /**
   The same of the sending function (`SyncHosts.SyncSender`), unless the session stopped the sender at a write to a
   receiver that had given up.
   */
  lemma SenderEndsSession(snd: SenderHost, rcv: ReceiverHost, capacity: nat, tree: Tree, schedule: seq<Side>, end: State,
                          conn: Connection, base: seq<Frame>, s: Sender)
    requires Over(snd, rcv, capacity, tree, schedule, end) && SenderStopped(s) && end.left != SenderFailed(NetworkError)
    requires var start := Move(SayHello, Said(Session(snd, rcv, capacity), Start(tree), schedule, Right), []);
             Follows(SenderMachine(snd), start, conn, base, s)
    ensures s == end.left
    ensures conn.incoming == end.down
    ensures conn.sent == base + Said(Session(snd, rcv, capacity), Start(tree), schedule, Left)
  {
    BothStop(snd, rcv, capacity, tree, schedule, end);
    BreakingStopsBoth(snd, rcv);
    StoppedHalts(snd, rcv);
    hide Ready, Run, Quiet, Leads, Said, BreakingStops, BreaksOff, SenderMachine, ReceiverMachine;
    LeftEnds(Session(snd, rcv, capacity), Start(tree), schedule, Move(s, conn.incoming, conn.sent[|base|..]));
    assert conn.sent == base + conn.sent[|base|..];
  }
}
