/**
 Whole runs of the scheduler: what holds in every reachable state, the order in which tasks of one machine are
 started, and that waiting tasks of reachable machines can always be drained.
 */
module SchedulerRuns {
  import opened Base
  import opened SchedulerState
  import opened SchedulerConservation
  import opened SchedulerTheorems

  // ----- The queue never waits needlessly -----

  /** No waiting task could be started, unless the limit on all sends is reached. */
  ghost predicate NeverIdle(s: State) {
    |s.running| >= s.limits.maxGlobal || forall i :: 0 <= i < |s.queue| ==> !Startable(s, s.queue[i])
  }

  lemma {:induction false} StartNextExhausts(s: State, can: CanStart)
    ensures NeverIdle(StartNext(s, can))
    decreases |s.queue|
  {
    hide StartOne, Startable;
    if s.queue != [] && |s.running| < s.limits.maxGlobal && FirstStartable(s, 0) < |s.queue| {
      StartOneShrinks(s, FirstStartable(s, 0), can);
      StartNextExhausts(StartOne(s, FirstStartable(s, 0), can), can);
    }
  }

  lemma ErasedNeverIdle(s: State, peer: Text)
    requires NeverIdle(s)
    ensures NeverIdle(s.(peers := s.peers - {peer}))
  {
    var t := s.(peers := s.peers - {peer});
    forall i | 0 <= i < |t.queue| && Startable(t, t.queue[i]) ensures Startable(s, s.queue[i]) {
    }
  }

  lemma MarkedNeverIdle(s: State, id: nat)
    requires NeverIdle(s)
    ensures NeverIdle(MarkCompleted(s, id))
  {
    hide RunningFor;
    var t := MarkCompleted(s, id);
    FewerRunning(s.running, t.running, []);
    FewerRunning(t.running, s.running, []);
    forall i | 0 <= i < |t.queue| && Startable(t, t.queue[i]) ensures Startable(s, s.queue[i]) {
      FewerRunning(t.running, s.running, t.queue[i].peer);
    }
  }

  lemma StepNeverIdle(s: State, input: Input)
    requires NeverIdle(s)
    ensures NeverIdle(Step(s, input))
  {
    hide NeverIdle, StartNext, MarkCompleted;
    if Starts(s, input.event) {
      StartNextExhausts(Changed(s, input.event), input.can);
    } else {
      match input.event {
        case PeerErased(peer) => ErasedNeverIdle(s, peer);
        case Moved(_, _) =>
        case PausedTask(_) =>
        case ResumedTask(_) =>
        case StoppedAll => StoppedNeverIdle(s);
        case RunnerReported(id) => MarkedNeverIdle(s, id);
      }
    }
  }

  lemma StoppedNeverIdle(s: State)
    ensures NeverIdle(StopAll(s))
  {
  }

  // ----- Reachable states -----

  lemma Initially()
    ensures Invariant(INITIAL) && NeverIdle(INITIAL)
  {
    forall id ensures Accounted(INITIAL, id) {
    }
    forall peer ensures RunningFor(INITIAL.running, peer) <= 4 {
      assert RunningIds(INITIAL.running, peer) == {};
    }
  }

  lemma {:induction false} RunKeeps(s: State, inputs: seq<Input>)
    requires Invariant(s) && NeverIdle(s)
    ensures Invariant(Run(s, inputs)) && NeverIdle(Run(s, inputs))
    decreases |inputs|
  {
    hide Invariant, NeverIdle, Step;
    if inputs != [] {
      StepKeeps(s, inputs[0]);
      StepNeverIdle(s, inputs[0]);
      RunKeeps(Step(s, inputs[0]), inputs[1..]);
    }
  }

  ghost predicate Reachable(s: State) {
    exists inputs :: s == Run(INITIAL, inputs)
  }

  lemma ReachableKeeps(s: State)
    requires Reachable(s)
    ensures Invariant(s) && NeverIdle(s)
  {
    hide Invariant, NeverIdle, Run;
    var inputs :| s == Run(INITIAL, inputs);
    Initially();
    RunKeeps(INITIAL, inputs);
  }

  function One(b: bool): nat {
    if b then 1 else 0
  }

  /** Every id below the next one is in exactly one place, once; no other id is anywhere. */
  lemma TasksAreConserved(s: State, id: nat)
    requires Reachable(s)
    ensures One(Queued(s.queue, id)) + One(id in s.paused) + One(id in s.running) + One(id in s.retired)
         == One(1 <= id < s.nextId)
    ensures forall i, j :: 0 <= i < |s.queue| && 0 <= j < |s.queue| && s.queue[i].id == s.queue[j].id ==> i == j
  {
    hide Reachable, Tracked, Recorded, Bounded, PausedMatch, RunningMatch;
    ReachableKeeps(s);
    QueuedIds(s.queue, id);
    IdsQueued(s.queue, id);
    assert Places(IdsIn(s.queue), s.paused.Keys, s.running.Keys, s.retired.Keys, s.nextId);
  }

  lemma IdsQueued(q: seq<QueuedSend>, id: nat)
    ensures id in IdsIn(q) ==> Queued(q, id)
  {
    assert forall i :: 0 <= i < IndexOf(q, id) ==> q[i].id != id;
  }

  /** Limits hold over the whole run, and no task that could start is kept waiting. */
  lemma LimitsHoldAndNothingIdles(s: State, peer: Text)
    requires Reachable(s)
    ensures |s.running| <= 8 && RunningFor(s.running, peer) <= 4
    ensures forall i :: 0 <= i < |s.attempts| ==> WithinLimits(s.attempts[i])
    ensures |s.running| < s.limits.maxGlobal ==> forall i :: 0 <= i < |s.queue| ==> !Startable(s, s.queue[i])
  {
    hide Reachable, Tracked, Recorded, Conserved, WithinLimits, RunningFor;
    ReachableKeeps(s);
  }

  // ----- No report is lost -----

  lemma {:induction false} StartNextReports(s: State, can: CanStart)
    ensures StartNext(s, can).reported == s.reported && StartNext(s, can).peers == s.peers
    ensures |StartNext(s, can).queue| <= |s.queue|
    ensures forall task :: task in StartNext(s, can).queue ==> task in s.queue
    decreases |s.queue|
  {
    hide StartOne, Startable, RunningFor;
    if s.queue != [] && |s.running| < s.limits.maxGlobal && FirstStartable(s, 0) < |s.queue| {
      StartOneFields(s, FirstStartable(s, 0), can);
      StartNextReports(StartOne(s, FirstStartable(s, 0), can), can);
    }
  }

  lemma ChangedReports(s: State, event: Event)
    ensures s.reported <= Changed(s, event).reported
  {
    if event.EnqueuedMany? {
      AddForPeersIsQuiet(s, event.tos, {}, event.path);
    } else {
      hide Dropping, PeerIdsIn, PausedFor, Queued, IndexOf, Without, Retiring;
    }
  }

  lemma {:induction false} RunReports(s: State, inputs: seq<Input>)
    ensures s.reported <= Run(s, inputs).reported
    decreases |inputs|
  {
    hide Changed, StartNext, Starts;
    if inputs != [] {
      ChangedReports(s, inputs[0].event);
      StartNextReports(Changed(s, inputs[0].event), inputs[0].can);
      RunReports(Step(s, inputs[0]), inputs[1..]);
    }
  }

  /**
   Once a live thread has reported, its entry stays marked completed until it is reaped or everything is stopped, and
   the next pump reaps it; a thread always finds its entry unless everything was stopped before.
   */
  lemma NoReportIsLost(s: State, id: nat, can: CanStart, later: seq<Input>)
    requires Reachable(s) && id in s.live
    ensures id in s.running || (id in s.retired && s.retired[id].Stopped?)
    ensures var t := Run(Step(s, Input(RunnerReported(id), can)), later);
            && (id in t.running ==> t.running[id].completed)
            && (id !in t.running ==> id in t.retired && (t.retired[id].Reaped? || t.retired[id].Stopped?))
            && id !in Step(t, Input(Pumped, can)).running
  {
    hide Reachable, Run, Conserved, Recorded, Bounded, NeverIdle, StartNext;
    ReachableKeeps(s);
    assert Accounted(s, id);
    var u := Step(s, Input(RunnerReported(id), can));
    assert id in u.reported;
    StepKeeps(s, Input(RunnerReported(id), can));
    StepNeverIdle(s, Input(RunnerReported(id), can));
    RunKeeps(u, later);
    RunReports(u, later);
    var t := Run(u, later);
    assert Accounted(t, id);
    PumpForgets(t, id, can);
  }

  lemma PumpForgets(t: State, id: nat, can: CanStart)
    requires Invariant(t) && id in t.reported
    ensures id !in Step(t, Input(Pumped, can)).running
  {
    hide Invariant, StartNext;
    var r := Reap(t);
    assert id !in r.running && id in r.reported by {
      assert Invariant(t);
      ReapedAll(t, id);
    }
    ReapKeeps(t);
    StartNextSpares(r, id, can);
  }

  lemma ReapedAll(t: State, id: nat)
    requires Invariant(t) && id in t.reported
    ensures id !in Reap(t).running && id in Reap(t).reported
  {
    hide Conserved, Recorded, Bounded;
    assert Accounted(t, id);
  }

  lemma ReapKeeps(t: State)
    requires Invariant(t)
    ensures Invariant(Reap(t))
  {
    hide Conserved, Tracked, Recorded, Bounded, Reap;
    ReapConserves(t);
    ReapTracked(t);
    ChangedRecorded(t, Pumped);
    ChangedBounded(t, Pumped);
  }

  /** A task that has been started is not started again. */
  lemma {:induction false} StartNextSpares(s: State, id: nat, can: CanStart)
    requires Invariant(s) && id !in s.running && id in s.reported
    ensures id !in StartNext(s, can).running
    decreases |s.queue|
  {
    hide Conserved, Tracked, Recorded, Bounded, StartOne, Startable, RunningFor;
    if s.queue != [] && |s.running| < s.limits.maxGlobal && FirstStartable(s, 0) < |s.queue| {
      var k := FirstStartable(s, 0);
      StartOneFields(s, k, can);
      ReportedWaitNoMore(s, k, id);
      StartOneConserves(s, k, can);
      StartOneTracked(s, k, can);
      StartOneRecorded(s, k, can);
      StartOneBounded(s, k, can);
      StartNextSpares(StartOne(s, k, can), id, can);
    }
  }

  lemma ReportedWaitNoMore(s: State, k: nat, id: nat)
    requires Invariant(s) && id in s.reported && k < |s.queue|
    ensures s.queue[k].id != id
  {
    hide Recorded, Bounded, DistinctIds, PausedMatch, RunningMatch;
    assert Accounted(s, id);
    WaitsOnly(s, k);
  }

  // ----- What the calls achieve -----

  /** Starting tasks neither touches paused and retired ones nor starts anything but what was queued. */
  lemma {:induction false} StartNextLeaves(s: State, can: CanStart)
    requires Conserved(s)
    ensures var t := StartNext(s, can);
            && t.paused == s.paused
            && (forall id :: id in s.retired ==> id in t.retired && t.retired[id] == s.retired[id])
            && (forall id :: id in t.running ==> (id in s.running && t.running[id] == s.running[id])
                                                 || (t.running[id].task in s.queue && t.running[id].task.id == id))
    decreases |s.queue|
  {
    hide Conserved, Startable, RunningFor, StartOne, Without;
    if s.queue != [] && |s.running| < s.limits.maxGlobal && FirstStartable(s, 0) < |s.queue| {
      var k := FirstStartable(s, 0);
      StartOneFields(s, k, can);
      StartOneConserves(s, k, can);
      WaitsOnly(s, k);
      WithoutIsPart(s.queue, k);
      StartNextLeaves(StartOne(s, k, can), can);
    }
  }

  lemma WithoutIsPart(q: seq<QueuedSend>, k: nat)
    requires k < |q|
    ensures |Without(q, k)| < |q| && forall task :: task in Without(q, k) ==> task in q
  {
  }

  lemma WithdrawnIsGone(s: State, queued: set<nat>, paused: set<nat>)
    requires Conserved(s)
    ensures var t := Reap(Withdraw(s, queued, paused));
            && (forall task :: task in t.queue ==> task.id !in queued) && t.paused == s.paused - paused
            && (forall id :: id in queued || id in paused ==>
                  id in t.retired && (id in s.running || t.retired[id] == Reason.Cancelled))
  {
    hide Dropping, IdsIn, DistinctIds, Places;
    DroppingIds(s.queue, queued);
    var t := Withdraw(s, queued, paused);
    forall task | task in t.queue ensures task.id !in queued {
      InIds(t.queue, task);
    }
  }

  lemma InIds(q: seq<QueuedSend>, task: QueuedSend)
    requires task in q
    ensures task.id in IdsIn(q)
  {
  }

  /** A cancelled task that was waiting waits no more and is retired as cancelled. */
  lemma CancelledIsGone(s: State, id: nat, can: CanStart)
    requires Reachable(s)
    ensures var t := Step(s, Input(CancelledTask(id), can));
            && (forall task :: task in t.queue ==> task.id != id) && id !in t.paused
            && (Queued(s.queue, id) || id in s.paused ==> id in t.retired && t.retired[id] == Reason.Cancelled)
  {
    hide Reachable, Invariant, NeverIdle, Withdraw, Reap, StartNext, Conserved;
    ReachableKeeps(s);
    InvariantParts(s);
    var queued, paused := OneIf(id, Queued(s.queue, id)), OneIf(id, id in s.paused);
    var u := Reap(Withdraw(s, queued, paused));
    WithdrawnIsGone(s, queued, paused);
    WaitingIsNotRunning(s, id);
    CancelOneConserves(s, id);
    StartNextLeaves(u, can);
    StartNextReports(u, can);
    forall task | task in u.queue && task.id == id ensures Queued(s.queue, id) {
      CancelledWasQueued(s, id, task);
    }
  }

  lemma InvariantParts(s: State)
    requires Invariant(s)
    ensures Conserved(s) && Tracked(s) && Recorded(s) && Bounded(s)
  {
  }

  lemma WaitingIsNotRunning(s: State, id: nat)
    requires Conserved(s)
    ensures Queued(s.queue, id) || id in s.paused ==> id !in s.running
  {
    QueuedIds(s.queue, id);
  }

  lemma CancelledWasQueued(s: State, id: nat, task: QueuedSend)
    requires Conserved(s) && task in CancelOne(s, id).queue && task.id == id
    ensures Queued(s.queue, id)
  {
    hide Places, PausedMatch, RunningMatch;
    DroppingIds(s.queue, OneIf(id, Queued(s.queue, id)));
    InIds(CancelOne(s, id).queue, task);
    IdsQueued(s.queue, id);
  }

  /** After cancelling a machine nothing waits for it. */
  lemma CancelledPeerIsGone(s: State, peer: Text, can: CanStart)
    requires Reachable(s)
    ensures var t := Step(s, Input(CancelledPeer(peer), can));
            && (forall task :: task in t.queue ==> task.peer != peer)
            && (forall id :: id in t.paused ==> t.paused[id].peer != peer)
  {
    hide Reachable, Invariant, NeverIdle, Withdraw, Reap, StartNext, Conserved, PeerIdsIn;
    ReachableKeeps(s);
    InvariantParts(s);
    var u := CancelFor(s, peer);
    WithdrawnIsGone(s, PeerIdsIn(s.queue, peer), PausedFor(s.paused, peer));
    CancelForConserves(s, peer);
    StartNextLeaves(u, can);
    StartNextReports(u, can);
    forall task | task in u.queue ensures task.peer != peer {
      KeptWasQueued(s, peer, task);
    }
  }

  lemma KeptWasQueued(s: State, peer: Text, task: QueuedSend)
    requires task in CancelFor(s, peer).queue && task.id !in PeerIdsIn(s.queue, peer)
    ensures task.peer != peer
  {
    hide Retiring;
    DroppingIsPart(s.queue, PeerIdsIn(s.queue, peer), task);
  }

  lemma {:induction false} DroppingIsPart(q: seq<QueuedSend>, ids: set<nat>, task: QueuedSend)
    requires task in Dropping(q, ids)
    ensures task in q
  {
    if task in Dropping(q[..|q| - 1], ids) {
      DroppingIsPart(q[..|q| - 1], ids, task);
    }
  }

  /** A waiting task that is moved is for its new machine wherever it is afterwards, even running. */
  lemma MovedIsReaddressed(s: State, id: nat, to: Text, can: CanStart)
    requires Reachable(s) && to != [] && (Queued(s.queue, id) || id in s.paused)
    ensures var t := Step(s, Input(Moved(id, to), can));
            && (forall task :: task in t.queue && task.id == id ==> task.peer == to)
            && (id in t.paused ==> t.paused[id].peer == to)
            && (id in t.running ==> t.running[id].task.peer == to)
  {
    hide Reachable, Invariant, NeverIdle, StartNext, Places, PausedMatch, RunningMatch;
    ReachableKeeps(s);
    InvariantParts(s);
    var u := Readdress(s, id, to);
    ReaddressConserves(s, id, to);
    WaitingIsNotRunning(s, id);
    ReaddressedWait(s, id, to);
    StartNextLeaves(u, can);
    StartNextReports(u, can);
  }

  lemma ReaddressedWait(s: State, id: nat, to: Text)
    requires Conserved(s) && to != [] && (Queued(s.queue, id) || id in s.paused)
    ensures var u := Readdress(s, id, to);
            && u.running == s.running
            && (forall task :: task in u.queue && task.id == id ==> task.peer == to)
            && (id in u.paused ==> u.paused[id].peer == to)
  {
    QueuedIds(s.queue, id);
    IdsQueued(s.queue, id);
  }
}
