/**
 What every run of the scheduler keeps: no report of a runner thread is lost, limits hold whenever something starts,
 the queue never waits needlessly, and tasks of one machine are started in queue order.
 */
module SchedulerTheorems {
  import opened Base
  import opened SchedulerState
  import opened SchedulerConservation

  // ----- What a start attempt and an event may touch -----

  /** t differs from s only in limits, machines and waiting tasks. */
  ghost predicate OnlyWaitingDiffers(s: State, t: State) {
    && t.running == s.running && t.live == s.live && t.reported == s.reported
    && t.retired == s.retired && t.attempts == s.attempts
  }

  predicate IsQuiet(event: Event) {
    || event.LimitsSet? || event.PeerUpserted? || event.PeerErased? || event.Enqueued? || event.EnqueuedMany?
    || event.Moved? || event.PausedTask? || event.ResumedTask?
  }

  lemma {:induction false} AddForPeersIsQuiet(s: State, peers: seq<Text>, seen: set<Text>, path: Text)
    ensures OnlyWaitingDiffers(s, AddForPeers(s, peers, seen, path))
    decreases |peers|
  {
    if peers != [] {
      if peers[0] == [] || peers[0] in seen {
        AddForPeersIsQuiet(s, peers[1..], seen, path);
      } else {
        AddForPeersIsQuiet(AddToQueue(s, peers[0], path), peers[1..], seen + {peers[0]}, path);
      }
    }
  }

  lemma QuietEvents(s: State, event: Event)
    requires IsQuiet(event)
    ensures OnlyWaitingDiffers(s, Changed(s, event))
  {
    hide Without, AddForPeers;
    if event.EnqueuedMany? {
      AddForPeersIsQuiet(s, event.tos, {}, event.path);
    }
  }

  // ----- Reports -----

  /**
   A running entry is marked completed exactly when its thread has reported, every started send is still running or
   was reaped or stopped, and nothing is reaped, that is joined under the mutex, before it has reported.
   */
  ghost predicate Accounted(s: State, id: nat) {
    && !(id in s.live && id in s.reported)
    && (id in s.running ==> (id in s.live || id in s.reported) && (s.running[id].completed <==> id in s.reported))
    && (id in s.live || id in s.reported ==>
          id in s.running || (id in s.retired && (s.retired[id].Reaped? || s.retired[id].Stopped?)))
    && (id in s.retired && s.retired[id].Reaped? ==> id in s.reported)
  }

  ghost predicate Tracked(s: State) {
    forall id :: Accounted(s, id)
  }

  lemma WithdrawTracked(s: State, queued: set<nat>, paused: set<nat>)
    requires Conserved(s) && Tracked(s) && queued <= IdsIn(s.queue) && paused <= s.paused.Keys
    ensures Tracked(Withdraw(s, queued, paused))
  {
    hide DistinctIds, PausedMatch, RunningMatch, IdsIn, Dropping;
    forall id ensures Accounted(Withdraw(s, queued, paused), id) {
      assert Accounted(s, id);
    }
  }

  lemma ReapTracked(s: State)
    requires Tracked(s)
    ensures Tracked(Reap(s))
  {
    forall id ensures Accounted(Reap(s), id) {
      assert Accounted(s, id);
    }
  }

  lemma CancelTracked(s: State, event: Event)
    requires Conserved(s) && Tracked(s) && (event.CancelledTask? || event.CancelledPeer?)
    ensures Tracked(Changed(s, event))
  {
    hide Tracked, Conserved, Withdraw, Reap;
    match event {
      case CancelledTask(id) =>
        QueuedIds(s.queue, id);
        var queued, paused := OneIf(id, Queued(s.queue, id)), OneIf(id, id in s.paused);
        WithdrawTracked(s, queued, paused);
        ReapTracked(Withdraw(s, queued, paused));
      case CancelledPeer(peer) =>
        WithdrawTracked(s, PeerIdsIn(s.queue, peer), PausedFor(s.paused, peer));
        ReapTracked(Withdraw(s, PeerIdsIn(s.queue, peer), PausedFor(s.paused, peer)));
    }
  }

  lemma StopTracked(s: State)
    requires Conserved(s) && Tracked(s)
    ensures Tracked(StopAll(s))
  {
    hide DistinctIds, PausedMatch, RunningMatch, IdsIn;
    forall id ensures Accounted(StopAll(s), id) {
      assert Accounted(s, id);
    }
  }

  lemma MarkTracked(s: State, id: nat)
    requires Tracked(s) && id in s.live
    ensures Tracked(MarkCompleted(s, id))
  {
    forall other ensures Accounted(MarkCompleted(s, id), other) {
      assert Accounted(s, other);
    }
  }

  lemma ChangedTracked(s: State, event: Event)
    requires Conserved(s) && Tracked(s)
    ensures Tracked(Changed(s, event))
  {
    hide Conserved, Tracked, Reap, StopAll, MarkCompleted;
    if IsQuiet(event) {
      hide Changed;
      QuietEvents(s, event);
      QuietTracked(s, Changed(s, event));
    } else {
      match event {
        case CancelledTask(_) => CancelTracked(s, event);
        case CancelledPeer(_) => CancelTracked(s, event);
        case StoppedAll => StopTracked(s);
        case Pumped => ReapTracked(s);
        case RunnerReported(id) => if id in s.live { MarkTracked(s, id); }
      }
    }
  }

  lemma QuietTracked(s: State, t: State)
    requires Tracked(s) && OnlyWaitingDiffers(s, t)
    ensures Tracked(t)
  {
    forall id ensures Accounted(t, id) {
      assert Accounted(s, id);
    }
  }

  lemma StartOneTracked(s: State, k: nat, can: CanStart)
    requires Conserved(s) && Tracked(s) && k < |s.queue|
    ensures Tracked(StartOne(s, k, can))
  {
    hide DistinctIds, PausedMatch, RunningMatch, StartOne, RunningFor, Without;
    StartOneFields(s, k, can);
    assert s.queue[k].id in IdsIn(s.queue);
    forall id ensures Accounted(StartOne(s, k, can), id) {
      assert Accounted(s, id);
    }
  }

  // ----- Attempts -----

  function TriedIds(attempts: seq<Attempt>): set<nat> {
    set i | 0 <= i < |attempts| :: attempts[i].id
  }

  function StartedIds(attempts: seq<Attempt>): set<nat> {
    set i | 0 <= i < |attempts| && attempts[i].started :: attempts[i].id
  }

  ghost predicate NoRepeats(attempts: seq<Attempt>) {
    forall i, j :: 0 <= i < j < |attempts| ==> attempts[i].id != attempts[j].id
  }

  /** No task is tried twice, tried tasks wait no more, and the threads are exactly those of the successful attempts. */
  ghost predicate Recorded(s: State) {
    && NoRepeats(s.attempts)
    && (forall id :: id in TriedIds(s.attempts) ==> id in s.running || id in s.retired)
    && StartedIds(s.attempts) == s.live + s.reported
  }

  lemma AppendAttempt(attempts: seq<Attempt>, a: Attempt)
    ensures TriedIds(attempts + [a]) == TriedIds(attempts) + {a.id}
    ensures StartedIds(attempts + [a]) == StartedIds(attempts) + (if a.started then {a.id} else {})
  {
    var all := attempts + [a];
    assert all[|attempts|] == a;
    forall i | 0 <= i < |attempts| ensures all[i] == attempts[i] && attempts[i].id in TriedIds(all) {
      assert all[i].id in TriedIds(all);
    }
    forall i | 0 <= i < |attempts| && attempts[i].started ensures attempts[i].id in StartedIds(all) {
      assert all[i].started && all[i].id in StartedIds(all);
    }
  }

  lemma AppendNoRepeats(attempts: seq<Attempt>, a: Attempt)
    requires NoRepeats(attempts) && a.id !in TriedIds(attempts)
    ensures NoRepeats(attempts + [a])
  {
    forall i | 0 <= i < |attempts| ensures attempts[i].id != a.id {
      assert attempts[i].id in TriedIds(attempts);
    }
  }

  lemma StartOneHistory(s: State, k: nat, can: CanStart)
    requires k < |s.queue|
    ensures var t, task := StartOne(s, k, can), s.queue[k];
            && t.attempts == s.attempts + [AttemptOf(s, task, can)]
            && t.live + t.reported == s.live + s.reported + (if CanBegin(s, task, can) then {task.id} else {})
  {
    hide RunningFor, Without, StartOne;
    StartOneFields(s, k, can);
  }

  lemma StartOneRecorded(s: State, k: nat, can: CanStart)
    requires Conserved(s) && Recorded(s) && k < |s.queue|
    ensures Recorded(StartOne(s, k, can))
  {
    hide Conserved, StartOne, RunningFor, Without, TriedIds, StartedIds, NoRepeats;
    var task := s.queue[k];
    var attempt := AttemptOf(s, task, can);
    StartOneHistory(s, k, can);
    WaitsOnly(s, k);
    AppendNoRepeats(s.attempts, attempt);
    AppendAttempt(s.attempts, attempt);
    Gone(s, k, can);
  }

  lemma WaitsOnly(s: State, k: nat)
    requires Conserved(s) && k < |s.queue|
    ensures s.queue[k].id !in s.running && s.queue[k].id !in s.retired
  {
    hide DistinctIds, PausedMatch, RunningMatch;
    assert s.queue[k].id in IdsIn(s.queue);
  }

  /** The task tried is running or retired afterwards, as every other one that was. */
  lemma Gone(s: State, k: nat, can: CanStart)
    requires k < |s.queue|
    ensures var t := StartOne(s, k, can);
            && (forall id :: id in s.running ==> id in t.running) && (forall id :: id in s.retired ==> id in t.retired)
            && (s.queue[k].id in t.running || s.queue[k].id in t.retired)
  {
    hide RunningFor, Without;
  }

  lemma ChangedRecorded(s: State, event: Event)
    requires Recorded(s)
    ensures Recorded(Changed(s, event))
  {
    hide TriedIds, StartedIds, Dropping, IdsIn, Changed, PeerIdsIn, PausedFor;
    if IsQuiet(event) {
      QuietEvents(s, event);
    } else {
      TasksStay(s, event);
    }
  }

  /** An event that is not quiet keeps the attempts and the threads, and retires what it takes out of running. */
  lemma TasksStay(s: State, event: Event)
    requires !IsQuiet(event)
    ensures var t := Changed(s, event);
            && t.attempts == s.attempts && t.live + t.reported == s.live + s.reported
            && (forall id :: id in s.running || id in s.retired ==> id in t.running || id in t.retired)
  {
    hide Dropping, PeerIdsIn, PausedFor, Queued;
  }

  // ----- Limits -----

  ghost predicate WithinLimits(a: Attempt) {
    && a.global < a.limits.maxGlobal && a.forPeer < a.limits.maxPeer
    && a.limits.maxGlobal <= 8 && a.limits.maxPeer <= 4
  }

  /** At most 8 sends at once, 4 to one machine, and none ever started at or above the limits of that moment. */
  ghost predicate Bounded(s: State) {
    && 1 <= s.limits.maxGlobal <= 8 && 1 <= s.limits.maxPeer <= 4
    && |s.running| <= 8 && (forall peer :: RunningFor(s.running, peer) <= 4)
    && (forall i :: 0 <= i < |s.attempts| ==> WithinLimits(s.attempts[i]))
  }

  lemma {:induction false} SubsetSize<T>(a: set<T>, b: set<T>)
    requires a <= b
    ensures |a| <= |b|
    decreases a
  {
    if a != {} {
      var x :| x in a;
      SubsetSize(a - {x}, b - {x});
    }
  }

  ghost predicate FewerRun(before: map<nat, RunningSend>, after: map<nat, RunningSend>) {
    forall id :: id in after ==> id in before && after[id].task == before[id].task
  }

  lemma FewerRunning(before: map<nat, RunningSend>, after: map<nat, RunningSend>, peer: Text)
    requires FewerRun(before, after)
    ensures |after| <= |before| && RunningFor(after, peer) <= RunningFor(before, peer)
  {
    SubsetSize(after.Keys, before.Keys);
    SubsetSize(RunningIds(after, peer), RunningIds(before, peer));
  }

  lemma OneMoreRunning(running: map<nat, RunningSend>, id: nat, send: RunningSend, peer: Text)
    requires id !in running
    ensures |running[id := send]| == |running| + 1
    ensures RunningFor(running[id := send], peer) == RunningFor(running, peer) + if send.task.peer == peer then 1 else 0
  {
    hide RunningIds;
    assert running[id := send].Keys == running.Keys + {id};
    MoreIds(running, id, send, peer);
  }

  lemma MoreIds(running: map<nat, RunningSend>, id: nat, send: RunningSend, peer: Text)
    requires id !in running
    ensures id !in RunningIds(running, peer)
    ensures RunningIds(running[id := send], peer) == RunningIds(running, peer) + if send.task.peer == peer then {id} else {}
  {
  }

  lemma ChangedFields(s: State, event: Event)
    ensures var t := Changed(s, event);
            && t.attempts == s.attempts && FewerRun(s.running, t.running)
            && (t.limits == s.limits || (1 <= t.limits.maxGlobal <= 8 && 1 <= t.limits.maxPeer <= 4))
  {
    if event.EnqueuedMany? {
      hide AddForPeers;
      AddForPeersIsQuiet(s, event.tos, {}, event.path);
      AddForPeersKeepsLimits(s, event.tos, {}, event.path);
    } else if event.CancelledTask? {
      hide Withdraw, Reap, FewerRun;
      WithdrawnFields(s, OneIf(event.id, Queued(s.queue, event.id)), OneIf(event.id, event.id in s.paused));
    } else if event.CancelledPeer? {
      hide Withdraw, Reap, FewerRun;
      WithdrawnFields(s, PeerIdsIn(s.queue, event.peerId), PausedFor(s.paused, event.peerId));
    } else {
      hide Without, IndexOf, AddForPeers, Retiring;
    }
  }

  lemma WithdrawnFields(s: State, queued: set<nat>, paused: set<nat>)
    ensures var t := Reap(Withdraw(s, queued, paused));
            t.attempts == s.attempts && t.limits == s.limits && FewerRun(s.running, t.running)
  {
    hide Dropping, Retiring;
  }

  lemma {:induction false} AddForPeersKeepsLimits(s: State, peers: seq<Text>, seen: set<Text>, path: Text)
    ensures AddForPeers(s, peers, seen, path).limits == s.limits && AddForPeers(s, peers, seen, path).peers == s.peers
    decreases |peers|
  {
    if peers != [] {
      if peers[0] == [] || peers[0] in seen {
        AddForPeersKeepsLimits(s, peers[1..], seen, path);
      } else {
        AddForPeersKeepsLimits(AddToQueue(s, peers[0], path), peers[1..], seen + {peers[0]}, path);
      }
    }
  }

  lemma ChangedBounded(s: State, event: Event)
    requires Bounded(s)
    ensures Bounded(Changed(s, event))
  {
    hide Changed, RunningFor, FewerRun;
    ChangedFields(s, event);
    var t := Changed(s, event);
    FewerRunning(s.running, t.running, []);
    forall peer ensures RunningFor(t.running, peer) <= 4 {
      FewerRunning(s.running, t.running, peer);
    }
  }

  lemma StartOneBounded(s: State, k: nat, can: CanStart)
    requires Conserved(s) && Bounded(s) && k < |s.queue|
    requires Startable(s, s.queue[k]) && |s.running| < s.limits.maxGlobal
    ensures Bounded(StartOne(s, k, can))
  {
    hide DistinctIds, PausedMatch, RunningMatch, StartOne, RunningFor, Without;
    StartOneFields(s, k, can);
    var t, task := StartOne(s, k, can), s.queue[k];
    if CanBegin(s, task, can) {
      assert task.id in IdsIn(s.queue);
      OneMoreRunning(s.running, task.id, RunningSend(task, false), []);
      forall peer ensures RunningFor(t.running, peer) <= 4 {
        OneMoreRunning(s.running, task.id, RunningSend(task, false), peer);
      }
    }
  }

  // ----- All of it, over starts, steps and runs -----

  ghost predicate Invariant(s: State) {
    Conserved(s) && Tracked(s) && Recorded(s) && Bounded(s)
  }

  lemma {:induction false} StartNextKeeps(s: State, can: CanStart)
    requires Invariant(s)
    ensures Invariant(StartNext(s, can))
    decreases |s.queue|
  {
    hide Conserved, Tracked, Recorded, Bounded, StartOne, Startable;
    if s.queue != [] && |s.running| < s.limits.maxGlobal && FirstStartable(s, 0) < |s.queue| {
      var k := FirstStartable(s, 0);
      StartOneConserves(s, k, can);
      StartOneTracked(s, k, can);
      StartOneRecorded(s, k, can);
      StartOneBounded(s, k, can);
      StartOneShrinks(s, k, can);
      StartNextKeeps(StartOne(s, k, can), can);
    }
  }

  lemma StepKeeps(s: State, input: Input)
    requires Invariant(s)
    ensures Invariant(Step(s, input))
  {
    hide Conserved, Tracked, Recorded, Bounded, StartNext, Changed, Starts;
    ChangedConserves(s, input.event);
    ChangedTracked(s, input.event);
    ChangedRecorded(s, input.event);
    ChangedBounded(s, input.event);
    StartNextKeeps(Changed(s, input.event), input.can);
  }
}
