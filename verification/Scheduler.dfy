/**
 The scheduler itself (src/app/transfer_scheduler.cpp): an object whose methods update its fields under one mutex. Each
 method is one step of the state machine, so everything proved of its runs holds of every sequence of calls. Which
 sources and runners are usable when a start is tried is the argument `can`.
 */
module Scheduler {
  import opened Base
  import opened SchedulerState
  import opened SchedulerConservation
  import opened SchedulerTheorems
  import opened SchedulerRuns
  import opened SchedulerEffects

  class TransferScheduler {
    var limits: Limits
    var peers: map<Text, Peer>
    var queue: seq<QueuedSend>
    var paused: map<nat, QueuedSend>
    var running: map<nat, RunningSend>
    var nextId: nat
    ghost var live: set<nat>
    ghost var reported: set<nat>
    ghost var retired: map<nat, Reason>
    ghost var attempts: seq<Attempt>

    ghost function Now(): State
      reads this
    {
      State(limits, peers, queue, paused, running, nextId, live, reported, retired, attempts)
    }

    ghost predicate Valid()
      reads this
    {
      Invariant(Now()) && NeverIdle(Now())
    }

    constructor ()
      ensures Now() == INITIAL && Valid()
    {
      limits, peers, queue, paused, running, nextId := Limits(1, 1), map[], [], map[], map[], 1;
      live, reported, retired, attempts := {}, {}, map[], [];
      new;
      Initially();
    }

    // ----- Inside the mutex -----

    method RunningCountForPeerLocked(peer: Text) returns (count: nat)
      ensures count == RunningFor(running, peer)
    {
      hide RunningIds;
      count := 0;
      var rest := running.Keys;
      ghost var counted := {};
      CountedEnds(running, peer);
      while rest != {}
        invariant rest <= running.Keys && count == |counted|
        invariant counted == RunningIds(running, peer) - rest
        decreases |rest|
      {
        var id :| id in rest;
        CountedGrows(running, peer, rest, id);
        rest := rest - {id};
        if running[id].task.peer == peer {
          count, counted := count + 1, counted + {id};
        }
      }
    }

    method FindStartable() returns (k: nat)
      ensures k == FirstStartable(Now(), 0)
    {
      hide RunningFor;
      k := 0;
      while k < |queue|
        invariant k <= |queue| && FirstStartable(Now(), k) == FirstStartable(Now(), 0)
      {
        var task := queue[k];
        if task.peer in peers && peers[task.peer].linked && peers[task.peer].online {
          var count := RunningCountForPeerLocked(task.peer);
          if count < limits.maxPeer {
            return;
          }
        }
        k := k + 1;
      }
    }

    /** Starts one task that has left the queue; every way of failing ends the task. */
    method StartSenderLocked(task: QueuedSend, can: CanStart) returns (started: bool)
      modifies this
      ensures started == (task.peer in old(peers) && old(peers)[task.peer].linked && can(task))
      ensures Now() == TryStart(old(Now()), task, can)
    {
      hide RunningFor;
      attempts := attempts + [AttemptOf(Now(), task, can)];
      if task.peer !in peers || !peers[task.peer].linked || !can(task) {
        retired := retired[task.id := FailedToStart];
        return false;
      }
      live := live + {task.id};
      running := running[task.id := RunningSend(task, false)];
      return true;
    }

    method StartNextLocked(can: CanStart)
      modifies this
      ensures Now() == StartNext(old(Now()), can)
    {
      hide RunningFor, PeerReady, Startable, TryStart;
      while queue != [] && |running| < limits.maxGlobal
        invariant StartNext(Now(), can) == StartNext(old(Now()), can)
        decreases |queue|
      {
        var k := FindStartable();
        if k == |queue| {
          return;
        }
        ghost var before := Now();
        var task := queue[k];
        queue := queue[..k] + queue[k + 1..];
        assert Now() == before.(queue := Without(before.queue, k));
        var started := StartSenderLocked(task, can);
        StartOneShrinks(before, k, can);
      }
    }

    /** Joins and forgets the sends whose threads have reported; no other thread is waited for. */
    method ReapCompletedLocked()
      modifies this
      ensures Now() == Reap(old(Now()))
    {
      hide Reap, ReapingLeft;
      var rest := running.Keys;
      ghost var before := Now();
      ReapEnds(before);
      while rest != {}
        invariant rest <= before.running.Keys
        invariant Now() == ReapingLeft(before, rest)
        decreases |rest|
      {
        var id :| id in rest;
        ReapsOne(before, rest, id);
        rest := rest - {id};
        if running[id].completed {
          running := running - {id};
          retired := retired[id := Reaped];
        }
      }
    }

    /** Takes the tasks out of the queue that fulfil a condition, which picks out a set of ids. */
    method EraseQueued(gone: QueuedSend -> bool, ghost ids: set<nat>)
      requires forall task :: task in queue ==> (gone(task) <==> task.id in ids)
      modifies this`queue
      ensures queue == Dropping(old(queue), ids)
    {
      hide Dropping;
      ghost var before, done := queue, 0;
      var i := 0;
      DropsNone(before, ids);
      while i < |queue|
        invariant done <= |before| && i == |Dropping(before[..done], ids)| <= |queue|
        invariant queue == Dropping(before[..done], ids) + before[done..]
        decreases |before| - done
      {
        ErasesNext(queue, before, done, ids);
        if gone(queue[i]) {
          queue := queue[..i] + queue[i + 1..];
        } else {
          i := i + 1;
        }
        done := done + 1;
      }
      assert before[..done] == before && before[done..] == [];
    }

    method CancelQueuedLocked(gone: QueuedSend -> bool, ghost ids: set<nat>)
      requires forall task :: task in queue ==> (gone(task) <==> task.id in ids)
      modifies this`queue, this`retired
      ensures Now() == WithdrawQueued(old(Now()), ids)
    {
      EraseQueued(gone, ids);
      retired := Retiring(retired, ids, Reason.Cancelled);
    }

    method CancelPausedLocked(id: nat)
      modifies this`paused, this`retired
      ensures Now() == WithdrawPaused(old(Now()), OneIf(id, id in old(paused)))
    {
      retired := Retiring(retired, OneIf(id, id in paused), Reason.Cancelled);
      paused := paused - {id};
      assert paused == old(paused) - OneIf(id, id in old(paused));
    }

    method CancelPausedFor(peer: Text)
      modifies this`paused, this`retired
      ensures Now() == WithdrawPaused(old(Now()), PausedFor(old(paused), peer))
    {
      hide PausedFor;
      ghost var before, held := paused, {};
      var rest := paused.Keys;
      HeldEnds(before, peer);
      while rest != {}
        invariant rest <= before.Keys && held == PausedFor(before, peer) - rest
        invariant paused == before - held && retired == old(retired)
        decreases |rest|
      {
        var id :| id in rest;
        HeldGrows(before, peer, rest, id);
        rest := rest - {id};
        if paused[id].peer == peer {
          paused := paused - {id};
          held := held + {id};
        }
      }
      retired := Retiring(retired, held, Reason.Cancelled);
    }

    // ----- Public calls and the report of a runner -----

    /** A task with this record waits, runs, or could not be started. */
    ghost predicate TaskGoes(id: nat, peer: Text, path: Text)
      reads this
    {
      var task := QueuedSend(id, peer, path);
      task in queue || (id in running && running[id].task == task) || (id in retired && retired[id] == FailedToStart)
    }

    method SetLimits(global: int, perPeer: int, can: CanStart)
      requires Valid()
      modifies this
      ensures Valid() && Now() == Step(old(Now()), Input(LimitsSet(global, perPeer), can))
    {
      hide Invariant, NeverIdle, StartNext;
      Keeps(Now(), Input(LimitsSet(global, perPeer), can));
      limits := Limits(Clamp(global, 1, 8), Clamp(perPeer, 1, 4));
      StartNextLocked(can);
    }

    method UpsertPeer(peer: Peer, can: CanStart)
      requires Valid()
      modifies this
      ensures Valid() && Now() == Step(old(Now()), Input(PeerUpserted(peer), can))
    {
      hide Invariant, NeverIdle, StartNext;
      Keeps(Now(), Input(PeerUpserted(peer), can));
      peers := peers[peer.id := peer];
      StartNextLocked(can);
    }

    /** The second half of removing a machine; the mutex is free between the halves. */
    method ErasePeer(peer: Text, ghost can: CanStart)
      requires Valid()
      modifies this
      ensures Valid() && Now() == Step(old(Now()), Input(PeerErased(peer), can))
    {
      hide Invariant, NeverIdle;
      Keeps(Now(), Input(PeerErased(peer), can));
      peers := peers - {peer};
    }

    method EnqueueSend(peer: Text, path: Text, can: CanStart) returns (id: nat)
      requires Valid()
      modifies this
      ensures Valid() && Now() == Step(old(Now()), Input(Enqueued(peer, path), can))
      ensures id == old(nextId)
      ensures TaskGoes(id, peer, path)
    {
      hide Invariant, NeverIdle, StartNext, Step, Conserved, Kept;
      Keeps(Now(), Input(Enqueued(peer, path), can));
      ConservedWithin(Now());
      EnqueuedEffect(Now(), peer, path, can);
      EnqueuedStep(Now(), peer, path, can);
      id := nextId;
      nextId := nextId + 1;
      queue := queue + [QueuedSend(id, peer, path)];
      StartNextLocked(can);
    }

    /** One task for each distinct machine named; the ids are those issued, in order. */
    method EnqueueSendToPeers(tos: seq<Text>, path: Text, can: CanStart) returns (ids: seq<nat>)
      requires Valid()
      modifies this
      ensures Valid() && Now() == Step(old(Now()), Input(EnqueuedMany(tos, path), can))
      ensures forall i :: 0 <= i < |ids| ==> ids[i] == old(nextId) + i
      ensures |ids| == |FirstNames(tos)| && forall i :: 0 <= i < |ids| ==> TaskGoes(ids[i], FirstNames(tos)[i], path)
    {
      hide Invariant, NeverIdle, StartNext, AddForPeers, Named, FirstNames, Conserved, Kept, Step;
      Keeps(Now(), Input(EnqueuedMany(tos, path), can));
      ConservedWithin(Now());
      EnqueuedManyEffect(Now(), tos, path, can);
      EnqueuedManyStep(Now(), tos, path, can);
      NamesCounted(tos);
      ghost var before := Now();
      ids := [];
      var seen: set<Text> := {};
      NamedEnds(tos);
      for k := 0 to |tos|
        invariant AddForPeers(Now(), tos[k..], seen, path) == AddForPeers(before, tos, {}, path)
        invariant seen == Named(tos[..k]) && |ids| == |seen|
        invariant nextId == before.nextId + |ids|
        invariant forall i :: 0 <= i < |ids| ==> ids[i] == before.nextId + i
      {
        AddsNext(Now(), tos, k, seen, path);
        if tos[k] != [] && tos[k] !in seen {
          seen := seen + {tos[k]};
          ids := ids + [nextId];
          queue := queue + [QueuedSend(nextId, tos[k], path)];
          nextId := nextId + 1;
        }
      }
      assert tos[|tos|..] == [];
      AddsNone(Now(), seen, path);
      StartNextLocked(can);
    }

    method FindQueued(id: nat) returns (k: nat)
      ensures k == IndexOf(queue, id)
    {
      k := 0;
      while k < |queue| && queue[k].id != id
        invariant k <= |queue| && IndexOf(queue, id) == k + IndexOf(queue[k..], id)
      {
        k := k + 1;
      }
    }

    method MoveQueuedTask(id: nat, peer: Text, can: CanStart) returns (moved: bool)
      requires Valid()
      modifies this
      ensures Valid() && Now() == Step(old(Now()), Input(Moved(id, peer), can))
      ensures moved <==> peer != [] && (Queued(old(queue), id) || id in old(paused))
    {
      hide Invariant, NeverIdle, StartNext;
      Keeps(Now(), Input(Moved(id, peer), can));
      if peer == [] {
        return false;
      }
      moved := false;
      var k := FindQueued(id);
      if k < |queue| {
        queue := queue[k := queue[k].(peer := peer)];
        moved := true;
      }
      if !moved && id in paused {
        paused := paused[id := paused[id].(peer := peer)];
        moved := true;
      }
      if moved {
        StartNextLocked(can);
      }
    }

    method PauseTask(id: nat, can: CanStart) returns (done: bool)
      requires Valid()
      modifies this
      ensures Valid() && Now() == Step(old(Now()), Input(PausedTask(id), can))
      ensures done <==> Queued(old(queue), id)
      ensures done ==> id in paused && paused[id] in old(queue) && forall task :: task in queue ==> task.id != id
    {
      hide Invariant, NeverIdle, StartNext, Conserved, Kept;
      Keeps(Now(), Input(PausedTask(id), can));
      ConservedWithin(Now());
      if Queued(queue, id) {
        PausedEffect(Now(), queue[IndexOf(queue, id)], can);
      }
      var k := FindQueued(id);
      done := k < |queue|;
      if done {
        var task := queue[k];
        queue := queue[..k] + queue[k + 1..];
        paused := paused[id := task];
        StartNextLocked(can);
      }
    }

    method ResumeTask(id: nat, can: CanStart) returns (done: bool)
      requires Valid()
      modifies this
      ensures Valid() && Now() == Step(old(Now()), Input(ResumedTask(id), can))
      ensures done <==> id in old(paused)
      ensures done ==> id !in paused && TaskGoes(id, old(paused)[id].peer, old(paused)[id].path)
    {
      hide Invariant, NeverIdle, StartNext, Conserved, Kept;
      Keeps(Now(), Input(ResumedTask(id), can));
      ConservedWithin(Now());
      if id in paused {
        HeldUnderItsId(Now(), id);
        ResumedEffect(Now(), paused[id], can);
      }
      done := id in paused;
      if done {
        var task := paused[id];
        paused := paused - {id};
        queue := queue + [task];
        StartNextLocked(can);
      }
    }

    method CancelTask(id: nat, can: CanStart)
      requires Valid()
      modifies this
      ensures Valid() && Now() == Step(old(Now()), Input(CancelledTask(id), can))
    {
      hide Invariant, NeverIdle, StartNext, Reap, WithdrawQueued, WithdrawPaused, Queued;
      Keeps(Now(), Input(CancelledTask(id), can));
      QueuedTasks(queue, id);
      CancelQueuedLocked((task: QueuedSend) => task.id == id, OneIf(id, Queued(queue, id)));
      CancelPausedLocked(id);
      ReapCompletedLocked();
      StartNextLocked(can);
    }

    method CancelPeer(peer: Text, can: CanStart)
      requires Valid()
      modifies this
      ensures Valid() && Now() == Step(old(Now()), Input(CancelledPeer(peer), can))
    {
      hide Invariant, NeverIdle, StartNext, Reap, WithdrawQueued, WithdrawPaused, PeerIdsIn, PausedFor;
      Keeps(Now(), Input(CancelledPeer(peer), can));
      PeerTasks(Now(), peer);
      CancelQueuedLocked((task: QueuedSend) => task.peer == peer, PeerIdsIn(queue, peer));
      CancelPausedFor(peer);
      ReapCompletedLocked();
      StartNextLocked(can);
    }

    method StopAll(ghost can: CanStart)
      requires Valid()
      modifies this
      ensures Valid() && Now() == Step(old(Now()), Input(StoppedAll, can))
    {
      hide Invariant, NeverIdle;
      Keeps(Now(), Input(StoppedAll, can));
      retired := Retiring(retired, IdsIn(queue) + paused.Keys + running.Keys, Stopped);
      queue, paused, running := [], map[], map[];
    }

    method Pump(can: CanStart)
      requires Valid()
      modifies this
      ensures Valid() && Now() == Step(old(Now()), Input(Pumped, can))
    {
      hide Invariant, NeverIdle, StartNext, Reap;
      Keeps(Now(), Input(Pumped, can));
      ReapCompletedLocked();
      StartNextLocked(can);
    }

    /** Called by the thread of a send when its runner is done. */
    method MarkCompleted(id: nat, ghost can: CanStart)
      requires Valid() && id in live
      modifies this
      ensures Valid() && Now() == Step(old(Now()), Input(RunnerReported(id), can))
    {
      hide Invariant, NeverIdle;
      Keeps(Now(), Input(RunnerReported(id), can));
      if id in running {
        running := running[id := running[id].(completed := true)];
      }
      live, reported := live - {id}, reported + {id};
    }
  }

  lemma Keeps(s: State, input: Input)
    requires Invariant(s) && NeverIdle(s)
    ensures Invariant(Step(s, input)) && NeverIdle(Step(s, input))
  {
    hide Invariant, NeverIdle, Step;
    StepKeeps(s, input);
    StepNeverIdle(s, input);
  }

  /** The state when all completed sends but those in rest have been reaped. */
  ghost function ReapingLeft(s: State, rest: set<nat>): State {
    var done := CompletedIds(s.running) - rest;
    s.(running := s.running - done, retired := Retiring(s.retired, done, Reaped))
  }

  lemma ReapsOne(s: State, rest: set<nat>, id: nat)
    requires id in rest && rest <= s.running.Keys
    ensures var t, u := ReapingLeft(s, rest), ReapingLeft(s, rest - {id});
            && id in t.running && t.running[id] == s.running[id]
            && u == if s.running[id].completed
                    then t.(running := t.running - {id}, retired := t.retired[id := Reaped]) else t
  {
    var done := CompletedIds(s.running) - rest;
    var more := CompletedIds(s.running) - (rest - {id});
    assert more == if s.running[id].completed then done + {id} else done;
    if s.running[id].completed {
      assert s.running - more == (s.running - done) - {id};
      assert Retiring(s.retired, more, Reaped) == Retiring(s.retired, done, Reaped)[id := Reaped];
    }
  }

  lemma ReapEnds(s: State)
    ensures ReapingLeft(s, s.running.Keys) == s && ReapingLeft(s, {}) == Reap(s)
  {
    assert CompletedIds(s.running) - s.running.Keys == {};
    assert CompletedIds(s.running) - {} == CompletedIds(s.running);
    assert s.running - {} == s.running;
  }

  lemma DropsNone(q: seq<QueuedSend>, ids: set<nat>)
    ensures Dropping(q[..0], ids) == []
  {
  }

  lemma DropsNext(q: seq<QueuedSend>, k: nat, ids: set<nat>)
    requires k < |q|
    ensures Dropping(q[..k + 1], ids) == if q[k].id in ids then Dropping(q[..k], ids) else Dropping(q[..k], ids) + [q[k]]
    ensures q[k..] == [q[k]] + q[k + 1..]
  {
    assert q[..k + 1][..k] == q[..k];
  }

  /** One step of erasing in place: q is what is kept of the first k tasks, and the others. */
  lemma ErasesNext(q: seq<QueuedSend>, before: seq<QueuedSend>, k: nat, ids: set<nat>)
    requires k < |before| && q == Dropping(before[..k], ids) + before[k..]
    ensures var i, more := |Dropping(before[..k], ids)|, Dropping(before[..k + 1], ids);
            && i < |q| && q[i] == before[k]
            && (q[i].id in ids ==> |more| == i && q[..i] + q[i + 1..] == more + before[k + 1..])
            && (q[i].id !in ids ==> |more| == i + 1 && q == more + before[k + 1..])
  {
    hide Dropping;
    DropsNext(before, k, ids);
  }

  lemma CountedEnds(running: map<nat, RunningSend>, peer: Text)
    ensures RunningIds(running, peer) - running.Keys == {} && RunningIds(running, peer) - {} == RunningIds(running, peer)
  {
  }

  lemma CountedGrows(running: map<nat, RunningSend>, peer: Text, rest: set<nat>, id: nat)
    requires id in rest && rest <= running.Keys
    ensures var counted := RunningIds(running, peer) - rest;
            && id !in counted
            && RunningIds(running, peer) - (rest - {id})
            == if running[id].task.peer == peer then counted + {id} else counted
  {
  }

  lemma HeldEnds(paused: map<nat, QueuedSend>, peer: Text)
    ensures PausedFor(paused, peer) - paused.Keys == {} && PausedFor(paused, peer) - {} == PausedFor(paused, peer)
    ensures paused - {} == paused
  {
  }

  lemma HeldGrows(paused: map<nat, QueuedSend>, peer: Text, rest: set<nat>, id: nat)
    requires id in rest && rest <= paused.Keys
    ensures var held := PausedFor(paused, peer) - rest;
            && id in paused - held && (paused - held)[id] == paused[id]
            && PausedFor(paused, peer) - (rest - {id}) == (if paused[id].peer == peer then held + {id} else held)
            && paused - (held + {id}) == (paused - held) - {id}
  {
  }

  lemma ConservedWithin(s: State)
    requires Invariant(s)
    ensures Conserved(s)
  {
    hide Conserved;
  }

  lemma HeldUnderItsId(s: State, id: nat)
    requires Conserved(s) && id in s.paused
    ensures s.paused[id].id == id
  {
  }

  lemma EnqueuedStep(s: State, peer: Text, path: Text, can: CanStart)
    ensures Step(s, Input(Enqueued(peer, path), can)) == StartNext(AddToQueue(s, peer, path), can)
  {
    hide StartNext;
  }

  lemma EnqueuedManyStep(s: State, tos: seq<Text>, path: Text, can: CanStart)
    ensures Step(s, Input(EnqueuedMany(tos, path), can)) == StartNext(AddForPeers(s, tos, {}, path), can)
  {
    hide StartNext, AddForPeers;
  }

  /** As many names come first somewhere as there are names. */
  lemma {:induction false} NamesCounted(tos: seq<Text>)
    ensures |FirstNames(tos)| == |Named(tos)|
  {
    if tos != [] {
      var n := |tos| - 1;
      NamesCounted(tos[..n]);
      assert tos == tos[..n] + [tos[n]];
      assert Named(tos) == if tos[n] == [] then Named(tos[..n]) else Named(tos[..n]) + {tos[n]};
    }
  }

  function Named(tos: seq<Text>): set<Text> {
    set to | to in tos && to != []
  }

  lemma NamedEnds(tos: seq<Text>)
    ensures Named(tos[..0]) == {} && tos[..|tos|] == tos && tos[0..] == tos
  {
  }

  lemma AddsNone(s: State, seen: set<Text>, path: Text)
    ensures AddForPeers(s, [], seen, path) == s
  {
  }

  lemma AddsNext(s: State, tos: seq<Text>, k: nat, seen: set<Text>, path: Text)
    requires k < |tos| && seen == Named(tos[..k])
    ensures Named(tos[..k + 1]) == if tos[k] != [] then seen + {tos[k]} else seen
    ensures AddForPeers(s, tos[k..], seen, path)
         == if tos[k] == [] || tos[k] in seen then AddForPeers(s, tos[k + 1..], seen, path)
            else AddForPeers(AddToQueue(s, tos[k], path), tos[k + 1..], seen + {tos[k]}, path)
  {
    assert tos[k..][1..] == tos[k + 1..];
    assert tos[..k + 1] == tos[..k] + [tos[k]];
  }

  lemma QueuedTasks(q: seq<QueuedSend>, id: nat)
    ensures forall task :: task in q ==> (task.id == id <==> task.id in OneIf(id, Queued(q, id)))
  {
    IdsQueued(q, id);
    forall task | task in q && task.id == id ensures Queued(q, id) {
      var i :| 0 <= i < |q| && q[i] == task;
      assert q[i].id in IdsIn(q);
    }
  }

  lemma PeerTasks(s: State, peer: Text)
    requires Invariant(s)
    ensures forall task :: task in s.queue ==> (task.peer == peer <==> task.id in PeerIdsIn(s.queue, peer))
  {
    hide Places, Tracked, Recorded, Bounded;
  }
}
