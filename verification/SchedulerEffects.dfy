/**
 What each call does to each task, record by record: the task it is about goes where the call says, with its machine and
 path; every other one keeps its record, waiting, paused or running; and only tasks of ready machines are started.
 */
module SchedulerEffects {
  import opened Base
  import opened SchedulerState
  import opened SchedulerConservation
  import opened SchedulerTheorems
  import opened SchedulerRuns

  /** A waiting task keeps waiting, has been started, or could not be started; its record is the same. */
  predicate Goes(t: State, task: QueuedSend) {
    || task in t.queue
    || (task.id in t.running && t.running[task.id] == RunningSend(task, false))
    || (task.id in t.retired && t.retired[task.id] == FailedToStart)
  }

  /** Every task but these keeps its record; running ones stay unless they have reported and reports are taken. */
  ghost predicate Kept(s: State, t: State, but: set<nat>, reaps: bool) {
    && (forall task :: task in s.queue && task.id !in but ==> Goes(t, task))
    && (forall id :: id in s.paused && id !in but ==> id in t.paused && t.paused[id] == s.paused[id])
    && (forall id :: id in s.running && !(reaps && s.running[id].completed) ==> id in t.running && t.running[id] == s.running[id])
    && (forall id :: id in s.retired ==> id in t.retired && t.retired[id] == s.retired[id])
  }

  /** Whatever runs now and did not before was waiting, for a machine that is linked and online, and could be started. */
  ghost predicate StartedRightly(s: State, t: State, can: CanStart) {
    forall id :: id in t.running && id !in s.running ==>
      var task := t.running[id].task;
      && task in s.queue && task.id == id && can(task)
      && task.peer in s.peers && s.peers[task.peer].linked && s.peers[task.peer].online
  }

  lemma StartOneGoes(s: State, k: nat, can: CanStart)
    requires Conserved(s) && k < |s.queue| && Startable(s, s.queue[k])
    ensures Kept(s, StartOne(s, k, can), {}, false) && StartedRightly(s, StartOne(s, k, can), can)
    ensures forall task :: task in StartOne(s, k, can).queue ==> task in s.queue
  {
    hide RunningFor, Without, StartOne, Places, Conserved;
    StartOneFields(s, k, can);
    WithoutIsPart(s.queue, k);
    WaitsNowhereElse(s, k);
    forall task | task in s.queue ensures Goes(StartOne(s, k, can), task) {
      WithoutKeeps(s.queue, k, task);
    }
  }

  lemma WithoutKeeps(q: seq<QueuedSend>, k: nat, task: QueuedSend)
    requires k < |q| && task in q
    ensures task == q[k] || task in Without(q, k)
  {
    var i :| 0 <= i < |q| && q[i] == task;
    if i != k {
      assert Without(q, k)[if i < k then i else i - 1] == task;
    }
  }

  lemma WaitsNowhereElse(s: State, k: nat)
    requires Conserved(s) && k < |s.queue|
    ensures var id := s.queue[k].id; id !in s.paused && id !in s.running && id !in s.retired
  {
    assert s.queue[k].id in IdsIn(s.queue);
  }

  lemma KeptOn(s: State, t: State, u: State)
    requires Kept(s, t, {}, false) && Kept(t, u, {}, false)
    ensures Kept(s, u, {}, false)
  {
  }

  lemma {:induction false} StartNextEffect(s: State, can: CanStart)
    requires Conserved(s)
    ensures Kept(s, StartNext(s, can), {}, false) && StartedRightly(s, StartNext(s, can), can)
    ensures StartNext(s, can).peers == s.peers && StartNext(s, can).limits == s.limits && StartNext(s, can).nextId == s.nextId
    ensures StartNext(s, can).paused == s.paused
    decreases |s.queue|
  {
    hide Conserved, Startable, StartOne, Kept, StartedRightly;
    if s.queue != [] && |s.running| < s.limits.maxGlobal && FirstStartable(s, 0) < |s.queue| {
      var k := FirstStartable(s, 0);
      var t := StartOne(s, k, can);
      StartOneGoes(s, k, can);
      StartOneFields(s, k, can);
      StartOneConserves(s, k, can);
      StartOneShrinks(s, k, can);
      StartNextEffect(t, can);
      KeptOn(s, t, StartNext(t, can));
      StartedOn(s, t, StartNext(t, can), can);
    } else {
      NothingStarted(s, can);
    }
  }

  lemma NothingStarted(s: State, can: CanStart)
    ensures Kept(s, s, {}, false) && StartedRightly(s, s, can)
  {
  }

  lemma StartedOn(s: State, t: State, u: State, can: CanStart)
    requires StartedRightly(s, t, can) && StartedRightly(t, u, can) && Kept(t, u, {}, false)
    requires t.peers == s.peers && forall task :: task in t.queue ==> task in s.queue
    ensures StartedRightly(s, u, can)
  {
    hide Goes;
  }

  // ----- Tasks that are new -----

  /** A new task gets the next id and is for the machine and path given. */
  lemma EnqueuedEffect(s: State, peer: Text, path: Text, can: CanStart)
    requires Conserved(s)
    ensures var t := Step(s, Input(Enqueued(peer, path), can));
            && Goes(t, QueuedSend(s.nextId, peer, path)) && t.nextId == s.nextId + 1
            && Kept(s, t, {}, false) && t.paused == s.paused && t.peers == s.peers && t.limits == s.limits
  {
    hide Goes, StartNext, Conserved;
    var u := AddToQueue(s, peer, path);
    AddConserves(s, peer, path);
    StartNextEffect(u, can);
    AddKeeps(s, peer, path);
    KeptOn(s, u, StartNext(u, can));
  }

  lemma AddKeeps(s: State, peer: Text, path: Text)
    ensures var u := AddToQueue(s, peer, path);
            && Kept(s, u, {}, false) && QueuedSend(s.nextId, peer, path) in u.queue && u.nextId == s.nextId + 1
            && u.paused == s.paused && u.peers == s.peers && u.limits == s.limits && u.running == s.running
            && u.retired == s.retired
  {
    var u := AddToQueue(s, peer, path);
    assert u.queue[|s.queue|] == QueuedSend(s.nextId, peer, path);
  }

  /** The non-empty names among some, each where it first stands. */
  function FirstNames(tos: seq<Text>): seq<Text> {
    if tos == [] then [] else
      var front, last := FirstNames(tos[..|tos| - 1]), tos[|tos| - 1];
      if last == [] || last in tos[..|tos| - 1] then front else front + [last]
  }

  lemma {:induction false} FirstNamesAre(tos: seq<Text>)
    ensures forall to :: to in FirstNames(tos) <==> to in tos && to != []
    ensures forall i, j :: 0 <= i < j < |FirstNames(tos)| ==> FirstNames(tos)[i] != FirstNames(tos)[j]
  {
    if tos != [] {
      var n := |tos| - 1;
      FirstNamesAre(tos[..n]);
      assert tos == tos[..n] + [tos[n]];
    }
  }

  function Records(names: seq<Text>, next: nat, path: Text): seq<QueuedSend> {
    seq(|names|, i requires 0 <= i < |names| => QueuedSend(next + i, names[i], path))
  }

  /** The state after queueing one task for each name. */
  function WithTasks(s: State, names: seq<Text>, path: Text): State {
    s.(queue := s.queue + Records(names, s.nextId, path), nextId := s.nextId + |names|)
  }

  lemma {:induction false} AddsInOrder(s: State, done: seq<Text>, rest: seq<Text>, seen: set<Text>, path: Text)
    requires seen == set to | to in done && to != []
    ensures AddForPeers(WithTasks(s, FirstNames(done), path), rest, seen, path) == WithTasks(s, FirstNames(done + rest), path)
    decreases |rest|
  {
    if rest == [] {
      assert done + rest == done;
    } else {
      var more := done + [rest[0]];
      assert more[..|done|] == done && more + rest[1..] == done + rest;
      if rest[0] == [] || rest[0] in seen {
        AddsInOrder(s, more, rest[1..], seen, path);
      } else {
        AddsInOrder(s, more, rest[1..], seen + {rest[0]}, path);
        OneMoreRecord(FirstNames(done), rest[0], s.nextId, path);
        JoinAssoc(s.queue, Records(FirstNames(done), s.nextId, path), [QueuedSend(s.nextId + |FirstNames(done)|, rest[0], path)]);
      }
    }
  }

  lemma OneMoreRecord(names: seq<Text>, name: Text, next: nat, path: Text)
    ensures Records(names + [name], next, path) == Records(names, next, path) + [QueuedSend(next + |names|, name, path)]
  {
  }

  lemma ManyAdded(s: State, tos: seq<Text>, path: Text)
    ensures AddForPeers(s, tos, {}, path) == WithTasks(s, FirstNames(tos), path)
  {
    AddsInOrder(s, [], tos, {}, path);
    assert [] + tos == tos;
    assert s.queue + Records([], s.nextId, path) == s.queue;
  }

  /** The k-th distinct non-empty name gets the k-th new id and the path given. */
  lemma EnqueuedManyEffect(s: State, tos: seq<Text>, path: Text, can: CanStart)
    requires Conserved(s)
    ensures var t, names := Step(s, Input(EnqueuedMany(tos, path), can)), FirstNames(tos);
            && (forall k :: 0 <= k < |names| ==> Goes(t, QueuedSend(s.nextId + k, names[k], path)))
            && t.nextId == s.nextId + |names|
            && Kept(s, t, {}, false) && t.paused == s.paused && t.peers == s.peers && t.limits == s.limits
  {
    hide Goes, StartNext, Conserved, AddForPeers, FirstNames;
    var names := FirstNames(tos);
    var u := WithTasks(s, names, path);
    ManyAdded(s, tos, path);
    AddForPeersConserves(s, tos, {}, path);
    StartNextEffect(u, can);
    ManyKept(s, names, path);
    KeptOn(s, u, StartNext(u, can));
  }

  lemma ManyKept(s: State, names: seq<Text>, path: Text)
    ensures var u := WithTasks(s, names, path);
            Kept(s, u, {}, false) && forall k :: 0 <= k < |names| ==> QueuedSend(s.nextId + k, names[k], path) in u.queue
  {
    var u := WithTasks(s, names, path);
    forall k | 0 <= k < |names| ensures QueuedSend(s.nextId + k, names[k], path) in u.queue {
      assert u.queue[|s.queue| + k] == QueuedSend(s.nextId + k, names[k], path);
    }
  }

  // ----- Waiting tasks that are moved, paused, resumed or withdrawn -----

  /** The record of a waiting task. */
  ghost predicate WaitsAs(s: State, task: QueuedSend) {
    task in s.queue || (task.id in s.paused && s.paused[task.id] == task)
  }

  lemma {:induction false} IndexOfTask(q: seq<QueuedSend>, task: QueuedSend)
    requires DistinctIds(q) && task in q
    ensures IndexOf(q, task.id) < |q| && q[IndexOf(q, task.id)] == task
  {
    if q[0].id == task.id {
      var i :| 0 <= i < |q| && q[i] == task;
    } else {
      assert task in q[1..];
      IndexOfTask(q[1..], task);
    }
  }

  lemma NotElsewhere(s: State, task: QueuedSend)
    requires Conserved(s) && WaitsAs(s, task)
    ensures task.id !in s.running && task.id !in s.retired
    ensures task in s.queue ==> task.id !in s.paused
    ensures forall other :: WaitsAs(s, other) && other.id == task.id ==> other == task
  {
    hide Places, DistinctIds;
    PlacesApart(s);
    if task in s.queue {
      InIds(s.queue, task);
    }
    forall other | WaitsAs(s, other) && other.id == task.id ensures other == task {
      if other in s.queue {
        InIds(s.queue, other);
        IndexOfTask(s.queue, other);
      }
      if task in s.queue {
        IndexOfTask(s.queue, task);
      }
    }
  }

  lemma PlacesApart(s: State)
    requires Conserved(s)
    ensures var queued := IdsIn(s.queue);
            queued !! s.paused.Keys && queued !! s.running.Keys && queued !! s.retired.Keys
            && s.paused.Keys !! s.running.Keys && s.paused.Keys !! s.retired.Keys
  {
  }

  /** A waiting task that is moved is for its new machine, with its path, wherever it goes. */
  lemma MovedEffect(s: State, task: QueuedSend, to: Text, can: CanStart)
    requires Conserved(s) && WaitsAs(s, task) && to != []
    ensures var t, moved := Step(s, Input(Moved(task.id, to), can)), QueuedSend(task.id, to, task.path);
            && (if task in s.queue then Goes(t, moved) else task.id in t.paused && t.paused[task.id] == moved)
            && Kept(s, t, {task.id}, false)
  {
    hide StartNext, Places, DistinctIds, Goes;
    NotElsewhere(s, task);
    ReaddressConserves(s, task.id, to);
    var u := Readdress(s, task.id, to);
    ReaddressKeeps(s, task, to);
    StartNextEffect(u, can);
    KeptBut(s, u, StartNext(u, can), {task.id}, false);
  }

  lemma ReaddressKeeps(s: State, task: QueuedSend, to: Text)
    requires Conserved(s) && WaitsAs(s, task) && to != []
    ensures var u, moved := Readdress(s, task.id, to), QueuedSend(task.id, to, task.path);
            && (if task in s.queue then moved in u.queue else task.id in u.paused && u.paused[task.id] == moved)
            && Kept(s, u, {task.id}, false) && Starts(s, Moved(task.id, to))
  {
    hide Places;
    NotElsewhere(s, task);
    if task in s.queue {
      IndexOfTask(s.queue, task);
      var k := IndexOf(s.queue, task.id);
      var q := s.queue[k := s.queue[k].(peer := to)];
      assert q[k] == QueuedSend(task.id, to, task.path);
      forall other | other in s.queue && other.id != task.id ensures other in q {
        var i :| 0 <= i < |s.queue| && s.queue[i] == other;
        assert q[i] == other;
      }
    } else {
      assert IndexOf(s.queue, task.id) < |s.queue| ==> WaitsAs(s, s.queue[IndexOf(s.queue, task.id)]);
    }
  }

  lemma KeptBut(s: State, u: State, t: State, but: set<nat>, reaps: bool)
    requires Kept(s, u, but, reaps) && Kept(u, t, {}, false)
    ensures Kept(s, t, but, reaps)
  {
  }

  /** A queued task that is paused is held as it was. */
  lemma PausedEffect(s: State, task: QueuedSend, can: CanStart)
    requires Conserved(s) && task in s.queue
    ensures var t := Step(s, Input(PausedTask(task.id), can));
            && task.id in t.paused && t.paused[task.id] == task && (forall other :: other in t.queue ==> other.id != task.id)
            && Kept(s, t, {task.id}, false)
  {
    hide StartNext, Places, DistinctIds, Goes;
    IndexOfTask(s.queue, task);
    var k := IndexOf(s.queue, task.id);
    var u := Pause(s, task.id);
    PauseConserves(s, task.id);
    forall other | other in s.queue && other.id != task.id ensures Goes(u, other) {
      WithoutKeeps(s.queue, k, other);
      InQueueGoes(u, other);
    }
    StartNextEffect(u, can);
    StartNextReports(u, can);
    WithoutIds(s.queue, k);
    forall other | other in u.queue ensures other.id != task.id {
      InIds(u.queue, other);
    }
    KeptBut(s, u, StartNext(u, can), {task.id}, false);
  }

  lemma InQueueGoes(t: State, task: QueuedSend)
    requires task in t.queue
    ensures Goes(t, task)
  {
  }

  /** A paused task that is resumed waits again as it was, or has been tried. */
  lemma ResumedEffect(s: State, task: QueuedSend, can: CanStart)
    requires Conserved(s) && task.id in s.paused && s.paused[task.id] == task
    ensures var t := Step(s, Input(ResumedTask(task.id), can));
            Goes(t, task) && task.id !in t.paused && Kept(s, t, {task.id}, false)
  {
    hide StartNext, Places, DistinctIds, Goes;
    var u := Resume(s, task.id);
    ResumeConserves(s, task.id);
    assert u.queue[|s.queue|] == task;
    forall other | other in s.queue ensures Goes(u, other) {
      InQueueGoes(u, other);
    }
    StartNextEffect(u, can);
    KeptBut(s, u, StartNext(u, can), {task.id}, false);
  }

  lemma {:induction false} DroppingSpares(q: seq<QueuedSend>, ids: set<nat>, task: QueuedSend)
    requires task in q && task.id !in ids
    ensures task in Dropping(q, ids)
  {
    var n := |q| - 1;
    if task != q[n] {
      assert task in q[..n];
      DroppingSpares(q[..n], ids, task);
    }
  }

  lemma RetiringKeeps(retired: map<nat, Reason>, ids: set<nat>, reason: Reason)
    requires ids !! retired.Keys
    ensures forall id :: id in retired ==> id in Retiring(retired, ids, reason) && Retiring(retired, ids, reason)[id] == retired[id]
    ensures Retiring(retired, ids, reason).Keys == retired.Keys + ids
  {
  }

  lemma CompletedRun(s: State)
    requires Conserved(s)
    ensures CompletedIds(s.running) !! s.retired.Keys && CompletedIds(s.running) !! IdsIn(s.queue)
    ensures CompletedIds(s.running) !! s.paused.Keys
  {
    hide DistinctIds;
    assert CompletedIds(s.running) <= s.running.Keys;
  }

  /** Withdrawing some tasks and taking reports leaves the others. */
  lemma WithdrawalKeeps(s: State, queued: set<nat>, paused: set<nat>)
    requires Conserved(s) && queued <= IdsIn(s.queue) && paused <= s.paused.Keys
    ensures Kept(s, Reap(Withdraw(s, queued, paused)), queued + paused, true)
  {
    hide Places, DistinctIds, Dropping;
    PlacesApart(s);
    CompletedRun(s);
    var t := Reap(Withdraw(s, queued, paused));
    RetiringKeeps(s.retired, queued, Reason.Cancelled);
    var once := Retiring(s.retired, queued, Reason.Cancelled);
    RetiringKeeps(once, paused, Reason.Cancelled);
    RetiringKeeps(Retiring(once, paused, Reason.Cancelled), CompletedIds(s.running), Reaped);
    forall task | task in s.queue && task.id !in queued + paused ensures Goes(t, task) {
      DroppingSpares(s.queue, queued, task);
    }
  }

  /** Cancelling one task leaves every other one; a running one is only asked to stop. */
  lemma CancelledEffect(s: State, id: nat, can: CanStart)
    requires Conserved(s)
    ensures Kept(s, Step(s, Input(CancelledTask(id), can)), {id}, true)
    ensures forall running :: running in s.running && !s.running[running].completed ==>
              running in Step(s, Input(CancelledTask(id), can)).running
  {
    hide StartNext, Conserved, Goes, Withdraw, Reap;
    var queued, paused := OneIf(id, Queued(s.queue, id)), OneIf(id, id in s.paused);
    var u := Reap(Withdraw(s, queued, paused));
    OneIfQueued(s, id);
    WithdrawalKeeps(s, queued, paused);
    CancelOneConserves(s, id);
    StartNextEffect(u, can);
    KeptBut(s, u, StartNext(u, can), queued + paused, true);
  }

  lemma OneIfQueued(s: State, id: nat)
    ensures OneIf(id, Queued(s.queue, id)) <= IdsIn(s.queue) && OneIf(id, id in s.paused) <= s.paused.Keys
  {
  }

  /** Cancelling a machine leaves every task of the others. */
  lemma CancelledPeerEffect(s: State, peer: Text, can: CanStart)
    requires Conserved(s)
    ensures var t := Step(s, Input(CancelledPeer(peer), can));
            && (forall task :: task in s.queue && task.peer != peer ==> Goes(t, task))
            && (forall id :: id in s.paused && s.paused[id].peer != peer ==> id in t.paused && t.paused[id] == s.paused[id])
            && (forall id :: id in s.running && !s.running[id].completed ==> id in t.running && t.running[id] == s.running[id])
  {
    hide StartNext, Conserved, Goes, Withdraw, Reap;
    var queued, paused := PeerIdsIn(s.queue, peer), PausedFor(s.paused, peer);
    var u := CancelFor(s, peer);
    WithdrawalKeeps(s, queued, paused);
    CancelForConserves(s, peer);
    StartNextEffect(u, can);
    KeptBut(s, u, StartNext(u, can), queued + paused, true);
    OthersNotWithdrawn(s, peer);
  }

  lemma OthersNotWithdrawn(s: State, peer: Text)
    requires Conserved(s)
    ensures forall task :: task in s.queue && task.peer != peer ==>
              task.id !in PeerIdsIn(s.queue, peer) + PausedFor(s.paused, peer)
    ensures forall id :: id in s.paused && s.paused[id].peer != peer ==>
              id !in PeerIdsIn(s.queue, peer) + PausedFor(s.paused, peer)
  {
    hide Places;
    PlacesApart(s);
    forall task | task in s.queue ensures task.id in IdsIn(s.queue) {
      InIds(s.queue, task);
    }
  }

  // ----- Everything, reports, limits and machines -----

  /** After stopping everything nothing waits, is paused or runs, and all of it is retired as stopped. */
  lemma StoppedEffect(s: State, can: CanStart)
    ensures var t := Step(s, Input(StoppedAll, can));
            && t.queue == [] && t.paused == map[] && t.running == map[]
            && (forall task :: task in s.queue ==> task.id in t.retired && t.retired[task.id] == Stopped)
            && (forall id :: id in s.paused || id in s.running ==> id in t.retired && t.retired[id] == Stopped)
  {
    StopStep(s, can);
    hide Step;
    forall task | task in s.queue ensures task.id in IdsIn(s.queue) {
      InIds(s.queue, task);
    }
  }

  lemma StopStep(s: State, can: CanStart)
    ensures Step(s, Input(StoppedAll, can)) == StopAll(s)
  {
    hide StopAll, StartNext;
  }

  /** A pump takes every report and starts what it can; everything else keeps its record. */
  lemma PumpedEffect(s: State, can: CanStart)
    requires Conserved(s)
    ensures var t := Step(s, Input(Pumped, can));
            && Kept(s, t, {}, true) && t.paused == s.paused
            && forall id :: id in s.running && s.running[id].completed ==>
                 id !in t.running && id in t.retired && t.retired[id] == Reaped
  {
    hide StartNext, Goes, Places, DistinctIds;
    var u := Reap(s);
    ReapConserves(s);
    PlacesApart(s);
    CompletedRun(s);
    RetiringKeeps(s.retired, CompletedIds(s.running), Reaped);
    forall task | task in s.queue ensures Goes(u, task) {
      InQueueGoes(u, task);
    }
    StartNextEffect(u, can);
    StartNextLeaves(u, can);
    forall id | id in s.running && s.running[id].completed ensures id !in StartNext(u, can).running {
      forall task | task in u.queue ensures task.id != id {
        InIds(s.queue, task);
      }
    }
    KeptBut(s, u, StartNext(u, can), {}, true);
  }

  /** The report of a live thread marks its entry and nothing else. */
  lemma ReportedEffect(s: State, id: nat, can: CanStart)
    requires id in s.live
    ensures var t := Step(s, Input(RunnerReported(id), can));
            && (id in s.running ==> id in t.running && t.running[id] == RunningSend(s.running[id].task, true))
            && t.running - {id} == s.running - {id} && t.queue == s.queue && t.paused == s.paused && t.retired == s.retired
            && t.live == s.live - {id} && t.peers == s.peers && t.limits == s.limits
  {
  }

  lemma SameTasksKept(s: State, u: State)
    requires u.queue == s.queue && u.paused == s.paused && u.running == s.running && u.retired == s.retired
    ensures Kept(s, u, {}, false)
  {
  }

  /** The limits are the numbers given, as far as they lie between 1 and 8 and between 1 and 4. */
  lemma LimitsEffect(s: State, global: int, perPeer: int, can: CanStart)
    requires Conserved(s)
    ensures var t := Step(s, Input(LimitsSet(global, perPeer), can));
            && t.limits.maxGlobal == (if global < 1 then 1 else if global > 8 then 8 else global)
            && t.limits.maxPeer == (if perPeer < 1 then 1 else if perPeer > 4 then 4 else perPeer)
            && Kept(s, t, {}, false) && t.paused == s.paused && t.peers == s.peers
  {
    hide StartNext, Goes;
    var u := Changed(s, LimitsSet(global, perPeer));
    StartNextEffect(u, can);
    SameTasksKept(s, u);
    KeptOn(s, u, StartNext(u, can));
  }

  /** A machine is known as it was last described, and the others as before. */
  lemma UpsertedEffect(s: State, peer: Peer, can: CanStart)
    requires Conserved(s)
    ensures var t := Step(s, Input(PeerUpserted(peer), can));
            && peer.id in t.peers && t.peers[peer.id] == peer && t.peers - {peer.id} == s.peers - {peer.id}
            && Kept(s, t, {}, false) && t.paused == s.paused && t.limits == s.limits
  {
    hide StartNext, Goes;
    var u := Changed(s, PeerUpserted(peer));
    StartNextEffect(u, can);
    SameTasksKept(s, u);
    KeptOn(s, u, StartNext(u, can));
  }

  lemma ErasedEffect(s: State, peer: Text, can: CanStart)
    ensures var t := Step(s, Input(PeerErased(peer), can));
            peer !in t.peers && t.peers == s.peers - {peer} && t == s.(peers := t.peers)
  {
  }

  // ----- What is started -----

  /** Whatever a call starts was waiting when it was made, or is new, for a machine that is linked and online. */
  lemma StepStartsRightly(s: State, input: Input)
    requires Invariant(s)
    ensures var u := Changed(s, input.event);
            StartedRightly(u, Step(s, input), input.can)
  {
    hide StartNext, Goes, Changed, Starts, Conserved, StartedRightly;
    InvariantParts(s);
    ChangedConserves(s, input.event);
    StartNextEffect(Changed(s, input.event), input.can);
    NothingStarted(Changed(s, input.event), input.can);
  }

  /**
   In every reachable state: fewer tasks run than the global limit only if each waiting task is for a machine that is not there,
   not linked, not online, or already has as many running as one machine may.
   */
  lemma WaitsForAReason(s: State, task: QueuedSend)
    requires Reachable(s) && task in s.queue && |s.running| < s.limits.maxGlobal
    ensures || task.peer !in s.peers || !s.peers[task.peer].linked || !s.peers[task.peer].online
            || |set id | id in s.running && s.running[id].task.peer == task.peer| >= s.limits.maxPeer
  {
    hide Reachable;
    LimitsHoldAndNothingIdles(s, task.peer);
    assert RunningIds(s.running, task.peer) == set id | id in s.running && s.running[id].task.peer == task.peer;
  }
}
