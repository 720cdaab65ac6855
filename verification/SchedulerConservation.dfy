/**
 No task of the scheduler is lost or duplicated: every issued id is queued, paused, running or retired, and only that.
 */
module SchedulerConservation {
  import opened Base
  import opened SchedulerState

  // ----- Conservation -----

  /** Every issued id is in exactly one place, and the places agree with the ids they hold. */
  ghost predicate Conserved(s: State) {
    && DistinctIds(s.queue) && PausedMatch(s.paused) && RunningMatch(s.running)
    && Places(IdsIn(s.queue), s.paused.Keys, s.running.Keys, s.retired.Keys, s.nextId)
  }

  /** Four disjoint sets that together hold the ids from 1 up to, not including, next. */
  ghost predicate Places(queued: set<nat>, paused: set<nat>, running: set<nat>, retired: set<nat>, next: nat) {
    && next >= 1
    && queued !! paused && queued !! running && queued !! retired
    && paused !! running && paused !! retired && running !! retired
    && (forall id :: id in queued || id in paused || id in running || id in retired <==> 1 <= id < next)
  }

  ghost predicate DistinctIds(q: seq<QueuedSend>) {
    forall i, j :: 0 <= i < j < |q| ==> q[i].id != q[j].id
  }

  ghost predicate PausedMatch(paused: map<nat, QueuedSend>) {
    forall id :: id in paused ==> paused[id].id == id
  }

  ghost predicate RunningMatch(running: map<nat, RunningSend>) {
    forall id :: id in running ==> running[id].task.id == id
  }

  lemma WithoutIds(q: seq<QueuedSend>, k: nat)
    requires k < |q| && DistinctIds(q)
    ensures DistinctIds(Without(q, k)) && IdsIn(Without(q, k)) == IdsIn(q) - {q[k].id} && q[k].id in IdsIn(q)
  {
    var w := Without(q, k);
    forall id ensures id in IdsIn(w) <==> id in IdsIn(q) && id != q[k].id {
      if i :| 0 <= i < |q| && q[i].id == id && i != k {
        assert w[if i < k then i else i - 1].id == id;
      }
    }
  }

  lemma {:induction false} DroppingIds(q: seq<QueuedSend>, ids: set<nat>)
    requires DistinctIds(q)
    ensures DistinctIds(Dropping(q, ids)) && IdsIn(Dropping(q, ids)) == IdsIn(q) - ids
    ensures |Dropping(q, ids)| <= |q|
  {
    if q != [] {
      var n := |q| - 1;
      DroppingIds(q[..n], ids);
      assert q == q[..n] + [q[n]];
      assert q[n].id !in IdsIn(q[..n]);
      AppendIds(q[..n], q[n]);
      if q[n].id !in ids {
        AppendIds(Dropping(q[..n], ids), q[n]);
      }
    }
  }

  lemma AppendIds(q: seq<QueuedSend>, task: QueuedSend)
    requires DistinctIds(q) && task.id !in IdsIn(q)
    ensures DistinctIds(q + [task]) && IdsIn(q + [task]) == IdsIn(q) + {task.id}
  {
    var q' := q + [task];
    assert q'[|q|] == task;
    forall id ensures id in IdsIn(q') <==> id in IdsIn(q) || id == task.id {
      if i :| 0 <= i < |q| && q[i].id == id {
        assert q'[i].id == id;
      }
    }
    forall i | 0 <= i < |q| ensures q'[i].id != task.id {
      assert q[i].id in IdsIn(q);
    }
  }

  /** A start attempt field by field. */
  lemma StartOneFields(s: State, k: nat, can: CanStart)
    requires k < |s.queue|
    ensures var t, task := StartOne(s, k, can), s.queue[k];
            && t.queue == Without(s.queue, k) && t.paused == s.paused && t.nextId == s.nextId
            && t.limits == s.limits && t.peers == s.peers && t.reported == s.reported
            && t.attempts == s.attempts + [AttemptOf(s, task, can)]
            && (CanBegin(s, task, can) ==>
                  && t.running == s.running[task.id := RunningSend(task, false)]
                  && t.retired == s.retired && t.live == s.live + {task.id})
            && (!CanBegin(s, task, can) ==>
                  t.running == s.running && t.retired == s.retired[task.id := FailedToStart] && t.live == s.live)
  {
    hide RunningFor, Without;
  }

  lemma StartOneConserves(s: State, k: nat, can: CanStart)
    requires Conserved(s) && k < |s.queue|
    ensures Conserved(StartOne(s, k, can))
  {
    hide RunningFor, Without, IdsIn, DistinctIds, Places, StartOne;
    StartOneFields(s, k, can);
    WithoutIds(s.queue, k);
    var t, task := StartOne(s, k, can), s.queue[k];
    QueuedMoves(IdsIn(s.queue), s.paused.Keys, s.running.Keys, s.retired.Keys, s.nextId, {task.id});
    if CanBegin(s, task, can) {
      RunningGrows(s.running, task.id, RunningSend(task, false));
    } else {
      RetiredGrows(s.retired, task.id, FailedToStart);
    }
  }

  lemma RunningGrows(running: map<nat, RunningSend>, id: nat, send: RunningSend)
    requires RunningMatch(running) && send.task.id == id
    ensures RunningMatch(running[id := send]) && running[id := send].Keys == running.Keys + {id}
  {
  }

  lemma RetiredGrows(retired: map<nat, Reason>, id: nat, reason: Reason)
    ensures retired[id := reason].Keys == retired.Keys + {id}
  {
  }

  // How tasks move between places.

  lemma QueuedMoves(q: set<nat>, p: set<nat>, r: set<nat>, d: set<nat>, next: nat, xs: set<nat>)
    requires Places(q, p, r, d, next) && xs <= q
    ensures Places(q - xs, p + xs, r, d, next) && Places(q - xs, p, r + xs, d, next) && Places(q - xs, p, r, d + xs, next)
  {
  }

  lemma PausedMoves(q: set<nat>, p: set<nat>, r: set<nat>, d: set<nat>, next: nat, xs: set<nat>)
    requires Places(q, p, r, d, next) && xs <= p
    ensures Places(q + xs, p - xs, r, d, next) && Places(q, p - xs, r, d + xs, next)
  {
  }

  lemma RunningMoves(q: set<nat>, p: set<nat>, r: set<nat>, d: set<nat>, next: nat, xs: set<nat>)
    requires Places(q, p, r, d, next) && xs <= r
    ensures Places(q, p, r - xs, d + xs, next)
  {
  }

  lemma NewIsQueued(q: set<nat>, p: set<nat>, r: set<nat>, d: set<nat>, next: nat)
    requires Places(q, p, r, d, next)
    ensures next !in q && Places(q + {next}, p, r, d, next + 1)
  {
  }

  lemma {:induction false} StartNextConserves(s: State, can: CanStart)
    requires Conserved(s)
    ensures Conserved(StartNext(s, can))
    decreases |s.queue|
  {
    hide Conserved, StartOne;
    if s.queue != [] && |s.running| < s.limits.maxGlobal && FirstStartable(s, 0) < |s.queue| {
      var k := FirstStartable(s, 0);
      StartOneConserves(s, k, can);
      StartOneShrinks(s, k, can);
      StartNextConserves(StartOne(s, k, can), can);
    }
  }

  lemma StartOneShrinks(s: State, k: nat, can: CanStart)
    requires k < |s.queue|
    ensures |StartOne(s, k, can).queue| == |s.queue| - 1
  {
  }

  lemma AddConserves(s: State, peer: Text, path: Text)
    requires Conserved(s)
    ensures Conserved(AddToQueue(s, peer, path))
  {
    hide Places, DistinctIds, IdsIn;
    NewIsQueued(IdsIn(s.queue), s.paused.Keys, s.running.Keys, s.retired.Keys, s.nextId);
    AppendIds(s.queue, QueuedSend(s.nextId, peer, path));
  }

  lemma {:induction false} AddForPeersConserves(s: State, peers: seq<Text>, seen: set<Text>, path: Text)
    requires Conserved(s)
    ensures Conserved(AddForPeers(s, peers, seen, path))
    decreases |peers|
  {
    hide Conserved;
    if peers != [] {
      AddConserves(s, peers[0], path);
      if peers[0] == [] || peers[0] in seen {
        AddForPeersConserves(s, peers[1..], seen, path);
      } else {
        AddForPeersConserves(AddToQueue(s, peers[0], path), peers[1..], seen + {peers[0]}, path);
      }
    }
  }

  lemma WithdrawConserves(s: State, queued: set<nat>, paused: set<nat>)
    requires Conserved(s) && queued <= IdsIn(s.queue) && paused <= s.paused.Keys
    ensures Conserved(Withdraw(s, queued, paused))
  {
    hide Places, DistinctIds, IdsIn, Dropping;
    DroppingIds(s.queue, queued);
    var s' := Withdraw(s, queued, paused);
    QueuedMoves(IdsIn(s.queue), s.paused.Keys, s.running.Keys, s.retired.Keys, s.nextId, queued);
    PausedMoves(IdsIn(s.queue) - queued, s.paused.Keys, s.running.Keys, s.retired.Keys + queued, s.nextId, paused);
    assert s'.retired.Keys == s.retired.Keys + queued + paused;
    assert s'.paused.Keys == s.paused.Keys - paused;
  }

  lemma ReapConserves(s: State)
    requires Conserved(s)
    ensures Conserved(Reap(s))
  {
    hide Places, DistinctIds, IdsIn;
    var s', done := Reap(s), CompletedIds(s.running);
    RunningMoves(IdsIn(s.queue), s.paused.Keys, s.running.Keys, s.retired.Keys, s.nextId, done);
    assert s'.retired.Keys == s.retired.Keys + done && s'.running.Keys == s.running.Keys - done;
  }

  lemma StopAllConserves(s: State)
    requires Conserved(s)
    ensures Conserved(StopAll(s))
  {
    var s' := StopAll(s);
    assert s'.retired.Keys == s.retired.Keys + (IdsIn(s.queue) + s.paused.Keys + s.running.Keys);
    assert IdsIn(s'.queue) == {};
  }

  lemma QueuedIds(q: seq<QueuedSend>, id: nat)
    ensures Queued(q, id) ==> id in IdsIn(q)
  {
    if Queued(q, id) {
      assert q[IndexOf(q, id)].id == id;
    }
  }

  lemma ReaddressConserves(s: State, id: nat, peer: Text)
    requires Conserved(s)
    ensures Conserved(Readdress(s, id, peer))
  {
    hide Places;
    var k, t := IndexOf(s.queue, id), Readdress(s, id, peer);
    if peer != [] && k < |s.queue| {
      SameIds(s.queue, t.queue);
    } else if peer != [] && id in s.paused {
      assert t.paused.Keys == s.paused.Keys;
    }
  }

  lemma SameIds(q: seq<QueuedSend>, q': seq<QueuedSend>)
    requires |q'| == |q| && forall i :: 0 <= i < |q| ==> q'[i].id == q[i].id
    ensures IdsIn(q') == IdsIn(q) && (DistinctIds(q) ==> DistinctIds(q'))
  {
    forall id ensures id in IdsIn(q') <==> id in IdsIn(q) {
      if i :| 0 <= i < |q| && q[i].id == id {
        assert q'[i].id == id;
      }
    }
  }

  lemma PauseConserves(s: State, id: nat)
    requires Conserved(s)
    ensures Conserved(Pause(s, id))
  {
    hide Places, DistinctIds, IdsIn, Without;
    var k := IndexOf(s.queue, id);
    if k < |s.queue| {
      WithoutIds(s.queue, k);
      QueuedMoves(IdsIn(s.queue), s.paused.Keys, s.running.Keys, s.retired.Keys, s.nextId, {id});
      assert s.paused[id := s.queue[k]].Keys == s.paused.Keys + {id};
    }
  }

  lemma ResumeConserves(s: State, id: nat)
    requires Conserved(s)
    ensures Conserved(Resume(s, id))
  {
    hide DistinctIds, IdsIn;
    if id in s.paused {
      AppendIds(s.queue, s.paused[id]);
      PausedMoves(IdsIn(s.queue), s.paused.Keys, s.running.Keys, s.retired.Keys, s.nextId, {id});
    }
  }

  lemma CancelOneConserves(s: State, id: nat)
    requires Conserved(s)
    ensures Conserved(CancelOne(s, id))
  {
    hide Conserved, Withdraw, Reap;
    var queued, paused := OneIf(id, Queued(s.queue, id)), OneIf(id, id in s.paused);
    QueuedIds(s.queue, id);
    WithdrawConserves(s, queued, paused);
    ReapConserves(Withdraw(s, queued, paused));
  }

  lemma CancelForConserves(s: State, peer: Text)
    requires Conserved(s)
    ensures Conserved(CancelFor(s, peer))
  {
    hide Conserved, Withdraw, Reap;
    WithdrawConserves(s, PeerIdsIn(s.queue, peer), PausedFor(s.paused, peer));
    ReapConserves(Withdraw(s, PeerIdsIn(s.queue, peer), PausedFor(s.paused, peer)));
  }

  lemma MarkConserves(s: State, id: nat)
    requires Conserved(s)
    ensures Conserved(MarkCompleted(s, id))
  {
    hide Places;
    assert MarkCompleted(s, id).running.Keys == s.running.Keys;
  }

  /** Limits and peers hold no tasks. */
  lemma SameTasks(s: State, t: State)
    requires Conserved(s) && t == s.(limits := t.limits, peers := t.peers)
    ensures Conserved(t)
  {
  }

  lemma ChangedConserves(s: State, event: Event)
    requires Conserved(s)
    ensures Conserved(Changed(s, event))
  {
    hide Conserved, Reap, CancelOne, CancelFor, Pause, Resume, Readdress, MarkCompleted, StopAll, AddForPeers, AddToQueue;
    match event {
      case LimitsSet(_, _) => SameTasks(s, Changed(s, event));
      case PeerUpserted(_) => SameTasks(s, Changed(s, event));
      case PeerErased(_) => SameTasks(s, Changed(s, event));
      case Enqueued(peer, path) => AddConserves(s, peer, path);
      case EnqueuedMany(peers, path) => AddForPeersConserves(s, peers, {}, path);
      case Moved(id, peer) => ReaddressConserves(s, id, peer);
      case PausedTask(id) => PauseConserves(s, id);
      case ResumedTask(id) => ResumeConserves(s, id);
      case CancelledTask(id) => CancelOneConserves(s, id);
      case CancelledPeer(peer) => CancelForConserves(s, peer);
      case StoppedAll => StopAllConserves(s);
      case Pumped => ReapConserves(s);
      case RunnerReported(id) => MarkConserves(s, id);
    }
  }

  /** No step loses, duplicates or reuses a task. */
  lemma StepConserves(s: State, input: Input)
    requires Conserved(s)
    ensures Conserved(Step(s, input))
  {
    hide Conserved, StartNext, Changed, Starts;
    ChangedConserves(s, input.event);
    StartNextConserves(Changed(s, input.event), input.can);
  }
}
