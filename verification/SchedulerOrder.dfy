/**
 Two tasks waiting for the same machine are started in queue order, over whole runs; and from every reachable state
 reports and pumps alone empty the queue of tasks whose machines are ready.
 */
module SchedulerOrder {
  import opened Base
  import opened SchedulerState
  import opened SchedulerConservation
  import opened SchedulerTheorems
  import opened SchedulerRuns

  // ----- Queue order -----

  ghost predicate WaitsAt(q: seq<QueuedSend>, i: nat, id: nat, peer: Text) {
    i < |q| && q[i].id == id && q[i].peer == peer
  }

  /** Both wait for the same machine, a in front of b. */
  ghost predicate Ahead(q: seq<QueuedSend>, a: nat, b: nat, peer: Text) {
    exists i: nat, j: nat :: i < j && WaitsAt(q, i, a, peer) && WaitsAt(q, j, b, peer)
  }

  /** Whenever b was tried, a had been tried before. */
  ghost predicate TriedInOrder(attempts: seq<Attempt>, a: nat, b: nat) {
    forall j :: 0 <= j < |attempts| && attempts[j].id == b ==> a in TriedIds(attempts[..j])
  }

  ghost predicate InTurn(s: State, a: nat, b: nat, peer: Text) {
    && a != b
    && TriedInOrder(s.attempts, a, b)
    && (a in TriedIds(s.attempts) || Ahead(s.queue, a, b, peer))
  }

  /** An event that neither moves, pauses nor cancels one of two tasks of a machine. */
  predicate LeavesAlone(event: Event, a: nat, b: nat, peer: Text) {
    && !(event.Moved? && event.id in {a, b}) && !(event.PausedTask? && event.id in {a, b})
    && !(event.CancelledTask? && event.id in {a, b}) && !(event.CancelledPeer? && event.peerId == peer)
    && !event.StoppedAll?
  }

  lemma AppendTried(attempts: seq<Attempt>, x: Attempt, a: nat, b: nat)
    requires TriedInOrder(attempts, a, b) && (x.id == b ==> a in TriedIds(attempts))
    ensures TriedInOrder(attempts + [x], a, b)
  {
    hide TriedIds;
    var all := attempts + [x];
    forall j | 0 <= j < |all| && all[j].id == b ensures a in TriedIds(all[..j]) {
      assert all[..j] == if j < |attempts| then attempts[..j] else attempts;
    }
  }

  lemma WithoutKeepsAhead(q: seq<QueuedSend>, k: nat, a: nat, b: nat, peer: Text)
    requires k < |q| && Ahead(q, a, b, peer) && q[k].id != a && q[k].id != b
    ensures Ahead(Without(q, k), a, b, peer)
  {
    var i: nat, j: nat :| i < j && WaitsAt(q, i, a, peer) && WaitsAt(q, j, b, peer);
    var w := Without(q, k);
    var i', j' := if i < k then i else i - 1, if j < k then j else j - 1;
    assert WaitsAt(w, i', a, peer) && WaitsAt(w, j', b, peer);
  }

  lemma StartOneInTurn(s: State, k: nat, can: CanStart, a: nat, b: nat, peer: Text)
    requires Conserved(s) && InTurn(s, a, b, peer)
    requires k == FirstStartable(s, 0) < |s.queue|
    ensures InTurn(StartOne(s, k, can), a, b, peer)
  {
    hide RunningFor, StartOne, Startable, TriedIds, Places, TriedInOrder, Ahead, Without;
    StartOneFields(s, k, can);
    var x := AttemptOf(s, s.queue[k], can);
    AppendAttempt(s.attempts, x);
    if a !in TriedIds(s.attempts) {
      FirstIsNotLater(s, k, a, b, peer);
      if x.id != a {
        WithoutKeepsAhead(s.queue, k, a, b, peer);
      }
    }
    AppendTried(s.attempts, x, a, b);
  }

  /** b cannot be the first task that can be started while a waits for the same machine in front of it. */
  lemma FirstIsNotLater(s: State, k: nat, a: nat, b: nat, peer: Text)
    requires DistinctIds(s.queue) && Ahead(s.queue, a, b, peer)
    requires k == FirstStartable(s, 0) < |s.queue|
    ensures s.queue[k].id != b
  {
    hide RunningFor;
    var i: nat, j: nat :| i < j && WaitsAt(s.queue, i, a, peer) && WaitsAt(s.queue, j, b, peer);
    assert Startable(s, s.queue[j]) ==> Startable(s, s.queue[i]);
  }

  lemma {:induction false} StartNextInTurn(s: State, can: CanStart, a: nat, b: nat, peer: Text)
    requires Invariant(s) && InTurn(s, a, b, peer)
    ensures InTurn(StartNext(s, can), a, b, peer)
    decreases |s.queue|
  {
    hide Conserved, Tracked, Recorded, Bounded, StartOne, Startable, InTurn;
    if s.queue != [] && |s.running| < s.limits.maxGlobal && FirstStartable(s, 0) < |s.queue| {
      var k := FirstStartable(s, 0);
      StartOneInTurn(s, k, can, a, b, peer);
      StartOneConserves(s, k, can);
      StartOneTracked(s, k, can);
      StartOneRecorded(s, k, can);
      StartOneBounded(s, k, can);
      StartOneShrinks(s, k, can);
      StartNextInTurn(StartOne(s, k, can), can, a, b, peer);
    }
  }

  // What events do to a queue.

  lemma AppendKeepsAhead(q: seq<QueuedSend>, more: seq<QueuedSend>, a: nat, b: nat, peer: Text)
    requires Ahead(q, a, b, peer)
    ensures Ahead(q + more, a, b, peer)
  {
    var i: nat, j: nat :| i < j && WaitsAt(q, i, a, peer) && WaitsAt(q, j, b, peer);
    assert WaitsAt(q + more, i, a, peer) && WaitsAt(q + more, j, b, peer);
  }

  lemma {:induction false} AddForPeersAppends(s: State, peers: seq<Text>, seen: set<Text>, path: Text)
    ensures s.queue <= AddForPeers(s, peers, seen, path).queue
    decreases |peers|
  {
    if peers != [] {
      if peers[0] == [] || peers[0] in seen {
        AddForPeersAppends(s, peers[1..], seen, path);
      } else {
        AddForPeersAppends(AddToQueue(s, peers[0], path), peers[1..], seen + {peers[0]}, path);
      }
    }
  }

  lemma {:induction false} DroppingKeepsAhead(q: seq<QueuedSend>, ids: set<nat>, a: nat, b: nat, peer: Text)
    requires Ahead(q, a, b, peer) && a !in ids && b !in ids
    ensures Ahead(Dropping(q, ids), a, b, peer)
  {
    var i: nat, j: nat :| i < j && WaitsAt(q, i, a, peer) && WaitsAt(q, j, b, peer);
    var n := |q| - 1;
    var front := Dropping(q[..n], ids);
    if j < n {
      assert WaitsAt(q[..n], i, a, peer) && WaitsAt(q[..n], j, b, peer);
      DroppingKeepsAhead(q[..n], ids, a, b, peer);
      AppendKeepsAhead(front, [q[n]], a, b, peer);
    } else {
      assert WaitsAt(q[..n], i, a, peer);
      var i' := DroppingKeeps(q[..n], ids, i, a, peer);
      assert WaitsAt(front + [q[n]], i', a, peer) && WaitsAt(front + [q[n]], |front|, b, peer);
    }
  }

  lemma {:induction false} DroppingKeeps(q: seq<QueuedSend>, ids: set<nat>, i: nat, a: nat, peer: Text) returns (k: nat)
    requires WaitsAt(q, i, a, peer) && a !in ids
    ensures WaitsAt(Dropping(q, ids), k, a, peer)
  {
    var n := |q| - 1;
    if i < n {
      k := DroppingKeeps(q[..n], ids, i, a, peer);
    } else {
      k := |Dropping(q[..n], ids)|;
    }
  }

  lemma ReaddressKeepsAhead(s: State, id: nat, to: Text, a: nat, b: nat, peer: Text)
    requires Ahead(s.queue, a, b, peer) && id != a && id != b
    ensures Ahead(Readdress(s, id, to).queue, a, b, peer)
  {
    var i: nat, j: nat :| i < j && WaitsAt(s.queue, i, a, peer) && WaitsAt(s.queue, j, b, peer);
    var t := Readdress(s, id, to);
    assert WaitsAt(t.queue, i, a, peer) && WaitsAt(t.queue, j, b, peer);
  }

  lemma WaitingIsNotElsewhere(s: State, a: nat, b: nat, peer: Text, other: Text)
    requires DistinctIds(s.queue) && Ahead(s.queue, a, b, peer) && other != peer
    ensures a !in PeerIdsIn(s.queue, other) && b !in PeerIdsIn(s.queue, other)
  {
  }

  lemma ChangedKeepsAhead(s: State, event: Event, a: nat, b: nat, peer: Text)
    requires Conserved(s) && Ahead(s.queue, a, b, peer) && LeavesAlone(event, a, b, peer)
    ensures Ahead(Changed(s, event).queue, a, b, peer)
  {
    hide Ahead, Dropping, Without, IndexOf, PeerIdsIn, PausedFor, Retiring, Places, AddForPeers, Readdress;
    match event {
      case LimitsSet(_, _) =>
      case PeerUpserted(_) =>
      case PeerErased(_) =>
      case Enqueued(to, path) => AppendKeepsAhead(s.queue, [QueuedSend(s.nextId, to, path)], a, b, peer);
      case EnqueuedMany(tos, path) =>
        AddForPeersAppends(s, tos, {}, path);
        var t := AddForPeers(s, tos, {}, path);
        AppendKeepsAhead(s.queue, t.queue[|s.queue|..], a, b, peer);
        assert t.queue == s.queue + t.queue[|s.queue|..];
      case Moved(id, to) => ReaddressKeepsAhead(s, id, to, a, b, peer);
      case PausedTask(id) =>
        if Queued(s.queue, id) {
          WithoutKeepsAhead(s.queue, IndexOf(s.queue, id), a, b, peer);
        }
      case ResumedTask(id) =>
        if id in s.paused {
          AppendKeepsAhead(s.queue, [s.paused[id]], a, b, peer);
        }
      case CancelledTask(id) => DroppingKeepsAhead(s.queue, OneIf(id, Queued(s.queue, id)), a, b, peer);
      case CancelledPeer(other) =>
        WaitingIsNotElsewhere(s, a, b, peer, other);
        DroppingKeepsAhead(s.queue, PeerIdsIn(s.queue, other), a, b, peer);
      case Pumped =>
      case RunnerReported(_) =>
    }
  }

  lemma StepInTurn(s: State, input: Input, a: nat, b: nat, peer: Text)
    requires Invariant(s) && InTurn(s, a, b, peer) && LeavesAlone(input.event, a, b, peer)
    ensures InTurn(Step(s, input), a, b, peer)
  {
    hide Conserved, Tracked, Recorded, Bounded, Changed, StartNext, Starts, TriedIds, TriedInOrder, Ahead;
    var t := Changed(s, input.event);
    if a !in TriedIds(s.attempts) {
      ChangedKeepsAhead(s, input.event, a, b, peer);
    }
    ChangedFields(s, input.event);
    ChangedConserves(s, input.event);
    ChangedTracked(s, input.event);
    ChangedRecorded(s, input.event);
    ChangedBounded(s, input.event);
    StartNextInTurn(t, input.can, a, b, peer);
  }

  lemma {:induction false} RunInTurn(s: State, inputs: seq<Input>, a: nat, b: nat, peer: Text)
    requires Invariant(s) && InTurn(s, a, b, peer)
    requires forall i :: 0 <= i < |inputs| ==> LeavesAlone(inputs[i].event, a, b, peer)
    ensures InTurn(Run(s, inputs), a, b, peer)
    decreases |inputs|
  {
    hide Invariant, InTurn, Step, LeavesAlone;
    if inputs != [] {
      StepInTurn(s, inputs[0], a, b, peer);
      StepKeeps(s, inputs[0]);
      RunInTurn(Step(s, inputs[0]), inputs[1..], a, b, peer);
    }
  }

  /**
   Two tasks waiting for the same machine are started in queue order, unless one of them is moved, paused or cancelled
   meanwhile: b is never tried before a, whatever else happens.
   */
  lemma StartedInQueueOrder(s: State, inputs: seq<Input>, a: nat, b: nat, peer: Text, n: nat)
    requires Reachable(s) && Ahead(s.queue, a, b, peer)
    requires forall i :: 0 <= i < |inputs| ==> LeavesAlone(inputs[i].event, a, b, peer)
    requires n < |Run(s, inputs).attempts| && Run(s, inputs).attempts[n].id == b
    ensures exists m :: 0 <= m < n && Run(s, inputs).attempts[m].id == a
  {
    hide Reachable, LeavesAlone, Run, NeverIdle, Tracked, Bounded;
    ReachableKeeps(s);
    WaitingIsUntried(s, a, b, peer);
    RunInTurn(s, inputs, a, b, peer);
  }

  lemma WaitingIsUntried(s: State, a: nat, b: nat, peer: Text)
    requires Conserved(s) && Recorded(s) && Ahead(s.queue, a, b, peer)
    ensures a != b && TriedInOrder(s.attempts, a, b)
  {
    hide PausedMatch, RunningMatch, StartedIds, NoRepeats;
    var i: nat, j: nat :| i < j && WaitsAt(s.queue, i, a, peer) && WaitsAt(s.queue, j, b, peer);
    WaitsOnly(s, j);
    forall k | 0 <= k < |s.attempts| ensures s.attempts[k].id in TriedIds(s.attempts) {
    }
  }

  // ----- Nothing is stuck -----

  lemma {:induction false} RunAppend(s: State, first: seq<Input>, second: seq<Input>)
    ensures Run(s, first + second) == Run(Run(s, first), second)
    decreases |first|
  {
    hide Step;
    if first == [] {
      assert first + second == second;
    } else {
      assert (first + second)[1..] == first[1..] + second;
      RunAppend(Step(s, first[0]), first[1..], second);
    }
  }

  /** A machine that is ready has a task waiting. */
  ghost predicate HasWork(s: State) {
    exists i :: 0 <= i < |s.queue| && PeerReady(s.peers, s.queue[i].peer)
  }

  /** Only reports of runner threads and pumps. */
  predicate IsUpkeep(inputs: seq<Input>) {
    forall i :: 0 <= i < |inputs| ==> inputs[i].event.RunnerReported? || inputs[i].event.Pumped?
  }

  /** Once every thread has reported, a pump tries at least one of the tasks whose machine is ready. */
  lemma PumpMakesProgress(s: State, can: CanStart)
    requires Invariant(s) && s.live == {} && HasWork(s)
    ensures |Step(s, Input(Pumped, can)).queue| < |s.queue|
  {
    hide StartNext, StartOne, Conserved, Recorded, RunningFor;
    var r := Reap(s);
    EverythingReaped(s);
    var i :| 0 <= i < |s.queue| && PeerReady(s.peers, s.queue[i].peer);
    NoneRunning(r.running, r.queue[i].peer);
    assert Startable(r, r.queue[i]);
    var k := FirstStartable(r, 0);
    assert k < |r.queue|;
    StartsFirst(r, can);
    StartOneShrinks(r, k, can);
    StartNextReports(StartOne(r, k, can), can);
  }

  lemma StartsFirst(s: State, can: CanStart)
    requires |s.running| < s.limits.maxGlobal && FirstStartable(s, 0) < |s.queue|
    ensures StartNext(s, can) == StartNext(StartOne(s, FirstStartable(s, 0), can), can)
  {
    hide StartOne, Startable;
  }

  lemma EverythingReaped(s: State)
    requires Tracked(s) && s.live == {}
    ensures Reap(s).running == map[]
  {
    forall id | id in s.running ensures s.running[id].completed {
      assert Accounted(s, id);
    }
  }

  lemma NoneRunning(running: map<nat, RunningSend>, peer: Text)
    requires running == map[]
    ensures |running| == 0 && RunningFor(running, peer) == 0
  {
    assert RunningIds(running, peer) == {};
  }

  /** Lets every live thread report. */
  lemma {:induction false} ReportAll(s: State, can: CanStart) returns (inputs: seq<Input>)
    requires Invariant(s)
    ensures IsUpkeep(inputs) && Run(s, inputs).live == {} && Invariant(Run(s, inputs))
    ensures Run(s, inputs).queue == s.queue && Run(s, inputs).peers == s.peers
    decreases |s.live|
  {
    hide Invariant;
    if s.live == {} {
      inputs := [];
    } else {
      var id :| id in s.live;
      var report := Input(RunnerReported(id), can);
      StepKeeps(s, report);
      SubsetSize(s.live - {id}, s.live);
      var rest := ReportAll(Step(s, report), can);
      inputs := [report] + rest;
      assert inputs[1..] == rest;
    }
  }

  /**
   From every reachable state, reports and pumps alone lead to a state in which no task of a ready machine is waiting:
   the scheduler never locks itself up.
   */
  lemma AlwaysDrains(s: State, can: CanStart) returns (inputs: seq<Input>)
    requires Reachable(s)
    ensures IsUpkeep(inputs) && !HasWork(Run(s, inputs))
  {
    hide Reachable, Invariant, HasWork, IsUpkeep, Run, NeverIdle;
    ReachableKeeps(s);
    inputs := Drain(s, can);
  }

  lemma {:induction false} Drain(s: State, can: CanStart) returns (inputs: seq<Input>)
    requires Invariant(s)
    ensures IsUpkeep(inputs) && !HasWork(Run(s, inputs))
    decreases |s.queue|
  {
    hide Invariant, Step, HasWork;
    if !HasWork(s) {
      inputs := [];
    } else {
      var reports := ReportAll(s, can);
      var t := Run(s, reports);
      var pump := Input(Pumped, can);
      SameWork(s, t);
      PumpMakesProgress(t, can);
      StepKeeps(t, pump);
      var rest := Drain(Step(t, pump), can);
      inputs := reports + ([pump] + rest);
      RunAppend(s, reports, [pump] + rest);
      assert ([pump] + rest)[1..] == rest;
    }
  }

  lemma SameWork(s: State, t: State)
    requires HasWork(s) && t.queue == s.queue && t.peers == s.peers
    ensures HasWork(t)
  {
  }

  // ----- Every fair upkeep drains -----

  /** How many pumps come when every started thread has reported. */
  function FullPumps(s: State, inputs: seq<Input>): nat
    decreases |inputs|
  {
    if inputs == [] then 0
    else (if inputs[0].event.Pumped? && s.live == {} then 1 else 0) + FullPumps(Step(s, inputs[0]), inputs[1..])
  }

  /** Upkeep only takes tasks out of the queue. */
  lemma UpkeepShrinks(s: State, input: Input)
    requires input.event.RunnerReported? || input.event.Pumped?
    ensures var t := Step(s, input);
            && t.peers == s.peers && |t.queue| <= |s.queue|
            && (HasWork(t) ==> HasWork(s))
  {
    hide StartNext, RunningFor, Retiring;
    if input.event.Pumped? {
      var t := StartNext(Reap(s), input.can);
      StartNextTakes(Reap(s), input.can);
      if HasWork(t) {
        var i :| 0 <= i < |t.queue| && PeerReady(t.peers, t.queue[i].peer);
        assert t.queue[i] in s.queue;
      }
    }
  }

  lemma {:induction false} StartNextTakes(s: State, can: CanStart)
    ensures var t := StartNext(s, can);
            t.peers == s.peers && |t.queue| <= |s.queue| && forall task :: task in t.queue ==> task in s.queue
    decreases |s.queue|
  {
    hide StartOne, Startable;
    if s.queue != [] && |s.running| < s.limits.maxGlobal && FirstStartable(s, 0) < |s.queue| {
      var k := FirstStartable(s, 0);
      StartOneFields(s, k, can);
      StartOneShrinks(s, k, can);
      StartNextTakes(StartOne(s, k, can), can);
    }
  }

  /**
   However reports and pumps are mixed, and whatever can be started at each pump: after as many pumps at which every
   started thread has reported as there were tasks waiting, no task of a ready machine waits.
   */
  lemma {:induction false} FairUpkeepDrains(s: State, inputs: seq<Input>)
    requires Invariant(s) && IsUpkeep(inputs) && (FullPumps(s, inputs) >= |s.queue| || !HasWork(s))
    ensures !HasWork(Run(s, inputs))
    decreases |inputs|
  {
    hide Invariant, Step, HasWork;
    if inputs == [] {
      EmptyHasNoWork(s);
    } else {
      if HasWork(s) && inputs[0].event.Pumped? && s.live == {} {
        PumpMakesProgress(s, inputs[0].can);
        assert inputs[0] == Input(Pumped, inputs[0].can);
      }
      UpkeepShrinks(s, inputs[0]);
      StepKeeps(s, inputs[0]);
      FairUpkeepDrains(Step(s, inputs[0]), inputs[1..]);
    }
  }

  lemma EmptyHasNoWork(s: State)
    ensures s.queue == [] ==> !HasWork(s)
  {
  }

  /** Reports of all live threads, in any order, and a pump. */
  predicate IsRound(s: State, inputs: seq<Input>) {
    && inputs != [] && inputs[|inputs| - 1].event.Pumped?
    && (forall i :: 0 <= i < |inputs| - 1 ==> inputs[i].event.RunnerReported?)
    && (forall id :: id in s.live ==> exists i :: 0 <= i < |inputs| - 1 && inputs[i].event == RunnerReported(id))
  }

  /** A sequence of rounds, each for the threads that are live when it begins. */
  ghost predicate AreRounds(s: State, rounds: seq<seq<Input>>)
    decreases |rounds|
  {
    rounds != [] ==> IsRound(s, rounds[0]) && AreRounds(Run(s, rounds[0]), rounds[1..])
  }

  function InARow(rounds: seq<seq<Input>>): seq<Input> {
    if rounds == [] then [] else rounds[0] + InARow(rounds[1..])
  }

  lemma {:induction false} PumpsAppend(s: State, first: seq<Input>, second: seq<Input>)
    ensures FullPumps(s, first + second) == FullPumps(s, first) + FullPumps(Run(s, first), second)
    decreases |first|
  {
    hide Step;
    if first == [] {
      assert first + second == second;
    } else {
      assert (first + second)[1..] == first[1..] + second;
      PumpsAppend(Step(s, first[0]), first[1..], second);
    }
  }

  lemma {:induction false} RoundHasFullPump(s: State, round: seq<Input>)
    requires IsRound(s, round)
    ensures FullPumps(s, round) >= 1 && IsUpkeep(round)
    decreases |round|
  {
    hide StartNext, Starts, FullPumps;
    if |round| == 1 {
      assert s.live == {};
      OnePump(s, round);
    } else {
      var t, rest := Step(s, round[0]), round[1..];
      ReportStep(s, round[0]);
      forall id | id in t.live ensures exists i :: 0 <= i < |rest| - 1 && rest[i].event == RunnerReported(id) {
        var i :| 0 <= i < |round| - 1 && round[i].event == RunnerReported(id);
        assert i > 0 && rest[i - 1] == round[i];
      }
      RoundHasFullPump(t, rest);
      OneStep(s, round);
    }
  }

  lemma OnePump(s: State, round: seq<Input>)
    requires |round| == 1 && round[0].event.Pumped? && s.live == {}
    ensures FullPumps(s, round) >= 1
  {
  }

  lemma OneStep(s: State, round: seq<Input>)
    requires round != []
    ensures FullPumps(s, round) >= FullPumps(Step(s, round[0]), round[1..])
  {
  }

  lemma ReportStep(s: State, input: Input)
    requires input.event.RunnerReported?
    ensures Step(s, input).live == s.live - {input.event.id}
  {
    hide StartNext;
  }

  lemma {:induction false} RoundsHaveFullPumps(s: State, rounds: seq<seq<Input>>)
    requires AreRounds(s, rounds)
    ensures FullPumps(s, InARow(rounds)) >= |rounds| && IsUpkeep(InARow(rounds))
    decreases |rounds|
  {
    hide FullPumps, IsRound, Run;
    if rounds != [] {
      RoundHasFullPump(s, rounds[0]);
      RoundsHaveFullPumps(Run(s, rounds[0]), rounds[1..]);
      PumpsAppend(s, rounds[0], InARow(rounds[1..]));
    } else {
      NoPumps(s);
    }
  }

  lemma NoPumps(s: State)
    ensures FullPumps(s, []) == 0
  {
  }

  /**
   From every reachable state, as many rounds as tasks are waiting - all live threads report, then a pump - leave no task
   of a ready machine waiting, whichever tasks can be started.
   */
  lemma EveryRoundsDrain(s: State, rounds: seq<seq<Input>>)
    requires Reachable(s) && AreRounds(s, rounds) && |rounds| >= |s.queue|
    ensures !HasWork(Run(s, InARow(rounds)))
  {
    hide Reachable, Invariant, HasWork, Run, AreRounds, NeverIdle;
    ReachableKeeps(s);
    RoundsHaveFullPumps(s, rounds);
    FairUpkeepDrains(s, InARow(rounds));
  }
}
