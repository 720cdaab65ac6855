/**
 What every interleaving of the record writer keeps: a flush that answers yes tells the truth, the worker leaves nothing
 behind, no wake-up is lost, and what is pending gets done.
 */
module RecordRepositoryTheorems {
  import opened Base
  import opened RecordRepositoryState

  // ----- Batches -----

  function LastTaken(attempts: seq<Attempt>): nat {
    if attempts == [] then 0 else attempts[|attempts| - 1].upTo
  }

  /** The requests are taken in batches, each later than the one before; a batch is its last request. */
  ghost predicate Batched(requests: seq<Records>, attempts: seq<Attempt>) {
    && (forall i :: 0 <= i < |attempts| ==>
          1 <= attempts[i].upTo <= |requests| && attempts[i].records == requests[attempts[i].upTo - 1])
    && (forall i, j :: 0 <= i < j < |attempts| ==> attempts[i].upTo < attempts[j].upTo)
  }

  /** What the flags say about requests and batches. */
  ghost predicate Flags(s: State) {
    && (s.writing <==> s.worker.Writing? || s.worker.Wrote?)
    && (s.flushRequested && !s.stop ==> s.dirty)
    && (s.worker.Debouncing? ==> s.dirty)
    && (s.worker.Exited? ==> s.stop && !s.dirty)
    && (s.requests != [] ==> s.latest == s.requests[|s.requests| - 1])
    && (s.dirty ==> s.taken < |s.requests|)
    && (!s.dirty ==> s.taken == |s.requests|)
    && (s.worker.Writing? ==> s.taken >= 1 && s.worker.records == s.requests[s.taken - 1] && LastTaken(s.attempts) < s.taken)
    && (!s.worker.Writing? ==> LastTaken(s.attempts) == s.taken)
    && (s.worker.Wrote? ==> s.attempts != [] && s.worker.ok == s.attempts[|s.attempts| - 1].ok)
  }

  /** The file is that of the last write that succeeded, and a failed last write has left an error. */
  ghost predicate Truthful(s: State) {
    s.attempts != [] ==>
      var last := s.attempts[|s.attempts| - 1];
      (last.ok ==> s.file == Some(last.records)) && (!last.ok ==> s.lastError)
  }

  /** The debounce wait ends early. */
  predicate DebounceCut(s: State)
    requires s.worker.Debouncing?
  {
    s.stop || s.flushRequested || s.generation != s.worker.observed
  }

  /** Whoever sleeps although its condition holds is about to be woken. */
  ghost predicate Awake(s: State) {
    && (s.worker.Idle? && s.worker.asleep && (s.stop || s.dirty) ==> s.notices > 0)
    && (s.worker.Debouncing? && s.worker.asleep && DebounceCut(s) ==> s.notices > 0)
    && (forall id :: id in s.flushers && s.flushers[id] && FlushDone(s) ==> s.notices > 0 || s.worker.Announcing?)
  }

  ghost predicate Invariant(s: State) {
    Batched(s.requests, s.attempts) && Flags(s) && Truthful(s) && Awake(s)
  }

  lemma Initially(file: Option<Records>)
    ensures Invariant(Initial(file))
  {
  }

  lemma RequestKeeps(s: State, records: Records)
    requires Invariant(s) && !s.stop
    ensures Invariant(RequestSave(s, records))
  {
    var t := RequestSave(s, records);
    assert forall i :: 0 <= i < |s.requests| ==> t.requests[i] == s.requests[i];
  }

  lemma NoticeKeeps(s: State)
    requires Invariant(s) && s.notices > 0
    ensures Invariant(WakeAll(s.(notices := s.notices - 1)))
  {
    hide WakeAll;
    WakeKeeps(s.(notices := s.notices - 1));
  }

  lemma WakeKeeps(s: State)
    requires Batched(s.requests, s.attempts) && Flags(s) && Truthful(s)
    ensures Invariant(WakeAll(s))
  {
  }

  /** Taking what is dirty keeps everything; while it is written nobody's condition holds. */
  lemma TakeKeeps(s: State)
    requires Invariant(s) && s.dirty && (s.worker.Idle? || s.worker.Debouncing?)
    ensures Invariant(Take(s))
  {
    hide Batched;
    AwakeWhileWriting(Take(s));
    hide Awake;
  }

  lemma DebounceKeeps(s: State)
    requires Invariant(s) && s.dirty && (s.worker.Idle? || s.worker.Debouncing?)
    ensures Invariant(Debounce(s))
  {
    hide Batched, LastTaken;
    if s.stop || s.flushRequested {
      TakeKeeps(s);
    }
  }

  lemma WakeWorkerKeeps(s: State)
    requires Invariant(s)
    ensures Invariant(WakeWorker(s))
  {
    hide Batched, LastTaken, Debounce;
    if s.dirty && (s.worker.Idle? || s.worker.Debouncing?) {
      DebounceKeeps(s);
    }
  }

  lemma EndDebounceKeeps(s: State)
    requires Invariant(s)
    ensures Invariant(EndDebounce(s))
  {
    hide Debounce, Take, Batched, Truthful, Awake, LastTaken;
    if s.worker.Debouncing? {
      DebounceKeeps(s);
      TakeKeeps(s);
    }
  }

  lemma WriteKeeps(s: State, ok: bool)
    requires Invariant(s) && s.worker.Writing?
    ensures Invariant(EndWrite(s, ok))
  {
    hide Awake;
    var t := EndWrite(s, ok);
    BatchAppend(s.requests, s.attempts, s.worker.records, s.taken, ok);
    AwakeWhileWriting(t);
  }

  lemma AwakeWhileWriting(s: State)
    requires s.writing && (s.worker.Writing? || s.worker.Wrote?)
    ensures Awake(s)
  {
  }

  lemma BatchAppend(requests: seq<Records>, attempts: seq<Attempt>, records: Records, upTo: nat, ok: bool)
    requires Batched(requests, attempts) && LastTaken(attempts) < upTo <= |requests| && records == requests[upTo - 1]
    ensures Batched(requests, attempts + [Attempt(records, upTo, ok)])
  {
    forall i | 0 <= i < |attempts| ensures attempts[i].upTo < upTo {
      if i < |attempts| - 1 {
        assert attempts[i].upTo < attempts[|attempts| - 1].upTo;
      }
    }
  }

  lemma CheckKeeps(s: State, id: nat)
    requires Invariant(s)
    ensures Invariant(CheckFlush(s, id))
  {
    hide Batched, LastTaken;
  }

  /** What is dirty is marked to be flushed, and everybody is woken. */
  lemma MarkKeeps(s: State)
    requires Invariant(s) && s.dirty
    ensures Invariant(WakeAll(s.(flushRequested := true)))
  {
    WakeKeeps(s.(flushRequested := true));
  }

  lemma StartKeeps(s: State, id: nat)
    requires Invariant(s)
    ensures Invariant(StartFlush(s, id))
  {
    hide Invariant, CheckFlush, WakeAll;
    if s.dirty {
      MarkKeeps(s);
      CheckKeeps(WakeAll(s.(flushRequested := true)), id);
    } else {
      CheckKeeps(s, id);
    }
  }

  /** One flush less and one more answer. */
  lemma TimeoutKeeps(s: State, id: nat, answer: bool)
    requires Invariant(s)
    ensures Invariant(s.(flushers := s.flushers - {id}, answers := s.answers[id := answer]))
  {
    hide Batched, LastTaken;
  }

  lemma LoadKeeps(s: State)
    requires Invariant(s)
    ensures Invariant(s.(lastError := true))
  {
    hide Batched, LastTaken;
  }

  lemma StopKeeps(s: State)
    requires Invariant(s)
    ensures Invariant(RequestStop(s))
  {
    hide Batched, LastTaken;
  }

  lemma RecordKeeps(s: State)
    requires Invariant(s)
    ensures Invariant(RecordWrite(s))
  {
    hide Batched, LastTaken;
  }

  lemma AnnounceKeeps(s: State)
    requires Invariant(s) && s.worker.Announcing?
    ensures Invariant(WakeAll(s).(worker := Idle(false)))
  {
    hide Batched, LastTaken;
  }

  lemma StepKeeps(s: State, event: Event)
    requires Invariant(s)
    ensures Invariant(Step(s, event))
  {
    hide Invariant, RequestSave, WakeAll, StartFlush, CheckFlush, FlushDone, RequestStop, WakeWorker, EndDebounce, RecordWrite;
    match event {
      case SaveRequested(records) => if !s.stop { RequestKeeps(s, records); }
      case CallerNotified => if s.notices > 0 { NoticeKeeps(s); }
      case FlushStarted(id) => StartKeeps(s, id);
      case FlushChecked(id) => CheckKeeps(s, id);
      case FlushTimedOut(id) => TimeoutKeeps(s, id, FlushDone(s));
      case LoadFailed => LoadKeeps(s);
      case StopRequested => StopKeeps(s);
      case WorkerWoke => WakeWorkerKeeps(s);
      case DebounceOver => EndDebounceKeeps(s);
      case WriteEnded(ok) => if s.worker.Writing? { WriteKeeps(s, ok); }
      case WriteRecorded => RecordKeeps(s);
      case WorkerNotified => if s.worker.Announcing? { AnnounceKeeps(s); }
    }
  }

  lemma {:induction false} RunKeeps(s: State, events: seq<Event>)
    requires Invariant(s)
    ensures Invariant(Run(s, events))
    decreases |events|
  {
    hide Invariant, Step;
    if events != [] {
      StepKeeps(s, events[0]);
      RunKeeps(Step(s, events[0]), events[1..]);
    }
  }

  ghost predicate Reachable(s: State) {
    exists file, events :: s == Run(Initial(file), events)
  }

  lemma ReachableKeeps(s: State)
    requires Reachable(s)
    ensures Invariant(s)
  {
    hide Invariant, Run, Initial;
    var file, events :| s == Run(Initial(file), events);
    Initially(file);
    RunKeeps(Initial(file), events);
  }

  // ----- What a flush and the end of the worker mean -----

  /** The last write attempted was of the latest records requested. */
  ghost predicate Saved(s: State) {
    s.requests != [] ==>
      && s.attempts != []
      && var last := s.attempts[|s.attempts| - 1];
      && last.upTo == |s.requests| && last.records == s.latest == s.requests[|s.requests| - 1]
      && (!s.lastError ==> s.file == Some(s.latest))
  }

  lemma QuietIsSaved(s: State)
    requires Invariant(s) && !s.dirty && !s.writing
    ensures Saved(s)
  {
    hide Awake;
  }

  lemma YesMeansDone(s: State, event: Event, id: nat)
    requires id !in s.answers && id in Step(s, event).answers && Step(s, event).answers[id]
    ensures FlushDone(Step(s, event))
  {
    match event {
      case FlushStarted(_) =>
      case FlushChecked(_) =>
      case FlushTimedOut(_) =>
      case WorkerWoke =>
      case DebounceOver =>
      case _ =>
    }
  }

  /**
   When a flush answers yes, the last write attempted was of the latest records; if no error is reported then, the file
   holds them.
   */
  lemma FlushTellsTheTruth(s: State, event: Event, id: nat)
    requires Reachable(s)
    requires id !in s.answers && id in Step(s, event).answers && Step(s, event).answers[id]
    ensures Saved(Step(s, event))
  {
    hide Reachable, Invariant, Step, Saved;
    ReachableKeeps(s);
    StepKeeps(s, event);
    YesMeansDone(s, event, id);
    QuietIsSaved(Step(s, event));
  }

  /** The worker leaves nothing behind: when it is gone, everything ever requested has been attempted. */
  lemma NothingLeftBehind(s: State)
    requires Reachable(s) && s.worker.Exited?
    ensures Saved(s)
  {
    hide Reachable, Saved, Batched, Truthful, Awake;
    ReachableKeeps(s);
    QuietIsSaved(s);
  }

  /** Before the end, a pending flush request means that there is something to write. */
  lemma PendingFlushIsDirty(s: State)
    requires Reachable(s) && s.flushRequested && !s.stop
    ensures s.dirty
  {
    hide Reachable, Batched, Truthful, Awake;
    ReachableKeeps(s);
  }

  // ----- What is pending gets done -----

  /** The worker's next step, and that it achieves something. */
  predicate Productive(s: State, event: Event) {
    match s.worker
    case Idle(_) => event.WorkerWoke? && (s.stop || s.dirty)
    case Debouncing(_, _) => event.DebounceOver? || (event.WorkerWoke? && DebounceCut(s))
    case Writing(_) => event.WriteEnded?
    case Wrote(_) => event.WriteRecorded?
    case Announcing => event.WorkerNotified?
    case Exited => false
  }

  /** How many productive steps are left at most. */
  function Rank(s: State): nat {
    (if s.dirty then 6 else 0) +
    match s.worker
    case Exited => 0
    case Debouncing(observed, _) => if s.generation != observed then 1 else 0
    case Idle(_) => 1
    case Announcing => 2
    case Wrote(_) => 3
    case Writing(_) => 4
  }

  predicate OfWorker(event: Event) {
    event.WorkerWoke? || event.DebounceOver? || event.WriteEnded? || event.WriteRecorded? || event.WorkerNotified?
  }

  lemma WorkerRanks(s: State, event: Event)
    requires Invariant(s) && OfWorker(event)
    ensures Rank(Step(s, event)) + (if Productive(s, event) then 1 else 0) <= Rank(s)
  {
    hide Batched, Truthful, Awake, LastTaken;
  }

  lemma CallersRank(s: State, event: Event)
    requires !OfWorker(event) && !event.SaveRequested?
    ensures Rank(Step(s, event)) <= Rank(s) && !Productive(s, event)
  {
    hide WakeWorker, EndDebounce, EndWrite, RecordWrite, FlushDone;
  }

  lemma StepRanks(s: State, event: Event)
    requires Invariant(s) && !event.SaveRequested?
    ensures Rank(Step(s, event)) + (if Productive(s, event) then 1 else 0) <= Rank(s)
  {
    hide Invariant, Step, Rank, Productive;
    if OfWorker(event) {
      WorkerRanks(s, event);
    } else {
      CallersRank(s, event);
    }
  }

  function ProductiveSteps(s: State, events: seq<Event>): nat
    decreases |events|
  {
    if events == [] then 0
    else (if Productive(s, events[0]) then 1 else 0) + ProductiveSteps(Step(s, events[0]), events[1..])
  }

  /** Whatever else happens, as long as nothing new is requested, at most ten productive steps are ever left. */
  lemma {:induction false} FewStepsLeft(s: State, events: seq<Event>)
    requires Invariant(s) && forall i :: 0 <= i < |events| ==> !events[i].SaveRequested?
    ensures Rank(Run(s, events)) + ProductiveSteps(s, events) <= Rank(s) <= 10
    decreases |events|
  {
    hide Invariant, Step, Productive;
    if events != [] {
      StepRanks(s, events[0]);
      StepKeeps(s, events[0]);
      FewStepsLeft(Step(s, events[0]), events[1..]);
    }
  }

  /**
   No wake-up is lost. When the worker has no productive step, it has exited after a stop, and otherwise the condition
   of every flush holds. Whoever sleeps although its condition holds is about to be notified.
   */
  lemma NeverStuck(s: State)
    requires Reachable(s)
    ensures (forall event :: !Productive(s, event)) ==> if s.stop then s.worker.Exited? else FlushDone(s)
    ensures s.worker.Idle? && s.worker.asleep && (s.stop || s.dirty) ==> s.notices > 0
    ensures forall id :: id in s.flushers && s.flushers[id] && FlushDone(s) ==> s.notices > 0 || s.worker.Announcing?
  {
    hide Reachable, Batched, Truthful;
    ReachableKeeps(s);
    assert s.worker.Idle? && (s.stop || s.dirty) ==> Productive(s, WorkerWoke);
    assert s.worker.Debouncing? ==> Productive(s, DebounceOver);
    assert s.worker.Writing? ==> Productive(s, WriteEnded(true));
    assert s.worker.Wrote? ==> Productive(s, WriteRecorded);
    assert s.worker.Announcing? ==> Productive(s, WorkerNotified);
  }

  /** Shutting down: under any schedule, ten productive steps of the worker after the stop end it, all saved. */
  lemma ShutdownEnds(s: State, events: seq<Event>)
    requires Reachable(s) && s.stop && ProductiveSteps(s, events) >= Rank(s)
    ensures Run(s, events).worker.Exited? && Saved(Run(s, events))
  {
    hide Reachable, Saved, Run, Invariant, ProductiveSteps;
    ReachableKeeps(s);
    StoppedRanks(s, events);
    RunKeeps(s, events);
    ExitedIsQuiet(Run(s, events));
    QuietIsSaved(Run(s, events));
  }

  lemma ExitedIsQuiet(s: State)
    requires Invariant(s) && s.stop && Rank(s) == 0
    ensures s.worker.Exited? && !s.dirty && !s.writing
  {
    hide Batched, Truthful, Awake;
  }

  /** After the stop nothing new is accepted, so every event counts. */
  lemma {:induction false} StoppedRanks(s: State, events: seq<Event>)
    requires Invariant(s) && s.stop
    ensures Run(s, events).stop && Rank(Run(s, events)) + ProductiveSteps(s, events) <= Rank(s)
    decreases |events|
  {
    hide Invariant, Productive, Rank;
    if events != [] {
      if events[0].SaveRequested? {
        NotProductive(s, events[0]);
      } else {
        StepRanks(s, events[0]);
      }
      StepKeeps(s, events[0]);
      StaysStopped(s, events[0]);
      StoppedRanks(Step(s, events[0]), events[1..]);
    }
  }

  lemma NotProductive(s: State, event: Event)
    requires event.SaveRequested? && s.stop
    ensures !Productive(s, event) && Step(s, event) == s
  {
  }

  lemma StaysStopped(s: State, event: Event)
    requires s.stop
    ensures Step(s, event).stop
  {
  }
}
