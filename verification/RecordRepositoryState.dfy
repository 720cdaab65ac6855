/**
 The debounced record writer as a monitor (src/gui/transfer_record_repository.cpp): one mutex, one condition variable,
 a worker thread, callers that save and flush, and the destructor. Every stretch under the mutex is one step, and so is
 every notification made without it; waiters may also wake for no reason.
 */
module RecordRepositoryState {
  import opened Base

  type Records = seq<Bytes>

  /** One write: what was written, how many requests had been made when it was taken, and how it went. */
  datatype Attempt = Attempt(records: Records, upTo: nat, ok: bool)

  /** Where the worker is: in one of its two waits, writing, between its two critical sections, or gone. */
  datatype Worker =
    | Idle(asleep: bool)
    | Debouncing(observed: nat, asleep: bool)
    | Writing(records: Records)
    | Wrote(ok: bool)
    | Announcing
    | Exited

  /**
   Fields: latest to lastError. Threads: the worker, the flushes that wait (and whether they sleep), and how many
   callers have left the mutex but not yet notified. Outside: the file. History: requests, attempts, answers of flush.
   `taken` is how many requests the last batch taken covers.
   */
  datatype State = State(
    latest: Records,
    generation: nat,
    dirty: bool,
    writing: bool,
    flushRequested: bool,
    stop: bool,
    lastError: bool,
    worker: Worker,
    flushers: map<nat, bool>,
    notices: nat,
    file: Option<Records>,
    requests: seq<Records>,
    taken: nat,
    attempts: seq<Attempt>,
    answers: map<nat, bool>)

  function Initial(file: Option<Records>): State {
    State([], 0, false, false, false, false, false, Idle(false), map[], 0, file, [], 0, [], map[])
  }

  predicate FlushDone(s: State) {
    !s.dirty && !s.writing && !s.flushRequested
  }

  function WakeAll(s: State): State {
    s.(worker := match s.worker
                 case Idle(_) => Idle(false)
                 case Debouncing(observed, _) => Debouncing(observed, false)
                 case w => w,
       flushers := map id | id in s.flushers :: false)
  }

  // ----- The worker -----

  function Take(s: State): State {
    s.(dirty := false, flushRequested := false, writing := true, worker := Writing(s.latest), taken := |s.requests|)
  }

  /** The head of the debounce loop. */
  function Debounce(s: State): State {
    if s.stop || s.flushRequested then Take(s) else s.(worker := Debouncing(s.generation, true))
  }

  function WakeWorker(s: State): State {
    match s.worker
    case Idle(_) =>
      if !s.stop && !s.dirty then s.(worker := Idle(true))
      else if s.stop && !s.dirty then s.(worker := Exited)
      else Debounce(s)
    case Debouncing(observed, _) =>
      if s.stop || s.flushRequested || s.generation != observed then Debounce(s)
      else s.(worker := Debouncing(observed, true))
    case _ => s
  }

  function EndDebounce(s: State): State {
    if !s.worker.Debouncing? then s
    else if s.stop || s.flushRequested || s.generation != s.worker.observed then Debounce(s)
    else Take(s)
  }

  /** The write itself: the file is replaced in one step or not at all. */
  function EndWrite(s: State, ok: bool): State {
    if !s.worker.Writing? then s else
      var records := s.worker.records;
      s.(worker := Wrote(ok), attempts := s.attempts + [Attempt(records, s.taken, ok)],
         file := if ok then Some(records) else s.file, lastError := s.lastError || !ok)
  }

  function RecordWrite(s: State): State {
    if !s.worker.Wrote? then s
    else s.(lastError := s.lastError && !s.worker.ok, writing := false, worker := Announcing)
  }

  // ----- Callers -----

  function RequestSave(s: State, records: Records): State {
    s.(latest := records, dirty := true, generation := (s.generation + 1) % U64_LIMIT,
       requests := s.requests + [records], notices := s.notices + 1)
  }

  function CheckFlush(s: State, id: nat): State {
    if FlushDone(s) then s.(flushers := s.flushers - {id}, answers := s.answers[id := true])
    else s.(flushers := s.flushers[id := true])
  }

  function StartFlush(s: State, id: nat): State {
    CheckFlush(if s.dirty then WakeAll(s.(flushRequested := true)) else s, id)
  }

  function RequestStop(s: State): State {
    s.(stop := true, flushRequested := true, notices := s.notices + 1)
  }

  // ----- Runs -----

  datatype Event =
    | SaveRequested(records: Records)
    | CallerNotified
    | FlushStarted(id: nat)
    | FlushChecked(id: nat)
    | FlushTimedOut(id: nat)
    | LoadFailed
    | StopRequested
    | WorkerWoke
    | DebounceOver
    | WriteEnded(ok: bool)
    | WriteRecorded
    | WorkerNotified

  /** One step. Nothing is requested of an object that is being destroyed, and each flush has its own number. */
  function Step(s: State, event: Event): State {
    match event
    case SaveRequested(records) => if s.stop then s else RequestSave(s, records)
    case CallerNotified => if s.notices == 0 then s else WakeAll(s.(notices := s.notices - 1))
    case FlushStarted(id) => if s.stop || id in s.flushers || id in s.answers then s else StartFlush(s, id)
    case FlushChecked(id) => if id in s.flushers then CheckFlush(s, id) else s
    case FlushTimedOut(id) =>
      if id in s.flushers then s.(flushers := s.flushers - {id}, answers := s.answers[id := FlushDone(s)]) else s
    case LoadFailed => s.(lastError := true)
    case StopRequested => if s.stop then s else RequestStop(s)
    case WorkerWoke => WakeWorker(s)
    case DebounceOver => EndDebounce(s)
    case WriteEnded(ok) => EndWrite(s, ok)
    case WriteRecorded => RecordWrite(s)
    case WorkerNotified => if s.worker.Announcing? then WakeAll(s).(worker := Idle(false)) else s
  }

  function Run(s: State, events: seq<Event>): State
    decreases |events|
  {
    if events == [] then s else Run(Step(s, events[0]), events[1..])
  }
}
