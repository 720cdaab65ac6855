/**
 That the record writer debounces: a batch is taken at once only for a stop or a flush, and otherwise only after a wait
 that ran out with nothing requested since it began; a request during the wait makes it begin again.
 */
module RecordRepositoryDebounce {
  import opened Base
  import opened RecordRepositoryState

  /** The worker looks at the condition of its wait, woken or because the time is over. */
  predicate Looks(event: Event) {
    event.WorkerWoke? || event.DebounceOver?
  }

  /** The requests since a wait began do not show: none, or so many that a 64-bit counter is where it was. */
  predicate SeemsQuiet(s: State, since: nat) {
    (|s.requests| - since) % U64_LIMIT == 0
  }

  /**
   How many requests had been made when the present wait began: when the worker came to wait, or when it looked last and
   saw that something had been requested.
   */
  function Since(file: Option<Records>, events: seq<Event>): nat {
    if events == [] then 0 else
      var front, event := events[..|events| - 1], events[|events| - 1];
      var s, t := Run(Initial(file), front), Run(Initial(file), events);
      if !t.worker.Debouncing? then 0
      else if !s.worker.Debouncing? || (Looks(event) && !SeemsQuiet(s, Since(file, front))) then |t.requests|
      else Since(file, front)
  }

  lemma {:induction false} RunLast(s: State, events: seq<Event>)
    requires events != []
    ensures Run(s, events) == Step(Run(s, events[..|events| - 1]), events[|events| - 1])
    decreases |events|
  {
    hide Step;
    if |events| == 1 {
      assert events[1..] == [] && events[..0] == [];
    } else {
      var rest := events[1..];
      RunLast(Step(s, events[0]), rest);
      assert rest[..|rest| - 1] == events[..|events| - 1][1..] && rest[|rest| - 1] == events[|events| - 1];
    }
  }

  /** The counter counts the requests, and the wait remembers where it stood. */
  ghost predicate Counted(s: State, since: nat) {
    && s.generation == |s.requests| % U64_LIMIT
    && (s.worker.Debouncing? ==> since <= |s.requests| && s.worker.observed == since % U64_LIMIT)
    && (s.writing <==> s.worker.Writing? || s.worker.Wrote?)
  }

  lemma {:induction false} CountedAlways(file: Option<Records>, events: seq<Event>)
    ensures Counted(Run(Initial(file), events), Since(file, events))
  {
    if events != [] {
      var n := |events| - 1;
      CountedAlways(file, events[..n]);
      RunLast(Initial(file), events);
      var s := Run(Initial(file), events[..n]);
      CountedStep(s, Since(file, events[..n]), events[n]);
    }
  }

  /** When the wait after a step began. */
  function SinceAfter(s: State, since: nat, event: Event): nat {
    var t := Step(s, event);
    if !t.worker.Debouncing? then 0
    else if !s.worker.Debouncing? || (Looks(event) && !SeemsQuiet(s, since)) then |t.requests|
    else since
  }

  lemma CountedStep(s: State, since: nat, event: Event)
    requires Counted(s, since)
    ensures Counted(Step(s, event), SinceAfter(s, since, event))
  {
    if Looks(event) {
      CountedLook(s, since, event);
    } else if event.SaveRequested? {
      hide WakeWorker, EndDebounce, EndWrite, RecordWrite, WakeAll, CheckFlush;
    } else if event.WriteEnded? || event.WriteRecorded? || event.WorkerNotified? {
      CountedWrite(s, since, event);
    } else {
      CountedCaller(s, since, event);
    }
  }

  lemma CountedLook(s: State, since: nat, event: Event)
    requires Counted(s, since) && Looks(event)
    ensures Counted(Step(s, event), SinceAfter(s, since, event))
  {
    hide EndWrite, RecordWrite, WakeAll, CheckFlush;
  }

  lemma CountedWrite(s: State, since: nat, event: Event)
    requires Counted(s, since) && (event.WriteEnded? || event.WriteRecorded? || event.WorkerNotified?)
    ensures Counted(Step(s, event), SinceAfter(s, since, event))
  {
    hide WakeWorker, EndDebounce, CheckFlush, SeemsQuiet;
  }

  /** A step that concerns neither requests nor what the worker is doing, but perhaps whether it sleeps. */
  predicate Aside(s: State, t: State) {
    && t.requests == s.requests && t.generation == s.generation && t.writing == s.writing
    && (t.worker == s.worker || (s.worker.Idle? && t.worker == Idle(false))
        || (s.worker.Debouncing? && t.worker == Debouncing(s.worker.observed, false)))
  }

  lemma WakingIsAside(s: State)
    ensures Aside(s, WakeAll(s))
  {
  }

  lemma CheckingIsAside(s: State, id: nat)
    ensures Aside(s, CheckFlush(s, id)) && CheckFlush(s, id).worker == s.worker
  {
    hide FlushDone;
  }

  lemma CallersAreAside(s: State, event: Event)
    requires !Looks(event) && !event.SaveRequested?
    requires !event.WriteEnded? && !event.WriteRecorded? && !event.WorkerNotified?
    ensures Aside(s, Step(s, event))
  {
    hide WakeAll, CheckFlush, FlushDone;
    match event {
      case CallerNotified => if s.notices > 0 { WakingIsAside(s.(notices := s.notices - 1)); }
      case FlushStarted(id) =>
        var marked := s.(flushRequested := true);
        WakingIsAside(marked);
        CheckingIsAside(WakeAll(marked), id);
        CheckingIsAside(s, id);
      case FlushChecked(id) => CheckingIsAside(s, id);
      case _ =>
    }
  }

  lemma CountedCaller(s: State, since: nat, event: Event)
    requires Counted(s, since) && !Looks(event) && !event.SaveRequested?
    requires !event.WriteEnded? && !event.WriteRecorded? && !event.WorkerNotified?
    ensures Counted(Step(s, event), SinceAfter(s, since, event))
  {
    CallersAreAside(s, event);
    hide Step, SeemsQuiet;
  }

  /**
   In every interleaving, a batch is taken only when the object is being stopped, when a flush is requested, or when the
   time of a wait is over that began with nothing requested since, as far as the request counter shows.
   */
  lemma BatchesAreDebounced(file: Option<Records>, events: seq<Event>, event: Event)
    ensures var s := Run(Initial(file), events);
            !s.writing && Step(s, event).writing ==>
              || s.stop || s.flushRequested
              || (event.DebounceOver? && s.worker.Debouncing? && SeemsQuiet(s, Since(file, events)))
    ensures var s := Run(Initial(file), events);
            SeemsQuiet(s, Since(file, events)) && s.worker.Debouncing? && |s.requests| < U64_LIMIT ==>
              |s.requests| == Since(file, events)
  {
    hide Run, Since, FlushDone;
    CountedAlways(file, events);
  }

  /** A request during the wait: at the worker's next look nothing is taken, and the wait begins again from there. */
  lemma RequestsRestartTheWait(file: Option<Records>, events: seq<Event>, event: Event)
    requires var s := Run(Initial(file), events);
             s.worker.Debouncing? && Looks(event) && !s.stop && !s.flushRequested && !SeemsQuiet(s, Since(file, events))
    ensures var s, t := Run(Initial(file), events), Run(Initial(file), events + [event]);
            && t.worker.Debouncing? && !t.writing && t == s.(worker := t.worker)
            && Since(file, events + [event]) == |t.requests| && SeemsQuiet(t, Since(file, events + [event]))
  {
    CountedAlways(file, events);
    assert (events + [event])[..|events|] == events;
    RunLast(Initial(file), events + [event]);
    LookRestarts(Run(Initial(file), events), Since(file, events), event);
    hide Run, Step;
  }

  lemma LookRestarts(s: State, since: nat, event: Event)
    requires Counted(s, since) && s.worker.Debouncing? && Looks(event) && !s.stop && !s.flushRequested && !SeemsQuiet(s, since)
    ensures var t := Step(s, event);
            t.worker.Debouncing? && !t.writing && t == s.(worker := t.worker) && SeemsQuiet(t, |t.requests|)
  {
    hide EndWrite, RecordWrite, WakeAll, CheckFlush;
  }

  /** Something to write and no hurry: the worker takes nothing yet and begins to wait. */
  lemma DirtyBeginsTheWait(file: Option<Records>, events: seq<Event>)
    requires var s := Run(Initial(file), events); s.worker.Idle? && s.dirty && !s.stop && !s.flushRequested
    ensures var s, t := Run(Initial(file), events), Run(Initial(file), events + [WorkerWoke]);
            && t.worker.Debouncing? && !t.writing && t == s.(worker := t.worker)
            && Since(file, events + [WorkerWoke]) == |t.requests|
  {
    CountedAlways(file, events);
    assert (events + [WorkerWoke])[..|events|] == events;
    RunLast(Initial(file), events + [WorkerWoke]);
    hide Run, FlushDone;
  }
}
