/**
 The record writer itself: an object shared by its callers and its worker thread. Each method is one stretch under the
 mutex, or one notification outside it, and one step of the state machine; what every interleaving of steps keeps is
 proved there.
 */
module RecordRepository {
  import opened Base
  import opened RecordRepositoryState
  import opened RecordRepositoryTheorems

  class TransferRecordRepository {
    var latestRecords: Records
    var generation: nat
    var dirty: bool
    var writing: bool
    var flushRequested: bool
    var stop: bool
    var lastError: bool
    var file: Option<Records>
    ghost var worker: Worker
    ghost var flushers: map<nat, bool>
    ghost var notices: nat
    ghost var requests: seq<Records>
    ghost var taken: nat
    ghost var attempts: seq<Attempt>
    ghost var answers: map<nat, bool>

    ghost function Now(): State
      reads this
    {
      State(latestRecords, generation, dirty, writing, flushRequested, stop, lastError, worker, flushers, notices, file,
            requests, taken, attempts, answers)
    }

    ghost predicate Valid()
      reads this
    {
      Invariant(Now())
    }

    constructor (file: Option<Records>)
      ensures Now() == Initial(file) && Valid()
    {
      latestRecords, generation, lastError, this.file := [], 0, false, file;
      dirty, writing, flushRequested, stop := false, false, false, false;
      worker, flushers, notices := Idle(false), map[], 0;
      requests, taken, attempts, answers := [], 0, [], map[];
      new;
      Initially(file);
    }

    ghost method NotifyAll()
      modifies this`worker, this`flushers
      ensures Now() == WakeAll(old(Now()))
    {
      worker, flushers := WakeAll(Now()).worker, WakeAll(Now()).flushers;
    }

    // ----- Callers -----

    method RequestSave(records: Records)
      requires Valid() && !stop
      modifies this`latestRecords, this`dirty, this`generation, this`requests, this`notices
      ensures Valid() && Now() == Step(old(Now()), SaveRequested(records))
      ensures latestRecords == records && dirty && generation == (old(generation) + 1) % U64_LIMIT
      ensures requests == old(requests) + [records] && notices == old(notices) + 1
    {
      hide Invariant, WakeAll, WakeWorker, EndDebounce, CheckFlush, EndWrite, RecordWrite, FlushDone;
      StepKeeps(Now(), SaveRequested(records));
      latestRecords := records;
      dirty := true;
      generation := (generation + 1) % U64_LIMIT;
      requests, notices := requests + [records], notices + 1;
    }

    /** The notification after the mutex has been released. */
    method NotifyAfterwards()
      requires Valid() && notices > 0
      modifies this
      ensures Valid() && Now() == Step(old(Now()), CallerNotified)
      ensures notices == old(notices) - 1 && forall id :: id in flushers ==> !flushers[id]
      ensures !(worker.Idle? && worker.asleep) && !(worker.Debouncing? && worker.asleep)
    {
      hide Invariant;
      StepKeeps(Now(), CallerNotified);
      notices := notices - 1;
      NotifyAll();
    }

    /** The first look of a flush: the answer, or none yet and it waits. */
    method StartFlush(ghost id: nat) returns (done: bool)
      requires Valid() && !stop && id !in flushers && id !in answers
      modifies this
      ensures Valid() && Now() == Step(old(Now()), FlushStarted(id))
      ensures done ==> Saved(Now())
      ensures done <==> !old(dirty) && !old(writing)
      ensures flushRequested == (old(flushRequested) || old(dirty)) && dirty == old(dirty) && stop == old(stop)
    {
      hide Invariant, WakeAll, Saved;
      StepKeeps(Now(), FlushStarted(id));
      StartSees(Now());
      if dirty {
        flushRequested := true;
        NotifyAll();
      }
      done := LookFlush(id);
      if done {
        QuietIsSaved(Now());
      }
    }

    method LookFlush(ghost id: nat) returns (done: bool)
      modifies this`flushers, this`answers
      ensures done == FlushDone(old(Now())) && Now() == CheckFlush(old(Now()), id)
    {
      done := !dirty && !writing && !flushRequested;
      if done {
        flushers, answers := flushers - {id}, answers[id := true];
      } else {
        flushers := flushers[id := true];
      }
    }

    /** A waiting flush looks again. */
    method CheckFlushAgain(ghost id: nat) returns (done: bool)
      requires Valid() && id in flushers
      modifies this
      ensures Valid() && Now() == Step(old(Now()), FlushChecked(id))
      ensures done ==> Saved(Now())
      ensures done <==> FlushDone(old(Now()))
    {
      hide Invariant, Saved;
      StepKeeps(Now(), FlushChecked(id));
      done := LookFlush(id);
      if done {
        QuietIsSaved(Now());
      }
    }

    /** A waiting flush looks for the last time. */
    method TimeOutFlush(ghost id: nat) returns (done: bool)
      requires Valid() && id in flushers
      modifies this
      ensures Valid() && Now() == Step(old(Now()), FlushTimedOut(id))
      ensures done ==> Saved(Now())
      ensures done <==> FlushDone(old(Now()))
    {
      hide Invariant, Saved;
      StepKeeps(Now(), FlushTimedOut(id));
      done := !dirty && !writing && !flushRequested;
      flushers, answers := flushers - {id}, answers[id := done];
      if done {
        QuietIsSaved(Now());
      }
    }

    /** The destructor, after its own flush; it then notifies and joins the worker. */
    method RequestStop()
      requires Valid() && !stop
      modifies this
      ensures Valid() && Now() == Step(old(Now()), StopRequested)
      ensures stop && flushRequested && dirty == old(dirty) && notices == old(notices) + 1
    {
      hide Invariant;
      StepKeeps(Now(), StopRequested);
      stop := true;
      flushRequested := true;
      notices := notices + 1;
    }

    // ----- The worker -----

    /** Copies the latest records and lowers the flags. */
    method TakeBatch() returns (records: Records)
      modifies this`dirty, this`flushRequested, this`writing, this`worker, this`taken
      ensures Now() == Take(old(Now())) && records == old(latestRecords)
    {
      records := latestRecords;
      dirty := false;
      flushRequested := false;
      writing := true;
      worker, taken := Writing(records), |requests|;
    }

    /** The head of the debounce loop: take a batch, or wait once more. */
    method DebounceOrTake() returns (batch: Option<Records>)
      modifies this
      ensures Now() == Debounce(old(Now()))
      ensures batch == if old(stop) || old(flushRequested) then Some(old(latestRecords)) else None
    {
      if stop || flushRequested {
        var records := TakeBatch();
        return Some(records);
      }
      worker := Debouncing(generation, true);
      batch := None;
    }

    /** The worker looks at its first condition; None when it waits on or exits. */
    method WakeFromIdle() returns (batch: Option<Records>)
      requires Valid() && worker.Idle?
      modifies this
      ensures Valid() && Now() == Step(old(Now()), WorkerWoke)
      ensures batch.Some? <==> old(dirty) && (old(stop) || old(flushRequested))
      ensures batch.Some? ==> batch.value == old(latestRecords) && worker == Writing(batch.value) && writing
      ensures batch.Some? ==> !dirty && !flushRequested
      ensures batch.None? ==> dirty == old(dirty) && flushRequested == old(flushRequested) && writing == old(writing)
      ensures batch.None? ==>
                worker == if old(dirty) then Debouncing(generation, true) else if stop then Exited else Idle(true)
    {
      hide Invariant;
      StepKeeps(Now(), WorkerWoke);
      if !stop && !dirty {
        worker := Idle(true);
        return None;
      }
      if stop && !dirty {
        worker := Exited;
        return None;
      }
      batch := DebounceOrTake();
    }

    /** The worker looks at its second condition, or gives up waiting for it. */
    method WakeFromDebounce(observed: nat, timedOut: bool) returns (batch: Option<Records>)
      requires Valid() && worker.Debouncing? && worker.observed == observed
      modifies this
      ensures Valid() && Now() == Step(old(Now()), if timedOut then DebounceOver else WorkerWoke)
      ensures batch.Some? <==> old(stop) || old(flushRequested) || (timedOut && old(generation) == observed)
      ensures batch.Some? ==> batch.value == old(latestRecords) && worker == Writing(batch.value) && writing
      ensures batch.Some? ==> !dirty && !flushRequested
      ensures batch.None? ==> dirty == old(dirty) && worker == Debouncing(generation, true)
    {
      hide Invariant;
      StepKeeps(Now(), if timedOut then DebounceOver else WorkerWoke);
      if stop || flushRequested || generation != observed {
        batch := DebounceOrTake();
      } else if timedOut {
        var records := TakeBatch();
        batch := Some(records);
      } else {
        worker := Debouncing(observed, true);
        batch := None;
      }
    }

    /** Outside the mutex: the new file replaces the old one, or an error is noted. */
    method WriteRecords(records: Records) returns (ok: bool)
      requires Valid() && worker == Writing(records)
      modifies this`file, this`lastError, this`worker, this`attempts
      ensures Valid() && Now() == Step(old(Now()), WriteEnded(ok))
      ensures file == (if ok then Some(records) else old(file)) && (!ok ==> lastError) && worker == Wrote(ok)
    {
      hide Invariant, Step;
      ok := *;
      StepKeeps(Now(), WriteEnded(ok));
      WriteStep(Now(), ok);
      if ok {
        file := Some(records);
      } else {
        lastError := true;
      }
      worker, attempts := Wrote(ok), attempts + [Attempt(records, taken, ok)];
    }

    method FinishWrite(ok: bool)
      requires Valid() && worker == Wrote(ok)
      modifies this`lastError, this`writing, this`worker
      ensures Valid() && Now() == Step(old(Now()), WriteRecorded)
      ensures !writing && worker == Announcing && lastError == (old(lastError) && !ok)
    {
      hide Invariant, WakeAll, CheckFlush, FlushDone, WakeWorker, EndDebounce, EndWrite;
      StepKeeps(Now(), WriteRecorded);
      if ok {
        lastError := false;
      }
      writing := false;
      worker := Announcing;
    }

    method Announce()
      requires Valid() && worker.Announcing?
      modifies this
      ensures Valid() && Now() == Step(old(Now()), WorkerNotified)
      ensures worker == Idle(false) && forall id :: id in flushers ==> !flushers[id]
    {
      hide Invariant;
      StepKeeps(Now(), WorkerNotified);
      NotifyAll();
      worker := Idle(false);
    }
  }

  lemma WriteStep(s: State, ok: bool)
    ensures Step(s, WriteEnded(ok)) == EndWrite(s, ok)
  {
  }

  lemma StartSees(s: State)
    requires Invariant(s) && !s.stop
    ensures s.flushRequested ==> s.dirty
  {
    hide Batched, Truthful, Awake;
  }
}
