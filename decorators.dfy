/** Task error-policy decorators: wrappers around a task setup function that
    keep the task's name and change only what its execution returns. A task
    setup function takes the sequence and its payload and yields the named
    task; the task's execution takes the execution context and runtime,
    abstracted as the type parameter W, and returns its error and trace. */
module ErrorPolicy {
  import opened Common

  datatype Task<-W> = Task(name: string, run: W -> Outcome)

  type TaskSetup<-W> = (Sequence, SequenceData) -> Task<W>

  /** An error handler: given a task's error, the error to return instead
      and what handling it did. */
  type ErrorHandler = Error -> Outcome

  /** A phase: its tasks live in an array that copies of the phase share. */
  datatype Phase<!W> = Phase(name: string, tasks: array<TaskSetup<W>>)

  /** The wait of pauseOnFailure, in minutes, as Talos fixes it. */
  const PauseTimerMinutes: nat := 5

  /** pauseOnFailure as the Go code writes it: on failure it announces a
      reboot in `timeoutMinutes` minutes but always waits the fixed timer. */
  function PauseOnFailureAsWritten<W(!new)>(callback: TaskSetup<W>, timeoutMinutes: nat): (wrapped: TaskSetup<W>)
    ensures forall s, d :: wrapped(s, d).name == callback(s, d).name
    ensures forall s, d, w :: callback(s, d).run(w).err.None? ==>
      wrapped(s, d).run(w) == callback(s, d).run(w)
    ensures forall s, d, w :: callback(s, d).run(w).err.Some? ==>
      var o := callback(s, d).run(w);
      wrapped(s, d).run(w) == Outcome(o.err, o.trace + [AnnouncePause(callback(s, d).name, timeoutMinutes, o.err.value), Paused(PauseTimerMinutes)])
  {
    (s: Sequence, d: SequenceData) =>
      var t := callback(s, d);
      Task(t.name, (w: W) =>
        var o := t.run(w);
        if o.err.None? then o
        else Outcome(o.err, o.trace + [AnnouncePause(t.name, timeoutMinutes, o.err.value), Paused(PauseTimerMinutes)]))
  }

  /** With any timeout other than the timer's, the announced and the actual wait differ. */
  lemma PauseAnnouncementMismatch<W(!new)>(callback: TaskSetup<W>, s: Sequence, d: SequenceData, w: W, timeoutMinutes: nat)
    requires callback(s, d).run(w).err.Some?
    requires timeoutMinutes != PauseTimerMinutes
    ensures var tr := PauseOnFailureAsWritten(callback, timeoutMinutes)(s, d).run(w).trace;
      |tr| >= 2 && tr[|tr| - 2].AnnouncePause? && tr[|tr| - 1].Paused? &&
      tr[|tr| - 2].minutes != tr[|tr| - 1].minutes
  {
  }

  /** pauseOnFailure as intended: on failure of the wrapped task, announce
      the pause, wait the given timeout (or until the context is cancelled),
      then return exactly the task's own error; on success do nothing more. */
  function PauseOnFailure<W(!new)>(callback: TaskSetup<W>, timeoutMinutes: nat): (wrapped: TaskSetup<W>)
    ensures forall s, d :: wrapped(s, d).name == callback(s, d).name
    ensures forall s, d, w :: callback(s, d).run(w).err.None? ==>
      wrapped(s, d).run(w) == callback(s, d).run(w)
    ensures forall s, d, w :: callback(s, d).run(w).err.Some? ==>
      var o := callback(s, d).run(w);
      wrapped(s, d).run(w) == Outcome(o.err, o.trace + [AnnouncePause(callback(s, d).name, timeoutMinutes, o.err.value), Paused(timeoutMinutes)])
  {
    (s: Sequence, d: SequenceData) =>
      var t := callback(s, d);
      Task(t.name, (w: W) =>
        var o := t.run(w);
        if o.err.None? then o
        else Outcome(o.err, o.trace + [AnnouncePause(t.name, timeoutMinutes, o.err.value), Paused(timeoutMinutes)]))
  }

  /** The corrected decorator waits only on failure, waits exactly as long
      as it announces, and never changes the task's error. */
  lemma PauseMatchesAnnouncement<W(!new)>(callback: TaskSetup<W>, timeoutMinutes: nat, s: Sequence, d: SequenceData, w: W)
    ensures var inner := callback(s, d).run(w);
      var o := PauseOnFailure(callback, timeoutMinutes)(s, d).run(w);
      o.err == inner.err &&
      (Paused(timeoutMinutes) in o.trace[|inner.trace|..] <==> o.err.Some?) &&
      (o.err.Some? ==> |o.trace| >= 2 && o.trace[|o.trace| - 2].AnnouncePause? &&
                       o.trace[|o.trace| - 1] == Paused(o.trace[|o.trace| - 2].minutes))
  {
    var o := callback(s, d).run(w);
    var r := PauseOnFailure(callback, timeoutMinutes)(s, d).run(w);
    if o.err.Some? {
      assert r.trace[|o.trace|..] == [AnnouncePause(callback(s, d).name, timeoutMinutes, o.err.value), Paused(timeoutMinutes)];
    } else {
      assert r.trace[|o.trace|..] == [];
    }
  }

  /** taskErrorHandler: success passes through untouched, an error is
      replaced by what the handler makes of it. */
  function TaskErrorHandler<W(!new)>(handler: ErrorHandler, task: TaskSetup<W>): (wrapped: TaskSetup<W>)
    ensures forall s, d :: wrapped(s, d).name == task(s, d).name
    ensures forall s, d, w :: task(s, d).run(w).err.None? ==>
      wrapped(s, d).run(w) == Outcome(None, task(s, d).run(w).trace)
    ensures forall s, d, w :: task(s, d).run(w).err.Some? ==>
      var o := task(s, d).run(w);
      var h := handler(o.err.value);
      wrapped(s, d).run(w) == Outcome(h.err, o.trace + h.trace)
  {
    (s: Sequence, d: SequenceData) =>
      var t := task(s, d);
      Task(t.name, (w: W) =>
        var o := t.run(w);
        if o.err.None? then Outcome(None, o.trace)
        else
          var h := handler(o.err.value);
          Outcome(h.err, o.trace + h.trace))
  }

  /** logError: the error is logged as a warning and downgraded to success. */
  function LogError(e: Error): (o: Outcome)
    ensures o.err.None?
    ensures o.trace == [Warned(e)]
  {
    Outcome(None, [Warned(e)])
  }

  /** A task wrapped with logError never fails, and its trace is the task's
      own, followed by one warning exactly when the task failed. */
  lemma LoggedTaskNeverFails<W(!new)>(task: TaskSetup<W>, s: Sequence, d: SequenceData, w: W)
    ensures var o := task(s, d).run(w);
      var r := TaskErrorHandler(LogError, task)(s, d).run(w);
      r.err.None? && r.trace == o.trace + (if o.err.Some? then [Warned(o.err.value)] else [])
  {
    var o := task(s, d).run(w);
    if o.err.None? {
      assert o.trace + [] == o.trace;
    }
  }

  /** phaseListErrorHandler: every task of every phase is replaced, in the
      phase's own task array, by its taskErrorHandler wrapping; the phases,
      their number and their task counts stay as they were. */
  method PhaseListErrorHandler<W(!new)>(handler: ErrorHandler, phases: seq<Phase<W>>) returns (result: seq<Phase<W>>)
    requires forall a, b :: 0 <= a < b < |phases| ==> phases[a].tasks != phases[b].tasks
    modifies set k | 0 <= k < |phases| :: phases[k].tasks
    ensures result == phases
    ensures forall k, i :: 0 <= k < |phases| && 0 <= i < phases[k].tasks.Length ==>
      phases[k].tasks[i] == TaskErrorHandler(handler, old(phases[k].tasks[i]))
  {
    for p := 0 to |phases|
      invariant forall k, i :: 0 <= k < p && 0 <= i < phases[k].tasks.Length ==>
        phases[k].tasks[i] == TaskErrorHandler(handler, old(phases[k].tasks[i]))
      invariant forall k :: p <= k < |phases| ==> phases[k].tasks[..] == old(phases[k].tasks[..])
    {
      var tasks := phases[p].tasks;
      for i := 0 to tasks.Length
        invariant forall j :: 0 <= j < i ==> tasks[j] == TaskErrorHandler(handler, old(tasks[j]))
        invariant forall j :: i <= j < tasks.Length ==> tasks[j] == old(tasks[j])
        invariant forall k, j :: 0 <= k < p && 0 <= j < phases[k].tasks.Length ==>
          phases[k].tasks[j] == TaskErrorHandler(handler, old(phases[k].tasks[j]))
        invariant forall k :: p < k < |phases| ==> phases[k].tasks[..] == old(phases[k].tasks[..])
      {
        tasks[i] := TaskErrorHandler(handler, tasks[i]);
      }
    }
    result := phases;
  }
}
