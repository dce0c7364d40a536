/** The device-sync scheduler with the runtime that applies its events. One thread
    runs the runtime, one the current sync; anyone may ask to cancel at any time. */
module DeviceSync {
  import opened Wrappers
  import opened Numbers

  /** How a sync ended: an outcome, whose manifest may replace the stored one, or an error. */
  datatype Completion = Outcome(authoritative: bool) | Error

  datatype Event = Progress(run: nat) | Finished(run: nat, completion: Completion)

  datatype Thread = Working(run: nat) | Ended(run: nat)

  /** Where the runtime thread stands inside a call that touches shared state. */
  datatype Caller =
    | Idle
    | Accepted(run: nat)
    | FlagReset(run: nat)
    | Applying(run: nat, completion: Completion)
    | Acknowledging(run: nat)
    | Joining

  /** What happened, in order. */
  datatype Entry =
    | Reset(run: nat)
    | CancelAsked
    | CancelSeen(run: nat)
    | Shown(run: nat)
    | Applied(run: nat, manifestSaved: bool)
    | Released(run: nat)
    | Panicked(run: nat)

  datatype Action =
    | Start
    | AskCancel
    | Look
    | Report
    | Finish(completion: Completion)
    | TaskPanics
    | Receive
    | Shutdown
    | CallerStep(chance: bool)

  // ---- What the log of a run of the program must look like ----

  /** The run whose start last reset the cancellation flag; 0 before any. */
  function LastReset(log: seq<Entry>): nat {
    if log == [] then 0
    else if log[|log| - 1].Reset? then log[|log| - 1].run
    else LastReset(log[..|log| - 1])
  }

  predicate AskedSinceReset(log: seq<Entry>) {
    if log == [] then false
    else
      match log[|log| - 1]
      case Reset(_) => false
      case CancelAsked => true
      case _ => AskedSinceReset(log[..|log| - 1])
  }

  predicate AppliedBefore(log: seq<Entry>, run: nat) {
    exists i :: 0 <= i < |log| && log[i].Applied? && log[i].run == run
  }

  predicate PanickedBefore(log: seq<Entry>, run: nat) {
    exists i :: 0 <= i < |log| && log[i].Panicked? && log[i].run == run
  }

  /** No run is between its start and its release. */
  predicate Free(log: seq<Entry>) {
    if log == [] then true
    else
      match log[|log| - 1]
      case Reset(_) => false
      case Released(_) => true
      case _ => Free(log[..|log| - 1])
  }

  /** Runs start one at a time under growing ids, and only the run that is going is
      shown, sees a cancellation, is applied, once, and is released. */
  predicate MayFollow(front: seq<Entry>, entry: Entry) {
    match entry
    case Reset(run) => Free(front) && run > LastReset(front)
    case CancelAsked => true
    case CancelSeen(run) => !Free(front) && run == LastReset(front) && AskedSinceReset(front)
    case Shown(run) => !Free(front) && run == LastReset(front)
    case Applied(run, _) =>
      !Free(front) && run == LastReset(front) && !AppliedBefore(front, run) && !PanickedBefore(front, run)
    case Released(run) => !Free(front) && run == LastReset(front)
    case Panicked(run) =>
      !Free(front) && run == LastReset(front) && !AppliedBefore(front, run) && !PanickedBefore(front, run)
  }

  predicate Lawful(log: seq<Entry>) {
    log == [] ||
    (var front, last := log[..|log| - 1], log[|log| - 1]; Lawful(front) && MayFollow(front, last))
  }

  /** What an entry of a lawful log could rely on when it was made. */
  lemma {:induction false} LawfulUpTo(log: seq<Entry>, n: nat)
    requires Lawful(log) && n < |log|
    ensures log[..n + 1][..n] == log[..n] && Lawful(log[..n + 1]) && Lawful(log[..n])
    decreases |log| - n
  {
    if n == |log| - 1 {
      assert log[..n + 1] == log;
    } else {
      LawfulUpTo(log, n + 1);
      assert log[..n + 2][..n + 1] == log[..n + 1];
    }
  }

  lemma {:induction false} LastResetWitness(log: seq<Entry>)
    requires LastReset(log) > 0
    ensures exists i :: 0 <= i < |log| && log[i] == Reset(LastReset(log))
  {
    var front, last := log[..|log| - 1], log[|log| - 1];
    if !last.Reset? {
      LastResetWitness(front);
      var i :| 0 <= i < |front| && front[i] == Reset(LastReset(front));
      assert log[i] == Reset(LastReset(log));
    } else {
      assert log[|log| - 1] == Reset(LastReset(log));
    }
  }

  lemma {:induction false} AskedWitness(log: seq<Entry>)
    requires AskedSinceReset(log) && LastReset(log) > 0
    ensures exists i, j :: 0 <= i < j < |log| && log[i] == Reset(LastReset(log)) && log[j].CancelAsked?
  {
    var front, last := log[..|log| - 1], log[|log| - 1];
    if last.CancelAsked? {
      LastResetWitness(front);
      var i :| 0 <= i < |front| && front[i] == Reset(LastReset(front));
      assert log[i] == Reset(LastReset(log)) && log[|log| - 1].CancelAsked?;
    } else {
      AskedWitness(front);
      var i, j :| 0 <= i < j < |front| && front[i] == Reset(LastReset(front)) && front[j].CancelAsked?;
      assert log[i] == Reset(LastReset(log)) && log[j].CancelAsked?;
    }
  }

  lemma {:induction false} ResetsBelow(log: seq<Entry>, i: nat)
    requires Lawful(log) && i < |log| && log[i].Reset?
    ensures log[i].run <= LastReset(log)
  {
    var front := log[..|log| - 1];
    if i < |log| - 1 {
      assert front[i] == log[i];
      ResetsBelow(front, i);
    }
  }

  lemma {:induction false} GoingRunStarted(log: seq<Entry>)
    requires Lawful(log) && !Free(log)
    ensures LastReset(log) > 0
  {
    if log != [] && !log[|log| - 1].Reset? { GoingRunStarted(log[..|log| - 1]); }
  }

  /** A run that is no longer the one going was released. */
  lemma {:induction false} ReleaseWitness(log: seq<Entry>, i: nat)
    requires Lawful(log) && i < |log| && log[i].Reset?
    requires Free(log) || LastReset(log) != log[i].run
    ensures exists k :: i < k < |log| && log[k] == Released(log[i].run)
  {
    var front, last := log[..|log| - 1], log[|log| - 1];
    assert i < |front| && front[i] == log[i];
    if last.Released? && last.run == log[i].run {
      assert log[|log| - 1] == Released(log[i].run);
    } else {
      ReleaseWitness(front, i);
      var k :| i < k < |front| && front[k] == Released(front[i].run);
      assert log[k] == Released(log[i].run);
    }
  }

  /** A released run never goes again. */
  lemma {:induction false} ReleasedIsOver(log: seq<Entry>, i: nat)
    requires Lawful(log) && i < |log| && log[i].Released?
    ensures log[i].run <= LastReset(log)
    ensures Free(log) || log[i].run < LastReset(log)
  {
    var front := log[..|log| - 1];
    if i < |log| - 1 {
      assert front[i] == log[i];
      ReleasedIsOver(front, i);
    }
  }

  /** A run sees a cancellation only if it was asked for after that run's own
      start had reset the flag. */
  lemma CancellationIsMeant(log: seq<Entry>, n: nat)
    requires Lawful(log) && n < |log| && log[n].CancelSeen?
    ensures exists i, j :: 0 <= i < j < n && log[i] == Reset(log[n].run) && log[j].CancelAsked?
  {
    LawfulUpTo(log, n);
    GoingRunStarted(log[..n]);
    AskedWitness(log[..n]);
    var i, j :| 0 <= i < j < n && log[..n][i] == Reset(LastReset(log[..n])) && log[..n][j].CancelAsked?;
    assert log[i] == log[..n][i] && log[j] == log[..n][j];
  }

  /** Run ids strictly increase, and one run is released before the next one starts. */
  lemma RunIdsIncrease(log: seq<Entry>, i: nat, n: nat)
    requires Lawful(log) && i < n < |log| && log[i].Reset? && log[n].Reset?
    ensures log[i].run < log[n].run
    ensures exists k :: i < k < n && log[k] == Released(log[i].run)
  {
    LawfulUpTo(log, n);
    assert log[..n][i] == log[i];
    ResetsBelow(log[..n], i);
    ReleaseWitness(log[..n], i);
    var k :| i < k < n && log[..n][k] == Released(log[i].run);
    assert log[k] == log[..n][k];
  }

  /** A completion is applied at most once, never after a later run started, and
      never after its own run was released. */
  lemma AppliedAtMostOnce(log: seq<Entry>, i: nat, n: nat)
    requires Lawful(log) && i < n < |log| && log[n].Applied?
    ensures log[i].Applied? ==> log[i].run != log[n].run
    ensures log[i].Reset? ==> log[i].run <= log[n].run
    ensures log[i].Released? ==> log[i].run < log[n].run
  {
    LawfulUpTo(log, n);
    assert log[..n][i] == log[i];
    if log[i].Reset? { ResetsBelow(log[..n], i); }
    if log[i].Released? { ReleasedIsOver(log[..n], i); }
  }

  // ---- The steps, read independently ----

  /** All that the steps read and change. */
  datatype State = State(
    nextRunId: nat, active: Option<nat>, cancel: bool, thread: Option<Thread>, events: seq<Event>, caller: Caller,
    log: seq<Entry>)
  {
    predicate IsWorking() { thread.Some? && thread.value.Working? }

    function Noting(entry: Entry): State { this.(log := log + [entry]) }

    /** The active run panicked, the runtime is at rest, and no completion is to come. */
    ghost predicate Blocked() {
      && caller.Idle? && active.Some? && PanickedBefore(log, active.value) && !IsWorking()
      && forall e :: e in events && e.Finished? ==> e.run != active.value
    }

    /** What follows when one thread takes its next step; a step that is not due changes nothing. */
    function Next(action: Action): State {
      match action
      case Start =>
        if !caller.Idle? || active.Some? || nextRunId >= MAX_U64 then this
        else this.(nextRunId := nextRunId + 1, active := Some(nextRunId + 1), caller := Accepted(nextRunId + 1))
      case AskCancel => Noting(CancelAsked).(cancel := true)
      case Look => if IsWorking() && cancel then Noting(CancelSeen(thread.value.run)) else this
      case Report => if IsWorking() then this.(events := events + [Progress(thread.value.run)]) else this
      case Finish(completion) =>
        if !IsWorking() then this
        else this.(events := events + [Finished(thread.value.run, completion)], thread := Some(Ended(thread.value.run)))
      case TaskPanics =>
        if IsWorking() then Noting(Panicked(thread.value.run)).(thread := Some(Ended(thread.value.run))) else this
      case Receive =>
        if !caller.Idle? || events == [] then this
        else
          var e, rest := events[0], this.(events := events[1..]);
          if active != Some(e.run) then rest
          else if e.Progress? then rest.Noting(Shown(e.run))
          else rest.(caller := Applying(e.run, e.completion))
      case Shutdown => if caller.Idle? then Noting(CancelAsked).(cancel := true, caller := Joining) else this
      case CallerStep(chance) =>
        (match caller
         case Idle => this
         case Accepted(run) => Noting(Reset(run)).(cancel := false, caller := FlagReset(run))
         case FlagReset(run) =>
           if chance then this.(thread := Some(Working(run)), caller := Idle)
           else Noting(Released(run)).(active := None, caller := Idle)
         case Applying(run, completion) =>
           Noting(Applied(run, completion.Outcome? && completion.authoritative && chance)).(caller := Acknowledging(run))
         case Acknowledging(run) =>
           if IsWorking() then this else Noting(Released(run)).(thread := None, active := None, caller := Idle)
         case Joining =>
           if IsWorking() then this
           else
             var free := if active.Some? then Noting(Released(active.value)) else this;
             free.(thread := None, active := None, events := [], caller := Idle))
    }

    function After(schedule: seq<Action>): State {
      if schedule == [] then this else After(schedule[..|schedule| - 1]).Next(schedule[|schedule| - 1])
    }
  }

  /** A sync that nothing comes between, from its start to its release. */
  function Undisturbed(completion: Completion, storeTakes: bool): seq<Action> {
    [Start, CallerStep(true), CallerStep(true), Finish(completion), Receive, CallerStep(storeTakes), CallerStep(true)]
  }

  /** With nothing going on, a sync runs, its manifest is saved if it is authoritative
      and the store takes it, and it is released. */
  lemma SyncIsServed(s: State, completion: Completion, storeTakes: bool)
    requires s.caller.Idle? && s.active.None? && s.thread.None? && s.events == [] && s.nextRunId < MAX_U64
    ensures var run := s.nextRunId + 1;
      s.After(Undisturbed(completion, storeTakes)) == State(
        run, None, false, None, [], Idle,
        s.log + [Reset(run), Applied(run, completion == Outcome(true) && storeTakes), Released(run)])
  {
    hide State.Next, State.After;
    var run := s.nextRunId + 1;
    ServedStepByStep(s, Undisturbed(completion, storeTakes));
    RunStarts(s);
    WorkIsServed(s.Next(Start).Next(CallerStep(true)).Next(CallerStep(true)), run, completion, storeTakes);
    var applied := Applied(run, completion == Outcome(true) && storeTakes);
    assert s.log + [Reset(run)] + [applied, Released(run)] == s.log + [Reset(run), applied, Released(run)];
  }

  lemma RunStarts(s: State)
    requires s.caller.Idle? && s.active.None? && s.thread.None? && s.events == [] && s.nextRunId < MAX_U64
    ensures var run := s.nextRunId + 1;
      s.Next(Start).Next(CallerStep(true)).Next(CallerStep(true)) ==
        State(run, Some(run), false, Some(Working(run)), [], Idle, s.log + [Reset(run)])
  {
  }

  lemma WorkIsServed(s: State, run: nat, completion: Completion, storeTakes: bool)
    requires s.active == Some(run) && s.thread == Some(Working(run)) && s.events == [] && s.caller.Idle?
    ensures s.Next(Finish(completion)).Next(Receive).Next(CallerStep(storeTakes)).Next(CallerStep(true)) ==
      s.(active := None, thread := None,
         log := s.log + [Applied(run, completion == Outcome(true) && storeTakes), Released(run)])
  {
    var finished := s.Next(Finish(completion));
    assert finished.events == [Finished(run, completion)] && finished.events[1..] == [];
    var received := finished.Next(Receive);
    assert received == s.(thread := Some(Ended(run)), caller := Applying(run, completion));
    var saved := completion == Outcome(true) && storeTakes;
    assert s.log + [Applied(run, saved)] + [Released(run)] == s.log + [Applied(run, saved), Released(run)];
  }

  lemma ServedStepByStep(s: State, a: seq<Action>)
    requires |a| == 7
    ensures s.After(a) == s.Next(a[0]).Next(a[1]).Next(a[2]).Next(a[3]).Next(a[4]).Next(a[5]).Next(a[6])
  {
    hide State.Next;
    UpTo(s, a, 1);
    UpTo(s, a, 2);
    UpTo(s, a, 3);
    UpTo(s, a, 4);
    UpTo(s, a, 5);
    UpTo(s, a, 6);
    UpTo(s, a, 7);
    assert a[..0] == [] && a[..7] == a;
  }

  lemma UpTo(s: State, a: seq<Action>, n: nat)
    requires 0 < n <= |a|
    ensures s.After(a[..n]) == s.After(a[..n - 1]).Next(a[n - 1])
  {
    assert a[..n][..n - 1] == a[..n - 1];
  }

  /** A run that panicked stays active, so that none starts, until a shutdown. */
  lemma {:induction false} BlockedStays(s: State, schedule: seq<Action>)
    requires s.Blocked() && forall n :: 0 <= n < |schedule| ==> !schedule[n].Shutdown?
    ensures var after := s.After(schedule);
      after.Blocked() && after.active == s.active && after.nextRunId == s.nextRunId
  {
    if schedule != [] {
      var front, last := schedule[..|schedule| - 1], schedule[|schedule| - 1];
      BlockedStays(s, front);
      hide State.After;
      BlockedStep(s.After(front), last);
    }
  }

  lemma BlockedStep(s: State, action: Action)
    requires s.Blocked() && !action.Shutdown?
    ensures var after := s.Next(action);
      after.Blocked() && after.active == s.active && after.nextRunId == s.nextRunId
  {
    var after := s.Next(action);
    assert s.log <= after.log;
    var i :| 0 <= i < |s.log| && s.log[i].Panicked? && s.log[i].run == s.active.value;
    assert after.log[i] == s.log[i];
  }

  // ---- The scheduler and the runtime's handlers ----

  class SyncRuntime {
    var nextRunId: nat
    var active: Option<nat>
    var cancel: bool
    var thread: Option<Thread>
    var events: seq<Event>
    var caller: Caller
    var log: seq<Entry>

    ghost function Now(): State
      reads this
    {
      State(nextRunId, active, cancel, thread, events, caller, log)
    }

    /** The flag says exactly whether cancelling was asked since the last reset. */
    ghost predicate FlagIsHonest()
      reads this
    {
      cancel == AskedSinceReset(log)
    }

    /** At most one run is active, it is the newest, and the sync thread is its. */
    ghost predicate OneRun()
      reads this
    {
      && LastReset(log) <= nextRunId <= MAX_U64
      && (active.Some? ==> 0 < active.value == nextRunId)
      && (thread.Some? ==> active == Some(thread.value.run) && thread.value.run == LastReset(log))
      && (active.Some? && !caller.Accepted? ==> LastReset(log) == active.value)
      && (Free(log) <==> active.None? || caller.Accepted?)
      && (forall i :: 0 <= i < |log| && (log[i].Applied? || log[i].Panicked?) ==> log[i].run <= LastReset(log))
    }

    ghost predicate CallsInStep()
      reads this
    {
      match caller
      case Idle => true
      case Accepted(run) => active == Some(run) && thread.None? && LastReset(log) < run
      case FlagReset(run) =>
        && active == Some(run) && thread.None? && !CompletionWaits(run)
        && !AppliedBefore(log, run) && !PanickedBefore(log, run)
      case Applying(run, _) => active == Some(run) && !AppliedBefore(log, run) && !PanickedBefore(log, run)
      case Acknowledging(run) => active == Some(run)
      case Joining => true
    }

    /** While a run is active its end is applied later, or was already: nothing is
        applied for it before its completion is taken from the channel. */
    ghost predicate EndIsComing()
      reads this
    {
      && (caller.Idle? && active.Some? ==> thread.Some? && !AppliedBefore(log, active.value))
      && (caller.Idle? && thread.Some? && thread.value.Ended? ==>
            PanickedBefore(log, thread.value.run) || CompletionWaits(thread.value.run))
    }

    ghost predicate CompletionWaits(run: nat)
      reads this
    {
      exists e :: e in events && e.Finished? && e.run == run
    }

    /** A run ends in one way: a working one has sent no completion and did not panic,
        and one that panicked sends none. */
    ghost predicate OneEnd()
      reads this
    {
      && (thread.Some? && thread.value.Working? ==>
            && !AppliedBefore(log, thread.value.run) && !PanickedBefore(log, thread.value.run)
            && (caller.Applying? || caller.Acknowledging? ==> caller.run != thread.value.run))
      && (forall e :: e in events && e.Finished? ==>
            && !PanickedBefore(log, e.run) && e.run <= LastReset(log)
            && (thread.Some? && thread.value.Working? ==> e.run != thread.value.run))
    }

    ghost predicate Valid()
      reads this
    {
      Lawful(log) && FlagIsHonest() && OneRun() && CallsInStep() && EndIsComing() && OneEnd()
    }

    constructor ()
      ensures Valid() && active.None? && log == [] && nextRunId == 0 && caller.Idle? && events == [] && thread.None?
    {
      nextRunId, active, cancel, thread := 0, None, false, None;
      events, caller, log := [], Idle, [];
    }

    method Log(entry: Entry)
      requires Lawful(log) && MayFollow(log, entry)
      modifies `log
      ensures log == old(log) + [entry] && Lawful(log)
      ensures LastReset(log) == if entry.Reset? then entry.run else LastReset(old(log))
      ensures AskedSinceReset(log) ==
        if entry.Reset? then false else entry.CancelAsked? || AskedSinceReset(old(log))
      ensures Free(log) == if entry.Reset? then false else entry.Released? || Free(old(log))
      ensures forall run ::
        AppliedBefore(log, run) <==> AppliedBefore(old(log), run) || (entry.Applied? && entry.run == run)
      ensures forall run ::
        PanickedBefore(log, run) <==> PanickedBefore(old(log), run) || (entry.Panicked? && entry.run == run)
    {
      ghost var before := log;
      log := log + [entry];
      assert log[..|log| - 1] == before;
      forall run | AppliedBefore(before, run) ensures AppliedBefore(log, run) {
        var i :| 0 <= i < |before| && before[i].Applied? && before[i].run == run;
        assert log[i] == before[i];
      }
      forall run | PanickedBefore(before, run) ensures PanickedBefore(log, run) {
        var i :| 0 <= i < |before| && before[i].Panicked? && before[i].run == run;
        assert log[i] == before[i];
      }
      assert log[|log| - 1] == entry;
    }

    // ---- Starting a run ----

    /** Take the lock and accept a run, unless one is active. */
    method AcceptRun() returns (accepted: bool)
      requires Valid() && caller.Idle?
      modifies `nextRunId, `active, `caller
      ensures Valid()
      ensures accepted <==> old(active).None? && old(nextRunId) < MAX_U64
      ensures accepted ==> nextRunId == old(nextRunId) + 1 && active == Some(nextRunId) && caller == Accepted(nextRunId)
      ensures !accepted ==> unchanged(this)
    {
      if active.Some? || nextRunId >= MAX_U64 { return false; }
      nextRunId := nextRunId + 1;
      active, caller := Some(nextRunId), Accepted(nextRunId);
      return true;
    }

    /** Clear the flag of whatever was asked before this run. */
    method ResetFlag()
      requires Valid() && caller.Accepted?
      modifies `cancel, `caller, `log
      ensures Valid() && caller == FlagReset(old(caller).run) && !cancel && log == old(log) + [Reset(caller.run)]
    {
      var run := caller.run;
      assert !AppliedBefore(log, run) && !PanickedBefore(log, run);
      Log(Reset(run));
      cancel, caller := false, FlagReset(run);
    }

    /** Start the sync thread, or give the run up if none can be had. */
    method SpawnThread(spawned: bool)
      requires Valid() && caller.FlagReset?
      modifies `active, `thread, `caller, `log
      ensures Valid() && caller.Idle?
      ensures if spawned then thread == Some(Working(old(caller).run)) && active == Some(old(caller).run)
        else thread.None? && active.None?
      ensures log == old(log) + (if spawned then [] else [Released(old(caller).run)])
    {
      if spawned {
        thread := Some(Working(caller.run));
      } else {
        Log(Released(caller.run));
        active := None;
      }
      caller := Idle;
    }

    /** Ask the run to stop. Asked between a run's acceptance and its reset, this is lost. */
    method RequestCancellation()
      requires Valid()
      modifies `cancel, `log
      ensures Valid() && cancel && log == old(log) + [CancelAsked]
    {
      Log(CancelAsked);
      cancel := true;
    }

    // ---- The sync thread ----

    method LookForCancellation() returns (cancelled: bool)
      requires Valid() && thread.Some? && thread.value.Working?
      modifies `log
      ensures Valid() && cancelled == cancel
      ensures log == old(log) + (if cancelled then [CancelSeen(thread.value.run)] else [])
    {
      if cancel { Log(CancelSeen(thread.value.run)); }
      return cancel;
    }

    method SendProgress()
      requires Valid() && thread.Some? && thread.value.Working?
      modifies `events
      ensures Valid() && events == old(events) + [Progress(thread.value.run)]
    {
      events := events + [Progress(thread.value.run)];
      assert forall e :: e in old(events) ==> e in events;
    }

    method FinishRun(completion: Completion)
      requires Valid() && thread.Some? && thread.value.Working?
      modifies `thread, `events
      ensures Valid() && thread == Some(Ended(old(thread).value.run))
      ensures events == old(events) + [Finished(old(thread).value.run, completion)]
    {
      var last := Finished(thread.value.run, completion);
      events := events + [last];
      assert last in events;
      thread := Some(Ended(thread.value.run));
    }

    /** The task panics: the thread ends, and no completion is sent. */
    method PanicRun()
      requires Valid() && thread.Some? && thread.value.Working?
      modifies `thread, `log
      ensures Valid() && thread == Some(Ended(old(thread).value.run))
      ensures log == old(log) + [Panicked(old(thread).value.run)]
    {
      Log(Panicked(thread.value.run));
      thread := Some(Ended(thread.value.run));
    }

    // ---- The runtime's event handler ----

    method ReceiveEvent()
      requires Valid() && caller.Idle? && events != []
      modifies `events, `caller, `log
      ensures Valid() && events == old(events)[1..]
      // A finished run goes on to be applied exactly when it is the active one.
      ensures var e := old(events)[0];
        if e.Finished? && active == Some(e.run) then caller == Applying(e.run, e.completion) else caller.Idle?
      ensures var e := old(events)[0];
        log == old(log) + if e.Progress? && active == Some(e.run) then [Shown(e.run)] else []
    {
      var e := events[0];
      events := events[1..];
      assert forall x :: x in old(events) ==> x == e || x in events;
      if active == Some(e.run) {
        match e {
          case Progress(run) => Log(Shown(run));
          case Finished(run, completion) => caller := Applying(run, completion);
        }
      }
    }

    /** Save the manifest of an authoritative outcome, if the store takes it. */
    method ApplyCompletion(storeTakes: bool)
      requires Valid() && caller.Applying?
      modifies `caller, `log
      ensures Valid() && caller == Acknowledging(old(caller).run)
      ensures log == old(log) + [Applied(old(caller).run,
        old(caller).completion.Outcome? && old(caller).completion.authoritative && storeTakes)]
    {
      var run, completion := caller.run, caller.completion;
      Log(Applied(run, completion.Outcome? && completion.authoritative && storeTakes));
      caller := Acknowledging(run);
    }

    /** Join the thread, which takes no lock to end, and release the run. */
    method Acknowledge() returns (released: bool)
      requires Valid() && caller.Acknowledging?
      modifies `thread, `active, `caller, `log
      ensures Valid()
      ensures released <==> !(old(thread).Some? && old(thread).value.Working?)
      ensures released ==> active.None? && thread.None? && caller.Idle?
      ensures released ==> log == old(log) + [Released(old(caller).run)]
      ensures !released ==> unchanged(this)
    {
      if thread.Some? && thread.value.Working? { return false; }
      Log(Released(caller.run));
      thread, active, caller := None, None, Idle;
      return true;
    }

    // ---- Shutting down ----

    method BeginShutdown()
      requires Valid() && caller.Idle?
      modifies `cancel, `log, `caller
      ensures Valid() && caller.Joining? && cancel && log == old(log) + [CancelAsked]
    {
      RequestCancellation();
      caller := Joining;
    }

    method FinishShutdown() returns (joined: bool)
      requires Valid() && caller.Joining?
      modifies `thread, `active, `events, `caller, `log
      ensures Valid()
      ensures joined <==> !(old(thread).Some? && old(thread).value.Working?)
      ensures joined ==> active.None? && thread.None? && events == [] && caller.Idle?
      ensures joined ==> log == old(log) + (if old(active).Some? then [Released(old(active).value)] else [])
      ensures !joined ==> unchanged(this)
    {
      if thread.Some? && thread.value.Working? { return false; }
      if active.Some? { Log(Released(active.value)); }
      thread, active, events, caller := None, None, [], Idle;
      return true;
    }

    // ---- Any interleaving ----

    method ContinueCall(chance: bool)
      requires Valid()
      modifies this
      ensures Valid() && Now() == old(Now()).Next(CallerStep(chance))
      ensures old(log) <= log && nextRunId == old(nextRunId)
    {
      hide Lawful, FlagIsHonest, OneRun, EndIsComing, OneEnd, MayFollow, State.After;
      match caller {
        case Idle =>
        case Accepted(_) => ResetFlag();
        case FlagReset(_) => SpawnThread(chance);
        case Applying(_, _) => ApplyCompletion(chance);
        case Acknowledging(_) => var released := Acknowledge();
        case Joining => var joined := FinishShutdown();
      }
    }

    /** The active run panicked, and the runtime is at rest. */
    ghost predicate BlockedByPanic()
      reads this
    {
      caller.Idle? && active.Some? && PanickedBefore(log, active.value)
    }

    method Step(action: Action)
      requires Valid()
      modifies this
      ensures Valid() && Now() == old(Now()).Next(action)
      ensures old(log) <= log && old(nextRunId) <= nextRunId
    {
      hide Lawful, FlagIsHonest, OneRun, CallsInStep, EndIsComing, OneEnd, MayFollow, State.After;
      var working := thread.Some? && thread.value.Working?;
      match action {
        case Start => if caller.Idle? { var accepted := AcceptRun(); }
        case AskCancel => RequestCancellation();
        case Look => if working { var cancelled := LookForCancellation(); }
        case Report => if working { SendProgress(); }
        case Finish(completion) => if working { FinishRun(completion); }
        case TaskPanics => if working { PanicRun(); }
        case Receive => if caller.Idle? && events != [] { ReceiveEvent(); }
        case Shutdown => if caller.Idle? { BeginShutdown(); }
        case CallerStep(chance) => ContinueCall(chance);
      }
    }

    /** Every interleaving leaves a lawful log that goes on, and an active run that is
        not yet applied has its thread running, its completion waiting to be received, or
        panicked, and then no run starts until a shutdown. */
    method Run(schedule: seq<Action>)
      requires Valid()
      modifies this
      ensures Valid() && Now() == old(Now()).After(schedule)
      ensures Lawful(log) && old(log) <= log && old(nextRunId) <= nextRunId
      ensures caller.Idle? && active.Some? ==>
        thread == Some(Working(active.value)) || CompletionWaits(active.value) || BlockedByPanic()
      ensures old(BlockedByPanic()) && (forall n :: 0 <= n < |schedule| ==> !schedule[n].Shutdown?) ==>
        BlockedByPanic() && active == old(active) && nextRunId == old(nextRunId)
    {
      for n := 0 to |schedule|
        invariant Valid() && Now() == old(Now()).After(schedule[..n])
        invariant old(log) <= log && old(nextRunId) <= nextRunId
      {
        hide State.Next;
        Step(schedule[n]);
        assert schedule[..n + 1][..n] == schedule[..n];
      }
      assert schedule[..|schedule|] == schedule;
      if old(BlockedByPanic()) && forall n :: 0 <= n < |schedule| ==> !schedule[n].Shutdown? {
        BlockedStays(old(Now()), schedule);
      }
    }
  }

  /** One task that panics blocks every later start, whatever else happens before a
      shutdown. */
  method PanicBlocksStarts(others: seq<Action>) returns (started: nat, blocked: Option<nat>)
    requires forall n :: 0 <= n < |others| ==> !others[n].Shutdown?
    ensures started == 1 && blocked == Some(1)
  {
    var s := new SyncRuntime();
    var accepted := s.AcceptRun();
    s.ResetFlag();
    s.SpawnThread(true);
    s.PanicRun();
    s.Run(others);
    started, blocked := s.nextRunId, s.active;
  }
}
