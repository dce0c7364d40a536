/** The supervisor's loop, one method a section, each proved to do what the specification
    of a turn says. */
module AnalysisSupervisor {
  import opened Wrappers
  import opened Numbers
  import opened ExplicitWork
  import opened SupervisorLog
  import opened SupervisorBuffer
  import opened SupervisorTurn
  import opened SupervisorSoundness
  import opened SupervisorPromises

  datatype Step = Again | Leave | Stop

  function PhaseOf(error: Option<string>): Phase {
    if error.Some? then Rejected(error.value) else Clear
  }

  class Supervisor {
    var settings: Settings
    var usage: int
    var libraryPath: Option<string>
    var pool: Option<Pool>
    var completed: nat
    var failed: nat
    var total: Option<nat>
    var explicitQueue: seq<Item>
    var pending: seq<Item>
    var inFlight: set<nat>
    var pendingError: Option<string>
    var trace: seq<Event>
    // What the workers have: the tracks handed over since the in-flight set was last
    // cleared, and before it was, whose outcomes were not read yet.
    var live: multiset<nat>
    var stale: multiset<nat>
    // The tracks sent since the in-flight set was last cleared while they were buffered
    // again, and those untracked by an outcome of an earlier pool.
    ghost var raced: set<nat>
    ghost var untracked: set<nat>

    ghost function Held(): Handling
      reads this
    {
      Handling(inFlight, live, stale, raced, untracked)
    }

    ghost function Now(): Desk
      reads this
    {
      Desk(explicitQueue, pending, trace)
    }

    /** The other fields hold what the log tells. */
    ghost predicate Tied(phase: Phase)
      reads this
    {
      var s := StatusAfter(trace);
      && s.phase == phase && s.counts == Counts(completed, failed, total) && s.handling == Held()
      && s.controls == Controls(settings, usage, libraryPath, pool)
    }

    ghost predicate Agrees()
      reads this
    {
      Tied(PhaseOf(pendingError))
    }

    ghost predicate Valid()
      reads this
    {
      Agrees() && Sound(Now())
    }

    constructor (settings: Settings, usage: int, libraryPath: Option<string>)
      ensures Valid() && Now() == Start(settings, usage, libraryPath)
    {
      this.settings, this.usage, this.libraryPath, pool := settings, usage, libraryPath, None;
      completed, failed, total := 0, 0, None;
      explicitQueue, pending, inFlight, pendingError := [], [], {}, None;
      live, stale, raced, untracked := multiset{}, multiset{}, {}, {};
      trace := [Started(settings, usage, libraryPath)];
      new;
      StartIsSound(settings, usage, libraryPath);
    }

    method Log(e: Event)
      modifies `trace
      ensures trace == old(trace) + [e]
      ensures StatusAfter(trace) == Next(StatusAfter(old(trace)), e)
    {
      NextNow(Now(), e);
      trace := trace + [e];
    }

    // ---- Promotion ----

    /** Promote explicit work, dropping background work for it. */
    method PrioritizeExplicitWork()
      modifies `explicitQueue, `pending
      ensures (explicitQueue, pending) == Prioritized(old(explicitQueue), old(pending), inFlight)
      ensures old(WellFormed(explicitQueue, pending)) ==>
        WellFormed(explicitQueue, pending) && Ids(pending) * inFlight <= Ids(old(pending))
    {
      if WellFormed(explicitQueue, pending) { PrioritizedWellFormed(explicitQueue, pending, inFlight); }
      if explicitQueue == [] { return; }
      pending := ExplicitOnly(pending);
      DrainReadyExplicitWork();
    }

    method DrainReadyExplicitWork()
      modifies `explicitQueue, `pending
      ensures (explicitQueue, pending) ==
        Drained(old(explicitQueue), old(pending), inFlight, |old(explicitQueue)|)
    {
      var steps: nat := |explicitQueue|;
      while steps > 0
        invariant steps <= |explicitQueue|
        invariant Drained(explicitQueue, pending, inFlight, steps) ==
          Drained(old(explicitQueue), old(pending), inFlight, |old(explicitQueue)|)
      {
        if |pending| >= BATCH_SIZE { return; }
        var item := explicitQueue[0];
        explicitQueue := explicitQueue[1..];
        if item.trackId in inFlight {
          explicitQueue := explicitQueue + [item];
        } else if ExplicitlyPending(pending, item.trackId) {
        } else {
          pending := pending + [item];
        }
        steps := steps - 1;
      }
    }

    method Promote()
      requires Agrees()
      modifies `explicitQueue, `pending
      ensures Agrees() && Now() == Promoted(old(Now()))
    {
      hide StatusAfter, Prioritized;
      PrioritizeExplicitWork();
    }

    // ---- Commands ----

    /** Each command changes its own part; only another BPM range or resource usage tears
        the pool down. */
    method ApplyCommand(command: Command)
      requires Agrees() || (pendingError.None? && Tied(Reported))
      requires !command.Shutdown?
      modifies `settings, `usage, `libraryPath, `explicitQueue, `pool, `trace
      ensures Agrees() && Now() == Taking(old(Now()), command)
      ensures settings == if command.SettingsChanged? then command.settings else old(settings)
      ensures usage == if command.ResourceUsageChanged? then command.usage else old(usage)
      ensures libraryPath == if command.LibraryPathChanged? then command.path else old(libraryPath)
      ensures pool ==
        if || (command.SettingsChanged? && command.settings.bpmRange != old(settings).bpmRange)
           || (command.ResourceUsageChanged? && command.usage != old(usage))
        then None else old(pool)
    {
      hide StatusAfter, QueueAfter, NextAsks;
      Log(Took(command));
      Obey(command);
    }

    /** Change what the command is about. */
    method Obey(command: Command)
      requires !command.Shutdown?
      modifies `settings, `usage, `libraryPath, `explicitQueue, `pool
      ensures settings == if command.SettingsChanged? then command.settings else old(settings)
      ensures usage == if command.ResourceUsageChanged? then command.usage else old(usage)
      ensures libraryPath == if command.LibraryPathChanged? then command.path else old(libraryPath)
      ensures pool ==
        if || (command.SettingsChanged? && command.settings.bpmRange != old(settings).bpmRange)
           || (command.ResourceUsageChanged? && command.usage != old(usage))
        then None else old(pool)
      ensures explicitQueue == QueueAfter(old(explicitQueue), command)
    {
      match command
      case SettingsChanged(changed) =>
        if settings.bpmRange != changed.bpmRange { pool := None; }
        settings := changed;
      case ResourceUsageChanged(changed) =>
        if usage != changed {
          usage := changed;
          pool := None;
        }
      case LibraryPathChanged(path) =>
        libraryPath := path;
      case ExplicitRun(trackIds, mask) =>
        if !mask.IsEmpty() { QueueRequests(trackIds, mask); }
      case Wake =>
    }

    /** Queue the tracks that were not queued when the request came. */
    method QueueRequests(trackIds: seq<nat>, mask: Capabilities)
      modifies `explicitQueue
      ensures explicitQueue == old(explicitQueue) + NewRequests(trackIds, mask, Ids(old(explicitQueue)))
    {
      var queued := Ids(explicitQueue);
      for i := 0 to |trackIds|
        invariant explicitQueue == old(explicitQueue) + NewRequests(trackIds[..i], mask, queued)
        modifies `explicitQueue
      {
        assert trackIds[..i + 1][..i] == trackIds[..i];
        if trackIds[i] !in queued {
          explicitQueue := explicitQueue + [Item(trackIds[i], mask, true)];
        }
      }
      assert trackIds[..|trackIds|] == trackIds;
    }

    /** Wait for the next command and apply it; false when the supervisor is to stop. */
    method BlockForCommand(next: Option<Command>) returns (alive: bool)
      requires Agrees() || (pendingError.None? && Tied(Reported))
      modifies `settings, `usage, `libraryPath, `explicitQueue, `pool, `trace
      ensures Turned(Now(), alive) == Waiting(old(Now()), next)
      ensures alive ==> Agrees()
    {
      if next.None? || next.value.Shutdown? { return false; }
      ApplyCommand(next.value);
      return true;
    }

    /** The store failed: let the pool go and wait for a command. */
    method BlockForRetry(next: Option<Command>) returns (alive: bool)
      requires Agrees()
      modifies `settings, `usage, `libraryPath, `explicitQueue, `pool, `trace
      ensures Turned(Now(), alive) == Failing(old(Now()), next)
      ensures alive ==> Agrees()
    {
      hide StatusAfter, NextAsks;
      pool := None;
      Log(StoreFailed);
      alive := BlockForCommand(next);
    }

    /** The commands that are waiting at the loop's top; false on shutdown. */
    method DrainCommands(commands: seq<Command>) returns (alive: bool)
      requires Agrees()
      modifies `settings, `usage, `libraryPath, `explicitQueue, `pool, `trace
      ensures Agrees() && Now() == TakingAll(old(Now()), BeforeShutdown(commands))
      ensures alive <==> BeforeShutdown(commands) == commands
    {
      hide StatusAfter, Taking, BeforeShutdown;
      for i := 0 to |commands|
        invariant Agrees() && Now() == TakingAll(old(Now()), commands[..i])
        invariant NoShutdown(commands[..i])
      {
        if commands[i].Shutdown? {
          BeforeShutdownIs(commands, i);
          return false;
        }
        ApplyCommand(commands[i]);
        assert commands[..i + 1][..i] == commands[..i];
      }
      BeforeShutdownIs(commands, |commands|);
      return true;
    }

    /** Take one waiting command, if there is one. */
    method CommandDrainStep(command: Option<Command>) returns (alive: bool)
      requires Agrees()
      modifies `settings, `usage, `libraryPath, `explicitQueue, `pool, `trace
      ensures alive <==> command != Some(Shutdown)
      ensures alive ==> Agrees()
      ensures Now() == if command.Some? && alive then Taking(old(Now()), command.value) else old(Now())
    {
      if command.None? { return true; }
      if command.value.Shutdown? {
        pool := None;
        return false;
      }
      ApplyCommand(command.value);
      return true;
    }

    // ---- The top of the loop ----

    /** A torn-down pool: forget what was in flight, drop background work, and put
        buffered explicit work back in front of the queue, in order. */
    method DiscardPool()
      requires Agrees()
      modifies `explicitQueue, `pending, `inFlight, `live, `stale, `raced, `untracked, `trace
      ensures Agrees() && Now() == TornDown(old(Now()))
    {
      hide StatusAfter;
      ClearInFlight(false);
      PutBack(ExplicitOnly(pending));
      pending := [];
    }

    /** Forget what is in flight, and the unread outcomes too or not. */
    method ClearInFlight(forgotten: bool)
      requires Agrees()
      modifies `inFlight, `live, `stale, `raced, `untracked, `trace
      ensures Agrees() && inFlight == {} && trace == old(trace) + [Cleared(forgotten)]
    {
      NextOfCleared(StatusAfter(trace), forgotten);
      hide StatusAfter, Next;
      Log(Cleared(forgotten));
      Untrack(forgotten);
    }

    method Untrack(forgotten: bool)
      modifies `inFlight, `live, `stale, `raced, `untracked
      ensures Held() ==
        Handling({}, multiset{}, if forgotten then multiset{} else old(stale) + old(live), {}, {})
    {
      inFlight := {};
      live, stale := multiset{}, if forgotten then multiset{} else stale + live;
      raced, untracked := {}, {};
    }

    /** Push the items in front of the queue, the last one first. */
    method PutBack(preserved: seq<Item>)
      modifies `explicitQueue
      ensures explicitQueue == preserved + old(explicitQueue)
    {
      var n: nat := |preserved|;
      while n > 0
        invariant n <= |preserved|
        invariant explicitQueue == preserved[n..] + old(explicitQueue)
      {
        n := n - 1;
        explicitQueue := [preserved[n]] + explicitQueue;
      }
      assert preserved[0..] == preserved;
    }

    /** Commands, teardown and promotion; false on shutdown. */
    method TopOfRound(commands: seq<Command>) returns (alive: bool)
      requires Agrees()
      modifies this
      ensures Agrees() && (alive <==> BeforeShutdown(commands) == commands)
      ensures Now() ==
        if alive then Topped(old(Now()), commands) else TakingAll(old(Now()), BeforeShutdown(commands))
    {
      hide StatusAfter, TakingAll, BeforeShutdown;
      var poolWasAlive := pool.Some?;
      alive := DrainCommands(commands);
      if !alive { return false; }
      if poolWasAlive && pool.None? { DiscardPool(); }
      Promote();
    }

    /** A rejected write: tear the pool down, forget every outcome still queued, report,
        and take nothing but a command. Buffered and queued work stays for it to revive. */
    method StopOnRejectedWrite(next: Option<Command>) returns (alive: bool)
      requires Agrees() && pendingError.Some?
      modifies this
      ensures Turned(Now(), alive) == Stopping(old(Now()), old(pendingError).value, next)
      ensures alive ==> Agrees()
    {
      hide StatusAfter, Waiting;
      ClearInFlight(true);
      ReportRejection();
      alive := BlockForCommand(next);
    }

    method ReportRejection()
      requires Agrees() && pendingError.Some?
      modifies `pendingError, `pool, `trace
      ensures pendingError.None? && Tied(Reported)
      ensures trace == old(trace) + [Told(PersistenceError(old(pendingError).value))]
    {
      hide StatusAfter, NextAsks;
      pool := None;
      Log(Told(PersistenceError(pendingError.value)));
      pendingError := None;
    }

    // ---- Outcomes ----

    /** Fold one outcome in, of the current pool or left over from an earlier one. A
        rejected write is kept in flight, is not counted, and is remembered unless one
        already was. Any other one untracks its track, even if that is out again. */
    method ApplyOutcome(o: Outcome)
      requires Agrees() && Readable(Held(), o)
      modifies `completed, `failed, `inFlight, `pendingError, `live, `stale, `trace, `untracked
      ensures Agrees() && Now() == Reading(old(Now()), o)
      ensures Held() == AfterOutcome(old(Held()), o.trackId, !o.kind.PersistenceFailed?, o.straggler)
      ensures completed == if o.kind.Analyzed? then SaturatingAdd(old(completed), 1) else old(completed)
      ensures failed == if o.kind.AnalysisFailed? then SaturatingAdd(old(failed), 1) else old(failed)
      ensures pendingError ==
        if old(pendingError).None? && o.kind.PersistenceFailed? then Some(o.kind.detail) else old(pendingError)
    {
      NextOfFolded(StatusAfter(trace), o.trackId, o.kind, o.straggler);
      NextNow(Now(), Folded(o.trackId, o.kind, o.straggler));
      hide StatusAfter, Next, AfterOutcome, SaturatingAdd, Counts.Shown;
      Log(Folded(o.trackId, o.kind, o.straggler));
      ReadOutcome(o.trackId, !o.kind.PersistenceFailed?, o.straggler);
      if o.kind.PersistenceFailed? {
        if pendingError.None? { pendingError := Some(o.kind.detail); }
      } else {
        Tally(o.kind);
      }
    }

    /** What an outcome does to the tracking. */
    method ReadOutcome(trackId: nat, counted: bool, straggler: bool)
      modifies `inFlight, `live, `stale, `untracked
      ensures Held() == AfterOutcome(old(Held()), trackId, counted, straggler)
    {
      if straggler {
        if counted && trackId in live { untracked := untracked + {trackId}; }
        stale := stale - multiset{trackId};
      } else {
        live := live - multiset{trackId};
      }
      if counted { inFlight := inFlight - {trackId}; }
    }

    /** Count one finished track and tell the running totals. */
    method Tally(kind: OutcomeKind)
      requires !kind.PersistenceFailed?
      modifies `completed, `failed, `trace
      ensures completed == if kind.Analyzed? then SaturatingAdd(old(completed), 1) else old(completed)
      ensures failed == if kind.AnalysisFailed? then SaturatingAdd(old(failed), 1) else old(failed)
      ensures var told := Told(Tick(completed, failed, Counts(completed, failed, total).Shown()));
        && trace == old(trace) + [told]
        && StatusAfter(trace) == StatusAfter(old(trace)).(owesTick := false, flipped := false)
    {
      hide StatusAfter, SaturatingAdd;
      if kind.Analyzed? {
        completed := SaturatingAdd(completed, 1);
      } else {
        failed := SaturatingAdd(failed, 1);
      }
      var processed := SaturatingAdd(completed, failed);
      var shown := if total.Some? then Max(total.value, processed) else processed;
      Log(Told(Tick(completed, failed, shown)));
    }

    /** Wait for one outcome, for a short while. */
    method WaitForOutcome(outcome: Option<Outcome>)
      requires Agrees()
      modifies `completed, `failed, `inFlight, `pendingError, `live, `stale, `trace, `untracked
      ensures Agrees() && Now() == ReadingOne(old(Now()), outcome)
    {
      hide StatusAfter, AfterOutcome;
      if outcome.Some? && outcome.value.trackId in (if outcome.value.straggler then stale else live) {
        ApplyOutcome(outcome.value);
      }
    }

    /** Fold in every outcome that is there. */
    method DrainOutcomes(outcomes: seq<Outcome>)
      requires Agrees()
      modifies `completed, `failed, `inFlight, `pendingError, `live, `stale, `trace, `untracked
      ensures Agrees() && Now() == ReadingAll(old(Now()), outcomes)
    {
      hide StatusAfter, Reading;
      for i := 0 to |outcomes|
        invariant Agrees() && Now() == ReadingAll(old(Now()), outcomes[..i])
      {
        WaitForOutcome(Some(outcomes[i]));
        assert outcomes[..i + 1][..i] == outcomes[..i];
      }
      assert outcomes[..|outcomes|] == outcomes;
    }

    // ---- Idling ----

    /** The pool goes, the totals are told, and the counts start afresh. */
    method EmitIdle()
      requires Agrees()
      modifies `completed, `failed, `total, `pool, `trace
      ensures Agrees() && Now() == old(Now()).Log(Told(Idle(old(completed), old(failed))))
      ensures completed == 0 && failed == 0 && total.None? && pool.None?
    {
      NextOfIdle(StatusAfter(trace), completed, failed);
      hide StatusAfter, Next;
      pool := None;
      Log(Told(Idle(completed, failed)));
      completed, failed, total := 0, 0, None;
    }

    /** No library path, or no work of either kind. */
    predicate HasNothingToFind()
      reads this
    {
      libraryPath.None? || (settings.capabilities.IsEmpty() && explicitQueue == [] && pending == [])
    }

    /** Count what has come in; then drop what is buffered and idle if nothing is in
        flight, or wait. */
    method NothingToDispatch(outcomes: seq<Outcome>, outcome: Option<Outcome>, next: Option<Command>)
      returns (alive: bool)
      requires Agrees()
      modifies this
      ensures Turned(Now(), alive) == Resting(old(Now()), outcomes, outcome, next)
      ensures alive ==> Agrees()
    {
      hide StatusAfter, ReadingAll, ReadingOne;
      DrainOutcomes(outcomes);
      if inFlight == {} {
        Log(Emptied(Ids(ExplicitOnly(pending))));
        pending := [];
        EmitIdle();
        alive := BlockForCommand(next);
      } else {
        WaitForOutcome(outcome);
        alive := true;
      }
    }

    // ---- Dispatching ----

    /** The run's size, taken once: each queued or needy track counted once. */
    method SnapshotRunTotal(needy: seq<nat>, fails: bool) returns (ok: bool)
      requires Agrees() && |needy| <= MAX_I64
      modifies `total, `trace
      ensures Agrees() && (ok <==> settings.capabilities.IsEmpty() || !fails)
      ensures Now() == if ok then Sized(old(Now()), Elements(needy)) else old(Now())
    {
      hide StatusAfter;
      var counted := Ids(explicitQueue);
      if !settings.capabilities.IsEmpty() {
        if fails { return false; }
        counted := counted + Elements(Answer(needy, MAX_I64));
      }
      assert Answer(needy, MAX_I64) == needy;
      assert counted == Ids(explicitQueue) + if settings.capabilities.IsEmpty() then {} else Elements(needy);
      total := Some(Min(|counted|, MAX_U32));
      Log(Snapshot(total.value, Ids(explicitQueue), Elements(needy)));
      return true;
    }

    /** Workers for the settings in force, if there are none. */
    method EnsurePool()
      requires Agrees()
      modifies `pool, `trace
      ensures Agrees() && pool.Some? && Now() == Spawning(old(Now()))
    {
      hide StatusAfter;
      if pool.None? {
        pool := Some(Pool(usage, settings.bpmRange));
        Log(Spawned(pool.value));
      }
    }

    /** Buffer the tracks found that are not in flight. The sweep asks for as many tracks as
        are in flight on top of the room, as the store still reports those as needy. */
    method SweepBackground(needy: seq<nat>)
      requires Agrees() && Sweeps(Now())
      modifies `pending
      ensures Agrees() && Now() == Swept(old(Now()), needy)
    {
      var found := Answer(needy, BATCH_SIZE - |pending| + |inFlight|);
      hide StatusAfter, Answer;
      ghost var before := pending;
      for i := 0 to |found|
        invariant pending == before + BackgroundItems(NotInFlight(found[..i], inFlight), settings.capabilities)
        modifies `pending
      {
        assert found[..i + 1][..i] == found[..i];
        if found[i] !in inFlight {
          pending := pending + [Item(found[i], settings.capabilities, false)];
        }
      }
      assert found[..|found|] == found;
    }

    /** Refill the empty buffer: explicit work first, the sweep only when no explicit work
        is queued. */
    method Refill(needy: seq<nat>, fails: bool) returns (ok: bool)
      requires Agrees()
      modifies `explicitQueue, `pending
      ensures Agrees() && (ok <==> !(Sweeps(Drain(old(Now()))) && fails))
      ensures var drained := Drain(old(Now()));
        Now() == if Sweeps(drained) && ok then Swept(drained, needy) else drained
    {
      hide StatusAfter, Drained, Swept;
      DrainReadyExplicitWork();
      ghost var drained := Now();
      assert drained == Drain(old(Now()));
      ok := true;
      if |pending| < BATCH_SIZE && explicitQueue == [] && !settings.capabilities.IsEmpty() {
        if fails { return false; }
        SweepBackground(needy);
      }
    }

    /** Drop the front, or hand the item that was read over and then drop the front; a full
        channel leaves all as it is. */
    method HandOver(item: Item, a: Attempt) returns (step: Step)
      requires Agrees()
      modifies `pending, `inFlight, `live, `trace, `raced
      ensures Agrees() && Now() == HandingOver(old(Now()), item, a)
      ensures step == if Blocked(old(Now()), item, a) then Leave else Again
    {
      hide StatusAfter, Next;
      var mask := if item.isExplicit then item.capabilities else settings.capabilities;
      if mask.IsEmpty() || a.vanished {
        DropFront();
        return Again;
      }
      if a.full { return Leave; }
      var replaced := pending != [] && pending[0] != item;
      Send(item, mask);
      if replaced {
        DropFront();
      } else {
        pending := PopFront(pending);
      }
      return Again;
    }

    method DropFront()
      requires Agrees()
      modifies `pending, `trace
      ensures Agrees() && pending == PopFront(old(pending)) && trace == old(trace) + FrontDropped(old(pending))
    {
      hide StatusAfter, NextAsks;
      if pending != [] {
        Log(Dropped(pending[0].trackId, pending[0].isExplicit));
        pending := pending[1..];
      }
    }

    method Send(item: Item, mask: Capabilities)
      requires Agrees()
      modifies `inFlight, `live, `trace, `raced
      ensures Agrees()
      ensures trace == old(trace) + [Sent(item.trackId, mask, item.trackId in Ids(PopFront(pending)), item.isExplicit)]
    {
      hide StatusAfter, NextAsks;
      var again := item.trackId in Ids(PopFront(pending));
      Log(Sent(item.trackId, mask, again, item.isExplicit));
      inFlight := inFlight + {item.trackId};
      live := live + multiset{item.trackId};
      if again { raced := raced + {item.trackId}; }
    }

    /** One dispatch attempt: read the front, let a command in, promote, and hand over the
        item that was read. */
    method DispatchOne(a: Attempt) returns (step: Step)
      requires Agrees() && pending != []
      modifies this
      ensures step.Stop? <==> a.command == Some(Shutdown)
      ensures step.Stop? ==> Now() == old(Now())
      ensures !step.Stop? ==>
        Agrees() && Now() == Attempted(old(Now()), a) && (step.Leave? <==> Leaves(old(Now()), a))
    {
      hide StatusAfter, HandingOver, Blocked, QueueAfter;
      var item := pending[0];
      var alive := CommandDrainStep(a.command);
      if !alive { return Stop; }
      if pool.None? { return Leave; }
      Promote();
      step := HandOver(item, a);
    }

    /** Dispatch until the buffer is empty, the channel is full, the pool is gone or the
        supervisor is told to stop. */
    method DispatchPending(attempts: seq<Attempt>) returns (alive: bool)
      requires Agrees()
      modifies this
      ensures Turned(Now(), alive) == Dispatched(old(Now()), attempts)
      ensures alive ==> Agrees()
    {
      hide StatusAfter, Attempted, Leaves;
      var i := 0;
      while pending != []
        invariant i <= |attempts| && Agrees()
        invariant Dispatched(Now(), attempts[i..]) == Dispatched(old(Now()), attempts)
        decreases |attempts| - i, |explicitQueue| + |pending|
      {
        ghost var before := Now();
        var step := DispatchOne(if i < |attempts| then attempts[i] else QUIET);
        if step.Stop? { return false; }
        if step.Leave? {
          if i == |attempts| { QuietLeaves(before); }
          return true;
        }
        if i < |attempts| {
          i := i + 1;
        } else {
          QuietShrinks(before);
        }
      }
      return true;
    }

    /** Dispatch what is buffered; then wait, for a command if there is nothing else. */
    method DispatchAndWait(input: Input) returns (alive: bool)
      requires Agrees()
      modifies this
      ensures Turned(Now(), alive) == Dispatching(old(Now()), input)
      ensures alive ==> Agrees()
    {
      hide StatusAfter, Dispatched, ReadingOne, Waiting;
      alive := DispatchPending(input.attempts);
      if !alive { return false; }
      if inFlight == {} && pending == [] && explicitQueue == [] {
        alive := BlockForCommand(input.next);
      } else {
        WaitForOutcome(input.outcome);
      }
    }

    /** Refill and dispatch with a pool alive. */
    method Feed(input: Input) returns (alive: bool)
      requires Agrees()
      modifies this
      ensures Turned(Now(), alive) == Feeding(old(Now()), input)
      ensures alive ==> Agrees()
    {
      hide StatusAfter, Dispatching, Waiting, Drain, Swept;
      EnsurePool();
      if pending == [] {
        var ok := Refill(input.needy, input.sweepFails);
        if !ok {
          alive := BlockForRetry(input.next);
          return;
        }
        if pending == [] && inFlight == {} && explicitQueue == [] {
          EmitIdle();
          alive := BlockForCommand(input.next);
          return;
        }
      }
      alive := DispatchAndWait(input);
    }

    /** One turn of the loop, whatever the store, the workers and the commands do. */
    method Round(input: Input) returns (alive: bool)
      requires Valid() && Distinct(input.needy) && |input.needy| <= MAX_I64
      modifies this
      ensures Turned(Now(), alive) == Turn(old(Now()), input)
      ensures Lawful(trace) && old(trace) <= trace && (alive ==> Valid())
      // A run's size is that of all that is queued once the commands are taken, and in
      // need; and nothing is ever sent in a run without one.
      ensures TellsSize(old(trace), trace, Ids(Topped(old(Now()), input.commands).queue), Elements(input.needy))
      ensures SizedBeforeSent(trace)
      // A rejected write that is remembered is told.
      ensures alive && old(pendingError).Some? ==>
        WasTold(old(trace), trace, PersistenceError(old(pendingError).value))
    {
      TurnEndsWell(Now(), input);
      assert Turn(Now(), input).alive && pendingError.Some? ==>
        WasTold(trace, Turn(Now(), input).desk.trace, PersistenceError(pendingError.value)) by {
        BeforeShutdownHasNone(input.commands);
        if pendingError.Some? && NoShutdown(input.commands) { RejectionEndsTurn(Now(), input, pendingError.value); }
      }
      TurnTellsSize(Now(), input);
      hide StatusAfter, Sound, Lawful, Topped, Feeding, Resting, Stopping, Failing, Sized, TakingAll, BeforeShutdown, TellsSize,
        SizedBeforeSent, WasTold;
      alive := TopOfRound(input.commands);
      if !alive { return false; }
      if pendingError.Some? {
        alive := StopOnRejectedWrite(input.next);
        return;
      }
      if HasNothingToFind() {
        alive := NothingToDispatch(input.outcomes, input.outcome, input.next);
        return;
      }
      if total.None? {
        var ok := SnapshotRunTotal(input.needy, input.sizeFails);
        if !ok {
          alive := BlockForRetry(input.next);
          return;
        }
      }
      alive := Feed(input);
    }

    /** Any number of turns, with anything happening in each. */
    method Run(inputs: seq<Input>) returns (alive: bool)
      requires Valid()
      requires forall i :: 0 <= i < |inputs| ==> Distinct(inputs[i].needy) && |inputs[i].needy| <= MAX_I64
      modifies this
      ensures Turned(Now(), alive) == Turns(old(Now()), inputs)
      ensures Lawful(trace) && old(trace) <= trace && (alive ==> Valid())
    {
      TurnsEndWell(Now(), inputs);
      hide StatusAfter, Lawful, Sound, Turn;
      for i := 0 to |inputs|
        invariant Valid() && Turns(Now(), inputs[i..]) == Turns(old(Now()), inputs)
      {
        var goesOn := Round(inputs[i]);
        assert inputs[i..][0] == inputs[i] && inputs[i..][1..] == inputs[i + 1..];
        if !goesOn { return false; }
      }
      return true;
    }
  }
}
