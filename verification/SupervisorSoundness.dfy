/** Whatever a turn of the supervisor meets, its log stays lawful, and queue, buffer and
    tracking stay what the log says they may be. */
module SupervisorSoundness {
  import opened Wrappers
  import opened Numbers
  import opened ExplicitWork
  import opened SupervisorLog
  import opened SupervisorBuffer
  import opened SupervisorTurn

  // ---- What every step keeps ----

  predicate Fits(c: Controls) { c.pool.Some? ==> c.pool.value == c.LivePool() }

  /** The log is lawful, and queue and buffer are what it says they may be. */
  ghost predicate Kept(d: Desk) {
    var s := d.Now();
    && Lawful(d.trace) && s.begun && !s.owesTick && Fits(s.controls)
    && Buffered(d.queue, d.pending, s.handling, s.asks)
  }

  /** Besides, no report of a rejected write still waits for its command. */
  ghost predicate Sound(d: Desk) {
    Kept(d) && !d.Now().phase.Reported?
  }

  /** A part of a turn leaves a lawful log that goes on, and all sound if there is more. */
  ghost predicate EndsWell(d: Desk, t: Turned) {
    Lawful(t.desk.trace) && d.trace <= t.desk.trace && (t.alive ==> Sound(t.desk))
  }

  lemma Logs(d: Desk, e: Event)
    requires Lawful(d.trace) && MayFollow(d.Now(), e)
    ensures Lawful(d.Log(e).trace) && d.Log(e).Now() == Next(d.Now(), e)
  {
    LawfulAppend(d.trace, e);
  }

  function Start(settings: Settings, usage: int, path: Option<string>): Desk {
    Desk([], [], [Started(settings, usage, path)])
  }

  lemma StartIsSound(settings: Settings, usage: int, path: Option<string>)
    ensures var d := Start(settings, usage, path);
      Sound(d) && d.Now() == Next(START, Started(settings, usage, path))
  {
    var d := Start(settings, usage, path);
    assert d.trace == [] + [Started(settings, usage, path)];
    LawfulAppend([], Started(settings, usage, path));
  }

  lemma NextNow(d: Desk, e: Event)
    ensures d.Log(e).Now() == Next(d.Now(), e)
  {
    assert d.Log(e).trace[..|d.trace|] == d.trace;
  }

  lemma TakingIsSound(d: Desk, command: Command)
    requires Kept(d) && !command.Shutdown?
    ensures Sound(Taking(d, command)) && Taking(d, command).Now() == Next(d.Now(), Took(command))
  {
    hide Lawful, StatusAfter, Buffered, QueueAfter, NextAsks;
    Logs(d, Took(command));
    RequestedIsBuffered(d.queue, d.pending, d.Now().handling, d.Now().asks, command);
  }

  lemma WaitingEndsWell(d: Desk, next: Option<Command>)
    requires Kept(d)
    ensures EndsWell(d, Waiting(d, next))
  {
    hide Kept, Lawful, StatusAfter;
    assert Lawful(d.trace) by { KeptIsLawful(d); }
    if next.Some? && !next.value.Shutdown? {
      TakingIsSound(d, next.value);
      KeptIsLawful(Taking(d, next.value));
    }
  }

  lemma KeptIsLawful(d: Desk)
    requires Kept(d)
    ensures Lawful(d.trace)
  {
  }

  ghost predicate NoShutdown(commands: seq<Command>) {
    forall i :: 0 <= i < |commands| ==> !commands[i].Shutdown?
  }

  lemma {:induction false} TakingAllIsSound(d: Desk, commands: seq<Command>)
    requires Sound(d) && NoShutdown(commands)
    ensures Sound(TakingAll(d, commands)) && d.trace <= TakingAll(d, commands).trace
    ensures var s, t := d.Now(), TakingAll(d, commands).Now();
      && t.phase == s.phase && t.counts == s.counts && t.handling == s.handling
      && (s.controls.pool.Some? && t.controls.pool.None? ==> t.flipped)
  {
    if commands != [] {
      var front, last := commands[..|commands| - 1], commands[|commands| - 1];
      TakingAllIsSound(d, front);
      hide Kept, StatusAfter, Lawful, QueueAfter, NextAsks;
      TakingIsSound(TakingAll(d, front), last);
    }
  }

  lemma {:induction false} BeforeShutdownHasNone(commands: seq<Command>)
    ensures NoShutdown(BeforeShutdown(commands))
    ensures BeforeShutdown(commands) == commands <==> NoShutdown(commands)
  {
    if commands != [] && !commands[0].Shutdown? {
      BeforeShutdownHasNone(commands[1..]);
      assert commands == [commands[0]] + commands[1..];
      if NoShutdown(commands[1..]) {
        forall i | 0 <= i < |commands| ensures !commands[i].Shutdown? {
          if i > 0 { assert commands[i] == commands[1..][i - 1]; }
        }
      }
    }
  }

  lemma TornDownIsSound(d: Desk)
    requires Sound(d) && d.Now().flipped
    ensures Sound(TornDown(d)) && TornDown(d).Now() == Next(d.Now(), Cleared(false))
  {
    hide Lawful, StatusAfter, Buffered;
    Logs(d, Cleared(false));
    var h := d.Now().handling;
    RebuiltIsBuffered(d.queue, d.pending, h, d.Now().asks, h.stale + h.live);
  }

  /** The two kinds of work take turns, and an empty buffer means that all that is queued
      is in flight. */
  ghost predicate Settled(d: Desk) {
    && (d.queue == [] || AllExplicit(d.pending))
    && (d.pending == [] ==> forall i :: 0 <= i < |d.queue| ==> d.queue[i].trackId in d.InFlight())
  }

  lemma PromotedIsSound(d: Desk)
    requires Sound(d)
    ensures Sound(Promoted(d)) && Settled(Promoted(d))
  {
    assert d.queue == [] ==> Promoted(d) == d;
    hide Lawful, StatusAfter, Prioritized;
    PrioritizedIsBuffered(d.queue, d.pending, d.Now().handling, d.Now().asks);
    PrioritizedWellFormed(d.queue, d.pending, d.InFlight());
  }

  /** After commands, teardown and promotion only these may have changed. */
  lemma ToppedIsSound(d: Desk, commands: seq<Command>)
    requires Sound(d) && NoShutdown(commands)
    ensures var top := Topped(d, commands);
      && Sound(top) && Settled(top) && d.trace <= top.trace
      && top.Now().phase == d.Now().phase && top.Now().counts == d.Now().counts
  {
    hide Kept, Lawful, StatusAfter, Prioritized, ExplicitOnly, NextAsks, Settled;
    TakingAllIsSound(d, commands);
    var taken := TakingAll(d, commands);
    if d.HasPool() && !taken.HasPool() {
      TornDownIsSound(taken);
      PromotedIsSound(TornDown(taken));
    } else {
      PromotedIsSound(taken);
    }
  }

  lemma StoppingEndsWell(d: Desk, detail: string, next: Option<Command>)
    requires Sound(d) && d.Now().phase == Rejected(detail)
    ensures EndsWell(d, Stopping(d, detail, next))
  {
    var cleared := d.Log(Cleared(true));
    var told := cleared.Log(Told(PersistenceError(detail)));
    assert Buffered(d.queue, d.pending, NextHandling(d.Now().handling, Cleared(true)), d.Now().asks);
    assert Kept(told) by {
      hide Lawful, StatusAfter, Buffered;
      Logs(d, Cleared(true));
      Logs(cleared, Told(PersistenceError(detail)));
    }
    hide Kept, StatusAfter, Lawful;
    WaitingEndsWell(told, next);
  }

  lemma FailingEndsWell(d: Desk, next: Option<Command>)
    requires Sound(d) && d.Now().controls.path.Some?
    ensures EndsWell(d, Failing(d, next))
  {
    var failed := d.Log(StoreFailed);
    assert Kept(failed) by {
      hide Lawful, StatusAfter, Buffered;
      Logs(d, StoreFailed);
    }
    hide Kept, StatusAfter, Lawful;
    WaitingEndsWell(failed, next);
  }

  // ---- Outcomes ----

  /** Reading an outcome changes what is tracked and counted, and nothing else. */
  lemma ReadingIsSound(d: Desk, o: Outcome)
    requires Sound(d)
    ensures var r := Reading(d, o);
      && Sound(r) && d.trace <= r.trace && r.queue == d.queue && r.pending == d.pending
      && r.Now().controls == d.Now().controls && r.Now().asks == d.Now().asks
      && r.Now().counts.total == d.Now().counts.total
      && r.Now().handling ==
           (if !Readable(d.Now().handling, o) then d.Now().handling
            else AfterOutcome(d.Now().handling, o.trackId, !o.kind.PersistenceFailed?, o.straggler))
      && (if Readable(d.Now().handling, o) && o.kind.PersistenceFailed? && d.Now().phase.Clear? then
            r.Now().phase == Rejected(o.kind.detail)
          else r.Now().phase == d.Now().phase)
  {
    hide Lawful, StatusAfter, Buffered, AfterOutcome;
    if Readable(d.Now().handling, o) {
      var e := Folded(o.trackId, o.kind, o.straggler);
      Logs(d, e);
      OutcomeKeepsBuffered(
        d.queue, d.pending, d.Now().handling, d.Now().asks, o.trackId, !o.kind.PersistenceFailed?, o.straggler);
      var folded := d.Log(e);
      if !o.kind.PersistenceFailed? {
        var counts := folded.Now().counts;
        Logs(folded, Told(Tick(counts.completed, counts.failed, counts.Shown())));
      }
    }
  }

  lemma {:induction false} ReadingAllIsSound(d: Desk, outcomes: seq<Outcome>)
    requires Sound(d)
    ensures var r := ReadingAll(d, outcomes);
      && Sound(r) && d.trace <= r.trace && r.queue == d.queue && r.pending == d.pending
      && r.InFlight() <= d.InFlight()
      && r.Now().controls == d.Now().controls && r.Now().asks == d.Now().asks
  {
    if outcomes != [] {
      hide Kept, StatusAfter, Reading;
      ReadingAllIsSound(d, outcomes[..|outcomes| - 1]);
      ReadingIsSound(ReadingAll(d, outcomes[..|outcomes| - 1]), outcomes[|outcomes| - 1]);
    }
  }

  // ---- Idling ----

  lemma CaughtUpEndsWell(d: Desk, next: Option<Command>)
    requires Sound(d) && d.InFlight() == {}
    ensures EndsWell(d, CaughtUp(d, next))
  {
    var told := d.Log(Told(Idle(d.Now().counts.completed, d.Now().counts.failed)));
    assert Kept(told) by {
      hide Lawful, StatusAfter, Buffered;
      Logs(d, Told(Idle(d.Now().counts.completed, d.Now().counts.failed)));
    }
    hide Kept, StatusAfter, Lawful;
    WaitingEndsWell(told, next);
  }

  lemma UnbufferedIsSound(d: Desk)
    requires Sound(d) && d.InFlight() == {} && NothingToFind(d)
    ensures Sound(Unbuffered(d)) && Unbuffered(d).InFlight() == {}
  {
    hide Lawful, StatusAfter, Buffered;
    EmptiedIsBuffered(d.queue, d.pending, d.Now().handling, d.Now().asks);
    Logs(d, Emptied(Ids(ExplicitOnly(d.pending))));
  }

  lemma RestingEndsWell(d: Desk, outcomes: seq<Outcome>, outcome: Option<Outcome>, next: Option<Command>)
    requires Sound(d) && NothingToFind(d)
    ensures EndsWell(d, Resting(d, outcomes, outcome, next))
  {
    hide Kept, Lawful, StatusAfter, Reading, ReadingAll, CaughtUp;
    ReadingAllIsSound(d, outcomes);
    var read := ReadingAll(d, outcomes);
    if read.InFlight() == {} {
      UnbufferedIsSound(read);
      CaughtUpEndsWell(Unbuffered(read), next);
    } else {
      ReadingOneEndsWell(read, outcome);
    }
  }

  lemma ReadingOneEndsWell(d: Desk, outcome: Option<Outcome>)
    requires Sound(d)
    ensures EndsWell(d, Turned(ReadingOne(d, outcome), true))
  {
    KeptIsLawful(d);
    if outcome.Some? {
      hide Kept, Lawful, StatusAfter, Reading;
      ReadingIsSound(d, outcome.value);
      KeptIsLawful(Reading(d, outcome.value));
    }
  }

  // ---- Dispatching ----

  lemma SizedIsSound(d: Desk, needy: set<nat>)
    requires Sound(d) && d.Now().counts.total.None? && d.Now().controls.path.Some?
    ensures var sized := Sized(d, needy);
      Sound(sized) && sized.Now() == d.Now().(counts := sized.Now().counts, flipped := false)
      && sized.Now().counts.total.Some?
  {
    QueuedWereRequested(d);
    hide Lawful, StatusAfter, Buffered;
    Logs(d, Sized(d, needy).trace[|d.trace|]);
  }

  lemma QueuedWereRequested(d: Desk)
    requires Sound(d)
    ensures Ids(d.queue) <= d.Now().asks.tracks
  {
    hide Lawful, StatusAfter, Tracked, WellFormed;
    forall x | x in Ids(d.queue) ensures x in d.Now().asks.tracks {
      var i :| 0 <= i < |d.queue| && d.queue[i].trackId == x;
      assert d.queue[i] in d.queue;
    }
  }

  lemma SpawningIsSound(d: Desk)
    requires Sound(d) && d.Now().controls.path.Some?
    ensures var s := Spawning(d);
      && Sound(s) && s.HasPool() && d.trace <= s.trace && s.queue == d.queue && s.pending == d.pending
      && s.Now().phase == d.Now().phase && s.Now().counts == d.Now().counts && s.Now().handling == d.Now().handling
      && s.LiveMask() == d.LiveMask() && s.Now().controls.path == d.Now().controls.path
      && (Settled(d) ==> Settled(s))
  {
    hide Lawful, StatusAfter, Buffered;
    if !d.HasPool() { Logs(d, Spawned(d.Now().controls.LivePool())); }
  }

  /** With all that is queued in flight, draining only turns the queue. */
  lemma DrainIsSound(d: Desk)
    requires Sound(d) && Settled(d) && d.pending == []
    ensures Sound(Drain(d)) && Settled(Drain(d)) && Drain(d).pending == [] && |Drain(d).queue| == |d.queue|
  {
    hide Lawful, StatusAfter, Drained;
    NothingReadyIsBuffered(d.queue, d.Now().handling, d.Now().asks);
    forall item | item in Drain(d).queue ensures item.trackId in d.InFlight() {
      DrainKeepsItems(d.queue, [], d.InFlight(), |d.queue|, item);
    }
  }

  /** The sweep buffers tracks in need, none of them in flight: as many as fit, or all. */
  lemma SweptIsSound(d: Desk, needy: seq<nat>)
    requires Sound(d) && Sweeps(d) && d.pending == [] && Distinct(needy)
    ensures var s := Swept(d, needy);
      && Sound(s) && Settled(s) && s.queue == [] && s.trace == d.trace
      && AllBackground(s.pending) && Ids(s.pending) <= Elements(needy) - d.InFlight()
      && |s.pending| >= Min(BATCH_SIZE, |Elements(needy) - d.InFlight()|)
  {
    var limit := BATCH_SIZE + |d.InFlight()|;
    var found := Answer(needy, limit);
    AnswerIsStoreAnswer(needy, limit);
    hide Lawful, StatusAfter, Buffered, Answer, StoreAnswer, Elements, NotInFlight;
    RefillKeepsEnough(found, Elements(needy), d.InFlight(), BATCH_SIZE);
    BatchIsBuffered(d.queue, d.Now().handling, d.Now().asks, found, d.LiveMask());
    assert Swept(d, needy).pending == BackgroundItems(NotInFlight(found, d.InFlight()), d.LiveMask());
  }

  lemma AnswerIsStoreAnswer(needy: seq<nat>, limit: nat)
    requires Distinct(needy)
    ensures StoreAnswer(Answer(needy, limit), Elements(needy), limit) && Distinct(Answer(needy, limit))
    ensures forall x :: x in Answer(needy, limit) ==> x in Elements(needy)
  {
    DistinctCount(needy);
    var found := Answer(needy, limit);
    forall i | 0 <= i < |found| ensures found[i] in Elements(needy) {
      assert found[i] == needy[i];
    }
  }

  /** A command may come in between; the phase and the run's size stay. */
  lemma HeardIsSound(d: Desk, a: Attempt)
    requires Sound(d) && a.command != Some(Shutdown)
    ensures var h := Heard(d, a);
      && Sound(h) && d.trace <= h.trace && h.pending == d.pending
      && h.Now().phase == d.Now().phase && h.Now().counts == d.Now().counts && h.Now().handling == d.Now().handling
  {
    hide Kept, Lawful, StatusAfter, NextAsks;
    if a.command.Some? { TakingIsSound(d, a.command.value); }
  }

  /** The item was in front of the buffer before the promotion. */
  ghost predicate WasRead(d: Desk, item: Item) {
    var s := d.Now();
    && (item.isExplicit ==> d.pending != [] && d.pending[0] == item)
    && (item.trackId in s.handling.inFlight ==> item.trackId in s.handling.raced)
    && (item.trackId in Ids(PopFront(d.pending)) ==> item.trackId in s.asks.tracks)
  }

  lemma PromotionWasRead(d: Desk)
    requires Sound(d) && d.pending != []
    ensures WasRead(Promoted(d), d.pending[0])
    ensures d.pending[0].trackId in Ids(PopFront(Promoted(d).pending))
      <==> RequestedBehind(d.queue, d.pending, d.InFlight())
  {
    var h := d.Now().handling;
    hide Lawful, StatusAfter, Prioritized, Asked, RequestedBehind;
    BufferedAgainIff(d.queue, d.pending, d.InFlight());
    if RequestedBehind(d.queue, d.pending, d.InFlight()) {
      BufferedAgainIsQueued(d.queue, d.pending, d.InFlight());
      QueuedWereRequested(d);
    }
    PrioritizedWellFormed(d.queue, d.pending, d.InFlight());
    assert d.pending[0].trackId in Ids(d.pending);
  }

  lemma MaskWasRequested(d: Desk)
    requires Sound(d) && d.pending != [] && d.pending[0].isExplicit
    ensures WasRequested(d.pending[0], d.Now().asks)
  {
  }

  lemma FrontDropIsSound(d: Desk)
    requires Sound(d)
    ensures var dropped := Desk(d.queue, PopFront(d.pending), d.trace + FrontDropped(d.pending));
      && Sound(dropped) && dropped.Now().phase == d.Now().phase && dropped.Now().counts == d.Now().counts
      && dropped.Now().handling == d.Now().handling && dropped.Now().controls == d.Now().controls
  {
    hide Lawful, StatusAfter, Buffered;
    PoppedIsBuffered(d.queue, d.pending, d.Now().handling, d.Now().asks);
    assert d.Now().asks.owed - {} == d.Now().asks.owed;
    if d.pending != [] {
      if d.pending[0].isExplicit { MaskWasRequested(d); }
      Logs(d, Dropped(d.pending[0].trackId, d.pending[0].isExplicit));
      assert d.Log(Dropped(d.pending[0].trackId, d.pending[0].isExplicit)).trace == d.trace + FrontDropped(d.pending);
    } else {
      assert d.trace + [] == d.trace;
    }
  }

  lemma SendLogs(d: Desk, item: Item)
    requires Sound(d) && WasRead(d, item) && !MaskOf(d, item).IsEmpty()
    requires d.HasPool() && d.Now().phase.Clear? && d.Now().counts.total.Some?
    ensures var sent := d.Log(Sending(d, item));
      && Lawful(sent.trace)
      && sent.Now() == d.Now().(
           handling := NextHandling(d.Now().handling, Sending(d, item)), owesTick := false, flipped := false,
           asks := d.Now().asks.(owed := d.Now().asks.owed - if item.isExplicit then {item.trackId} else {}))
  {
    if item.isExplicit { MaskWasRequested(d); }
    hide Lawful, StatusAfter, Buffered, NextHandling;
    Logs(d, Sending(d, item));
    assert d.Now().asks.owed - {} == d.Now().asks.owed;
  }

  lemma DropLogs(d: Desk, front: Item)
    requires var s := d.Now();
      && Lawful(d.trace) && s.begun && !s.owesTick && !s.phase.Reported?
      && (front.isExplicit ==> front.trackId in s.asks.tracks)
    ensures var dropped := d.Log(Dropped(front.trackId, front.isExplicit));
      && Lawful(dropped.trace)
      && dropped.Now() == d.Now().(
           owesTick := false, flipped := false,
           asks := d.Now().asks.(owed := d.Now().asks.owed - if front.isExplicit then {front.trackId} else {}))
  {
    hide Lawful, StatusAfter;
    Logs(d, Dropped(front.trackId, front.isExplicit));
    assert d.Now().asks.owed - {} == d.Now().asks.owed;
  }

  /** Sending the item that was read, and letting the front go. */
  lemma SendIsSound(d: Desk, item: Item)
    requires Sound(d) && WasRead(d, item) && !MaskOf(d, item).IsEmpty()
    requires d.HasPool() && d.Now().phase.Clear? && d.Now().counts.total.Some?
    ensures var sent := HandingOver(d, item, QUIET);
      && Sound(sent) && sent.Now().phase.Clear? && sent.Now().counts == d.Now().counts
      && sent.Now().controls == d.Now().controls
      && sent.InFlight() == d.InFlight() + {item.trackId}
      && sent.Now().handling == NextHandling(d.Now().handling, Sending(d, item))
  {
    if d.pending != [] && d.pending[0].isExplicit { MaskWasRequested(d); }
    SendLogs(d, item);
    var e, asks := Sending(d, item), d.Now().asks;
    SendKeepsBuffered(d.queue, d.pending, d.Now().handling, asks, item.trackId, e.mask, item.isExplicit);
    assert asks.owed - {} == asks.owed;
    hide Lawful, StatusAfter, Buffered, PopFront;
    if d.pending != [] && d.pending[0] != item {
      assert !item.isExplicit;
      var front := d.pending[0];
      DropLogs(d.Log(e), front);
      assert d.Log(e).Log(Dropped(front.trackId, front.isExplicit)).trace == d.trace + [e] + FrontDropped(d.pending);
    } else {
      assert d.trace + [e] + [] == d.Log(e).trace;
    }
  }

  lemma HandingOverIsSound(d: Desk, item: Item, a: Attempt)
    requires Sound(d) && WasRead(d, item)
    requires d.HasPool() && d.Now().phase.Clear? && d.Now().counts.total.Some?
    ensures var over := HandingOver(d, item, a);
      && Sound(over) && d.trace <= over.trace && over.Now().phase.Clear? && over.Now().counts == d.Now().counts
      && over.Now().controls == d.Now().controls && d.InFlight() <= over.InFlight()
  {
    hide Kept, Lawful, StatusAfter, WasRead, NextHandling;
    if MaskOf(d, item).IsEmpty() || a.vanished {
      FrontDropIsSound(d);
    } else if !a.full {
      SendIsSound(d, item);
    }
  }

  /** An attempt while dispatching is allowed. */
  ghost predicate Ready(d: Desk) {
    Sound(d) && d.Now().phase.Clear? && d.Now().counts.total.Some?
  }

  lemma AttemptedIsSound(d: Desk, a: Attempt)
    requires Ready(d) && d.pending != [] && a.command != Some(Shutdown)
    ensures var after := Attempted(d, a);
      Ready(after) && d.trace <= after.trace && d.InFlight() <= after.InFlight()
  {
    hide Kept, Lawful, StatusAfter, HandingOver, Prioritized, WasRead, Settled;
    HeardIsSound(d, a);
    var heard := Heard(d, a);
    if heard.HasPool() {
      PromotedIsSound(heard);
      PromotionWasRead(heard);
      HandingOverIsSound(Promoted(heard), d.pending[0], a);
    }
  }

  lemma {:induction false} DispatchedEndsWell(d: Desk, attempts: seq<Attempt>)
    requires Ready(d)
    ensures var r := Dispatched(d, attempts);
      EndsWell(d, r) && (r.alive ==> Ready(r.desk)) && d.InFlight() <= r.desk.InFlight()
    decreases |attempts|, |d.queue| + |d.pending|
  {
    KeptIsLawful(d);
    hide Kept, Lawful, StatusAfter, Attempted;
    if d.pending != [] {
      if attempts == [] {
        if !Leaves(d, QUIET) {
          QuietShrinks(d);
          AttemptedIsSound(d, QUIET);
          DispatchedEndsWell(Attempted(d, QUIET), []);
        }
      } else if attempts[0].command != Some(Shutdown) {
        AttemptedIsSound(d, attempts[0]);
        KeptIsLawful(Attempted(d, attempts[0]));
        if !Leaves(d, attempts[0]) { DispatchedEndsWell(Attempted(d, attempts[0]), attempts[1..]); }
      }
    }
  }

  lemma DispatchingEndsWell(d: Desk, input: Input)
    requires Ready(d)
    ensures EndsWell(d, Dispatching(d, input))
  {
    hide Kept, Lawful, StatusAfter, Dispatched, ReadingOne;
    DispatchedEndsWell(d, input.attempts);
    var sent := Dispatched(d, input.attempts);
    if sent.alive {
      WaitingEndsWell(sent.desk, input.next);
      ReadingOneEndsWell(sent.desk, input.outcome);
    }
  }

  lemma RefillingEndsWell(d: Desk, input: Input)
    requires Ready(d) && Settled(d) && d.pending == [] && d.Now().controls.path.Some? && Distinct(input.needy)
    ensures EndsWell(d, Refilling(d, input))
  {
    hide Kept, Lawful, StatusAfter, Dispatching, Failing, CaughtUp, Swept, Drained, Settled;
    DrainIsSound(d);
    var drained := Drain(d);
    if Sweeps(drained) && input.sweepFails {
      FailingEndsWell(drained, input.next);
    } else {
      if Sweeps(drained) { SweptIsSound(drained, input.needy); }
      var refilled := if Sweeps(drained) then Swept(drained, input.needy) else drained;
      if refilled.pending == [] && refilled.InFlight() == {} && refilled.queue == [] {
        CaughtUpEndsWell(refilled, input.next);
      } else {
        DispatchingEndsWell(refilled, input);
      }
    }
  }

  lemma FeedingEndsWell(d: Desk, input: Input)
    requires Ready(d) && Settled(d) && d.Now().controls.path.Some? && Distinct(input.needy)
    ensures EndsWell(d, Feeding(d, input))
  {
    SpawningIsSound(d);
    hide Kept, Lawful, StatusAfter, Dispatching, Refilling, Settled;
    var spawned := Spawning(d);
    if spawned.pending == [] {
      RefillingEndsWell(spawned, input);
    } else {
      DispatchingEndsWell(spawned, input);
    }
  }

  /** Whatever happens in a turn, the log stays lawful and goes on, and all is sound for
      the next one. */
  lemma TurnEndsWell(d: Desk, input: Input)
    requires Sound(d) && Distinct(input.needy)
    ensures EndsWell(d, Turn(d, input))
  {
    BeforeShutdownHasNone(input.commands);
    hide Kept, Lawful, StatusAfter, Topped, Feeding, Resting, Stopping, Failing, Sized, Settled;
    if BeforeShutdown(input.commands) != input.commands {
      TakingAllIsSound(d, BeforeShutdown(input.commands));
      KeptIsLawful(TakingAll(d, BeforeShutdown(input.commands)));
    } else {
      ToppedIsSound(d, input.commands);
      RestEndsWell(Topped(d, input.commands), input);
    }
  }

  lemma RestEndsWell(top: Desk, input: Input)
    requires Sound(top) && Settled(top) && Distinct(input.needy)
    ensures EndsWell(top, Rest(top, input))
  {
    hide Lawful, StatusAfter, Feeding, Resting, Stopping, Failing, Buffered;
    if top.Now().phase.Rejected? {
      StoppingEndsWell(top, top.Now().phase.detail, input.next);
    } else if NothingToFind(top) {
      RestingEndsWell(top, input.outcomes, input.outcome, input.next);
    } else if top.Now().counts.total.Some? {
      FeedingEndsWell(top, input);
    } else if !top.LiveMask().IsEmpty() && input.sizeFails {
      FailingEndsWell(top, input.next);
    } else {
      SizedIsSound(top, Elements(input.needy));
      FeedingEndsWell(Sized(top, Elements(input.needy)), input);
    }
  }

  lemma {:induction false} TurnsEndWell(d: Desk, inputs: seq<Input>)
    requires Sound(d) && forall i :: 0 <= i < |inputs| ==> Distinct(inputs[i].needy)
    ensures EndsWell(d, Turns(d, inputs))
    decreases |inputs|
  {
    KeptIsLawful(d);
    if inputs != [] {
      hide Kept, Lawful, StatusAfter, Turn;
      TurnEndsWell(d, inputs[0]);
      var first := Turn(d, inputs[0]);
      if first.alive { TurnsEndWell(first.desk, inputs[1..]); }
    }
  }
}
