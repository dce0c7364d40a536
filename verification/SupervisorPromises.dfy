/** What a turn of the supervisor promises: to its users, that requested work goes out and
    is counted, and where it breaks these promises. */
module SupervisorPromises {
  import opened Wrappers
  import opened Numbers
  import opened ExplicitWork
  import opened SupervisorLog
  import opened SupervisorBuffer
  import opened SupervisorTurn
  import opened SupervisorSoundness

  // ---- Commands come first ----

  function Tooks(commands: seq<Command>): seq<Event> {
    seq(|commands|, i requires 0 <= i < |commands| => Took(commands[i]))
  }

  lemma {:induction false} TakingAllLogs(d: Desk, commands: seq<Command>)
    ensures TakingAll(d, commands).trace == d.trace + Tooks(commands)
    ensures TakingAll(d, commands).pending == d.pending
  {
    if commands != [] {
      var front, last := commands[..|commands| - 1], commands[|commands| - 1];
      TakingAllLogs(d, front);
      assert Tooks(commands) == Tooks(front) + [Took(last)];
    }
  }

  lemma {:induction false} BeforeShutdownIs(commands: seq<Command>, n: nat)
    requires n <= |commands| && NoShutdown(commands[..n])
    requires n < |commands| ==> commands[n].Shutdown?
    ensures BeforeShutdown(commands) == commands[..n]
  {
    if n > 0 {
      assert commands[..n][0] == commands[0];
      var rest := commands[1..][..n - 1];
      forall i | 0 <= i < |rest| ensures !rest[i].Shutdown? {
        assert rest[i] == commands[..n][i + 1];
      }
      BeforeShutdownIs(commands[1..], n - 1);
      assert commands[..n] == [commands[0]] + commands[1..][..n - 1];
    }
  }

  /** A turn first takes the waiting commands, in order; at a shutdown it stops there. */
  lemma TurnTakesCommands(d: Desk, input: Input, n: nat)
    requires Sound(d) && Distinct(input.needy) && n <= |input.commands| && NoShutdown(input.commands[..n])
    requires n < |input.commands| ==> input.commands[n].Shutdown?
    ensures var t := Turn(d, input);
      && d.trace + Tooks(input.commands[..n]) <= t.desk.trace
      && (n < |input.commands| ==>
            !t.alive && t.desk.trace == d.trace + Tooks(input.commands[..n]) && t.desk.pending == d.pending)
  {
    BeforeShutdownIs(input.commands, n);
    TakingAllLogs(d, input.commands[..n]);
    assert n == |input.commands| ==> input.commands[..n] == input.commands;
    if n == |input.commands| {
      hide Kept, Lawful, StatusAfter, Rest, TakingAll, Settled;
      ToppedIsSound(d, input.commands);
      RestEndsWell(Topped(d, input.commands), input);
      ToppedLogs(d, input.commands);
    }
  }

  /** What the commands leave is all that the top of the loop logs, but for a teardown. */
  lemma ToppedLogs(d: Desk, commands: seq<Command>)
    ensures var top, torn := Topped(d, commands), d.HasPool() && !TakingAll(d, commands).HasPool();
      top.trace == d.trace + Tooks(commands) + if torn then [Cleared(false)] else []
  {
    TakingAllLogs(d, commands);
    hide TakingAll, StatusAfter, Prioritized;
  }

  // ---- A rejected write stops the turn ----

  /** A rejected write that is remembered is told right after the commands, and nothing
      else happens before one more command comes. Queue and buffer stay for it. */
  lemma RejectionEndsTurn(d: Desk, input: Input, detail: string)
    requires Sound(d) && d.Now().phase == Rejected(detail) && NoShutdown(input.commands)
    ensures var t, top := Turn(d, input), Topped(d, input.commands);
      var told := top.trace + [Cleared(true), Told(PersistenceError(detail))];
      && t.desk.pending == top.pending && t.desk.InFlight() == {} && !TookSince(top.trace, told)
      && (if t.alive then input.next.Some? && t.desk.trace == told + [Took(input.next.value)]
          else t.desk.trace == told)
      && (t.alive <==> input.next.Some? && !input.next.value.Shutdown?)
    ensures WasTold(d.trace, Turn(d, input).desk.trace, PersistenceError(detail))
  {
    BeforeShutdownHasNone(input.commands);
    ToppedIsSound(d, input.commands);
    hide Kept, Lawful, StatusAfter, Topped, Stopping, Settled, TakingAll;
    StoppingTells(Topped(d, input.commands), detail, input.next);
    assert Turn(d, input).desk.trace[|Topped(d, input.commands).trace| + 1] == Told(PersistenceError(detail));
  }

  lemma StoppingTells(top: Desk, detail: string, next: Option<Command>)
    ensures var t := Stopping(top, detail, next);
      var told := top.trace + [Cleared(true), Told(PersistenceError(detail))];
      && t.desk.pending == top.pending && t.desk.InFlight() == {} && !TookSince(top.trace, told)
      && (if t.alive then next.Some? && t.desk.trace == told + [Took(next.value)] else t.desk.trace == told)
      && (t.alive <==> next.Some? && !next.value.Shutdown?)
  {
    var cleared := top.Log(Cleared(true));
    var told := cleared.Log(Told(PersistenceError(detail)));
    hide StatusAfter, QueueAfter, NextAsks;
    NextNow(top, Cleared(true));
    NextNow(cleared, Told(PersistenceError(detail)));
    assert told.trace == top.trace + [Cleared(true), Told(PersistenceError(detail))];
    if next.Some? {
      NextNow(told, Took(next.value));
      assert Taking(told, next.value).trace == told.Log(Took(next.value)).trace;
    }
  }

  ghost predicate WasTold(before: seq<Event>, after: seq<Event>, progress: Progress) {
    exists i :: |before| <= i < |after| && after[i] == Told(progress)
  }

  ghost predicate TookSince(before: seq<Event>, after: seq<Event>) {
    exists i :: |before| <= i < |after| && after[i].Took?
  }

  /** A store that cannot say how much is to do stops the turn: the pool goes, and nothing
      is tried before one more command. The same goes for a sweep that fails. */
  lemma StoreFailureEndsTurn(d: Desk, input: Input)
    requires Sound(d) && d.Now().phase.Clear? && NoShutdown(input.commands)
    requires var top := Topped(d, input.commands);
      && !NothingToFind(top) && top.Now().counts.total.None? && !top.LiveMask().IsEmpty() && input.sizeFails
    ensures EndsInFailure(Topped(d, input.commands), Turn(d, input), input.next)
  {
    BeforeShutdownHasNone(input.commands);
    ToppedIsSound(d, input.commands);
    hide Kept, Lawful, StatusAfter, Topped, Settled, Feeding, Resting, Stopping, NothingToFind;
    FailingTells(Topped(d, input.commands), input.next);
  }

  lemma SweepFailureEndsTurn(d: Desk, input: Input)
    requires d.pending == [] && Sweeps(Drain(Spawning(d))) && input.sweepFails
    ensures EndsInFailure(Drain(Spawning(d)), Feeding(d, input), input.next)
  {
    hide StatusAfter, Dispatching, Drained;
    assert Spawning(d).pending == [];
    FailingTells(Drain(Spawning(d)), input.next);
  }

  ghost predicate EndsInFailure(d: Desk, t: Turned, next: Option<Command>) {
    && (t.alive <==> next.Some? && !next.value.Shutdown?)
    && t.desk.trace == d.trace + [StoreFailed] + (if t.alive then [Took(next.value)] else [])
    && t.desk.pending == d.pending && !t.desk.HasPool()
  }

  lemma FailingTells(d: Desk, next: Option<Command>)
    ensures EndsInFailure(d, Failing(d, next), next)
  {
    hide StatusAfter, QueueAfter, NextAsks;
    NextNow(d, StoreFailed);
    if next.Some? {
      NextNow(d.Log(StoreFailed), Took(next.value));
      assert Taking(d.Log(StoreFailed), next.value).trace == d.Log(StoreFailed).Log(Took(next.value)).trace;
    }
  }

  // ---- What is logged where ----

  ghost predicate WasSent(before: seq<Event>, after: seq<Event>, x: nat) {
    exists i :: |before| <= i < |after| && after[i].Sent? && after[i].trackId == x
  }

  predicate IsDispatch(e: Event) { e.Took? || e.Sent? || e.Dropped? }

  predicate IsActivity(e: Event) { IsDispatch(e) || IsReading(e) }

  predicate IsReading(e: Event) { e.Folded? || IsTick(e) }

  ghost predicate Added(before: seq<Event>, after: seq<Event>, kind: Event -> bool) {
    before <= after && forall i :: |before| <= i < |after| ==> kind(after[i])
  }

  lemma AddedMore(a: seq<Event>, b: seq<Event>, c: seq<Event>, kind: Event -> bool)
    requires Added(a, b, kind) && Added(b, c, kind)
    ensures Added(a, c, kind)
  {
    forall i | |a| <= i < |c| ensures kind(c[i]) {
      if i < |b| { assert c[i] == b[i]; }
    }
  }

  lemma AttemptedLogs(d: Desk, a: Attempt)
    requires d.pending != []
    ensures Added(d.trace, Attempted(d, a).trace, IsDispatch)
  {
    hide StatusAfter, Prioritized, QueueAfter;
  }

  lemma {:induction false} DispatchedLogs(d: Desk, attempts: seq<Attempt>)
    ensures Added(d.trace, Dispatched(d, attempts).desk.trace, IsDispatch)
    decreases |attempts|, |d.queue| + |d.pending|
  {
    assert Added(d.trace, d.trace, IsDispatch);
    hide Attempted, StatusAfter, Added;
    if d.pending != [] {
      if attempts == [] {
        if !Leaves(d, QUIET) {
          QuietShrinks(d);
          AttemptedLogs(d, QUIET);
          DispatchedLogs(Attempted(d, QUIET), []);
          AddedMore(d.trace, Attempted(d, QUIET).trace, Dispatched(d, []).desk.trace, IsDispatch);
        }
      } else if attempts[0].command != Some(Shutdown) {
        AttemptedLogs(d, attempts[0]);
        var next := Attempted(d, attempts[0]);
        if !Leaves(d, attempts[0]) {
          DispatchedLogs(next, attempts[1..]);
          AddedMore(d.trace, next.trace, Dispatched(next, attempts[1..]).desk.trace, IsDispatch);
        }
      }
    }
  }

  lemma ReadingLogs(d: Desk, o: Outcome)
    ensures Added(d.trace, Reading(d, o).trace, IsReading)
  {
    hide StatusAfter;
  }

  lemma {:induction false} ReadingAllLogs(d: Desk, outcomes: seq<Outcome>)
    ensures Added(d.trace, ReadingAll(d, outcomes).trace, IsReading)
  {
    hide Reading, StatusAfter;
    if outcomes != [] {
      var front := outcomes[..|outcomes| - 1];
      ReadingAllLogs(d, front);
      ReadingLogs(ReadingAll(d, front), outcomes[|outcomes| - 1]);
      AddedMore(d.trace, ReadingAll(d, front).trace, ReadingAll(d, outcomes).trace, IsReading);
    }
  }

  // ---- The run's size ----

  predicate IsNoSnapshot(e: Event) { !e.Snapshot? }

  lemma AddedWeakened(before: seq<Event>, after: seq<Event>, kind: Event -> bool, wider: Event -> bool)
    requires Added(before, after, kind) && forall e :: kind(e) ==> wider(e)
    ensures Added(before, after, wider)
  {
  }

  lemma WaitingLogs(d: Desk, next: Option<Command>)
    ensures Added(d.trace, Waiting(d, next).desk.trace, IsDispatch)
  {
  }

  lemma ReadingOneLogs(d: Desk, outcome: Option<Outcome>)
    ensures Added(d.trace, ReadingOne(d, outcome).trace, IsReading)
  {
    hide Reading;
    if outcome.Some? { ReadingLogs(d, outcome.value); }
  }

  lemma DispatchingLogs(d: Desk, input: Input)
    ensures Added(d.trace, Dispatching(d, input).desk.trace, IsActivity)
  {
    hide Dispatched, Waiting, ReadingOne, StatusAfter, Added;
    DispatchedLogs(d, input.attempts);
    var sent := Dispatched(d, input.attempts).desk;
    AddedWeakened(d.trace, sent.trace, IsDispatch, IsActivity);
    WaitingLogs(sent, input.next);
    AddedWeakened(sent.trace, Waiting(sent, input.next).desk.trace, IsDispatch, IsActivity);
    AddedMore(d.trace, sent.trace, Waiting(sent, input.next).desk.trace, IsActivity);
    ReadingOneLogs(sent, input.outcome);
    AddedWeakened(sent.trace, ReadingOne(sent, input.outcome).trace, IsReading, IsActivity);
    AddedMore(d.trace, sent.trace, ReadingOne(sent, input.outcome).trace, IsActivity);
  }

  lemma FeedingLogs(d: Desk, input: Input)
    ensures Added(d.trace, Feeding(d, input).desk.trace, IsNoSnapshot)
  {
    hide Dispatching, Waiting, Drained, NotInFlight, BackgroundItems, StatusAfter;
    var spawned := Spawning(d);
    assert Added(d.trace, spawned.trace, IsNoSnapshot);
    if spawned.pending == [] {
      var drained := Drain(spawned);
      var refilled := if Sweeps(drained) then Swept(drained, input.needy) else drained;
      assert refilled.trace == drained.trace == spawned.trace;
      WaitingLogs(drained.Log(StoreFailed), input.next);
      var counts := refilled.Now().counts;
      WaitingLogs(refilled.Log(Told(Idle(counts.completed, counts.failed))), input.next);
      DispatchingLogs(refilled, input);
      AddedWeakened(spawned.trace, Dispatching(refilled, input).desk.trace, IsActivity, IsNoSnapshot);
    } else {
      DispatchingLogs(spawned, input);
      AddedWeakened(spawned.trace, Dispatching(spawned, input).desk.trace, IsActivity, IsNoSnapshot);
    }
    AddedMore(d.trace, spawned.trace, Feeding(d, input).desk.trace, IsNoSnapshot);
  }

  lemma RestingLogs(d: Desk, input: Input)
    ensures Added(d.trace, Resting(d, input.outcomes, input.outcome, input.next).desk.trace, IsNoSnapshot)
    ensures forall x :: !WasSent(d.trace, Resting(d, input.outcomes, input.outcome, input.next).desk.trace, x)
  {
    hide ReadingAll, ReadingOne, StatusAfter;
    ReadingAllLogs(d, input.outcomes);
    ReadingOneLogs(ReadingAll(d, input.outcomes), input.outcome);
  }

  /** There is something to do, and no size yet, and it can be found out. */
  predicate TakesSize(top: Desk, input: Input) {
    && !top.Now().phase.Rejected? && !NothingToFind(top) && top.Now().counts.total.None?
    && (top.LiveMask().IsEmpty() || !input.sizeFails)
  }

  /** From `from` on the log tells one size if one is to be taken, at once after the top of
      the loop and of all that is queued then and all the tracks in need; or else none. */
  ghost predicate TellsOneSize(from: nat, top: Desk, input: Input, trace: seq<Event>) {
    && (TakesSize(top, input) ==>
          && |top.trace| < |trace| && trace[|top.trace|].Snapshot?
          && trace[|top.trace|].queued == Ids(top.queue) && trace[|top.trace|].needy == Elements(input.needy))
    && (forall i :: from <= i < |trace| && trace[i].Snapshot? ==> TakesSize(top, input) && i == |top.trace|)
  }

  lemma RestTakesSize(top: Desk, input: Input)
    ensures top.trace <= Rest(top, input).desk.trace
    ensures TellsOneSize(|top.trace|, top, input, Rest(top, input).desk.trace)
  {
    hide StatusAfter, Feeding, Resting, Stopping, Waiting, NothingToFind;
    if top.Now().phase.Rejected? {
      StoppingTells(top, top.Now().phase.detail, input.next);
    } else if NothingToFind(top) {
      RestingLogs(top, input);
    } else if top.Now().counts.total.Some? {
      FeedingLogs(top, input);
    } else if !top.LiveMask().IsEmpty() && input.sizeFails {
      WaitingLogs(top.Log(StoreFailed), input.next);
    } else {
      FeedingLogs(Sized(top, Elements(input.needy)), input);
    }
  }

  lemma TurnTakesSize(d: Desk, input: Input)
    requires NoShutdown(input.commands)
    ensures TellsOneSize(|d.trace|, Topped(d, input.commands), input, Turn(d, input).desk.trace)
  {
    BeforeShutdownHasNone(input.commands);
    var top, t := Topped(d, input.commands), Turn(d, input).desk.trace;
    ToppedLogs(d, input.commands);
    assert t == Rest(top, input).desk.trace;
    hide StatusAfter, Topped, Rest, TakesSize, TakingAll, Turn;
    RestTakesSize(top, input);
    assert forall i :: |d.trace| <= i < |top.trace| ==> t[i] == top.trace[i] && !t[i].Snapshot?;
  }

  /** Every size told since is how many tracks were queued, or in need with a capability
      on, each counted once, up to what 32 bits hold. */
  ghost predicate TellsSize(before: seq<Event>, after: seq<Event>, queued: set<nat>, needy: set<nat>) {
    forall i :: |before| <= i < |after| && after[i].Snapshot? ==>
      var off := StatusAfter(after[..i]).controls.settings.capabilities.IsEmpty();
      var counted := |queued + if off then {} else needy|;
      after[i].total == if counted <= MAX_U32 then counted else MAX_U32
  }

  /** Between an idle report and the next, or from the start, no track is sent before a
      size was told. */
  ghost predicate SizedBeforeSent(trace: seq<Event>) {
    forall from: nat, k: nat :: OneRun(trace, from, k) && k < |trace| && trace[k].Sent? ==>
      exists i :: from <= i < k && trace[i].Snapshot?
  }

  lemma TurnTellsSize(d: Desk, input: Input)
    requires Sound(d) && Distinct(input.needy)
    ensures var t := Turn(d, input).desk.trace;
      && TellsSize(d.trace, t, Ids(Topped(d, input.commands).queue), Elements(input.needy))
      && SizedBeforeSent(t)
  {
    TurnEndsWell(d, input);
    BeforeShutdownHasNone(input.commands);
    var t, queued, needy := Turn(d, input).desk.trace, Ids(Topped(d, input.commands).queue), Elements(input.needy);
    assert forall i :: |d.trace| <= i < |t| && t[i].Snapshot? ==> t[i].queued == queued && t[i].needy == needy by {
      if NoShutdown(input.commands) {
        hide Turn, Topped, TakesSize, StatusAfter, Sound;
        TurnTakesSize(d, input);
      } else {
        hide Topped, StatusAfter, Sound;
        TakingAllLogs(d, BeforeShutdown(input.commands));
      }
    }
    assert Lawful(t);
    hide Turn, Lawful, StatusAfter, Topped, SizedBeforeSent, EndsWell;
    forall i | |d.trace| <= i < |t| && t[i].Snapshot?
      ensures var off := StatusAfter(t[..i]).controls.settings.capabilities.IsEmpty();
        t[i].total == Min(|queued + if off then {} else needy|, MAX_U32)
    {
      SnapshotCounts(t, i);
    }
    LawfulIsSized(t);
  }

  lemma LawfulIsSized(trace: seq<Event>)
    requires Lawful(trace)
    ensures SizedBeforeSent(trace)
  {
    hide Lawful, OneRun;
    forall from: nat, k: nat | OneRun(trace, from, k) && k < |trace| && trace[k].Sent?
      ensures exists i :: from <= i < k && trace[i].Snapshot?
    {
      SentAfterSnapshot(trace, from, k);
    }
  }

  lemma {:induction false} FewerThanAll(some: set<nat>, all: set<nat>)
    requires some <= all
    ensures |some| <= |all| && (|some| == |all| <==> some == all)
  {
    FewerInSubset(some, all);
    if some != all {
      assert all == some + (all - some) && all - some != {};
    }
  }

  /** The size counts all the work at hand exactly when each explicit track that is
      already buffered is queued once more or found in need; others it leaves out. */
  lemma SizeCountsAllIff(d: Desk, needy: set<nat>)
    requires var all := Ids(d.queue) + Ids(ExplicitOnly(d.pending)) + (if d.LiveMask().IsEmpty() then {} else needy);
      |all| <= MAX_U32
    ensures var found := if d.LiveMask().IsEmpty() then {} else needy;
      var sized := Sized(d, needy).trace;
      sized[|d.trace|].total == |Ids(d.queue) + Ids(ExplicitOnly(d.pending)) + found|
      <==> forall x :: ExplicitlyPending(d.pending, x) ==> x in Ids(d.queue) || x in found
  {
    var found := if d.LiveMask().IsEmpty() then {} else needy;
    var counted, buffered := Ids(d.queue) + found, Ids(ExplicitOnly(d.pending));
    var all := Ids(d.queue) + buffered + found;
    hide ExplicitOnly, StatusAfter;
    FewerThanAll(counted, all);
    forall x ensures x in buffered <==> ExplicitlyPending(d.pending, x) {
      ExplicitOnlyIds(d.pending, x);
    }
    assert all == counted <==> forall x :: x in buffered ==> x in counted;
  }

  /** With every capability off, one requested track makes a run of size zero: the request
      is promoted before the size is taken. */
  lemma RequestIsUncounted(d: Desk, input: Input, x: nat, mask: Capabilities)
    requires Sound(d) && d.Now().phase.Clear? && d.queue == [] && d.pending == [] && d.InFlight() == {}
    requires d.Now().counts.total.None? && d.Now().controls.path.Some? && d.LiveMask().IsEmpty() && !mask.IsEmpty()
    requires input.commands == [ExplicitRun([x], mask)]
    ensures var t := Turn(d, input).desk.trace;
      |t| > |d.trace| + 1 && t[|d.trace| + 1] == Snapshot(0, {}, Elements(input.needy))
  {
    var command := ExplicitRun([x], mask);
    OneRequest(x, mask);
    TakingIsSound(d, command);
    assert input.commands[..0] == [];
    assert TakingAll(d, input.commands) == Taking(d, command) by {
      assert TakingAll(d, []) == d;
      assert input.commands[..|input.commands| - 1] == [] && input.commands[|input.commands| - 1] == command;
    }
    var top := Topped(d, input.commands);
    assert top.queue == [] && top.pending == [Item(x, mask, true)] && top.trace == d.trace + [Took(command)];
    assert Ids(top.queue) == {};
    hide Sound, Kept, Lawful, StatusAfter, Feeding, Topped, TakingAll;
    FeedingLogs(Sized(top, Elements(input.needy)), input);
    BeforeShutdownHasNone(input.commands);
  }

  // ---- A quiet turn sends all that is wanted ----

  function RequestedIn(commands: seq<Command>): set<nat> {
    if commands == [] then {}
    else RequestedIn(commands[..|commands| - 1]) + RequestedBy(Took(commands[|commands| - 1]))
  }

  /** Nothing gets in the way of the dispatch: no command, no failure, no full channel. */
  ghost predicate IsQuiet(input: Input) {
    input.attempts == [] && !input.sizeFails && !input.sweepFails && NoShutdown(input.commands)
  }

  lemma {:induction false} TakingAllWants(d: Desk, commands: seq<Command>, x: nat)
    requires Wanted(d.queue, d.pending, x) || x in RequestedIn(commands)
    ensures var taken := TakingAll(d, commands); Wanted(taken.queue, taken.pending, x)
  {
    if commands != [] {
      var front, last := commands[..|commands| - 1], commands[|commands| - 1];
      var before := TakingAll(d, front);
      if Wanted(d.queue, d.pending, x) || x in RequestedIn(front) {
        TakingAllWants(d, front, x);
      }
      RequestIsQueued(before.queue, last, x);
    }
  }

  lemma RequestIsQueued(queue: seq<Item>, command: Command, x: nat)
    ensures x in Ids(QueueAfter(queue, command)) <==> x in Ids(queue) || x in RequestedBy(Took(command))
  {
    if command.ExplicitRun? && !command.capabilities.IsEmpty() {
      IdsOfConcat(queue, NewRequests(command.trackIds, command.capabilities, Ids(queue)));
      NewRequestsIds(command.trackIds, command.capabilities, Ids(queue), x);
    }
  }

  lemma ToppedWants(d: Desk, commands: seq<Command>, x: nat)
    requires Sound(d) && NoShutdown(commands)
    requires Wanted(d.queue, d.pending, x) || x in RequestedIn(commands)
    ensures var top := Topped(d, commands); Wanted(top.queue, top.pending, x)
  {
    TakingAllWants(d, commands, x);
    TakingAllIsSound(d, commands);
    var taken := TakingAll(d, commands);
    hide Lawful, StatusAfter, Prioritized, TakingAll;
    if d.HasPool() && !taken.HasPool() {
      var torn := TornDown(taken);
      TornDownIsSound(taken);
      ExplicitOnlyIds(taken.pending, x);
      IdsOfConcat(ExplicitOnly(taken.pending), taken.queue);
      PromotionConserves(torn.queue, torn.pending, torn.InFlight(), x);
    } else {
      PromotionConserves(taken.queue, taken.pending, taken.InFlight(), x);
    }
  }

  /** Dispatching may go on undisturbed. */
  ghost predicate Flowing(d: Desk) {
    Ready(d) && Settled(d) && d.HasPool()
  }

  /** While nothing disturbs, the promotion leaves the item that was read in front. */
  lemma FrontStays(d: Desk)
    requires Flowing(d) && d.pending != []
    ensures var p := Promoted(d);
      && Sound(p) && p.trace == d.trace && p.pending != [] && p.pending[0] == d.pending[0]
      && (d.queue == [] ==> p == d)
      && (p.queue == [] || AllExplicit(p.pending))
      && (|p.pending| < BATCH_SIZE ==> forall i :: 0 <= i < |p.queue| ==> p.queue[i].trackId in d.InFlight())
      && (forall x :: Wanted(d.queue, d.pending, x) ==> Wanted(p.queue, p.pending, x))
  {
    PromotedIsSound(d);
    assert d.queue == [] ==> Promoted(d) == d;
    hide Lawful, StatusAfter, Prioritized, Tracked, Asked;
    if d.queue != [] {
      PrioritizedWellFormed(d.queue, d.pending, d.InFlight());
      forall x | Wanted(d.queue, d.pending, x) ensures Wanted(Promoted(d).queue, Promoted(d).pending, x) {
        PromotionConserves(d.queue, d.pending, d.InFlight(), x);
      }
    }
  }

  /** The front goes out, or away if it is background work and nothing is to be analyzed. */
  lemma FrontGoesOut(d: Desk)
    requires Flowing(d) && d.pending != []
    ensures var p, next := Promoted(d), Attempted(d, QUIET);
      var front := d.pending[0];
      && !Leaves(d, QUIET) && Ready(next) && next.HasPool() && next.LiveMask() == d.LiveMask()
      && next.queue == p.queue && next.pending == PopFront(p.pending) && d.trace <= next.trace
      && (if front.isExplicit || !d.LiveMask().IsEmpty() then
            next.InFlight() == d.InFlight() + {front.trackId} && WasSent(d.trace, next.trace, front.trackId)
          else next.InFlight() == d.InFlight())
  {
    FrontStays(d);
    var p, front := Promoted(d), d.pending[0];
    assert front.isExplicit ==> !front.capabilities.IsEmpty();
    PromotionWasRead(d);
    hide Kept, Lawful, StatusAfter, Prioritized, WasRead, Settled, NextHandling;
    if MaskOf(p, front).IsEmpty() {
      FrontDropIsSound(p);
    } else {
      SendIsSound(p, front);
      assert HandingOver(p, front, QUIET).trace[|d.trace|] == Sending(p, front);
    }
  }

  /** What one undisturbed attempt leaves to the next. */
  lemma FlowGoesOn(d: Desk)
    requires Flowing(d) && d.pending != []
    ensures var next := Attempted(d, QUIET);
      && !Leaves(d, QUIET) && Flowing(next) && next.LiveMask() == d.LiveMask()
      && d.trace <= next.trace && d.InFlight() <= next.InFlight()
      && (forall x :: x in next.InFlight() ==> x in d.InFlight() || WasSent(d.trace, next.trace, x))
      && (forall x :: Wanted(d.queue, d.pending, x) ==>
            Wanted(next.queue, next.pending, x) || x in next.InFlight())
      && (d.queue == [] && !d.LiveMask().IsEmpty() ==>
            next.queue == [] && Ids(d.pending) <= Ids(next.pending) + next.InFlight())
  {
    FrontStays(d);
    FrontGoesOut(d);
    var p, next := Promoted(d), Attempted(d, QUIET);
    hide Ready, Lawful, StatusAfter, Prioritized, Attempted, HandingOver, Leaves, WasSent;
    assert p.pending[1..] == next.pending;
    forall x | Wanted(d.queue, d.pending, x) ensures Wanted(next.queue, next.pending, x) || x in next.InFlight() {
      if ExplicitlyPending(p.pending, x) {
        var i :| 0 <= i < |p.pending| && p.pending[i].isExplicit && p.pending[i].trackId == x;
        if i > 0 { assert next.pending[i - 1] == p.pending[i]; }
      }
    }
    if d.queue == [] {
      forall x | x in Ids(d.pending) && x != d.pending[0].trackId ensures x in Ids(next.pending) {
        var i :| 0 <= i < |d.pending| && d.pending[i].trackId == x;
        assert next.pending[i - 1] == d.pending[i];
      }
    }
  }

  lemma SentIsMore(a: seq<Event>, b: seq<Event>, c: seq<Event>, x: nat)
    requires a <= b <= c && (WasSent(a, b, x) || WasSent(b, c, x))
    ensures WasSent(a, c, x)
  {
    if WasSent(a, b, x) {
      var i :| |a| <= i < |b| && b[i].Sent? && b[i].trackId == x;
      assert c[i] == b[i];
    }
  }

  /** Undisturbed, dispatching empties the buffer, and every track that is wanted ends up
      in flight; without requests all that is buffered does. */
  lemma {:induction false} FlowEmptiesBuffer(d: Desk)
    requires Flowing(d)
    ensures var r := Dispatched(d, []);
      && r.alive && r.desk.pending == [] && d.trace <= r.desk.trace
      && (forall x :: Wanted(d.queue, d.pending, x) ==> x in d.InFlight() || WasSent(d.trace, r.desk.trace, x))
      && (d.queue == [] && !d.LiveMask().IsEmpty() ==>
            forall x :: x in Ids(d.pending) ==> x in d.InFlight() || WasSent(d.trace, r.desk.trace, x))
    decreases |d.queue| + |d.pending|
  {
    if d.pending == [] {
      hide Ready, Lawful, StatusAfter;
    } else {
      FlowGoesOn(d);
      QuietShrinks(d);
      var next := Attempted(d, QUIET);
      FlowEmptiesBuffer(next);
      var last := Dispatched(next, []).desk;
      hide Flowing, Ready, Lawful, StatusAfter, Attempted, Leaves, WasSent, Wanted;
      assert Dispatched(d, []) == Dispatched(next, []);
      forall x | (x in next.InFlight() && x !in d.InFlight()) || WasSent(next.trace, last.trace, x)
        ensures WasSent(d.trace, last.trace, x)
      {
        SentIsMore(d.trace, next.trace, last.trace, x);
      }
    }
  }

  lemma DispatchingSends(d: Desk, input: Input, x: nat)
    requires Ready(d) && input.attempts == [] && WasSent(d.trace, Dispatched(d, []).desk.trace, x)
    ensures WasSent(d.trace, Dispatching(d, input).desk.trace, x)
  {
    var sent := Dispatched(d, []).desk;
    DispatchedEndsWell(d, []);
    hide Ready, Lawful, StatusAfter, Dispatched, Waiting, ReadingOne, WasSent, Sound;
    WaitingLogs(sent, input.next);
    ReadingOneLogs(sent, input.outcome);
    SentIsMore(d.trace, sent.trace, Dispatching(d, input).desk.trace, x);
  }

  lemma FeedingSends(d: Desk, input: Input, x: nat)
    requires Ready(d) && Settled(d) && d.Now().controls.path.Some? && IsQuiet(input)
    requires Wanted(d.queue, d.pending, x) && x !in d.InFlight()
    ensures WasSent(d.trace, Feeding(d, input).desk.trace, x)
  {
    SpawningIsSound(d);
    var spawned := Spawning(d);
    assert d.pending != [];
    hide Lawful, StatusAfter, Dispatched, Dispatching, WasSent, Sound;
    FlowEmptiesBuffer(spawned);
    DispatchingSends(spawned, input, x);
    DispatchingLogs(spawned, input);
    SentIsMore(d.trace, spawned.trace, Feeding(d, input).desk.trace, x);
  }

  /** In a turn in which nothing gets in the way, every requested track that is queued or
      buffered, and every one the turn's own commands request, goes out to the workers,
      unless it is in flight already. However many there are: more than fit a batch too. */
  lemma QuietTurnSendsRequests(d: Desk, input: Input, x: nat)
    requires Sound(d) && d.Now().phase.Clear? && IsQuiet(input) && Distinct(input.needy)
    requires Topped(d, input.commands).Now().controls.path.Some?
    requires Wanted(d.queue, d.pending, x) || x in RequestedIn(input.commands)
    ensures x in Topped(d, input.commands).InFlight() || WasSent(d.trace, Turn(d, input).desk.trace, x)
  {
    BeforeShutdownHasNone(input.commands);
    ToppedIsSound(d, input.commands);
    ToppedWants(d, input.commands, x);
    var top := Topped(d, input.commands);
    hide Kept, Lawful, StatusAfter, Topped, Settled, WasSent, Rest, Wanted, TakingAll;
    if x !in top.InFlight() {
      RestSends(top, input, x);
      SentIsMore(d.trace, top.trace, Rest(top, input).desk.trace, x);
    }
  }

  lemma RestSends(top: Desk, input: Input, x: nat)
    requires Sound(top) && Settled(top) && top.Now().phase.Clear? && top.Now().controls.path.Some?
    requires IsQuiet(input) && Wanted(top.queue, top.pending, x) && x !in top.InFlight()
    ensures top.trace <= Rest(top, input).desk.trace && WasSent(top.trace, Rest(top, input).desk.trace, x)
  {
    hide Kept, Lawful, StatusAfter, Feeding, Settled, WasSent;
    var sized := if top.Now().counts.total.Some? then top else Sized(top, Elements(input.needy));
    if top.Now().counts.total.None? { SizedStaysSettled(top, Elements(input.needy)); }
    FeedingSends(sized, input, x);
    FeedingLogs(sized, input);
    SentIsMore(top.trace, sized.trace, Feeding(sized, input).desk.trace, x);
  }

  lemma SizedStaysSettled(d: Desk, needy: set<nat>)
    requires Sound(d) && Settled(d) && d.Now().counts.total.None? && d.Now().controls.path.Some?
    ensures var sized := Sized(d, needy);
      && Sound(sized) && Settled(sized) && sized.Now() == d.Now().(counts := sized.Now().counts, flipped := false)
      && sized.Now().counts.total.Some?
  {
    hide Kept, Lawful, StatusAfter;
    SizedIsSound(d, needy);
  }

  // ---- A quiet turn without requests sweeps ----

  ghost function SentOf(xs: set<nat>, before: seq<Event>, after: seq<Event>): set<nat> {
    set x | x in xs && WasSent(before, after, x)
  }

  /** With nothing requested and nothing buffered, a quiet turn sends tracks in need that
      are not in flight: a batch of them, or all there are. */
  lemma QuietTurnSweeps(d: Desk, input: Input)
    requires Sound(d) && d.Now().phase.Clear? && d.queue == [] && d.pending == []
    requires d.Now().controls.path.Some? && !d.LiveMask().IsEmpty()
    requires IsQuiet(input) && input.commands == [] && Distinct(input.needy)
    ensures var idle := Elements(input.needy) - d.InFlight();
      |SentOf(idle, d.trace, Turn(d, input).desk.trace)| >= if |idle| < 16 then |idle| else 16
  {
    BeforeShutdownHasNone(input.commands);
    assert Topped(d, []) == Promoted(d) == d;
    assert Settled(d);
    hide Kept, Lawful, StatusAfter, Feeding, Topped, Settled, WasSent;
    var sized := if d.Now().counts.total.Some? then d else Sized(d, Elements(input.needy));
    if d.Now().counts.total.None? { SizedStaysSettled(d, Elements(input.needy)); }
    assert Turn(d, input) == Feeding(sized, input);
    SweepIsSent(sized, input);
    FeedingLogs(sized, input);
    var t := Turn(d, input).desk.trace;
    var idle := Elements(input.needy) - d.InFlight();
    forall x | WasSent(sized.trace, t, x) ensures WasSent(d.trace, t, x) {
      SentIsMore(d.trace, sized.trace, t, x);
    }
    FewerInSubset(SentOf(idle, sized.trace, t), SentOf(idle, d.trace, t));
  }

  lemma SweepIsSent(d: Desk, input: Input)
    requires Ready(d) && Settled(d) && d.queue == [] && d.pending == [] && d.Now().controls.path.Some?
    requires !d.LiveMask().IsEmpty() && IsQuiet(input) && Distinct(input.needy)
    ensures var idle := Elements(input.needy) - d.InFlight();
      |SentOf(idle, d.trace, Feeding(d, input).desk.trace)| >= Min(BATCH_SIZE, |idle|)
  {
    SpawningIsSound(d);
    var spawned := Spawning(d);
    assert Drain(spawned) == spawned;
    SweptIsSound(spawned, input.needy);
    var swept := Swept(spawned, input.needy);
    var t := Feeding(d, input).desk.trace;
    var idle := Elements(input.needy) - d.InFlight();
    assert DistinctIds(swept.pending);
    hide Lawful, StatusAfter, Dispatched, Dispatching, WasSent, Sound, Swept, Drain, CaughtUp, DistinctIds;
    DistinctItems(swept.pending);
    if swept.pending == [] {
      assert |idle| == 0;
    } else {
      FlowEmptiesBuffer(swept);
      DispatchingLogs(swept, input);
      forall x | x in Ids(swept.pending) ensures WasSent(d.trace, t, x) {
        DispatchingSends(swept, input, x);
        SentIsMore(d.trace, spawned.trace, t, x);
      }
      FewerInSubset(Ids(swept.pending), SentOf(idle, d.trace, t));
    }
  }

  lemma {:induction false} DistinctItems(items: seq<Item>)
    requires DistinctIds(items)
    ensures |Ids(items)| == |items|
  {
    if items != [] {
      var front, last := items[..|items| - 1], items[|items| - 1];
      DistinctItems(front);
      assert items == front + [last];
      DistinctAppend(front, last);
      IdsOfAppend(front, last);
    }
  }

  /** Without a library path nothing is sent. */
  lemma PathlessTurnSendsNothing(d: Desk, input: Input, x: nat)
    requires Sound(d) && NoShutdown(input.commands)
    requires Topped(d, input.commands).Now().controls.path.None?
    ensures !WasSent(d.trace, Turn(d, input).desk.trace, x)
  {
    BeforeShutdownHasNone(input.commands);
    ToppedLogs(d, input.commands);
    hide StatusAfter, Topped, TakingAll, Rest, Sound;
    RestSendsNothing(Topped(d, input.commands), input, x);
  }

  lemma RestSendsNothing(top: Desk, input: Input, x: nat)
    requires top.Now().controls.path.None?
    ensures top.trace <= Rest(top, input).desk.trace && !WasSent(top.trace, Rest(top, input).desk.trace, x)
  {
    hide StatusAfter, Resting, Feeding, Stopping;
    if top.Now().phase.Rejected? {
      StoppingTells(top, top.Now().phase.detail, input.next);
    } else {
      RestingLogs(top, input);
    }
  }

  // ---- What comes in between ----

  /** The first dispatch attempt takes the command that waits, before anything is sent; a
      shutdown ends the dispatch there. */
  lemma DispatchTakesCommand(d: Desk, attempts: seq<Attempt>)
    requires Ready(d) && d.pending != [] && attempts != [] && attempts[0].command.Some?
    ensures var r, command := Dispatched(d, attempts), attempts[0].command.value;
      if command.Shutdown? then r == Turned(d, false)
      else |r.desk.trace| > |d.trace| && r.desk.trace[|d.trace|] == Took(command)
  {
    var command := attempts[0].command.value;
    if !command.Shutdown? {
      AttemptedIsSound(d, attempts[0]);
      var next := Attempted(d, attempts[0]);
      assert next.trace[|d.trace|] == Took(command) by { hide StatusAfter, Prioritized, QueueAfter; }
      hide Ready, StatusAfter, Attempted, Leaves;
      if !Leaves(d, attempts[0]) { DispatchedEndsWell(next, attempts[1..]); }
    }
  }

  /** A full channel ends the dispatch with nothing more sent and nothing wanted lost. */
  lemma FullChannelEndsDispatch(d: Desk, attempts: seq<Attempt>, x: nat)
    requires Ready(d) && d.pending != [] && attempts != [] && attempts[0].full && !attempts[0].vanished
    requires attempts[0].command == None && d.HasPool() && !MaskOf(d, d.pending[0]).IsEmpty()
    ensures var r := Dispatched(d, attempts);
      && r.alive && r.desk.trace == d.trace
      && (Wanted(d.queue, d.pending, x) ==> Wanted(r.desk.queue, r.desk.pending, x))
  {
    assert AllExplicit(d.queue);
    PromotionConserves(d.queue, d.pending, d.InFlight(), x);
    hide Ready, StatusAfter, Prioritized;
  }

  /** An outcome that comes in is read: it is told at once, and frees its track, but for a
      rejected write. */
  lemma OutcomeIsRead(d: Desk, o: Outcome)
    requires Sound(d) && Readable(d.Now().handling, o)
    ensures var r, n := ReadingOne(d, Some(o)), |d.trace|;
      && |r.trace| > n && r.trace[n] == Folded(o.trackId, o.kind, o.straggler)
      && (if o.kind.PersistenceFailed? then |r.trace| == n + 1 && r.InFlight() == d.InFlight()
          else |r.trace| == n + 2 && IsTick(r.trace[n + 1]) && r.InFlight() == d.InFlight() - {o.trackId})
  {
    ReadingIsSound(d, o);
    hide Sound, StatusAfter;
  }

  // ---- When the supervisor idles ----

  ghost predicate Idles(before: seq<Event>, after: seq<Event>) {
    exists i :: |before| <= i < |after| && IsIdle(after[i])
  }

  /** With the buffer empty it idles exactly when nothing is queued or in flight and the
      sweep finds nothing, or there is none; then nobody is left that it had to wait for. */
  lemma IdlesWhenDone(d: Desk, input: Input)
    requires Ready(d) && Settled(d) && d.pending == [] && d.Now().controls.path.Some? && Distinct(input.needy)
    ensures Idles(d.trace, Feeding(d, input).desk.trace) <==> IsDone(d, input)
  {
    SpawningIsSound(d);
    var spawned := Spawning(d);
    RefillingIdles(spawned, input);
    RefillingEndsWell(spawned, input);
    hide Ready, Settled, Lawful, StatusAfter, Refilling;
    var t := Feeding(d, input).desk.trace;
    FeedingLogs(d, input);
    assert forall i :: |d.trace| <= i < |spawned.trace| ==> t[i] == spawned.trace[i] && !IsIdle(t[i]);
  }

  ghost predicate IsDone(d: Desk, input: Input) {
    && d.queue == [] && d.InFlight() == {}
    && (d.LiveMask().IsEmpty() || (!input.sweepFails && input.needy == []))
  }

  lemma RefillingIdles(spawned: Desk, input: Input)
    requires Ready(spawned) && Settled(spawned) && spawned.pending == [] && Distinct(input.needy)
    ensures Idles(spawned.trace, Refilling(spawned, input).desk.trace) <==> IsDone(spawned, input)
  {
    DrainIsSound(spawned);
    var drained := Drain(spawned);
    if Sweeps(drained) { SweptIsNothing(drained, input.needy); }
    var refilled := if Sweeps(drained) then Swept(drained, input.needy) else drained;
    FailingTells(drained, input.next);
    assert !Idles(drained.trace, Failing(drained, input.next).desk.trace);
    hide Lawful, StatusAfter, Dispatching, Sound, Drain, Settled, Swept, Failing, CaughtUp, Idles;
    CaughtUpIdles(refilled, input.next);
    DispatchingNeverIdles(refilled, input);
  }

  lemma CaughtUpIdles(d: Desk, next: Option<Command>)
    ensures Idles(d.trace, CaughtUp(d, next).desk.trace)
  {
    hide StatusAfter;
    var told := Told(Idle(d.Now().counts.completed, d.Now().counts.failed));
    assert CaughtUp(d, next).desk.trace[|d.trace|] == told;
  }

  lemma DispatchingNeverIdles(d: Desk, input: Input)
    ensures !Idles(d.trace, Dispatching(d, input).desk.trace)
  {
    hide Dispatching;
    DispatchingLogs(d, input);
  }

  lemma SweptIsNothing(d: Desk, needy: seq<nat>)
    requires Sound(d) && Sweeps(d) && d.pending == [] && Distinct(needy)
    ensures var s := Swept(d, needy);
      && s.trace == d.trace && s.queue == []
      && (d.InFlight() == {} ==> (s.pending == [] <==> needy == []))
  {
    SweptIsSound(d, needy);
    hide Sound, StatusAfter;
    if needy == [] {
      assert Elements(needy) == {};
    } else {
      assert needy[0] in Elements(needy);
      assert Elements(needy) - {} == Elements(needy);
    }
  }

  // ---- When the supervisor blocks ----

  ghost predicate NothingLeft(d: Desk) {
    d.queue == [] && d.pending == [] && d.InFlight() == {}
  }

  lemma {:induction false} DispatchedGoesOn(d: Desk, attempts: seq<Attempt>)
    requires forall i :: 0 <= i < |attempts| ==> attempts[i].command != Some(Shutdown)
    ensures Dispatched(d, attempts).alive
    decreases |attempts|, |d.queue| + |d.pending|
  {
    hide Attempted, Leaves, StatusAfter;
    if d.pending != [] {
      if attempts == [] {
        if !Leaves(d, QUIET) {
          QuietShrinks(d);
          DispatchedGoesOn(Attempted(d, QUIET), []);
        }
      } else if !Leaves(d, attempts[0]) {
        DispatchedGoesOn(Attempted(d, attempts[0]), attempts[1..]);
      }
    }
  }

  lemma CaughtUpHasNothing(d: Desk)
    requires NothingLeft(d)
    ensures NothingLeft(CaughtUp(d, None).desk) && !CaughtUp(d, None).alive
  {
    hide StatusAfter, NextAsks;
    NextNow(d, Told(Idle(d.Now().counts.completed, d.Now().counts.failed)));
  }

  lemma FeedingBlocks(d: Desk, input: Input)
    requires input.next.None? && !input.sweepFails
    requires forall i :: 0 <= i < |input.attempts| ==> input.attempts[i].command != Some(Shutdown)
    ensures !Feeding(d, input).alive ==> NothingLeft(Feeding(d, input).desk)
  {
    hide StatusAfter, Dispatched, Drain, Swept, ReadingOne, CaughtUp;
    var spawned := Spawning(d);
    var drained := Drain(spawned);
    var refilled := if Sweeps(drained) then Swept(drained, input.needy) else drained;
    DispatchedGoesOn(spawned, input.attempts);
    DispatchedGoesOn(refilled, input.attempts);
    if NothingLeft(refilled) { CaughtUpHasNothing(refilled); }
  }

  /** With a path and a store that answers, a supervisor waits for a command, here in vain,
      only once nothing is queued, buffered or in flight. */
  lemma BlocksWithNothingLeft(d: Desk, input: Input)
    requires Sound(d) && d.Now().phase.Clear? && NoShutdown(input.commands)
    requires Topped(d, input.commands).Now().controls.path.Some?
    requires input.next.None? && !input.sizeFails && !input.sweepFails
    requires forall i :: 0 <= i < |input.attempts| ==> input.attempts[i].command != Some(Shutdown)
    ensures !Turn(d, input).alive ==> NothingLeft(Turn(d, input).desk)
  {
    BeforeShutdownHasNone(input.commands);
    ToppedIsSound(d, input.commands);
    var top := Topped(d, input.commands);
    FeedingBlocks(top, input);
    FeedingBlocks(Sized(top, Elements(input.needy)), input);
    if NothingToFind(top) {
      ReadingAllIsSound(top, input.outcomes);
      RestingBlocks(top, input);
    }
    hide Sound, StatusAfter, Topped, Feeding, Resting, NothingLeft, Sized, Settled;
  }

  lemma RestingBlocks(d: Desk, input: Input)
    requires Sound(d) && d.queue == [] && d.pending == [] && input.next.None?
    ensures var t := Resting(d, input.outcomes, input.outcome, input.next); !t.alive ==> NothingLeft(t.desk)
  {
    ReadingAllIsSound(d, input.outcomes);
    hide Sound, StatusAfter, ReadingAll, ReadingOne, NextAsks, CaughtUp;
    var read := ReadingAll(d, input.outcomes);
    NextNow(read, Emptied(Ids(ExplicitOnly(read.pending))));
    if read.InFlight() == {} {
      CaughtUpHasNothing(Unbuffered(read));
    }
  }

  // ---- Nothing to dispatch ----

  /** No outcome of an earlier pool is unread, and no track was spoiled. */
  ghost predicate NoStraggler(h: Handling) {
    h.stale == multiset{} && h.raced == h.untracked == {}
  }

  /** A rejected write that is remembered keeps the pool from looking quiet. */
  ghost predicate Witnessed(s: Status) {
    s.phase.Rejected? ==> HasSettled(s.handling.inFlight, s.handling.live)
  }

  lemma ReadingWitnesses(d: Desk, o: Outcome)
    requires Sound(d) && NoStraggler(d.Now().handling) && Witnessed(d.Now())
    ensures var r := Reading(d, o); NoStraggler(r.Now().handling) && Witnessed(r.Now())
  {
    ReadingIsSound(d, o);
    hide Lawful, StatusAfter, HasSettled, Reading, WellFormed, Tracked, Asked;
    if Readable(d.Now().handling, o) {
      OutcomeKeepsBuffered(
        d.queue, d.pending, d.Now().handling, d.Now().asks, o.trackId, !o.kind.PersistenceFailed?, o.straggler);
    }
  }

  lemma {:induction false} ReadingAllWitnesses(d: Desk, outcomes: seq<Outcome>)
    requires Sound(d) && NoStraggler(d.Now().handling) && Witnessed(d.Now())
    ensures var r := ReadingAll(d, outcomes); Sound(r) && NoStraggler(r.Now().handling) && Witnessed(r.Now())
  {
    hide Sound, StatusAfter, Reading, NoStraggler, Witnessed;
    ReadingAllIsSound(d, outcomes);
    if outcomes != [] {
      ReadingAllWitnesses(d, outcomes[..|outcomes| - 1]);
      ReadingWitnesses(ReadingAll(d, outcomes[..|outcomes| - 1]), outcomes[|outcomes| - 1]);
    }
  }

  lemma ReadingFrees(d: Desk, o: Outcome)
    requires Sound(d) && NoStraggler(d.Now().handling) && !o.kind.PersistenceFailed? && !o.straggler
    requires forall y :: y in d.InFlight() ==> y in d.Now().handling.live
    ensures var r := Reading(d, o);
      && r.InFlight() == d.InFlight() - {o.trackId}
      && (forall y :: y in r.InFlight() ==> y in r.Now().handling.live)
  {
    ReadingIsSound(d, o);
    var h := d.Now().handling;
    assert o.trackId in h.live ==> o.trackId in h.inFlight && h.live[o.trackId] == 1;
    hide Sound, StatusAfter, Reading;
  }

  /** Every outcome that is in is read: while no old outcome and no rejected write is
      about, the tracks still out are those without an outcome. */
  lemma {:induction false} ReadingAllFrees(d: Desk, outcomes: seq<Outcome>, x: nat)
    requires Sound(d) && NoStraggler(d.Now().handling) && Witnessed(d.Now())
    requires forall y :: y in d.InFlight() ==> y in d.Now().handling.live
    requires forall i :: 0 <= i < |outcomes| ==> !outcomes[i].kind.PersistenceFailed? && !outcomes[i].straggler
    ensures var r := ReadingAll(d, outcomes);
      && (forall y :: y in r.InFlight() ==> y in r.Now().handling.live)
      && (x in r.InFlight() <==> x in d.InFlight() && forall i :: 0 <= i < |outcomes| ==> outcomes[i].trackId != x)
  {
    if outcomes != [] {
      var front, last := outcomes[..|outcomes| - 1], outcomes[|outcomes| - 1];
      assert ReadingAll(d, outcomes) == Reading(ReadingAll(d, front), last);
      hide Sound, StatusAfter, Reading, Witnessed, ReadingAll, NoStraggler;
      assert outcomes == front + [last];
      ReadingAllFrees(d, front, x);
      ReadingAllWitnesses(d, front);
      ReadingFrees(ReadingAll(d, front), last);
    }
  }

  /** Without a path, or with nothing to do, all that came in is read; then the supervisor
      idles exactly when nothing is in flight. Only that drops requests from the buffer, and
      only for want of a path; and it hides no rejected write unless a straggler is about. */
  lemma RestingIdlesIff(
      d: Desk, outcomes: seq<Outcome>, outcome: Option<Outcome>, next: Option<Command>, x: nat)
    requires Sound(d) && NothingToFind(d)
    ensures var read, t := ReadingAll(d, outcomes), Resting(d, outcomes, outcome, next);
      && (Idles(read.trace, t.desk.trace) <==> read.InFlight() == {})
      && (!t.alive ==> read.InFlight() == {})
      && (ExplicitlyPending(d.pending, x) ==>
            (!ExplicitlyPending(t.desk.pending, x) <==> d.Now().controls.path.None? && read.InFlight() == {}))
      && (read.InFlight() == {} && NoStraggler(d.Now().handling) && d.Now().phase.Clear? ==> read.Now().phase.Clear?)
  {
    ReadingAllIsSound(d, outcomes);
    var read := ReadingAll(d, outcomes);
    if NoStraggler(d.Now().handling) && d.Now().phase.Clear? {
      assert Witnessed(d.Now());
      ReadingAllWitnesses(d, outcomes);
    }
    hide Sound, StatusAfter, Reading, ReadingAll;
    if read.InFlight() == {} {
      var counts := Unbuffered(read).Now().counts;
      assert Resting(d, outcomes, outcome, next).desk.trace[|read.trace| + 1]
        == Told(Idle(counts.completed, counts.failed));
    } else {
      ReadingOneLogs(read, outcome);
      if outcome.Some? { ReadingKeepsBuffer(read, outcome.value); }
    }
  }

  lemma ReadingKeepsBuffer(d: Desk, o: Outcome)
    ensures Reading(d, o).pending == d.pending
  {
  }

  // ---- Requests are kept, and in order ----

  /** From when it was taken until it is sent or dropped, as the log tells, a requested
      track is queued or buffered. */
  lemma RequestIsNotLost(d: Desk, x: nat, i: nat)
    requires Sound(d) && i < |d.trace| && x in RequestedBy(d.trace[i])
    requires forall n :: i < n < |d.trace| ==> !Answers(d.trace[n], x)
    ensures Wanted(d.queue, d.pending, x)
  {
    OwedUntilAnswered(d.trace, x, i, |d.trace|);
    assert d.trace[..|d.trace|] == d.trace;
    hide Lawful, StatusAfter, Tracked, WellFormed;
  }

  /** A teardown takes nothing from the explicit work, nor its order: the first tracks of
      what was buffered and then queued are buffered, as many as fit. */
  lemma TeardownKeepsOrder(d: Desk, commands: seq<Command>)
    requires Sound(d) && NoShutdown(commands) && d.HasPool() && !TakingAll(d, commands).HasPool()
    ensures var line := ExplicitOnly(d.pending) + TakingAll(d, commands).queue;
      var ready := ReadyIds(line, {}, {});
      TrackIds(Topped(d, commands).pending) == if |ready| < 16 then ready else ready[..16]
  {
    TakingAllIsSound(d, commands);
    TakingAllLogs(d, commands);
    var taken := TakingAll(d, commands);
    TornDownIsSound(taken);
    var torn := TornDown(taken);
    assert AllExplicit(torn.queue);
    hide Sound, StatusAfter, TakingAll, Prioritized, ExplicitOnly;
    assert torn.InFlight() == {};
    QueueIsBuffered(torn.queue);
  }

  lemma QueueIsBuffered(queue: seq<Item>)
    requires AllExplicit(queue)
    ensures var ready := ReadyIds(queue, {}, {});
      TrackIds(Prioritized(queue, [], {}).1) == if |ready| < 16 then ready else ready[..16]
  {
    assert ExplicitOnly([]) == [] && Ids([]) == {};
    DrainedAreReady(queue, [], {}, |queue|);
    assert queue[..|queue|] == queue;
  }
}
