/** One turn of the supervisor's loop, as a function of what it holds and of all that
    reaches it meanwhile: commands, store answers, the state of the worker channel and
    worker outcomes. */
module SupervisorTurn {
  import opened Wrappers
  import opened Numbers
  import opened ExplicitWork
  import opened SupervisorLog
  import opened SupervisorBuffer

  /** The queue, the buffer and the log, which tells all the rest. */
  datatype Desk = Desk(queue: seq<Item>, pending: seq<Item>, trace: seq<Event>) {
    function Now(): Status { StatusAfter(trace) }

    function InFlight(): set<nat> { Now().handling.inFlight }

    function LiveMask(): Capabilities { Now().controls.settings.capabilities }

    predicate HasPool() { Now().controls.pool.Some? }

    function Log(e: Event): Desk { this.(trace := trace + [e]) }
  }

  /** Where a part of a turn ends, and whether the supervisor goes on. */
  datatype Turned = Turned(desk: Desk, alive: bool)

  /** What one dispatch attempt meets: a command that is waiting, a track that vanished
      from the store, a channel that is full or closed. */
  datatype Attempt = Attempt(command: Option<Command>, vanished: bool, full: bool)

  const QUIET := Attempt(None, false, false)

  /** What reaches the supervisor during one turn: the commands waiting at its top, the
      tracks in need in the store's order, whether the two queries fail, what the dispatch
      attempts meet (the later ones nothing), the outcomes that are in, the one that comes
      in while waiting, and the command that comes when it blocks (none: nobody is left
      to send one). */
  datatype Input = Input(
    commands: seq<Command>, needy: seq<nat>, sizeFails: bool, sweepFails: bool, attempts: seq<Attempt>,
    outcomes: seq<Outcome>, outcome: Option<Outcome>, next: Option<Command>)

  predicate Distinct(found: seq<nat>) {
    forall i, k :: 0 <= i < k < |found| ==> found[i] != found[k]
  }

  // ---- Commands ----

  function Taking(d: Desk, command: Command): Desk {
    Desk(QueueAfter(d.queue, command), d.pending, d.trace + [Took(command)])
  }

  function TakingAll(d: Desk, commands: seq<Command>): Desk {
    if commands == [] then d
    else Taking(TakingAll(d, commands[..|commands| - 1]), commands[|commands| - 1])
  }

  function BeforeShutdown(commands: seq<Command>): seq<Command> {
    if commands == [] || commands[0].Shutdown? then [] else [commands[0]] + BeforeShutdown(commands[1..])
  }

  function Waiting(d: Desk, next: Option<Command>): Turned {
    if next.None? || next.value.Shutdown? then Turned(d, false) else Turned(Taking(d, next.value), true)
  }

  /** The store failed: the pool goes, and nothing is tried before another command. */
  function Failing(d: Desk, next: Option<Command>): Turned {
    Waiting(d.Log(StoreFailed), next)
  }

  // ---- The top of the loop ----

  function TornDown(d: Desk): Desk {
    Desk(ExplicitOnly(d.pending) + d.queue, [], d.trace + [Cleared(false)])
  }

  function Promoted(d: Desk): Desk {
    var (queue, pending) := Prioritized(d.queue, d.pending, d.InFlight());
    Desk(queue, pending, d.trace)
  }

  function Topped(d: Desk, commands: seq<Command>): Desk {
    var taken := TakingAll(d, commands);
    Promoted(if d.HasPool() && !taken.HasPool() then TornDown(taken) else taken)
  }

  function Stopping(d: Desk, detail: string, next: Option<Command>): Turned {
    Waiting(d.Log(Cleared(true)).Log(Told(PersistenceError(detail))), next)
  }

  // ---- Outcomes ----

  predicate Readable(h: Handling, o: Outcome) {
    o.trackId in (if o.straggler then h.stale else h.live)
  }

  /** An outcome is folded in and told. One of a track no worker has is none. */
  function Reading(d: Desk, o: Outcome): Desk {
    if !Readable(d.Now().handling, o) then d
    else
      var folded := d.Log(Folded(o.trackId, o.kind, o.straggler));
      var counts := folded.Now().counts;
      if o.kind.PersistenceFailed? then folded
      else folded.Log(Told(Tick(counts.completed, counts.failed, counts.Shown())))
  }

  function ReadingAll(d: Desk, outcomes: seq<Outcome>): Desk {
    if outcomes == [] then d
    else Reading(ReadingAll(d, outcomes[..|outcomes| - 1]), outcomes[|outcomes| - 1])
  }

  function ReadingOne(d: Desk, outcome: Option<Outcome>): Desk {
    if outcome.None? then d else Reading(d, outcome.value)
  }

  // ---- Nothing to dispatch ----

  /** No library path, or no work of either kind. */
  predicate NothingToFind(d: Desk) {
    d.Now().controls.path.None? || (d.LiveMask().IsEmpty() && d.queue == [] && d.pending == [])
  }

  function CaughtUp(d: Desk, next: Option<Command>): Turned {
    var counts := d.Now().counts;
    Waiting(d.Log(Told(Idle(counts.completed, counts.failed))), next)
  }

  function Unbuffered(d: Desk): Desk {
    Desk(d.queue, [], d.trace + [Emptied(Ids(ExplicitOnly(d.pending)))])
  }

  /** Read what has come in; then idle if nothing is in flight, or else wait. */
  function Resting(d: Desk, outcomes: seq<Outcome>, outcome: Option<Outcome>, next: Option<Command>): Turned {
    var read := ReadingAll(d, outcomes);
    if read.InFlight() == {} then CaughtUp(Unbuffered(read), next) else Turned(ReadingOne(read, outcome), true)
  }

  // ---- Dispatching ----

  /** The run's size: each queued or needy track counts once. */
  function Sized(d: Desk, needy: set<nat>): Desk {
    var counted := Ids(d.queue) + if d.LiveMask().IsEmpty() then {} else needy;
    d.Log(Snapshot(Min(|counted|, MAX_U32), Ids(d.queue), needy))
  }

  function Spawning(d: Desk): Desk {
    if d.HasPool() then d else d.Log(Spawned(d.Now().controls.LivePool()))
  }

  function Drain(d: Desk): Desk {
    var (queue, pending) := Drained(d.queue, d.pending, d.InFlight(), |d.queue|);
    Desk(queue, pending, d.trace)
  }

  predicate Sweeps(d: Desk) {
    |d.pending| < BATCH_SIZE && d.queue == [] && !d.LiveMask().IsEmpty()
  }

  /** The store names the first tracks in need. */
  function Answer(needy: seq<nat>, limit: nat): seq<nat> {
    needy[..Min(limit, |needy|)]
  }

  function Swept(d: Desk, needy: seq<nat>): Desk
    requires Sweeps(d)
  {
    var found := Answer(needy, BATCH_SIZE - |d.pending| + |d.InFlight()|);
    d.(pending := d.pending + BackgroundItems(NotInFlight(found, d.InFlight()), d.LiveMask()))
  }

  function Heard(d: Desk, a: Attempt): Desk {
    if a.command.Some? then Taking(d, a.command.value) else d
  }

  /** An explicit item goes out with its own capabilities, another with the live ones. */
  function MaskOf(d: Desk, item: Item): Capabilities {
    if item.isExplicit then item.capabilities else d.LiveMask()
  }

  predicate Blocked(d: Desk, item: Item, a: Attempt) {
    !MaskOf(d, item).IsEmpty() && !a.vanished && a.full
  }

  function FrontDropped(pending: seq<Item>): seq<Event> {
    if pending == [] then [] else [Dropped(pending[0].trackId, pending[0].isExplicit)]
  }

  function Sending(d: Desk, item: Item): Event {
    Sent(item.trackId, MaskOf(d, item), item.trackId in Ids(PopFront(d.pending)), item.isExplicit)
  }

  /** The item that was read is sent, or not; but for a full channel, the item in front
      goes away, and that may be another one. */
  function HandingOver(d: Desk, item: Item, a: Attempt): Desk {
    var mask, rest := MaskOf(d, item), PopFront(d.pending);
    if mask.IsEmpty() || a.vanished then Desk(d.queue, rest, d.trace + FrontDropped(d.pending))
    else if a.full then d
    else
      var replaced := d.pending != [] && d.pending[0] != item;
      Desk(d.queue, rest, d.trace + [Sending(d, item)] + if replaced then FrontDropped(d.pending) else [])
  }

  /** Read the front, let a command in, promote, hand over; nothing without a pool. */
  function Attempted(d: Desk, a: Attempt): Desk
    requires d.pending != []
  {
    var heard := Heard(d, a);
    if heard.HasPool() then HandingOver(Promoted(heard), d.pending[0], a) else heard
  }

  predicate Leaves(d: Desk, a: Attempt)
    requires d.pending != []
  {
    !Heard(d, a).HasPool() || Blocked(Promoted(Heard(d, a)), d.pending[0], a)
  }

  function Dispatched(d: Desk, attempts: seq<Attempt>): Turned
    decreases |attempts|, |d.queue| + |d.pending|
  {
    if d.pending == [] then Turned(d, true)
    else if attempts == [] then
      if Leaves(d, QUIET) then Turned(d, true)
      else
        QuietShrinks(d);
        Dispatched(Attempted(d, QUIET), [])
    else if attempts[0].command == Some(Shutdown) then Turned(d, false)
    else if Leaves(d, attempts[0]) then Turned(Attempted(d, attempts[0]), true)
    else Dispatched(Attempted(d, attempts[0]), attempts[1..])
  }

  lemma QuietShrinks(d: Desk)
    requires d.pending != [] && !Leaves(d, QUIET)
    ensures var next := Attempted(d, QUIET); |next.queue| + |next.pending| < |d.queue| + |d.pending|
  {
    PromotionShrinks(d.queue, d.pending, d.InFlight());
  }

  /** Undisturbed, only a missing pool keeps an attempt from going on. */
  lemma QuietLeaves(d: Desk)
    requires d.pending != [] && Leaves(d, QUIET)
    ensures Attempted(d, QUIET) == d
  {
  }

  function Dispatching(d: Desk, input: Input): Turned {
    var sent := Dispatched(d, input.attempts);
    if !sent.alive then sent
    else if sent.desk.InFlight() == {} && sent.desk.pending == [] && sent.desk.queue == [] then
      Waiting(sent.desk, input.next)
    else Turned(ReadingOne(sent.desk, input.outcome), true)
  }

  /** Refill the empty buffer, explicit work first and the sweep only when none is
      queued, and dispatch; unless there turns out to be nothing left to do. */
  function Refilling(d: Desk, input: Input): Turned {
    var drained := Drain(d);
    if Sweeps(drained) && input.sweepFails then Failing(drained, input.next)
    else
      var refilled := if Sweeps(drained) then Swept(drained, input.needy) else drained;
      if refilled.pending == [] && refilled.InFlight() == {} && refilled.queue == [] then
        CaughtUp(refilled, input.next)
      else Dispatching(refilled, input)
  }

  function Feeding(d: Desk, input: Input): Turned {
    var spawned := Spawning(d);
    if spawned.pending == [] then Refilling(spawned, input) else Dispatching(spawned, input)
  }

  // ---- A turn, and any number of turns ----

  /** What follows the top of the loop. */
  function Rest(top: Desk, input: Input): Turned {
    if top.Now().phase.Rejected? then Stopping(top, top.Now().phase.detail, input.next)
    else if NothingToFind(top) then Resting(top, input.outcomes, input.outcome, input.next)
    else if top.Now().counts.total.Some? then Feeding(top, input)
    else if !top.LiveMask().IsEmpty() && input.sizeFails then Failing(top, input.next)
    else Feeding(Sized(top, Elements(input.needy)), input)
  }

  function Turn(d: Desk, input: Input): Turned {
    if BeforeShutdown(input.commands) != input.commands then
      Turned(TakingAll(d, BeforeShutdown(input.commands)), false)
    else
      Rest(Topped(d, input.commands), input)
  }

  function Turns(d: Desk, inputs: seq<Input>): Turned
    decreases |inputs|
  {
    if inputs == [] then Turned(d, true)
    else
      var first := Turn(d, inputs[0]);
      if first.alive then Turns(first.desk, inputs[1..]) else first
  }
}
