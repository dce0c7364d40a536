/** Where the supervisor loses a request, gives one track to two workers, or hides a
    rejected write: exactly when one attempt does, and runs that get there. */
module SupervisorFailures {
  import opened Wrappers
  import opened Numbers
  import opened ExplicitWork
  import opened SupervisorLog
  import opened SupervisorBuffer
  import opened SupervisorTurn
  import opened SupervisorSoundness
  import opened SupervisorPromises

  // ---- One dispatch attempt ----

  ghost predicate LosesRequest(before: seq<Event>, after: seq<Event>) {
    exists i :: |before| <= i < |after| && after[i].Dropped? && after[i].asked
  }

  /** The item that was read goes out exactly when it is to be analyzed at all, is still in
      the store and there is room in the channel; and no other does. */
  lemma AttemptSends(d: Desk, a: Attempt, x: nat)
    requires Ready(d) && d.pending != [] && a.command != Some(Shutdown) && Heard(d, a).HasPool()
    ensures var mask := MaskOf(Heard(d, a), d.pending[0]);
      WasSent(d.trace, Attempted(d, a).trace, x)
      <==> x == d.pending[0].trackId && !mask.IsEmpty() && !a.vanished && !a.full
  {
    var heard, front := Heard(d, a), d.pending[0];
    var p := Promoted(heard);
    hide Ready, StatusAfter, Prioritized, QueueAfter, PopFront;
    var t := Attempted(d, a).trace;
    assert forall i :: |d.trace| <= i < |heard.trace| ==> t[i] == heard.trace[i] && !t[i].Sent?;
    if !MaskOf(heard, front).IsEmpty() && !a.vanished && !a.full {
      assert t[|heard.trace|] == Sending(p, front);
    }
  }

  /** What is sent is buffered again, for a second worker, exactly when its track was also
      requested behind another ready one. */
  lemma AttemptDoublesIff(d: Desk, a: Attempt, i: nat)
    requires Ready(d) && d.pending != [] && a.command != Some(Shutdown) && Heard(d, a).HasPool()
    requires |d.trace| <= i < |Attempted(d, a).trace| && Attempted(d, a).trace[i].Sent?
    ensures Attempted(d, a).trace[i].again <==> RequestedBehind(Heard(d, a).queue, d.pending, d.InFlight())
  {
    HeardIsSound(d, a);
    PromotionWasRead(Heard(d, a));
    hide Ready, Sound, StatusAfter, WasRead, Prioritized, RequestedBehind, QueueAfter, PopFront;
  }

  /** An attempt throws a requested track away unsent exactly when the item read was
      requested and its track is gone from the store, or when it was background work and
      some queued track is ready, unless the channel is full. */
  lemma LosesRequestIff(d: Desk, a: Attempt)
    requires Ready(d) && d.pending != [] && a.command != Some(Shutdown) && Heard(d, a).HasPool()
    ensures var heard, front := Heard(d, a), d.pending[0];
      var ready := exists i :: 0 <= i < |heard.queue| && heard.queue[i].trackId !in d.InFlight();
      LosesRequest(d.trace, Attempted(d, a).trace)
      <==> if front.isExplicit then a.vanished else ready && !Blocked(heard, front, a)
  {
    HeardIsSound(d, a);
    var heard, front := Heard(d, a), d.pending[0];
    assert front.isExplicit ==> !front.capabilities.IsEmpty();
    FrontAfterPromotion(heard);
    HandingOverLoses(Promoted(heard), front, a);
    var t := Attempted(d, a).trace;
    hide Ready, Sound, StatusAfter, Prioritized, HandingOver, QueueAfter;
    assert t == HandingOver(Promoted(heard), front, a).trace && Promoted(heard).trace == heard.trace;
    assert forall i :: |d.trace| <= i < |heard.trace| ==> t[i] == heard.trace[i] && !t[i].Dropped?;
  }

  lemma HandingOverLoses(p: Desk, item: Item, a: Attempt)
    ensures var t := HandingOver(p, item, a).trace;
      && p.trace <= t
      && (LosesRequest(p.trace, t)
          <==> (p.pending != [] && p.pending[0].isExplicit && !Blocked(p, item, a)
                && (MaskOf(p, item).IsEmpty() || a.vanished || p.pending[0] != item)))
  {
    hide StatusAfter, PopFront;
    var t := HandingOver(p, item, a).trace;
    var dropped := FrontDropped(p.pending);
    if MaskOf(p, item).IsEmpty() || a.vanished {
      assert t == p.trace + dropped;
      if dropped != [] { assert t[|p.trace|] == dropped[0]; }
    } else if !a.full && p.pending != [] && p.pending[0] != item {
      assert t == p.trace + [Sending(p, item)] + dropped;
      assert t[|p.trace| + 1] == dropped[0];
    }
  }

  /** Promotion leaves requested work in front, and puts requested work in front of
      background work exactly when some is ready. */
  lemma FrontAfterPromotion(d: Desk)
    requires Sound(d) && d.pending != []
    ensures var p, front := Promoted(d), d.pending[0];
      && (front.isExplicit ==> p.pending != [] && p.pending[0] == front)
      && (!front.isExplicit ==>
            ((p.pending != [] && p.pending[0].isExplicit)
             <==> exists i :: 0 <= i < |d.queue| && d.queue[i].trackId !in d.InFlight()))
      && (p.pending != [] && !p.pending[0].isExplicit ==> p.pending[0] == front)
  {
    assert d.queue == [] ==> Promoted(d) == d;
    hide Lawful, StatusAfter, Prioritized, Tracked, Asked;
    FrontChangesIff(d.queue, d.pending, d.InFlight());
    PrioritizedWellFormed(d.queue, d.pending, d.InFlight());
  }

  // ---- Runs ----

  /** Nothing is queued, buffered or in flight, and work may be sent. */
  ghost predicate Waits(d: Desk) {
    Ready(d) && d.HasPool() && d.queue == [] && d.pending == [] && d.InFlight() == {}
  }

  /** A pool at work in a run whose size was taken. */
  function Begun(settings: Settings, usage: int): Desk {
    Spawning(Sized(Start(settings, usage, Some("")), {}))
  }

  lemma BegunWaits(settings: Settings, usage: int)
    ensures var d := Begun(settings, usage);
      && Waits(d) && d.Now().controls.path.Some?
      && d.Now().handling == Handling({}, multiset{}, multiset{}, {}, {}) && d.Now().counts == Counts(0, 0, Some(0))
  {
    var start := Start(settings, usage, Some(""));
    StartIsSound(settings, usage, Some(""));
    assert Ids(start.queue) == {};
    hide Sound, StatusAfter;
    SizedIsSound(start, {});
    NextNow(start, Snapshot(0, {}, {}));
    SpawningIsSound(Sized(start, {}));
  }

  /** One track is requested, promoted, and handed over if it is not in flight. */
  function Requesting(d: Desk, x: nat, mask: Capabilities): Desk {
    var promoted := Promoted(Taking(d, ExplicitRun([x], mask)));
    if promoted.pending == [] then promoted else Attempted(promoted, QUIET)
  }

  lemma RequestGoesOut(d: Desk, x: nat, mask: Capabilities)
    requires Waits(d) && !mask.IsEmpty()
    ensures var e, h := Requesting(d, x, mask), d.Now().handling;
      && Ready(e) && e.HasPool() && e.queue == [] && e.pending == [] && d.trace <= e.trace
      && e.Now().handling == h.(inFlight := {x}, live := h.live + multiset{x})
      && e.Now().counts == d.Now().counts && e.Now().controls == d.Now().controls
  {
    var command, item := ExplicitRun([x], mask), Item(x, mask, true);
    var taken := Taking(d, command);
    OneRequest(x, mask);
    TakingIsSound(d, command);
    PromotedIsSound(taken);
    var p := Promoted(taken);
    assert p.queue == [] && p.pending == [item];
    assert Promoted(p) == p;
    PromotionWasRead(p);
    SendIsSound(p, item);
    assert PopFront(p.pending) == [];
    hide Sound, Lawful, StatusAfter, WasRead;
  }

  /** Other resource usage tears the pool down with its outcomes unread. */
  function TearingDown(d: Desk): Desk {
    TornDown(Taking(d, ResourceUsageChanged(d.Now().controls.usage + 1)))
  }

  lemma TearingDownLeaves(d: Desk)
    requires Ready(d) && d.HasPool() && d.queue == [] && d.pending == []
    ensures var e, h := TearingDown(d), d.Now().handling;
      && Ready(e) && e.queue == [] && e.pending == [] && d.trace <= e.trace
      && e.Now().handling == Handling({}, multiset{}, h.stale + h.live, {}, {})
      && e.Now().counts == d.Now().counts && e.Now().controls.path == d.Now().controls.path
  {
    hide Sound, Lawful, StatusAfter;
    var command := ResourceUsageChanged(d.Now().controls.usage + 1);
    SoundIsKept(d);
    TakingIsSound(d, command);
    TornDownIsSound(Taking(d, command));
  }

  lemma SoundIsKept(d: Desk)
    requires Sound(d)
    ensures Kept(d)
  {
  }

  /** A track is handed over; the pool is torn down with the outcome unread; the track is
      requested and handed over again. The old outcome then untracks it, and a third
      request gives it to a second worker. */
  lemma StragglerDoublesTrack(settings: Settings, x: nat, mask: Capabilities)
    requires !mask.IsEmpty()
    ensures var again := Requesting(Spawning(TearingDown(Requesting(Begun(settings, 0), x, mask))), x, mask);
      var thrice := Requesting(Reading(again, Outcome(x, Analyzed, true)), x, mask);
      Lawful(thrice.trace) && thrice.Now().handling.live == multiset{x, x}
  {
    hide Sound, Kept, StatusAfter, Requesting, TearingDown, Spawning, Reading, Begun;
    var d := Begun(settings, 0);
    BegunWaits(settings, 0);
    RequestGoesOut(d, x, mask);
    var out := Requesting(d, x, mask);
    TearingDownLeaves(out);
    var torn := TearingDown(out);
    SpawningIsSound(torn);
    RequestGoesOut(Spawning(torn), x, mask);
    var again := Requesting(Spawning(torn), x, mask);
    var o := Outcome(x, Analyzed, true);
    ReadingIsSound(again, o);
    RequestGoesOut(Reading(again, o), x, mask);
    SoundIsKept(Requesting(Reading(again, o), x, mask));
    KeptIsLawful(Requesting(Reading(again, o), x, mask));
  }

  /** The same with a rejected write as the old outcome, read once the library path is
      gone: nothing is in flight, so the supervisor idles with the error untold. */
  lemma StragglerHidesRejection(settings: Settings, x: nat, mask: Capabilities, detail: string)
    requires !mask.IsEmpty()
    ensures var torn := TearingDown(Requesting(Begun(settings, 0), x, mask));
      var lost := Taking(torn, LibraryPathChanged(None));
      var idle := Resting(lost, [Outcome(x, PersistenceFailed(detail), true)], None, None).desk;
      && Lawful(idle.trace) && idle.Now().phase == Rejected(detail)
      && idle.trace == lost.trace + [Folded(x, PersistenceFailed(detail), true), Emptied({}), Told(Idle(0, 0))]
  {
    hide Sound, Lawful, StatusAfter, Requesting, TearingDown, Begun;
    var d := Begun(settings, 0);
    BegunWaits(settings, 0);
    RequestGoesOut(d, x, mask);
    TearingDownLeaves(Requesting(d, x, mask));
    var torn := TearingDown(Requesting(d, x, mask));
    SoundIsKept(torn);
    TakingIsSound(torn, LibraryPathChanged(None));
    var lost := Taking(torn, LibraryPathChanged(None));
    var o := Outcome(x, PersistenceFailed(detail), true);
    RestingEndsWell(lost, [o], None, None);
    ReadingIsSound(lost, o);
    assert ReadingAll(lost, [o]) == Reading(lost, o) by {
      assert [o][..0] == [];
      assert ReadingAll(lost, []) == lost;
    }
    var read := Reading(lost, o);
    NextNow(lost, Folded(x, o.kind, true));
    assert ExplicitOnly(read.pending) == [] && Ids([]) == {};
    var emptied := Unbuffered(read);
    NextNow(read, Emptied({}));
    NextNow(emptied, Told(Idle(0, 0)));
  }

  /** A request is promoted into the buffer, the library path goes away, and with nothing
      in flight the request is gone from queue and buffer, never sent. */
  lemma PathlessIdleDropsRequest(settings: Settings, x: nat, mask: Capabilities)
    requires !mask.IsEmpty()
    ensures var asked := Promoted(Taking(Begun(settings, 0), ExplicitRun([x], mask)));
      var idle := Resting(Taking(asked, LibraryPathChanged(None)), [], None, None).desk;
      && Lawful(idle.trace) && idle.queue == [] && idle.pending == []
      && x in asked.Now().asks.owed && !WasSent(asked.trace, idle.trace, x)
  {
    hide Sound, Lawful, StatusAfter, Begun;
    var d := Begun(settings, 0);
    BegunWaits(settings, 0);
    OneRequest(x, mask);
    SoundIsKept(d);
    TakingIsSound(d, ExplicitRun([x], mask));
    var asked := Promoted(Taking(d, ExplicitRun([x], mask)));
    PromotedIsSound(Taking(d, ExplicitRun([x], mask)));
    assert asked.queue == [] && asked.pending == [Item(x, mask, true)];
    assert x in [x];
    SoundIsKept(asked);
    TakingIsSound(asked, LibraryPathChanged(None));
    var lost := Taking(asked, LibraryPathChanged(None));
    RestingEndsWell(lost, [], None, None);
  }
}
