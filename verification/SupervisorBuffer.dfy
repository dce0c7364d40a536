/** What the supervisor's queue and buffer may hold, and what each of its steps does to them. */
module SupervisorBuffer {
  import opened Wrappers
  import opened Numbers
  import opened ExplicitWork
  import opened SupervisorLog

  // ---- What dispatching relies on ----

  /** Queue and buffer hold the kinds of items they may hold. */
  ghost predicate WellFormed(queue: seq<Item>, pending: seq<Item>) {
    && AllExplicit(queue) && NonEmptyMasks(queue)
    && OneKind(pending) && NonEmptyMasks(pending) && DistinctIds(pending)
  }

  /** A buffered track is not in flight, and a track that a worker may still have was
      handed over once and is in flight; each but for the tracks set aside. `live` holds
      the tracks handed over since the in-flight set was last cleared, until their
      outcome is read. */
  ghost predicate Tracked(
      pending: seq<Item>, inFlight: set<nat>, live: multiset<nat>, raced: set<nat>, untracked: set<nat>) {
    && (forall x :: x in Ids(pending) && x in inFlight ==> x in raced)
    && (forall x :: x in live && x !in raced && x !in untracked ==> x in inFlight && live[x] == 1)
  }

  /** With no track set aside: buffer and in-flight set are disjoint, and workers hold
      tracked tracks only, each once. */
  lemma TrackedMeans(pending: seq<Item>, inFlight: set<nat>, live: multiset<nat>)
    ensures Tracked(pending, inFlight, live, {}, {}) <==> Ids(pending) !! inFlight && live <= multiset(inFlight)
  {
    if live <= multiset(inFlight) {
      forall x | x in live ensures x in inFlight && live[x] == 1 {
        assert live[x] <= multiset(inFlight)[x];
      }
    }
    if Tracked(pending, inFlight, live, {}, {}) {
      forall x ensures live[x] <= multiset(inFlight)[x] {
        if x in live { assert live[x] == 1; }
      }
    }
  }

  /** What is queued, or buffered as explicit work, was requested just so; and whatever is
      still owed is queued or buffered. */
  ghost predicate Asked(queue: seq<Item>, pending: seq<Item>, asks: Asks) {
    && (forall item :: item in queue ==> WasRequested(item, asks))
    && (forall item :: item in pending && item.isExplicit ==> WasRequested(item, asks))
    && (forall x :: x in asks.owed ==> Wanted(queue, pending, x))
  }

  predicate WasRequested(item: Item, asks: Asks) {
    item.trackId in asks.tracks && Request(item.trackId, item.capabilities) in asks.requests
  }

  predicate Wanted(queue: seq<Item>, pending: seq<Item>, x: nat) {
    x in Ids(queue) || ExplicitlyPending(pending, x)
  }

  ghost predicate Buffered(queue: seq<Item>, pending: seq<Item>, h: Handling, asks: Asks) {
    && WellFormed(queue, pending)
    && Tracked(pending, h.inFlight, h.live, h.raced, h.untracked)
    && Asked(queue, pending, asks)
  }

  lemma PrioritizedIsAsked(queue: seq<Item>, pending: seq<Item>, inFlight: set<nat>, asks: Asks)
    requires AllExplicit(queue) && Asked(queue, pending, asks)
    ensures var (queue', pending') := Prioritized(queue, pending, inFlight); Asked(queue', pending', asks)
  {
    var (queue', pending') := Prioritized(queue, pending, inFlight);
    assert queue == [] ==> queue' == [] && pending' == pending;
    hide Prioritized;
    forall item | item in queue' || (item in pending' && item.isExplicit) ensures WasRequested(item, asks) {
      PromotionKeepsItems(queue, pending, inFlight, item);
    }
    forall x | x in asks.owed ensures Wanted(queue', pending', x) {
      PromotionConserves(queue, pending, inFlight, x);
    }
  }

  lemma PrioritizedIsBuffered(queue: seq<Item>, pending: seq<Item>, h: Handling, asks: Asks)
    requires Buffered(queue, pending, h, asks)
    ensures var (queue', pending') := Prioritized(queue, pending, h.inFlight); Buffered(queue', pending', h, asks)
  {
    hide Prioritized;
    PrioritizedWellFormed(queue, pending, h.inFlight);
    PrioritizedIsAsked(queue, pending, h.inFlight, asks);
  }

  /** After a teardown: the rebuilt queue, nothing buffered, nothing in flight. */
  lemma RebuiltIsBuffered(queue: seq<Item>, pending: seq<Item>, h: Handling, asks: Asks, stale: multiset<nat>)
    requires Buffered(queue, pending, h, asks)
    ensures Buffered(ExplicitOnly(pending) + queue, [], Handling({}, multiset{}, stale, {}, {}), asks)
  {
    var rebuilt := ExplicitOnly(pending) + queue;
    ExplicitOnlyOfOneKind(pending);
    IdsOfConcat(ExplicitOnly(pending), queue);
    forall item | item in rebuilt ensures WasRequested(item, asks) {
      if item in ExplicitOnly(pending) { ExplicitOnlyItems(pending, item); }
    }
    forall x | x in asks.owed ensures x in Ids(rebuilt) {
      ExplicitOnlyIds(pending, x);
    }
  }

  /** The queue with what one command requests. */
  lemma RequestedIsBuffered(queue: seq<Item>, pending: seq<Item>, h: Handling, asks: Asks, command: Command)
    requires Buffered(queue, pending, h, asks)
    ensures Buffered(QueueAfter(queue, command), pending, h, NextAsks(asks, Took(command)))
  {
    if command.ExplicitRun? && !command.capabilities.IsEmpty() {
      var added := NewRequests(command.trackIds, command.capabilities, Ids(queue));
      var asks' := NextAsks(asks, Took(command));
      IdsOfConcat(queue, added);
      forall item | item in added
        ensures WasRequested(item, asks') && item.isExplicit && item.capabilities == command.capabilities
      {
        NewRequestsItems(command.trackIds, command.capabilities, Ids(queue), item);
      }
      forall x | x in asks'.owed ensures Wanted(queue + added, pending, x) {
        NewRequestsIds(command.trackIds, command.capabilities, Ids(queue), x);
      }
    }
  }

  /** What a request queues asks for the requested capabilities. */
  lemma {:induction false} NewRequestsItems(trackIds: seq<nat>, mask: Capabilities, queued: set<nat>, item: Item)
    requires item in NewRequests(trackIds, mask, queued)
    ensures item.trackId in trackIds && item == Item(item.trackId, mask, true)
  {
    if trackIds != [] {
      var front, last := trackIds[..|trackIds| - 1], trackIds[|trackIds| - 1];
      assert trackIds == front + [last];
      if item in NewRequests(front, mask, queued) { NewRequestsItems(front, mask, queued, item); }
    }
  }

  /** An emptied buffer, once nobody waits for what was in it. */
  lemma EmptiedIsBuffered(queue: seq<Item>, pending: seq<Item>, h: Handling, asks: Asks)
    requires Buffered(queue, pending, h, asks)
    ensures Buffered(queue, [], h, asks.(owed := asks.owed - Ids(ExplicitOnly(pending))))
  {
    forall x | x in asks.owed && x !in Ids(ExplicitOnly(pending)) ensures x in Ids(queue) {
      ExplicitOnlyIds(pending, x);
    }
  }

  /** What reading one outcome does to the tracking. */
  lemma OutcomeKeepsBuffered(
      queue: seq<Item>, pending: seq<Item>, h: Handling, asks: Asks, x: nat, counted: bool, straggler: bool)
    requires Buffered(queue, pending, h, asks) && x in (if straggler then h.stale else h.live)
    ensures Buffered(queue, pending, AfterOutcome(h, x, counted, straggler), asks)
    ensures var h' := AfterOutcome(h, x, counted, straggler);
      !straggler && !Spoiled(h', x) && (!counted || HasSettled(h.inFlight, h.live)) ==> HasSettled(h'.inFlight, h'.live)
  {
    hide Tracked, HasSettled, WellFormed, Asked;
    if straggler {
      StragglerUntracksIff(pending, h.inFlight, h.live, h.raced, h.untracked, x);
    } else {
      FoldingKeepsTracking(pending, h.inFlight, h.live, h.raced, h.untracked, x);
    }
  }

  lemma PrioritizedWellFormed(queue: seq<Item>, pending: seq<Item>, inFlight: set<nat>)
    requires WellFormed(queue, pending)
    ensures var (queue', pending') := Prioritized(queue, pending, inFlight);
      && WellFormed(queue', pending')
      && Ids(pending') * inFlight <= Ids(pending)
      && (AllExplicit(pending) ==> pending <= pending')
      && (queue != [] ==> AllExplicit(pending'))
      && (queue == [] ==> pending' == pending)
      && (|pending'| < BATCH_SIZE ==> forall i :: 0 <= i < |queue'| ==> queue'[i].trackId in inFlight)
  {
    if queue != [] {
      var kept := ExplicitOnly(pending);
      ExplicitOnlyOfOneKind(pending);
      DrainAppends(queue, kept, inFlight, |queue|);
      DrainKeepsMasks(queue, kept, inFlight, |queue|);
      DrainLeavesInFlight(queue, kept, inFlight, |queue|);
      var (queue', pending') := Prioritized(queue, pending, inFlight);
      forall x | x in Ids(pending') && x in inFlight ensures x in Ids(pending) {
        var i :| 0 <= i < |pending'| && pending'[i].trackId == x;
        assert pending'[i] == kept[i] && kept[i].trackId in Ids(pending);
      }
    }
  }

  /** Some track is in flight although no outcome of it is to come. */
  ghost predicate HasSettled(inFlight: set<nat>, live: multiset<nat>) {
    exists x :: x in inFlight && x !in live
  }

  /** Folding in an outcome of the current pool keeps the tracking, whether its track
      leaves the in-flight set or, for a rejected write, stays in it. */
  lemma FoldingKeepsTracking(
      pending: seq<Item>, inFlight: set<nat>, live: multiset<nat>, raced: set<nat>, untracked: set<nat>, trackId: nat)
    requires Tracked(pending, inFlight, live, raced, untracked) && trackId in live
    ensures Tracked(pending, inFlight - {trackId}, live - multiset{trackId}, raced, untracked)
    ensures Tracked(pending, inFlight, live - multiset{trackId}, raced, untracked)
    // A rejected write, this one or an earlier one, keeps the pool from looking quiet.
    ensures HasSettled(inFlight, live) ==> HasSettled(inFlight - {trackId}, live - multiset{trackId})
    ensures trackId !in raced && trackId !in untracked ==> HasSettled(inFlight, live - multiset{trackId})
  {
    if HasSettled(inFlight, live) {
      var x :| x in inFlight && x !in live;
      assert x in inFlight - {trackId} && x !in live - multiset{trackId};
    }
    if trackId !in raced && trackId !in untracked {
      assert trackId in inFlight && trackId !in live - multiset{trackId};
    }
    var rest := live - multiset{trackId};
    forall x | x in rest && x !in raced && x !in untracked ensures x != trackId && x in inFlight && rest[x] == 1 {
      assert x in live && rest[x] <= live[x];
    }
  }

  /** An outcome of an earlier pool untracks a track exactly when the track is out
      again, and then no other one. */
  lemma StragglerUntracksIff(
      pending: seq<Item>, inFlight: set<nat>, live: multiset<nat>, raced: set<nat>, untracked: set<nat>, trackId: nat)
    requires Tracked(pending, inFlight, live, raced, untracked)
    ensures Tracked(pending, inFlight - {trackId}, live, raced, untracked + {trackId})
    ensures trackId !in live ==> Tracked(pending, inFlight - {trackId}, live, raced, untracked)
    ensures trackId in live && trackId !in raced && trackId !in untracked ==>
      !Tracked(pending, inFlight - {trackId}, live, raced, untracked)
  {
  }

  // ---- The race between reading the front and popping it ----

  /** Promotion puts another item in front of the one just read exactly when that one
      is background and some queued track is ready. */
  lemma FrontChangesIff(queue: seq<Item>, pending: seq<Item>, inFlight: set<nat>)
    requires WellFormed(queue, pending) && pending != []
    ensures var pending' := Prioritized(queue, pending, inFlight).1;
      (pending' != [] && pending'[0] != pending[0])
      <==> !pending[0].isExplicit && exists i :: 0 <= i < |queue| && queue[i].trackId !in inFlight
  {
    PrioritizedWellFormed(queue, pending, inFlight);
    var pending' := Prioritized(queue, pending, inFlight).1;
    if pending[0].isExplicit {
      assert pending <= pending';
    } else if queue != [] {
      BackgroundGivesWay(queue, pending, inFlight);
      ReadyIdsAre(queue, inFlight, {});
      var ready := ReadyIds(queue, inFlight, {});
      if i :| 0 <= i < |queue| && queue[i].trackId !in inFlight {
        assert queue[i].trackId in Ids(queue) && queue[i].trackId in ready;
        assert TrackIds(pending') != [] && pending'[0].isExplicit;
      }
      if pending' != [] {
        assert TrackIds(pending')[0] == ready[0] && ready[0] in ready;
      }
    }
  }

  /** Queued work takes the place of background work: the first ready tracks. */
  lemma BackgroundGivesWay(queue: seq<Item>, pending: seq<Item>, inFlight: set<nat>)
    requires WellFormed(queue, pending) && pending != [] && !pending[0].isExplicit && queue != []
    ensures var ready := ReadyIds(queue, inFlight, {});
      TrackIds(Prioritized(queue, pending, inFlight).1) == ready[..Min(BATCH_SIZE, |ready|)]
  {
    ExplicitOnlyOfOneKind(pending);
    DrainedAreReady(queue, [], inFlight, |queue|);
    assert queue[..|queue|] == queue && Ids([]) == {};
  }

  /** The track just read as background work is also requested explicitly, close enough
      behind another ready request that one promotion buffers both. */
  ghost predicate RequestedBehind(queue: seq<Item>, pending: seq<Item>, inFlight: set<nat>)
    requires pending != []
  {
    var ready := ReadyIds(queue, inFlight, {});
    !pending[0].isExplicit && exists n :: 0 < n < |ready| && n < BATCH_SIZE && ready[n] == pending[0].trackId
  }

  lemma BufferedAgainIff(queue: seq<Item>, pending: seq<Item>, inFlight: set<nat>)
    requires WellFormed(queue, pending) && pending != []
    ensures pending[0].trackId in Ids(PopFront(Prioritized(queue, pending, inFlight).1))
      <==> RequestedBehind(queue, pending, inFlight)
  {
    PrioritizedWellFormed(queue, pending, inFlight);
    var pending' := Prioritized(queue, pending, inFlight).1;
    var trackId := pending[0].trackId;
    if pending[0].isExplicit || queue == [] {
      assert pending' != [] && pending'[0] == pending[0] && DistinctIds(pending');
    } else {
      BackgroundGivesWay(queue, pending, inFlight);
      var ready := ReadyIds(queue, inFlight, {});
      if n :| 0 < n < |ready| && n < BATCH_SIZE && ready[n] == trackId {
        assert TrackIds(pending')[n] == trackId;
        assert PopFront(pending')[n - 1] == pending'[n];
      }
      if trackId in Ids(PopFront(pending')) {
        var i :| 0 <= i < |PopFront(pending')| && PopFront(pending')[i].trackId == trackId;
        assert TrackIds(pending')[i + 1] == trackId && ready[i + 1] == trackId;
      }
    }
  }

  /** Handing a track over and popping the front leaves all other tracks tracked, and
      that one unless it is buffered once more. */
  lemma SendTracks(
      before: seq<Item>, inFlight: set<nat>, live: multiset<nat>, raced: set<nat>, untracked: set<nat>, trackId: nat)
    requires Tracked(before, inFlight, live, raced, untracked)
    requires trackId in inFlight ==> trackId in raced
    ensures var again := trackId in Ids(PopFront(before));
      Tracked(PopFront(before), inFlight + {trackId}, live + multiset{trackId},
              if again then raced + {trackId} else raced, untracked)
  {
    var after := live + multiset{trackId};
    assert Ids(PopFront(before)) <= Ids(before);
    forall x | x in after && x !in raced && x !in untracked ensures x in inFlight + {trackId} && after[x] == 1 {
      if x == trackId {
        assert x !in live;
      }
    }
  }

  /** The track whose request goes away with the front. */
  function FrontAsked(pending: seq<Item>): set<nat> {
    if pending != [] && pending[0].isExplicit then {pending[0].trackId} else {}
  }

  lemma PoppedIsBuffered(queue: seq<Item>, before: seq<Item>, h: Handling, asks: Asks)
    requires Buffered(queue, before, h, asks)
    ensures Buffered(queue, PopFront(before), h, asks.(owed := asks.owed - FrontAsked(before)))
  {
    assert WellFormed(queue, PopFront(before)) && Ids(PopFront(before)) <= Ids(before);
    forall x | x in asks.owed && x !in FrontAsked(before) && x !in Ids(queue)
      ensures ExplicitlyPending(PopFront(before), x)
    {
      var i :| 0 <= i < |before| && before[i].isExplicit && before[i].trackId == x;
      assert PopFront(before)[i - 1] == before[i];
    }
  }

  /** The same with the track that is handed over. */
  lemma SendKeepsBuffered(
      queue: seq<Item>, before: seq<Item>, h: Handling, asks: Asks, x: nat, mask: Capabilities, asked: bool)
    requires Buffered(queue, before, h, asks) && (x in h.inFlight ==> x in h.raced)
    ensures Buffered(
      queue, PopFront(before), NextHandling(h, Sent(x, mask, x in Ids(PopFront(before)), asked)),
      asks.(owed := asks.owed - FrontAsked(before)))
  {
    PoppedIsBuffered(queue, before, h, asks);
    SendTracks(before, h.inFlight, h.live, h.raced, h.untracked, x);
  }

  /** A track is buffered again only if it is queued. */
  lemma BufferedAgainIsQueued(queue: seq<Item>, pending: seq<Item>, inFlight: set<nat>)
    requires pending != [] && RequestedBehind(queue, pending, inFlight)
    ensures pending[0].trackId in Ids(queue)
  {
    ReadyIdsAre(queue, inFlight, {});
    var ready := ReadyIds(queue, inFlight, {});
    var n :| 0 < n < |ready| && n < BATCH_SIZE && ready[n] == pending[0].trackId;
    assert ready[n] in ready;
  }

  /** Handing over the item read before the promotion keeps every track with at most
      one worker exactly when its track was not requested behind another ready one. */
  lemma SendKeepsDispatchIff(queue: seq<Item>, pending: seq<Item>, inFlight: set<nat>, live: multiset<nat>)
    requires WellFormed(queue, pending) && pending != [] && Tracked(pending, inFlight, live, {}, {})
    ensures var after := PopFront(Prioritized(queue, pending, inFlight).1);
      var trackId := pending[0].trackId;
      Tracked(after, inFlight + {trackId}, live + multiset{trackId}, {}, {})
      <==> !RequestedBehind(queue, pending, inFlight)
  {
    PrioritizedWellFormed(queue, pending, inFlight);
    BufferedAgainIff(queue, pending, inFlight);
    var trackId := pending[0].trackId;
    assert trackId in Ids(pending);
    SendTracks(Prioritized(queue, pending, inFlight).1, inFlight, live, {}, {}, trackId);
  }

  /** A state where the race strikes: track 7 is read as background work, then
      tracks 8 and 7 are requested. Track 8 is popped unsent, and track 7 is
      buffered for a second worker while the first still has it. */
  lemma RaceLosesAndDoubles(mask: Capabilities)
    requires !mask.IsEmpty()
    ensures var read := Item(7, mask, false);
      var queue := [Item(8, mask, true), Item(7, mask, true)];
      var (queue', pending') := Prioritized(queue, [read], {});
      && WellFormed(queue, [read]) && Tracked([read], {}, multiset{}, {}, {})
      && 8 !in Ids(queue') && 8 !in Ids(PopFront(pending'))
      && 7 in Ids(PopFront(pending'))
      && !Tracked(PopFront(pending'), {7}, multiset{7}, {}, {})
  {
    var read := Item(7, mask, false);
    var e8, e7 := Item(8, mask, true), Item(7, mask, true);
    assert [e8, e7][1..] == [e7] && [e7][1..] == [];
    assert Drained([], [e8, e7], {}, 0) == ([], [e8, e7]);
    assert !ExplicitlyPending([e8], 7);
    assert [e8] + [e7] == [e8, e7] && [] + [e8] == [e8];
    assert Drained([e7], [e8], {}, 1) == ([], [e8, e7]);
    assert Drained([e8, e7], [], {}, 2) == ([], [e8, e7]);
    assert ExplicitOnly([read]) == [];
    assert PopFront([e8, e7]) == [e7] && [e7][0].trackId in Ids([e7]);
  }

  // ---- Refilling from the store ----

  /** The store answers with distinct needy tracks, as many as the limit allows. */
  ghost predicate StoreAnswer(found: seq<nat>, needy: set<nat>, limit: nat) {
    && (forall i, k :: 0 <= i < k < |found| ==> found[i] != found[k])
    && (forall i :: 0 <= i < |found| ==> found[i] in needy)
    && |found| == if |needy| <= limit then |needy| else limit
  }

  function NotInFlight(found: seq<nat>, inFlight: set<nat>): seq<nat> {
    if found == [] then []
    else
      var front, last := found[..|found| - 1], found[|found| - 1];
      NotInFlight(front, inFlight) + (if last in inFlight then [] else [last])
  }

  lemma {:induction false} NotInFlightCount(found: seq<nat>, needy: set<nat>, inFlight: set<nat>)
    requires forall i, k :: 0 <= i < k < |found| ==> found[i] != found[k]
    requires forall i :: 0 <= i < |found| ==> found[i] in needy
    ensures |NotInFlight(found, inFlight)| + |needy * inFlight| >= |found|
    decreases |found|
  {
    if found != [] {
      var front, last := found[..|found| - 1], found[|found| - 1];
      if last in inFlight {
        NotInFlightCount(front, needy, inFlight - {last});
        SameFilter(front, inFlight, last);
        assert needy * (inFlight - {last}) == needy * inFlight - {last};
      } else {
        NotInFlightCount(front, needy, inFlight);
      }
    }
  }

  lemma {:induction false} SameFilter(found: seq<nat>, inFlight: set<nat>, other: nat)
    requires other !in found
    ensures NotInFlight(found, inFlight - {other}) == NotInFlight(found, inFlight)
  {
    if found != [] {
      SameFilter(found[..|found| - 1], inFlight, other);
    }
  }

  lemma FewerInSubset(xs: set<nat>, ys: set<nat>)
    requires xs <= ys
    ensures |xs| <= |ys|
  {
    assert ys == xs + (ys - xs);
  }

  /** Asking for the in-flight count on top of the room keeps at least as many
      tracks as there are: the room, or all needy tracks not in flight. */
  lemma RefillKeepsEnough(found: seq<nat>, needy: set<nat>, inFlight: set<nat>, room: nat)
    requires StoreAnswer(found, needy, room + |inFlight|)
    ensures |NotInFlight(found, inFlight)| >= (if room <= |needy - inFlight| then room else |needy - inFlight|)
  {
    NotInFlightCount(found, needy, inFlight);
    assert needy == (needy - inFlight) + needy * inFlight;
    FewerInSubset(needy * inFlight, inFlight);
  }

  lemma {:induction false} NotInFlightMembers(found: seq<nat>, inFlight: set<nat>)
    requires forall i, k :: 0 <= i < k < |found| ==> found[i] != found[k]
    ensures forall x :: x in NotInFlight(found, inFlight) <==> x in found && x !in inFlight
    ensures forall i, k :: 0 <= i < k < |NotInFlight(found, inFlight)| ==>
      NotInFlight(found, inFlight)[i] != NotInFlight(found, inFlight)[k]
  {
    if found != [] {
      var front, last := found[..|found| - 1], found[|found| - 1];
      NotInFlightMembers(front, inFlight);
      assert found == front + [last] && last !in front;
    }
  }

  /** Explicit work that is all in flight leaves the buffer as it is. */
  lemma {:induction false} NothingReadyToDrain(
      queue: seq<Item>, pending: seq<Item>, inFlight: set<nat>, steps: nat)
    requires steps <= |queue|
    requires forall i :: 0 <= i < |queue| ==> queue[i].trackId in inFlight
    ensures Drained(queue, pending, inFlight, steps).1 == pending
    ensures |Drained(queue, pending, inFlight, steps).0| == |queue|
    decreases steps
  {
    if steps > 0 && |pending| < BATCH_SIZE {
      NothingReadyToDrain(queue[1..] + [queue[0]], pending, inFlight, steps - 1);
    }
  }

  lemma NothingReadyIsBuffered(queue: seq<Item>, h: Handling, asks: Asks)
    requires Buffered(queue, [], h, asks)
    requires forall i :: 0 <= i < |queue| ==> queue[i].trackId in h.inFlight
    ensures var (queue', pending') := Drained(queue, [], h.inFlight, |queue|);
      pending' == [] && |queue'| == |queue| && Buffered(queue', [], h, asks)
  {
    NothingReadyToDrain(queue, [], h.inFlight, |queue|);
    DrainKeepsMasks(queue, [], h.inFlight, |queue|);
    DrainAppends(queue, [], h.inFlight, |queue|);
    DrainConservesIds(queue, [], h.inFlight, |queue|);
    var queue' := Drained(queue, [], h.inFlight, |queue|).0;
    forall item | item in queue' ensures WasRequested(item, asks) {
      DrainKeepsItems(queue, [], h.inFlight, |queue|, item);
    }
  }

  /** A batch of the sweep, buffered where nothing was. */
  lemma BatchIsBuffered(
      queue: seq<Item>, h: Handling, asks: Asks, found: seq<nat>, mask: Capabilities)
    requires Buffered(queue, [], h, asks) && !mask.IsEmpty()
    requires forall i, k :: 0 <= i < k < |found| ==> found[i] != found[k]
    ensures var batch := BackgroundItems(NotInFlight(found, h.inFlight), mask);
      && Buffered(queue, batch, h, asks) && AllBackground(batch) && Ids(batch) !! h.inFlight
      && forall i :: 0 <= i < |batch| ==> batch[i].trackId in found
  {
    NotInFlightMembers(found, h.inFlight);
  }

  function Elements(found: seq<nat>): set<nat> {
    set x | x in found
  }

  lemma {:induction false} DistinctCount(found: seq<nat>)
    requires forall i, k :: 0 <= i < k < |found| ==> found[i] != found[k]
    ensures |Elements(found)| == |found|
  {
    if found != [] {
      var front, last := found[..|found| - 1], found[|found| - 1];
      DistinctCount(front);
      assert found == front + [last] && last !in front;
      assert Elements(found) == Elements(front) + {last};
    }
  }

  // ---- What a request queues ----

  /** The items an explicit run adds: those whose track was not queued before the run came. */
  function NewRequests(trackIds: seq<nat>, mask: Capabilities, queued: set<nat>): seq<Item> {
    if trackIds == [] then []
    else
      var front, last := trackIds[..|trackIds| - 1], trackIds[|trackIds| - 1];
      NewRequests(front, mask, queued) + (if last in queued then [] else [Item(last, mask, true)])
  }

  /** A request leaves every requested track queued, and adds none that was. */
  lemma {:induction false} NewRequestsIds(trackIds: seq<nat>, mask: Capabilities, queued: set<nat>, x: nat)
    ensures x in Ids(NewRequests(trackIds, mask, queued)) <==> x in trackIds && x !in queued
  {
    if trackIds != [] {
      var front, last := trackIds[..|trackIds| - 1], trackIds[|trackIds| - 1];
      NewRequestsIds(front, mask, queued, x);
      IdsOfAppend(NewRequests(front, mask, queued), Item(last, mask, true));
      assert trackIds == front + [last];
      assert NewRequests(front, mask, queued) + [] == NewRequests(front, mask, queued);
    }
  }

  function QueueAfter(queue: seq<Item>, command: Command): seq<Item> {
    if command.ExplicitRun? && !command.capabilities.IsEmpty() then
      queue + NewRequests(command.trackIds, command.capabilities, Ids(queue))
    else queue
  }

  /** Each occurrence of a track that was not queued adds an item. */
  lemma {:induction false} NewRequestsAre(trackIds: seq<nat>, mask: Capabilities, queued: set<nat>)
    ensures DistinctIds(NewRequests(trackIds, mask, queued))
      <==> forall i, k :: 0 <= i < k < |trackIds| && trackIds[i] == trackIds[k] ==> trackIds[i] in queued
  {
    if trackIds != [] {
      var front, last := trackIds[..|trackIds| - 1], trackIds[|trackIds| - 1];
      var added := NewRequests(front, mask, queued);
      NewRequestsAre(front, mask, queued);
      NewRequestsIds(front, mask, queued, last);
      assert added + [] == added;
      if last !in queued {
        assert NewRequests(trackIds, mask, queued) == added + [Item(last, mask, true)];
        DistinctAppend(added, Item(last, mask, true));
        if last in front {
          var i :| 0 <= i < |front| && front[i] == last;
          assert trackIds[i] == trackIds[|trackIds| - 1];
        }
      }
      assert forall i :: 0 <= i < |front| ==> front[i] == trackIds[i];
    }
  }

  lemma DistinctAppend(items: seq<Item>, item: Item)
    ensures DistinctIds(items + [item]) <==> DistinctIds(items) && item.trackId !in Ids(items)
  {
    var all := items + [item];
    assert forall i :: 0 <= i < |items| ==> all[i] == items[i];
    if i :| 0 <= i < |items| && items[i].trackId == item.trackId {
      assert all[i].trackId == all[|items|].trackId;
    }
  }

  /** The queue stays free of repeats exactly when the request repeats no track it
      adds, and apart from the buffer exactly when it adds no buffered track. */
  lemma QueueStaysDistinctIff(queue: seq<Item>, pending: seq<Item>, trackIds: seq<nat>, mask: Capabilities)
    requires !mask.IsEmpty()
    ensures var queue' := QueueAfter(queue, ExplicitRun(trackIds, mask));
      && (DistinctIds(queue') <==>
            && DistinctIds(queue)
            && forall i, k :: 0 <= i < k < |trackIds| && trackIds[i] == trackIds[k] ==> trackIds[i] in Ids(queue))
      && (Ids(queue') !! Ids(pending) <==>
            && Ids(queue) !! Ids(pending)
            && forall i :: 0 <= i < |trackIds| && trackIds[i] in Ids(pending) ==> trackIds[i] in Ids(queue))
  {
    var queued := Ids(queue);
    var added := NewRequests(trackIds, mask, queued);
    NewRequestsAre(trackIds, mask, queued);
    forall x ensures x in Ids(added) <==> x in trackIds && x !in queued {
      NewRequestsIds(trackIds, mask, queued, x);
    }
    DistinctConcat(queue, added);
    IdsOfConcat(queue, added);
  }

  lemma DistinctConcat(xs: seq<Item>, ys: seq<Item>)
    requires Ids(xs) !! Ids(ys)
    ensures DistinctIds(xs + ys) <==> DistinctIds(xs) && DistinctIds(ys)
  {
    var all := xs + ys;
    assert forall i :: 0 <= i < |xs| ==> all[i] == xs[i] && xs[i].trackId in Ids(xs);
    assert forall i :: 0 <= i < |ys| ==> all[|xs| + i] == ys[i] && ys[i].trackId in Ids(ys);
    if DistinctIds(all) {
      forall i, k | 0 <= i < k < |ys| ensures ys[i].trackId != ys[k].trackId {
        assert all[|xs| + i].trackId != all[|xs| + k].trackId;
      }
    }
  }

  lemma IdsOfConcat(xs: seq<Item>, ys: seq<Item>)
    ensures Ids(xs + ys) == Ids(xs) + Ids(ys)
  {
    var all := xs + ys;
    assert forall i :: 0 <= i < |xs| ==> all[i] == xs[i];
    assert forall i :: 0 <= i < |ys| ==> all[|xs| + i] == ys[i];
  }

  /** One request can queue a track twice, and one that is buffered already. */
  lemma RequestRepeats(trackId: nat, mask: Capabilities)
    requires !mask.IsEmpty()
    ensures var item := Item(trackId, mask, true);
      && QueueAfter([], ExplicitRun([trackId, trackId], mask)) == [item, item]
      && Prioritized([item], [], {}) == ([], [item])
      && QueueAfter([], ExplicitRun([trackId], mask)) == [item]
  {
    OneRequest(trackId, mask);
    assert [trackId, trackId][..1] == [trackId];
  }

  lemma OneRequest(trackId: nat, mask: Capabilities)
    requires !mask.IsEmpty()
    ensures var item := Item(trackId, mask, true);
      && QueueAfter([], ExplicitRun([trackId], mask)) == [item] == NewRequests([trackId], mask, {})
      && Prioritized([item], [], {}) == ([], [item]) && Prioritized([], [item], {}) == ([], [item])
  {
    var item := Item(trackId, mask, true);
    assert [trackId][..0] == [] && Ids([]) == {};
    assert NewRequests([], mask, {}) == [];
    assert [item][1..] == [] && [] + [item] == [item];
    assert Drained([], [item], {}, 0) == ([], [item]);
    assert ExplicitOnly([]) == [];
  }

  function BackgroundItems(trackIds: seq<nat>, mask: Capabilities): seq<Item> {
    seq(|trackIds|, i requires 0 <= i < |trackIds| => Item(trackIds[i], mask, false))
  }
}
