/** The work the analysis supervisor handles, and how explicit requests are promoted
    from their queue into the buffer of the next batch. */
module ExplicitWork {
  import opened Wrappers
  import opened Numbers

  const BATCH_SIZE: nat := 16

  datatype Capabilities = Capabilities(bpm: bool, key: bool, audio: bool) {
    predicate IsEmpty() { !bpm && !key && !audio }
  }

  datatype Settings = Settings(capabilities: Capabilities, bpmRange: int)

  datatype Item = Item(trackId: nat, capabilities: Capabilities, isExplicit: bool)

  datatype Command =
    | SettingsChanged(settings: Settings)
    | ResourceUsageChanged(usage: int)
    | LibraryPathChanged(path: Option<string>)
    | Wake
    | ExplicitRun(trackIds: seq<nat>, capabilities: Capabilities)
    | Shutdown

  datatype OutcomeKind = Analyzed | AnalysisFailed | PersistenceFailed(detail: string)

  datatype Progress =
    | Tick(completed: nat, failed: nat, total: nat)
    | Idle(completed: nat, failed: nat)
    | PersistenceError(detail: string)

  datatype Outcome = Outcome(trackId: nat, kind: OutcomeKind, straggler: bool)

  datatype Pool = Pool(usage: int, bpmRange: int)

  /** What the supervisor did, in order. A track that is sent may be buffered again, and
      goes out as asked or as background work; the item in front of the buffer may be
      dropped unsent, and the whole buffer too. An outcome may be a straggler of an
      earlier pool, and with the in-flight set the unread outcomes may be forgotten. */
  datatype Event =
    | Started(settings: Settings, usage: int, path: Option<string>)
    | Took(command: Command)
    | Spawned(pool: Pool)
    | Snapshot(total: nat, queued: set<nat>, needy: set<nat>)
    | StoreFailed
    | Sent(trackId: nat, mask: Capabilities, again: bool, asked: bool)
    | Dropped(trackId: nat, asked: bool)
    | Emptied(dropped: set<nat>)
    | Folded(trackId: nat, kind: OutcomeKind, straggler: bool)
    | Cleared(forgotten: bool)
    | Told(progress: Progress)

  // ---- Promotion of explicit work ----

  function Ids(items: seq<Item>): set<nat> {
    set i | 0 <= i < |items| :: items[i].trackId
  }

  predicate DistinctIds(items: seq<Item>) {
    forall i, k :: 0 <= i < k < |items| ==> items[i].trackId != items[k].trackId
  }

  predicate AllExplicit(items: seq<Item>) {
    forall i :: 0 <= i < |items| ==> items[i].isExplicit
  }

  predicate AllBackground(items: seq<Item>) {
    forall i :: 0 <= i < |items| ==> !items[i].isExplicit
  }

  predicate NonEmptyMasks(items: seq<Item>) {
    forall i :: 0 <= i < |items| ==> !items[i].capabilities.IsEmpty()
  }

  function ExplicitOnly(items: seq<Item>): seq<Item> {
    if items == [] then []
    else if items[0].isExplicit then [items[0]] + ExplicitOnly(items[1..])
    else ExplicitOnly(items[1..])
  }

  predicate ExplicitlyPending(pending: seq<Item>, trackId: nat) {
    exists i :: 0 <= i < |pending| && pending[i].isExplicit && pending[i].trackId == trackId
  }

  /** Up to `steps` queue items looked at once each: in flight, back to the end;
      already pending, dropped; otherwise appended, until the batch is full. */
  function Drained(queue: seq<Item>, pending: seq<Item>, inFlight: set<nat>, steps: nat): (seq<Item>, seq<Item>)
    requires steps <= |queue|
    decreases steps
  {
    if steps == 0 || |pending| >= BATCH_SIZE then (queue, pending)
    else
      var item, rest := queue[0], queue[1..];
      if item.trackId in inFlight then Drained(rest + [item], pending, inFlight, steps - 1)
      else if ExplicitlyPending(pending, item.trackId) then Drained(rest, pending, inFlight, steps - 1)
      else Drained(rest, pending + [item], inFlight, steps - 1)
  }

  function Prioritized(queue: seq<Item>, pending: seq<Item>, inFlight: set<nat>): (seq<Item>, seq<Item>) {
    if queue == [] then (queue, pending) else Drained(queue, ExplicitOnly(pending), inFlight, |queue|)
  }

  ghost predicate IsSubsequence<T>(xs: seq<T>, ys: seq<T>) {
    if xs == [] then true
    else exists n :: 0 <= n < |ys| && ys[n] == xs[0] && IsSubsequence(xs[1..], ys[n + 1..])
  }

  lemma {:induction false} SubsequenceOfLonger<T>(xs: seq<T>, y: T, ys: seq<T>)
    requires IsSubsequence(xs, ys)
    ensures IsSubsequence(xs, [y] + ys)
  {
    if xs != [] {
      var n :| 0 <= n < |ys| && ys[n] == xs[0] && IsSubsequence(xs[1..], ys[n + 1..]);
      assert ([y] + ys)[n + 2..] == ys[n + 1..];
      assert ([y] + ys)[n + 1] == xs[0];
    }
  }

  lemma SubsequenceExtend<T>(x: T, xs: seq<T>, ys: seq<T>)
    requires IsSubsequence(xs, ys)
    ensures IsSubsequence([x] + xs, [x] + ys)
  {
    assert ([x] + xs)[1..] == xs;
    assert ([x] + ys)[0] == x && ([x] + ys)[1..] == ys;
  }

  lemma IdsOfAppend(items: seq<Item>, item: Item)
    ensures Ids(items + [item]) == Ids(items) + {item.trackId}
  {
    var all := items + [item];
    forall x | x in Ids(items) + {item.trackId} ensures x in Ids(all) {
      if x == item.trackId {
        assert all[|items|].trackId == x;
      } else {
        var i :| 0 <= i < |items| && items[i].trackId == x;
        assert all[i].trackId == x;
      }
    }
  }

  lemma IdsOfTail(items: seq<Item>)
    requires items != []
    ensures Ids(items) == {items[0].trackId} + Ids(items[1..])
  {
  }

  /** Explicit ids are neither lost nor invented. */
  lemma {:induction false} DrainConservesIds(queue: seq<Item>, pending: seq<Item>, inFlight: set<nat>, steps: nat)
    requires steps <= |queue|
    ensures var (queue', pending') := Drained(queue, pending, inFlight, steps);
      Ids(queue') + Ids(pending') == Ids(queue) + Ids(pending)
    decreases steps
  {
    if steps == 0 || |pending| >= BATCH_SIZE {
    } else {
      var item, rest := queue[0], queue[1..];
      IdsOfTail(queue);
      if item.trackId in inFlight {
        DrainConservesIds(rest + [item], pending, inFlight, steps - 1);
        IdsOfAppend(rest, item);
      } else if ExplicitlyPending(pending, item.trackId) {
        DrainConservesIds(rest, pending, inFlight, steps - 1);
        assert item.trackId in Ids(pending);
      } else {
        DrainConservesIds(rest, pending + [item], inFlight, steps - 1);
        IdsOfAppend(pending, item);
      }
    }
  }

  /** Pending only grows, at its end, by items that are not in flight, up to the
      batch size, and explicit ids that were distinct stay distinct. */
  lemma {:induction false} DrainAppends(queue: seq<Item>, pending: seq<Item>, inFlight: set<nat>, steps: nat)
    requires steps <= |queue| && AllExplicit(queue) && AllExplicit(pending)
    ensures var (queue', pending') := Drained(queue, pending, inFlight, steps);
      && AllExplicit(queue') && AllExplicit(pending')
      && pending <= pending'
      && |pending'| <= (if |pending| <= BATCH_SIZE then BATCH_SIZE else |pending|)
      && (forall i :: |pending| <= i < |pending'| ==> pending'[i].trackId !in inFlight)
      && (DistinctIds(pending) ==> DistinctIds(pending'))
    decreases steps
  {
    if steps == 0 || |pending| >= BATCH_SIZE {
    } else {
      var item, rest := queue[0], queue[1..];
      if item.trackId in inFlight {
        DrainAppends(rest + [item], pending, inFlight, steps - 1);
      } else if ExplicitlyPending(pending, item.trackId) {
        DrainAppends(rest, pending, inFlight, steps - 1);
      } else {
        DrainAppends(rest, pending + [item], inFlight, steps - 1);
        var pending' := Drained(queue, pending, inFlight, steps).1;
        assert pending + [item] <= pending';
        assert pending'[|pending|] == item;
      }
    }
  }

  /** What is appended keeps the queue's order. */
  lemma {:induction false} DrainKeepsOrder(queue: seq<Item>, pending: seq<Item>, inFlight: set<nat>, steps: nat)
    requires steps <= |queue|
    ensures var pending' := Drained(queue, pending, inFlight, steps).1;
      pending <= pending' && IsSubsequence(pending'[|pending|..], queue[..steps])
    decreases steps
  {
    if steps == 0 || |pending| >= BATCH_SIZE {
    } else {
      var item, rest := queue[0], queue[1..];
      var pending' := Drained(queue, pending, inFlight, steps).1;
      assert queue[..steps] == [item] + rest[..steps - 1];
      if item.trackId in inFlight {
        DrainKeepsOrder(rest + [item], pending, inFlight, steps - 1);
        assert (rest + [item])[..steps - 1] == rest[..steps - 1];
        SubsequenceOfLonger(pending'[|pending|..], item, rest[..steps - 1]);
      } else if ExplicitlyPending(pending, item.trackId) {
        DrainKeepsOrder(rest, pending, inFlight, steps - 1);
        SubsequenceOfLonger(pending'[|pending|..], item, rest[..steps - 1]);
      } else {
        DrainKeepsOrder(rest, pending + [item], inFlight, steps - 1);
        assert pending'[|pending|..] == [item] + pending'[|pending| + 1..];
        SubsequenceExtend(item, pending'[|pending| + 1..], rest[..steps - 1]);
      }
    }
  }

  /** Unless the batch is full, all that stays queued is in flight. */
  lemma {:induction false} DrainLeavesInFlight(queue: seq<Item>, pending: seq<Item>, inFlight: set<nat>, steps: nat)
    requires steps <= |queue|
    requires forall i :: steps <= i < |queue| ==> queue[i].trackId in inFlight
    ensures var (queue', pending') := Drained(queue, pending, inFlight, steps);
      |pending'| < BATCH_SIZE ==> forall i :: 0 <= i < |queue'| ==> queue'[i].trackId in inFlight
    decreases steps
  {
    if steps == 0 || |pending| >= BATCH_SIZE {
    } else {
      var item, rest := queue[0], queue[1..];
      if item.trackId in inFlight {
        DrainLeavesInFlight(rest + [item], pending, inFlight, steps - 1);
      } else if ExplicitlyPending(pending, item.trackId) {
        DrainLeavesInFlight(rest, pending, inFlight, steps - 1);
      } else {
        DrainLeavesInFlight(rest, pending + [item], inFlight, steps - 1);
      }
    }
  }

  function TrackIds(items: seq<Item>): seq<nat> {
    seq(|items|, i requires 0 <= i < |items| => items[i].trackId)
  }

  /** The queued tracks that could be buffered now, each once, in the order in which
      they are first queued: not in flight and not among those buffered already. */
  function ReadyIds(items: seq<Item>, inFlight: set<nat>, buffered: set<nat>): seq<nat> {
    if items == [] then []
    else
      var trackId := items[0].trackId;
      if trackId in inFlight || trackId in buffered then ReadyIds(items[1..], inFlight, buffered)
      else [trackId] + ReadyIds(items[1..], inFlight, buffered + {trackId})
  }

  /** Exactly the ready tracks are ready, and no track twice. */
  lemma {:induction false} ReadyIdsAre(items: seq<Item>, inFlight: set<nat>, buffered: set<nat>)
    ensures var ready := ReadyIds(items, inFlight, buffered);
      && (forall x :: x in ready <==> x in Ids(items) && x !in inFlight && x !in buffered)
      && (forall i, k :: 0 <= i < k < |ready| ==> ready[i] != ready[k])
  {
    if items != [] {
      var trackId := items[0].trackId;
      IdsOfTail(items);
      ReadyIdsAre(items[1..], inFlight, if trackId in inFlight then buffered else buffered + {trackId});
      if trackId in buffered {
        assert buffered + {trackId} == buffered;
      }
    }
  }

  /** What promotion buffers, read without running it: the first ready tracks of the
      queue, as many as fit. */
  lemma {:induction false} DrainedAreReady(queue: seq<Item>, pending: seq<Item>, inFlight: set<nat>, steps: nat)
    requires steps <= |queue| && AllExplicit(queue) && AllExplicit(pending) && |pending| <= BATCH_SIZE
    ensures var pending' := Drained(queue, pending, inFlight, steps).1;
      var ready := ReadyIds(queue[..steps], inFlight, Ids(pending));
      TrackIds(pending') == TrackIds(pending) + ready[..Min(BATCH_SIZE - |pending|, |ready|)]
    decreases steps
  {
    var ready := ReadyIds(queue[..steps], inFlight, Ids(pending));
    if steps == 0 || |pending| >= BATCH_SIZE {
      assert ready[..Min(BATCH_SIZE - |pending|, |ready|)] == [];
    } else {
      var item, rest := queue[0], queue[1..];
      assert queue[..steps][1..] == rest[..steps - 1];
      assert ExplicitlyPending(pending, item.trackId) <==> item.trackId in Ids(pending);
      if item.trackId in inFlight {
        assert (rest + [item])[..steps - 1] == rest[..steps - 1];
        DrainedAreReady(rest + [item], pending, inFlight, steps - 1);
      } else if ExplicitlyPending(pending, item.trackId) {
        DrainedAreReady(rest, pending, inFlight, steps - 1);
      } else {
        DrainedAreReady(rest, pending + [item], inFlight, steps - 1);
        IdsOfAppend(pending, item);
        assert TrackIds(pending + [item]) == TrackIds(pending) + [item.trackId];
      }
    }
  }

  /** No empty capability mask appears from anywhere. */
  lemma {:induction false} DrainKeepsMasks(queue: seq<Item>, pending: seq<Item>, inFlight: set<nat>, steps: nat)
    requires steps <= |queue| && NonEmptyMasks(queue) && NonEmptyMasks(pending)
    ensures var (queue', pending') := Drained(queue, pending, inFlight, steps);
      NonEmptyMasks(queue') && NonEmptyMasks(pending')
    decreases steps
  {
    if steps == 0 || |pending| >= BATCH_SIZE {
    } else {
      var item, rest := queue[0], queue[1..];
      if item.trackId in inFlight {
        DrainKeepsMasks(rest + [item], pending, inFlight, steps - 1);
      } else if ExplicitlyPending(pending, item.trackId) {
        DrainKeepsMasks(rest, pending, inFlight, steps - 1);
      } else {
        DrainKeepsMasks(rest, pending + [item], inFlight, steps - 1);
      }
    }
  }

  // ---- Dropping background items ----

  /** Homogeneous: the two kinds of work never share the buffer. */
  predicate OneKind(items: seq<Item>) { AllExplicit(items) || AllBackground(items) }

  lemma {:induction false} ExplicitOnlyOfOneKind(items: seq<Item>)
    requires OneKind(items)
    ensures ExplicitOnly(items) == if AllExplicit(items) then items else []
  {
    if items != [] {
      var rest := items[1..];
      if AllExplicit(items) {
        assert forall i :: 0 <= i < |rest| ==> rest[i] == items[i + 1];
      } else {
        assert !items[0].isExplicit;
        assert forall i :: 0 <= i < |rest| ==> rest[i] == items[i + 1];
      }
      ExplicitOnlyOfOneKind(rest);
      if AllBackground(items) && rest == [] {
        assert ExplicitOnly(items) == [];
      }
    }
  }

  lemma {:induction false} ExplicitOnlyIds(items: seq<Item>, x: nat)
    ensures AllExplicit(ExplicitOnly(items))
    ensures x in Ids(ExplicitOnly(items)) <==> ExplicitlyPending(items, x)
  {
    if items != [] {
      var rest := items[1..];
      ExplicitOnlyIds(rest, x);
      if ExplicitlyPending(items, x) {
        var i :| 0 <= i < |items| && items[i].isExplicit && items[i].trackId == x;
        if i > 0 { assert rest[i - 1].isExplicit && rest[i - 1].trackId == x; }
      }
      if ExplicitlyPending(rest, x) {
        var i :| 0 <= i < |rest| && rest[i].isExplicit && rest[i].trackId == x;
        assert items[i + 1].isExplicit && items[i + 1].trackId == x;
      }
      if items[0].isExplicit {
        IdsOfTail(ExplicitOnly(items));
        assert ExplicitOnly(items)[1..] == ExplicitOnly(rest);
      }
    }
  }

  /** Promotion as a whole: background work gives way exactly when explicit work
      is queued, and no explicit id is lost between the queue and the buffer. */
  lemma PromotionConserves(queue: seq<Item>, pending: seq<Item>, inFlight: set<nat>, x: nat)
    requires AllExplicit(queue)
    ensures var (queue', pending') := Prioritized(queue, pending, inFlight);
      && (x in Ids(queue') || ExplicitlyPending(pending', x) <==> x in Ids(queue) || ExplicitlyPending(pending, x))
      && (queue != [] ==> AllExplicit(pending'))
      && (queue == [] ==> pending' == pending)
  {
    if queue != [] {
      ExplicitOnlyIds(pending, x);
      var kept := ExplicitOnly(pending);
      DrainConservesIds(queue, kept, inFlight, |queue|);
      DrainAppends(queue, kept, inFlight, |queue|);
      var (queue', pending') := Prioritized(queue, pending, inFlight);
      if x in Ids(pending') {
        var i :| 0 <= i < |pending'| && pending'[i].trackId == x;
        assert pending'[i].isExplicit;
      }
    }
  }

  // ---- Where items come from ----

  /** Draining neither makes up nor changes items. */
  lemma {:induction false} DrainKeepsItems(
      queue: seq<Item>, pending: seq<Item>, inFlight: set<nat>, steps: nat, item: Item)
    requires steps <= |queue|
    requires var (queue', pending') := Drained(queue, pending, inFlight, steps); item in queue' || item in pending'
    ensures item in queue || item in pending
    decreases steps
  {
    if steps == 0 || |pending| >= BATCH_SIZE {
    } else {
      var front, rest := queue[0], queue[1..];
      if front.trackId in inFlight {
        DrainKeepsItems(rest + [front], pending, inFlight, steps - 1, item);
      } else if ExplicitlyPending(pending, front.trackId) {
        DrainKeepsItems(rest, pending, inFlight, steps - 1, item);
      } else {
        DrainKeepsItems(rest, pending + [front], inFlight, steps - 1, item);
      }
    }
  }

  lemma {:induction false} ExplicitOnlyItems(items: seq<Item>, item: Item)
    requires item in ExplicitOnly(items)
    ensures item in items && item.isExplicit
  {
    if items != [] && !(items[0].isExplicit && item == items[0]) {
      ExplicitOnlyItems(items[1..], item);
    }
  }

  lemma PromotionKeepsItems(queue: seq<Item>, pending: seq<Item>, inFlight: set<nat>, item: Item)
    requires AllExplicit(queue)
    requires var (queue', pending') := Prioritized(queue, pending, inFlight); item in queue' || item in pending'
    ensures item in queue || (item in pending && (queue != [] ==> item.isExplicit))
  {
    if queue != [] {
      DrainKeepsItems(queue, ExplicitOnly(pending), inFlight, |queue|, item);
      if item in ExplicitOnly(pending) { ExplicitOnlyItems(pending, item); }
    }
  }

  /** Promotion makes no work: with what was buffered, there is less left after the
      front is taken away. */
  lemma {:induction false} DrainShrinks(queue: seq<Item>, pending: seq<Item>, inFlight: set<nat>, steps: nat)
    requires steps <= |queue|
    ensures var (queue', pending') := Drained(queue, pending, inFlight, steps);
      |queue'| + |pending'| <= |queue| + |pending| && |pending| <= |pending'|
    decreases steps
  {
    if steps == 0 || |pending| >= BATCH_SIZE {
    } else {
      var item, rest := queue[0], queue[1..];
      if item.trackId in inFlight {
        DrainShrinks(rest + [item], pending, inFlight, steps - 1);
      } else if ExplicitlyPending(pending, item.trackId) {
        DrainShrinks(rest, pending, inFlight, steps - 1);
      } else {
        DrainShrinks(rest, pending + [item], inFlight, steps - 1);
      }
    }
  }

  lemma {:induction false} ExplicitOnlyShrinks(items: seq<Item>)
    ensures |ExplicitOnly(items)| <= |items|
  {
    if items != [] { ExplicitOnlyShrinks(items[1..]); }
  }

  function PopFront(pending: seq<Item>): seq<Item> {
    if pending == [] then [] else pending[1..]
  }

  lemma PromotionShrinks(queue: seq<Item>, pending: seq<Item>, inFlight: set<nat>)
    requires pending != []
    ensures var (queue', pending') := Prioritized(queue, pending, inFlight);
      |queue'| + |PopFront(pending')| < |queue| + |pending|
  {
    if queue != [] {
      ExplicitOnlyShrinks(pending);
      DrainShrinks(queue, ExplicitOnly(pending), inFlight, |queue|);
    }
  }
}
