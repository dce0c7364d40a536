/** What the supervisor's log may hold: when it may dispatch and to whom, and what its
    reports tell. */
module SupervisorLog {
  import opened Wrappers
  import opened Numbers
  import opened ExplicitWork

  // ---- What a log amounts to ----

  datatype Phase = Clear | Rejected(detail: string) | Reported

  /** A run's counts: what finished since the last idle report, and the size taken once. */
  datatype Counts = Counts(completed: nat, failed: nat, total: Option<nat>) {
    function Processed(): nat { SaturatingAdd(completed, failed) }

    function Shown(): nat {
      if total.Some? then Max(total.value, Processed()) else Processed()
    }
  }

  /** The tracks in flight; the tracks handed over since that set was last cleared, and
      before it was, whose outcomes are unread; and the tracks that since then were
      buffered again as they were sent, or untracked by a straggler. */
  datatype Handling = Handling(
    inFlight: set<nat>, live: multiset<nat>, stale: multiset<nat>, raced: set<nat>, untracked: set<nat>)

  /** What the commands so far ask for, and the workers that were spawned. */
  datatype Controls = Controls(settings: Settings, usage: int, path: Option<string>, pool: Option<Pool>) {
    function LivePool(): Pool { Pool(usage, settings.bpmRange) }
  }

  datatype Request = Request(trackId: nat, mask: Capabilities)

  /** The tracks that were requested, with which capabilities, and those whose last
      request was neither sent nor dropped yet. */
  datatype Asks = Asks(tracks: set<nat>, requests: set<Request>, owed: set<nat>)

  /** All a log says of the present: besides, whether totals are still to be told, and
      whether one of the commands just taken tore the pool down. */
  datatype Status = Status(
    begun: bool, phase: Phase, counts: Counts, handling: Handling, controls: Controls, asks: Asks,
    owesTick: bool, flipped: bool)

  const NOTHING_SET := Controls(Settings(Capabilities(false, false, false), 0), 0, None, None)

  const START := Status(
    false, Clear, Counts(0, 0, None), Handling({}, multiset{}, multiset{}, {}, {}), NOTHING_SET, Asks({}, {}, {}),
    false, false)

  function SaturatingAdd(a: nat, b: nat): nat {
    if a + b > MAX_U32 then MAX_U32 else a + b
  }

  predicate IsCounted(e: Event) { e.Folded? && !e.kind.PersistenceFailed? }

  predicate IsTick(e: Event) { e.Told? && e.progress.Tick? }

  predicate IsIdle(e: Event) { e.Told? && e.progress.Idle? }

  predicate IsError(e: Event) { e.Told? && e.progress.PersistenceError? }

  predicate IsFlip(e: Event) { e.Took? && (e.command.SettingsChanged? || e.command.ResourceUsageChanged?) }

  function NextPhase(phase: Phase, e: Event): Phase {
    match e
    case Folded(_, PersistenceFailed(detail), _) => if phase.Clear? then Rejected(detail) else phase
    case Told(PersistenceError(_)) => if phase.Rejected? then Reported else phase
    case Took(_) => if phase.Reported? then Clear else phase
    case _ => phase
  }

  function NextCounts(counts: Counts, e: Event): Counts {
    match e
    case Folded(_, Analyzed, _) => counts.(completed := SaturatingAdd(counts.completed, 1))
    case Folded(_, AnalysisFailed, _) => counts.(failed := SaturatingAdd(counts.failed, 1))
    case Snapshot(total, _, _) => counts.(total := Some(total))
    case Told(Idle(_, _)) => Counts(0, 0, None)
    case _ => counts
  }

  function NextHandling(h: Handling, e: Event): Handling {
    match e
    case Sent(x, _, again, _) =>
      h.(inFlight := h.inFlight + {x}, live := h.live + multiset{x}, raced := if again then h.raced + {x} else h.raced)
    case Folded(x, kind, straggler) => AfterOutcome(h, x, !kind.PersistenceFailed?, straggler)
    case Cleared(forgotten) =>
      Handling({}, multiset{}, if forgotten then multiset{} else h.stale + h.live, {}, {})
    case _ => h
  }

  /** A counted outcome takes its track out of flight, even if it is a straggler's and
      the track is out again. */
  function AfterOutcome(h: Handling, x: nat, counted: bool, straggler: bool): Handling {
    var inFlight := if counted then h.inFlight - {x} else h.inFlight;
    if straggler then
      h.(inFlight := inFlight, stale := h.stale - multiset{x},
         untracked := if counted && x in h.live then h.untracked + {x} else h.untracked)
    else h.(inFlight := inFlight, live := h.live - multiset{x})
  }

  /** Other resource usage, or another BPM range, takes new workers. */
  function NextControls(c: Controls, e: Event): Controls {
    match e
    case Started(settings, usage, path) => Controls(settings, usage, path, None)
    case Took(SettingsChanged(settings)) =>
      c.(settings := settings, pool := if settings.bpmRange == c.settings.bpmRange then c.pool else None)
    case Took(ResourceUsageChanged(usage)) => c.(usage := usage, pool := if usage == c.usage then c.pool else None)
    case Took(LibraryPathChanged(path)) => c.(path := path)
    case Spawned(pool) => c.(pool := Some(pool))
    case StoreFailed => c.(pool := None)
    case Told(Idle(_, _)) => c.(pool := None)
    case Told(PersistenceError(_)) => c.(pool := None)
    case _ => c
  }

  function RequestedBy(e: Event): set<nat> {
    if e.Took? && e.command.ExplicitRun? && !e.command.capabilities.IsEmpty() then
      set x | x in e.command.trackIds
    else {}
  }

  function NextAsks(a: Asks, e: Event): Asks {
    match e
    case Took(ExplicitRun(trackIds, mask)) =>
      if mask.IsEmpty() then a
      else
        Asks(a.tracks + RequestedBy(e), a.requests + (set x | x in trackIds :: Request(x, mask)), a.owed + RequestedBy(e))
    case Sent(x, _, _, asked) => if asked then a.(owed := a.owed - {x}) else a
    case Dropped(x, asked) => if asked then a.(owed := a.owed - {x}) else a
    case Emptied(dropped) => a.(owed := a.owed - dropped)
    case _ => a
  }

  function Next(s: Status, e: Event): Status {
    var controls := NextControls(s.controls, e);
    Status(
      s.begun || e.Started?, NextPhase(s.phase, e), NextCounts(s.counts, e), NextHandling(s.handling, e), controls,
      NextAsks(s.asks, e), IsCounted(e), e.Took? && (s.flipped || (s.controls.pool.Some? && controls.pool.None?)))
  }

  lemma NextOfCleared(s: Status, forgotten: bool)
    ensures Next(s, Cleared(forgotten)) == s.(
      handling := Handling({}, multiset{}, if forgotten then multiset{} else s.handling.stale + s.handling.live, {}, {}),
      owesTick := false, flipped := false)
  {
  }

  lemma NextOfIdle(s: Status, completed: nat, failed: nat)
    ensures Next(s, Told(Idle(completed, failed))) == s.(
      counts := Counts(0, 0, None), controls := s.controls.(pool := None), owesTick := false, flipped := false)
  {
  }

  lemma NextOfFolded(s: Status, x: nat, kind: OutcomeKind, straggler: bool)
    ensures Next(s, Folded(x, kind, straggler)) == s.(
      phase := if kind.PersistenceFailed? && s.phase.Clear? then Rejected(kind.detail) else s.phase,
      counts := s.counts.(
        completed := if kind.Analyzed? then SaturatingAdd(s.counts.completed, 1) else s.counts.completed,
        failed := if kind.AnalysisFailed? then SaturatingAdd(s.counts.failed, 1) else s.counts.failed),
      handling := AfterOutcome(s.handling, x, !kind.PersistenceFailed?, straggler),
      owesTick := !kind.PersistenceFailed?, flipped := false)
  {
  }

  function StatusAfter(trace: seq<Event>): Status {
    if trace == [] then START else Next(StatusAfter(trace[..|trace| - 1]), trace[|trace| - 1])
  }

  // ---- What may come next ----

  /** No track that is in flight is sent but one buffered again as it was sent, which
      takes a request for it; and only a command that tears the pool down, or a rejected
      write, clears the in-flight set. */
  predicate MayHandle(s: Status, e: Event) {
    && (e.Sent? && e.trackId in s.handling.inFlight ==> e.trackId in s.handling.raced)
    && (e.Sent? && e.again ==> e.trackId in s.asks.tracks)
    && (e.Folded? ==> e.trackId in (if e.straggler then s.handling.stale else s.handling.live))
    && (e.Cleared? ==> if e.forgotten then s.phase.Rejected? else s.flipped)
    && (IsIdle(e) ==> s.handling.inFlight == {})
  }

  /** Nothing is sent unless every rejected write was reported and followed by a
      command, and between the report and the command nothing happens. Each counted
      outcome is told at once, with the run's counts. */
  predicate MayReport(s: Status, e: Event) {
    && (e.Sent? ==> s.phase.Clear?)
    && (s.phase.Reported? ==> e.Took?)
    && (s.owesTick <==> IsTick(e))
    && (IsTick(e) ==> e.progress == Tick(s.counts.completed, s.counts.failed, s.counts.Shown()))
    && (IsIdle(e) ==> e.progress == Idle(s.counts.completed, s.counts.failed))
    && (IsError(e) ==> s.phase == Rejected(e.progress.detail))
  }

  /** What is sent goes to workers spawned for the live settings, with the capabilities it
      was requested with or else the live ones, in a run whose size was taken: once, and
      every track that is queued or found in need counts once. Unsent work that was asked
      for is thrown away as a whole only while there is no library path. */
  predicate MayDispatch(s: Status, e: Event) {
    var mask := s.controls.settings.capabilities;
    && (e.Started? <==> !s.begun)
    && (e.Spawned? ==> s.controls.pool.None? && e.pool == s.controls.LivePool())
    && (e.Spawned? || e.Snapshot? || e.StoreFailed? ==> s.controls.path.Some?)
    && (e.Sent? ==>
          && s.counts.total.Some? && s.controls.pool == Some(s.controls.LivePool()) && !e.mask.IsEmpty()
          && (if e.asked then Request(e.trackId, e.mask) in s.asks.requests else e.mask == mask))
    && (e.Dropped? && e.asked ==> e.trackId in s.asks.tracks)
    && (e.Emptied? ==> s.handling.inFlight == {} && (s.controls.path.Some? ==> e.dropped == {}))
    && (e.Snapshot? ==>
          && s.counts.total.None? && e.queued <= s.asks.tracks
          && e.total == Min(|e.queued + if mask.IsEmpty() then {} else e.needy|, MAX_U32))
  }

  predicate MayFollow(s: Status, e: Event) { MayHandle(s, e) && MayReport(s, e) && MayDispatch(s, e) }

  predicate Lawful(trace: seq<Event>) {
    trace == [] || (Lawful(trace[..|trace| - 1]) && MayFollow(StatusAfter(trace[..|trace| - 1]), trace[|trace| - 1]))
  }

  lemma {:induction false} LawfulPrefix(trace: seq<Event>, n: nat)
    requires Lawful(trace) && n <= |trace|
    ensures Lawful(trace[..n])
    decreases |trace|
  {
    if n < |trace| {
      LawfulPrefix(trace[..|trace| - 1], n);
      assert trace[..|trace| - 1][..n] == trace[..n];
    } else {
      assert trace[..n] == trace;
    }
  }

  /** What one event of a lawful log could rely on, and what it leads to. */
  lemma EventObeys(trace: seq<Event>, i: nat)
    requires Lawful(trace) && i < |trace|
    ensures Lawful(trace[..i]) && MayFollow(StatusAfter(trace[..i]), trace[i])
    ensures StatusAfter(trace[..i + 1]) == Next(StatusAfter(trace[..i]), trace[i])
  {
    LawfulPrefix(trace, i + 1);
    LawfulPrefix(trace, i);
    assert trace[..i + 1][..i] == trace[..i];
  }

  lemma LawfulAppend(trace: seq<Event>, e: Event)
    requires Lawful(trace) && MayFollow(StatusAfter(trace), e)
    ensures Lawful(trace + [e]) && StatusAfter(trace + [e]) == Next(StatusAfter(trace), e)
  {
    assert (trace + [e])[..|trace|] == trace;
  }

  // ---- One worker a track ----

  predicate Spoiled(h: Handling, x: nat) { x in h.raced || x in h.untracked }

  /** Every track with an unread outcome is out once and in flight, but for those spoiled. */
  lemma {:induction false} LogTracks(trace: seq<Event>, x: nat)
    requires Lawful(trace)
    ensures var h := StatusAfter(trace).handling;
      x in h.live && !Spoiled(h, x) ==> x in h.inFlight && h.live[x] == 1
  {
    if trace != [] {
      LogTracks(trace[..|trace| - 1], x);
    }
  }

  /** No clearing and no outcome of the current pool lets the track go in between. */
  ghost predicate KeptOut(trace: seq<Event>, x: nat, i: nat, k: nat) {
    && i < k <= |trace| && trace[i].Sent? && trace[i].trackId == x
    && forall n :: i < n < k ==> !trace[n].Cleared? && (trace[n].Folded? && trace[n].trackId == x ==> trace[n].straggler)
  }

  lemma {:induction false} StillOut(trace: seq<Event>, x: nat, i: nat, k: nat)
    requires Lawful(trace) && KeptOut(trace, x, i, k)
    ensures x in StatusAfter(trace[..k]).handling.live
    decreases k
  {
    hide Lawful, StatusAfter, MayReport, MayDispatch, NextPhase, NextCounts, NextControls, NextAsks;
    EventObeys(trace, k - 1);
    if i < k - 1 { StillOut(trace, x, i, k - 1); }
  }

  /** The event after which the track may get another worker: it was buffered again as
      it was sent, or a straggler's outcome was counted for it while it was out. */
  predicate Spoils(trace: seq<Event>, a: nat, x: nat)
    requires a < |trace|
  {
    || (trace[a].Sent? && trace[a].trackId == x && trace[a].again)
    || (IsCounted(trace[a]) && trace[a].trackId == x && trace[a].straggler
        && x in StatusAfter(trace[..a]).handling.live)
  }

  ghost predicate SpoiledSinceCleared(trace: seq<Event>, x: nat, k: nat)
    requires k <= |trace|
  {
    exists a :: 0 <= a < k && Spoils(trace, a, x) && forall n :: a < n < k ==> !trace[n].Cleared?
  }

  /** Only the events that spoil a track add it to the spoiled ones. */
  lemma SpoiledByEvent(trace: seq<Event>, x: nat, k: nat)
    requires Lawful(trace) && k < |trace| && Spoiled(StatusAfter(trace[..k + 1]).handling, x)
    ensures Spoils(trace, k, x) || (Spoiled(StatusAfter(trace[..k]).handling, x) && !trace[k].Cleared?)
  {
    EventObeys(trace, k);
    hide Lawful, StatusAfter, MayFollow, NextPhase, NextCounts;
  }

  lemma {:induction false} SpoiledHasCause(trace: seq<Event>, x: nat, k: nat)
    requires Lawful(trace) && k <= |trace| && Spoiled(StatusAfter(trace[..k]).handling, x)
    ensures SpoiledSinceCleared(trace, x, k)
    decreases k
  {
    assert trace[..0] == [] && StatusAfter([]) == START;
    hide Lawful, Spoils, StatusAfter;
    if k > 0 {
      SpoiledByEvent(trace, x, k - 1);
      if !Spoils(trace, k - 1, x) {
        SpoiledHasCause(trace, x, k - 1);
      }
    }
  }

  /** A track is sent while an earlier hand-over of it is unread only after it was
      spoiled: since the in-flight set was last cleared it was requested and buffered
      again as it was sent, or a straggler's outcome was counted for it. */
  lemma SecondWorkerHasCause(trace: seq<Event>, x: nat, i: nat, k: nat)
    requires Lawful(trace) && k < |trace| && KeptOut(trace, x, i, k) && trace[k].Sent? && trace[k].trackId == x
    ensures SpoiledSinceCleared(trace, x, k)
  {
    StillOut(trace, x, i, k);
    EventObeys(trace, k);
    LogTracks(trace[..k], x);
    hide Lawful, StatusAfter;
    SpoiledHasCause(trace, x, k);
  }

  lemma {:induction false} RequestHasCause(trace: seq<Event>, x: nat, k: nat)
    requires Lawful(trace) && k <= |trace| && x in StatusAfter(trace[..k]).asks.tracks
    ensures exists n :: 0 <= n < k && x in RequestedBy(trace[n])
    decreases k
  {
    if k > 0 {
      hide Lawful, MayFollow;
      EventObeys(trace, k - 1);
      if x !in RequestedBy(trace[k - 1]) { RequestHasCause(trace, x, k - 1); }
    }
  }

  lemma {:induction false} StaleHasCause(trace: seq<Event>, k: nat)
    requires Lawful(trace) && k <= |trace| && StatusAfter(trace[..k]).handling.stale != multiset{}
    ensures exists n :: 0 <= n < k && IsFlip(trace[n])
    decreases k
  {
    if k > 0 {
      hide Lawful, StatusAfter, NextCounts, NextPhase, MayReport;
      EventObeys(trace, k - 1);
      if StatusAfter(trace[..k - 1]).handling.stale != multiset{} {
        StaleHasCause(trace, k - 1);
      } else {
        FlipHasCause(trace, k - 1);
      }
    }
  }

  lemma {:induction false} FlipHasCause(trace: seq<Event>, k: nat)
    requires Lawful(trace) && k <= |trace| && StatusAfter(trace[..k]).flipped
    ensures exists n :: 0 <= n < k && IsFlip(trace[n])
    decreases k
  {
    if k > 0 {
      EventObeys(trace, k - 1);
      if !IsFlip(trace[k - 1]) { FlipHasCause(trace, k - 1); }
    }
  }

  /** So while nobody requests the track and nobody changes settings or resource usage,
      it never has two workers. */
  lemma UndisturbedTrackHasOneWorker(trace: seq<Event>, x: nat, i: nat, k: nat)
    requires Lawful(trace) && k < |trace| && KeptOut(trace, x, i, k)
    requires forall n :: 0 <= n < k ==> x !in RequestedBy(trace[n]) && !IsFlip(trace[n])
    ensures !(trace[k].Sent? && trace[k].trackId == x)
  {
    if trace[k].Sent? && trace[k].trackId == x {
      SecondWorkerHasCause(trace, x, i, k);
      var a :| 0 <= a < k && Spoils(trace, a, x);
      EventObeys(trace, a);
      hide Lawful, StatusAfter;
      if trace[a].Sent? {
        RequestHasCause(trace, x, a);
      } else {
        StaleHasCause(trace, a);
      }
    }
  }

  /** Whenever idling is told, no worker has a track, but for those spoiled. */
  lemma IdleFindsNobodyWorking(trace: seq<Event>, i: nat, x: nat)
    requires Lawful(trace) && i < |trace| && IsIdle(trace[i])
    ensures var h := StatusAfter(trace[..i]).handling; h.inFlight == {} && (x in h.live ==> Spoiled(h, x))
  {
    EventObeys(trace, i);
    LogTracks(trace[..i], x);
  }

  // ---- The stop on a rejected write ----

  ghost predicate ReportedBetween(trace: seq<Event>, i: nat, k: nat) {
    exists a, b :: i < a < b < k && b < |trace| && IsError(trace[a]) && trace[b].Took?
  }

  ghost predicate ErrorBetween(trace: seq<Event>, i: nat, k: nat) {
    exists a :: i < a < k && a < |trace| && IsError(trace[a])
  }

  lemma {:induction false} PhaseWitness(trace: seq<Event>, i: nat, k: nat)
    requires Lawful(trace) && i < k <= |trace| && trace[i].Folded? && trace[i].kind.PersistenceFailed?
    ensures var phase := StatusAfter(trace[..k]).phase;
      && (phase.Clear? ==> ReportedBetween(trace, i, k))
      && (phase.Reported? ==> ErrorBetween(trace, i, k))
    decreases k
  {
    hide Lawful, StatusAfter, NextHandling, NextCounts;
    EventObeys(trace, k - 1);
    if i < k - 1 {
      PhaseWitness(trace, i, k - 1);
      if trace[k - 1].Took? && ErrorBetween(trace, i, k - 1) {
        assert ReportedBetween(trace, i, k);
      }
    }
  }

  /** After a rejected write, the next dispatch comes only after the error was
      reported and then another command was taken. */
  lemma RejectedWriteStopsDispatch(trace: seq<Event>, i: nat, k: nat)
    requires Lawful(trace) && i < k < |trace|
    requires trace[i].Folded? && trace[i].kind.PersistenceFailed? && trace[k].Sent?
    ensures ReportedBetween(trace, i, k)
  {
    EventObeys(trace, k);
    PhaseWitness(trace, i, k);
  }

  // ---- The totals that are told ----

  /** The events from `from` up to `upto` belong to one run: idle before, not since. */
  ghost predicate OneRun(trace: seq<Event>, from: nat, upto: nat) {
    && from <= upto <= |trace|
    && (from == 0 || IsIdle(trace[from - 1]))
    && forall i :: from <= i < upto ==> !IsIdle(trace[i])
  }

  /** How many outcomes of a kind were folded in from `from` up to `upto`. */
  function Outcomes(trace: seq<Event>, from: nat, upto: nat, kind: OutcomeKind): nat
    requires from <= upto <= |trace|
  {
    |set i | from <= i < upto && trace[i].Folded? && trace[i].kind == kind|
  }

  lemma OutcomesStep(trace: seq<Event>, from: nat, n: nat, kind: OutcomeKind)
    requires from <= n < |trace|
    ensures Outcomes(trace, from, n + 1, kind) ==
      Outcomes(trace, from, n, kind) + if trace[n].Folded? && trace[n].kind == kind then 1 else 0
  {
    var before := set i | from <= i < n && trace[i].Folded? && trace[i].kind == kind;
    var after := set i | from <= i < n + 1 && trace[i].Folded? && trace[i].kind == kind;
    assert after == if trace[n].Folded? && trace[n].kind == kind then before + {n} else before;
  }

  lemma {:induction false} OutcomesGrow(trace: seq<Event>, from: nat, i: nat, k: nat, kind: OutcomeKind)
    requires from <= i <= k <= |trace|
    ensures Outcomes(trace, from, i, kind) <= Outcomes(trace, from, k, kind)
    decreases k
  {
    if i < k {
      OutcomesGrow(trace, from, i, k - 1, kind);
      OutcomesStep(trace, from, k - 1, kind);
    }
  }

  lemma CountsStep(trace: seq<Event>, n: nat)
    requires Lawful(trace) && n < |trace|
    ensures StatusAfter(trace[..n + 1]).counts == NextCounts(StatusAfter(trace[..n]).counts, trace[n])
    ensures trace[n].Snapshot? ==> StatusAfter(trace[..n]).counts.total.None?
  {
    EventObeys(trace, n);
  }

  lemma CountsAtStart(trace: seq<Event>, from: nat)
    requires Lawful(trace) && OneRun(trace, from, from)
    ensures StatusAfter(trace[..from]).counts == Counts(0, 0, None)
  {
    if from > 0 {
      CountsStep(trace, from - 1);
    } else {
      assert trace[..from] == [];
    }
  }

  /** The counts are those of the run's outcomes, up to what 32 bits hold. */
  lemma {:induction false} CountsOfRun(trace: seq<Event>, from: nat, upto: nat)
    requires Lawful(trace) && OneRun(trace, from, upto)
    ensures var counts := StatusAfter(trace[..upto]).counts;
      && counts.completed == Min(Outcomes(trace, from, upto, Analyzed), MAX_U32)
      && counts.failed == Min(Outcomes(trace, from, upto, AnalysisFailed), MAX_U32)
    decreases upto
  {
    hide Lawful, StatusAfter;
    if from == upto {
      CountsAtStart(trace, from);
    } else {
      hide Outcomes;
      CountsOfRun(trace, from, upto - 1);
      CountsStep(trace, upto - 1);
      OutcomesStep(trace, from, upto - 1, Analyzed);
      OutcomesStep(trace, from, upto - 1, AnalysisFailed);
    }
  }

  /** The total is the one snapshot taken in the run, if any. */
  lemma {:induction false} TotalOfRun(trace: seq<Event>, from: nat, upto: nat)
    requires Lawful(trace) && OneRun(trace, from, upto)
    ensures var total := StatusAfter(trace[..upto]).counts.total;
      && (forall i :: from <= i < upto && trace[i].Snapshot? ==> total == Some(trace[i].total))
      && (total.Some? ==> exists i :: from <= i < upto && trace[i].Snapshot?)
    decreases upto
  {
    hide Lawful, StatusAfter;
    if from == upto {
      CountsAtStart(trace, from);
    } else {
      TotalOfRun(trace, from, upto - 1);
      CountsStep(trace, upto - 1);
    }
  }

  /** Every report of a run, in the middle or at its end, tells what finished in the
      run so far, each track once and no rejected write; a rejected write is told
      nowhere but in its own report. The total is the snapshot unless more was done. */
  lemma ReportsTellTheRun(trace: seq<Event>, from: nat, i: nat)
    requires Lawful(trace) && OneRun(trace, from, i) && i < |trace| && (IsTick(trace[i]) || IsIdle(trace[i]))
    ensures var progress := trace[i].progress;
      && progress.completed == Min(Outcomes(trace, from, i, Analyzed), MAX_U32)
      && progress.failed == Min(Outcomes(trace, from, i, AnalysisFailed), MAX_U32)
      && (progress.Tick? ==>
            && (forall k :: from <= k < i && trace[k].Snapshot? ==>
                  progress.total == Max(trace[k].total, SaturatingAdd(progress.completed, progress.failed)))
            && ((forall k :: from <= k < i ==> !trace[k].Snapshot?) ==>
                  progress.total == SaturatingAdd(progress.completed, progress.failed)))
  {
    hide Lawful, StatusAfter, Outcomes, MayHandle;
    CountsOfRun(trace, from, i);
    TotalOfRun(trace, from, i);
    EventObeys(trace, i);
  }

  /** During a run no number that is told ever falls. */
  lemma ReportsNeverFall(trace: seq<Event>, from: nat, i: nat, k: nat)
    requires Lawful(trace) && OneRun(trace, from, k) && from <= i < k < |trace|
    requires IsTick(trace[i]) && IsTick(trace[k])
    ensures trace[i].progress.completed <= trace[k].progress.completed
    ensures trace[i].progress.failed <= trace[k].progress.failed
    ensures trace[i].progress.total <= trace[k].progress.total
  {
    hide Lawful, Outcomes;
    ReportsTellTheRun(trace, from, i);
    ReportsTellTheRun(trace, from, k);
    OutcomesGrow(trace, from, i, k, Analyzed);
    OutcomesGrow(trace, from, i, k, AnalysisFailed);
  }

  // ---- What is sent, and what becomes of a request ----

  /** The event is a command for the track, with these very capabilities. */
  predicate Requests(e: Event, r: Request) {
    && e.Took? && e.command.ExplicitRun?
    && r.trackId in e.command.trackIds && r.mask == e.command.capabilities
  }

  lemma {:induction false} RequestWasTaken(trace: seq<Event>, r: Request, k: nat)
    requires Lawful(trace) && k <= |trace| && r in StatusAfter(trace[..k]).asks.requests
    ensures exists n :: 0 <= n < k && Requests(trace[n], r)
    decreases k
  {
    if k > 0 {
      hide Lawful, MayFollow;
      EventObeys(trace, k - 1);
      if r in StatusAfter(trace[..k - 1]).asks.requests { RequestWasTaken(trace, r, k - 1); }
    }
  }

  /** A track that goes out as asked was requested before, with these very capabilities;
      any other one goes out with the live capabilities. */
  lemma SentAsRequested(trace: seq<Event>, k: nat)
    requires Lawful(trace) && k < |trace| && trace[k].Sent?
    ensures !trace[k].mask.IsEmpty()
    ensures if trace[k].asked then
        exists n :: 0 <= n < k && Requests(trace[n], Request(trace[k].trackId, trace[k].mask))
      else trace[k].mask == StatusAfter(trace[..k]).controls.settings.capabilities
  {
    hide Lawful, StatusAfter, MayHandle, MayReport;
    EventObeys(trace, k);
    if trace[k].asked { RequestWasTaken(trace, Request(trace[k].trackId, trace[k].mask), k); }
  }

  /** The workers were spawned at `n` and are there still. */
  ghost predicate AtWorkSince(trace: seq<Event>, n: nat, k: nat, pool: Pool) {
    && n < k <= |trace| && trace[n] == Spawned(pool)
    && forall m :: n < m < k ==> !IsIdle(trace[m]) && !IsError(trace[m]) && !trace[m].StoreFailed?
  }

  lemma {:induction false} PoolWasSpawned(trace: seq<Event>, k: nat)
    requires Lawful(trace) && k <= |trace| && StatusAfter(trace[..k]).controls.pool.Some?
    ensures exists n :: AtWorkSince(trace, n, k, StatusAfter(trace[..k]).controls.pool.value)
    decreases k
  {
    hide Lawful, MayFollow;
    assert trace[..0] == [] && StatusAfter([]) == START;
    if k > 0 {
      EventObeys(trace, k - 1);
      var now := StatusAfter(trace[..k]).controls.pool;
      hide StatusAfter;
      if trace[k - 1].Spawned? {
        assert AtWorkSince(trace, k - 1, k, now.value);
      } else {
        PoolWasSpawned(trace, k - 1);
        var n :| AtWorkSince(trace, n, k - 1, now.value);
        assert AtWorkSince(trace, n, k, now.value);
      }
    }
  }

  /** Whoever gets a track was spawned for the resource usage and the BPM range in force. */
  lemma WorkersAreCurrent(trace: seq<Event>, k: nat)
    requires Lawful(trace) && k < |trace| && trace[k].Sent?
    ensures exists n :: AtWorkSince(trace, n, k, StatusAfter(trace[..k]).controls.LivePool())
  {
    hide Lawful, StatusAfter, MayHandle, MayReport, AtWorkSince;
    EventObeys(trace, k);
    PoolWasSpawned(trace, k);
  }

  /** Nothing is sent in a run before its size was taken: how many tracks were queued or,
      with a capability on, found in need, each counted once, up to what 32 bits hold. */
  lemma SentAfterSnapshot(trace: seq<Event>, from: nat, k: nat)
    requires Lawful(trace) && OneRun(trace, from, k) && k < |trace| && trace[k].Sent?
    ensures exists i :: from <= i < k && trace[i].Snapshot?
  {
    EventObeys(trace, k);
    hide Lawful, StatusAfter;
    TotalOfRun(trace, from, k);
  }

  lemma SnapshotCounts(trace: seq<Event>, i: nat)
    requires Lawful(trace) && i < |trace| && trace[i].Snapshot?
    ensures var off := StatusAfter(trace[..i]).controls.settings.capabilities.IsEmpty();
      var counted := trace[i].queued + if off then {} else trace[i].needy;
      trace[i].total == if |counted| <= MAX_U32 then |counted| else MAX_U32
    ensures forall x :: x in trace[i].queued ==> exists n :: 0 <= n < i && x in RequestedBy(trace[n])
  {
    EventObeys(trace, i);
    hide Lawful, StatusAfter;
    forall x | x in trace[i].queued ensures exists n :: 0 <= n < i && x in RequestedBy(trace[n]) {
      RequestHasCause(trace, x, i);
    }
  }

  /** What ends the wait of a requested track: it is sent as it was asked for, it is
      dropped as the item in front, or the buffer is emptied for want of a path. */
  predicate Answers(e: Event, x: nat) {
    || (e.Sent? && e.trackId == x && e.asked)
    || (e.Dropped? && e.trackId == x && e.asked)
    || (e.Emptied? && x in e.dropped)
  }

  /** Until then, and whatever else happens, a request stays owed. */
  lemma {:induction false} OwedUntilAnswered(trace: seq<Event>, x: nat, i: nat, k: nat)
    requires Lawful(trace) && i < k <= |trace| && x in RequestedBy(trace[i])
    requires forall n :: i < n < k ==> !Answers(trace[n], x)
    ensures x in StatusAfter(trace[..k]).asks.owed
    decreases k
  {
    hide Lawful, MayFollow;
    EventObeys(trace, k - 1);
    if i < k - 1 { OwedUntilAnswered(trace, x, i, k - 1); }
  }
}
