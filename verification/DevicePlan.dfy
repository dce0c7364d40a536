/** The device-plan scheduler and the runtime cache it fills. Runtime, worker and
    shutdown take their steps in any order; a step is one access to shared state. */
module DevicePlan {
  import opened Wrappers
  import opened Numbers

  datatype Mount = Mount(deviceId: string, target: string, volumeId: Option<string>)

  /** A plan, marked with the job whose task computed it. */
  datatype Snapshot = Snapshot(generation: nat, mount: Mount, plan: int)

  datatype Outcome = Planned(snapshot: Snapshot) | Failed

  datatype Job = Job(generation: nat, mount: Mount)

  datatype PlanState = Pending | Ready(snapshot: Snapshot) | Unavailable

  datatype Cache = Cache(generation: nat, mount: Mount, state: PlanState)

  datatype PlanResult = PlanResult(generation: nat, mount: Mount, outcome: Outcome)

  /** Where the runtime thread stands inside `request_plan` or `cancel_before`. */
  datatype Caller =
    | Idle
    | Checking(job: Job)
    | Storing(job: Job)
    | Queuing(job: Job)
    | Cancelling(generation: nat)
    | Clearing

  datatype Worker =
    | Waiting
    | Running(job: Job)
    | Computed(job: Job, outcome: Outcome)
    | Publishing(result: PlanResult)
    | Gone

  datatype Closer = Open | Flagged | Joining | Closed

  datatype Action =
    | Request(mount: Mount, hasStore: bool)
    | Invalidate
    | CallerStep
    | Take
    | Observe
    | Compute(plan: Option<int>)
    | TaskPanics
    | FinalCheck
    | Send
    | Deliver
    | CloserStep

  predicate MadeBy(outcome: Outcome, generation: nat, mount: Mount) {
    outcome.Planned? ==> outcome.snapshot.generation == generation && outcome.snapshot.mount == mount
  }

  ghost predicate Above(generation: nat, ran: seq<nat>) {
    forall i :: 0 <= i < |ran| ==> ran[i] < generation
  }

  ghost predicate Increasing(ran: seq<nat>) {
    forall i, k :: 0 <= i < k < |ran| ==> ran[i] < ran[k]
  }

  /** The worker still owes, or has published, what this job computes. */
  ghost predicate Delivering(
      generation: nat, mount: Mount, pending: Option<Job>, worker: Worker, results: seq<PlanResult>)
  {
    || pending == Some(Job(generation, mount))
    || worker == Running(Job(generation, mount))
    || (worker.Computed? && worker.job == Job(generation, mount))
    || (worker.Publishing? && worker.result.generation == generation && worker.result.mount == mount)
    || exists r :: r in results && r.generation == generation && r.mount == mount
  }

  // ---- The steps, read independently ----

  /** All that the steps read and change. */
  datatype State = State(
    nextGeneration: nat, cache: Option<Cache>, caller: Caller, latest: nat, pending: Option<Job>, shutdown: bool,
    worker: Worker, results: seq<PlanResult>, closer: Closer, panicked: bool, spawnFailed: bool)
  {
    predicate Cancelled(generation: nat) { shutdown || latest != generation }

    predicate Refusing() { spawnFailed || shutdown }

    function Refused(job: Job): State {
      this.(cache := Some(Cache(job.generation, job.mount, Unavailable)), caller := Idle)
    }

    /** What follows when one thread takes its next step; a step that is not due changes nothing. */
    function Next(action: Action): State {
      match action
      case Request(mount, hasStore) =>
        if !caller.Idle? || nextGeneration >= MAX_U64 then this
        else if hasStore then
          this.(nextGeneration := nextGeneration + 1, cache := Some(Cache(nextGeneration + 1, mount, Pending)),
                caller := Checking(Job(nextGeneration + 1, mount)))
        else
          this.(nextGeneration := nextGeneration + 1, cache := Some(Cache(nextGeneration + 1, mount, Unavailable)))
      case Invalidate =>
        if !caller.Idle? || nextGeneration >= MAX_U64 then this
        else this.(nextGeneration := nextGeneration + 1, caller := Cancelling(nextGeneration + 1))
      case CallerStep =>
        (match caller
         case Idle => this
         case Checking(job) => if Refusing() then Refused(job) else this.(caller := Storing(job))
         case Storing(job) => this.(latest := job.generation, caller := Queuing(job))
         case Queuing(job) => if shutdown then Refused(job) else this.(pending := Some(job), caller := Idle)
         case Cancelling(generation) => this.(latest := generation, caller := Clearing)
         case Clearing => this.(pending := None, cache := None, caller := Idle))
      case Take =>
        if !worker.Waiting? then this
        else if shutdown then this.(worker := Gone)
        else if pending.Some? then this.(worker := Running(pending.value), pending := None)
        else this
      case Observe =>
        if worker.Running? && Cancelled(worker.job.generation) then this.(worker := Waiting) else this
      case Compute(plan) =>
        if !worker.Running? then this
        else
          var job := worker.job;
          this.(worker := Computed(
            job, if plan.Some? then Planned(Snapshot(job.generation, job.mount, plan.value)) else Failed))
      case TaskPanics => if worker.Running? then this.(worker := Gone, panicked := true) else this
      case FinalCheck =>
        if !worker.Computed? then this
        else if Cancelled(worker.job.generation) then this.(worker := Waiting)
        else this.(worker := Publishing(PlanResult(worker.job.generation, worker.job.mount, worker.outcome)))
      case Send =>
        if worker.Publishing? then this.(results := results + [worker.result], worker := Waiting) else this
      case Deliver =>
        if !caller.Idle? || results == [] then this
        else this.(results := results[1..], cache := Delivered(cache, results[0]))
      case CloserStep =>
        (match closer
         case Open => this.(shutdown := true, closer := Flagged)
         case Flagged => this.(pending := None, closer := Joining)
         case Joining => if worker.Gone? then this.(results := [], closer := Closed) else this
         case Closed => this)
    }

    function After(schedule: seq<Action>): State {
      if schedule == [] then this else After(schedule[..|schedule| - 1]).Next(schedule[|schedule| - 1])
    }
  }

  /** A result goes into the cache exactly if that is for the same generation and mount. */
  function Delivered(cache: Option<Cache>, r: PlanResult): Option<Cache> {
    if cache.Some? && cache.value.generation == r.generation && cache.value.mount == r.mount then
      match r.outcome
      case Planned(snapshot) => Some(cache.value.(state := Ready(snapshot)))
      case Failed => Some(cache.value.(state := Unavailable))
    else cache
  }

  /** The steps of one request that nothing comes between, from the call to the plan on show. */
  function Undisturbed(mount: Mount, plan: int): seq<Action> {
    [Request(mount, true), CallerStep, CallerStep, CallerStep, Take, Compute(Some(plan)), FinalCheck, Send, Deliver]
  }

  /** With a live worker at rest and no shutdown, a request ends with its plan ready. */
  lemma RequestIsServed(s: State, mount: Mount, plan: int)
    requires s.caller.Idle? && s.worker.Waiting? && s.results == [] && !s.Refusing() && s.nextGeneration < MAX_U64
    ensures var generation := s.nextGeneration + 1;
      s.After(Undisturbed(mount, plan)).cache ==
        Some(Cache(generation, mount, Ready(Snapshot(generation, mount, plan))))
  {
    var a := Undisturbed(mount, plan);
    var s1 := s.Next(a[0]);
    var s4 := s1.Next(CallerStep).Next(CallerStep).Next(CallerStep);
    var s8 := s4.Next(Take).Next(Compute(Some(plan))).Next(FinalCheck).Next(Send);
    assert s8.results[0] == PlanResult(s1.nextGeneration, mount, Planned(Snapshot(s1.nextGeneration, mount, plan)));
    ServedStepByStep(s, a);
  }

  lemma ServedStepByStep(s: State, a: seq<Action>)
    requires |a| == 9
    ensures s.After(a) ==
      s.Next(a[0]).Next(a[1]).Next(a[2]).Next(a[3]).Next(a[4]).Next(a[5]).Next(a[6]).Next(a[7]).Next(a[8])
  {
    hide State.Next;
    UpTo(s, a, 1);
    UpTo(s, a, 2);
    UpTo(s, a, 3);
    UpTo(s, a, 4);
    UpTo(s, a, 5);
    UpTo(s, a, 6);
    UpTo(s, a, 7);
    UpTo(s, a, 8);
    UpTo(s, a, 9);
    assert a[..0] == [] && a[..9] == a;
    hide State.After;
  }

  lemma UpTo(s: State, a: seq<Action>, n: nat)
    requires 0 < n <= |a|
    ensures s.After(a[..n]) == s.After(a[..n - 1]).Next(a[n - 1])
  {
    assert a[..n][..n - 1] == a[..n - 1];
  }

  /** A step that is not due changes nothing. */
  lemma StaysWhereNotDue(s: State, action: Action)
    requires match action
      case Request(_, _) => !s.caller.Idle?
      case Invalidate => !s.caller.Idle?
      case Deliver => !s.caller.Idle? || s.results == []
      case Take => !s.worker.Waiting?
      case Observe => !s.worker.Running?
      case Compute(_) => !s.worker.Running?
      case TaskPanics => !s.worker.Running?
      case FinalCheck => !s.worker.Computed?
      case Send => !s.worker.Publishing?
      case CallerStep => s.caller.Idle?
      case CloserStep => s.closer.Closed?
    ensures s.Next(action) == s
  {
  }

  class PlanRuntime {
    var nextGeneration: nat
    var cache: Option<Cache>
    var caller: Caller
    var latest: nat
    var pending: Option<Job>
    var shutdown: bool
    var worker: Worker
    var results: seq<PlanResult>
    var closer: Closer
    const spawnFailed: bool
    // Whether a job's task panicked, which ends the worker.
    var panicked: bool
    // Generations of the jobs the worker took, in order.
    var ran: seq<nat>

    ghost function Now(): State
      reads this
    {
      State(nextGeneration, cache, caller, latest, pending, shutdown, worker, results, closer, panicked, spawnFailed)
    }

    /** A plan on show was computed by the job of the cache's own generation and mount. */
    ghost predicate PlansAreCurrent()
      reads this
    {
      && (cache.Some? && cache.value.state.Ready? ==>
            MadeBy(Planned(cache.value.state.snapshot), cache.value.generation, cache.value.mount))
      && (worker.Computed? ==> MadeBy(worker.outcome, worker.job.generation, worker.job.mount))
      && (worker.Publishing? ==> MadeBy(worker.result.outcome, worker.result.generation, worker.result.mount))
      && (forall r :: r in results ==> MadeBy(r.outcome, r.generation, r.mount))
    }

    /** Jobs run in strictly increasing generation order, and a newer job is
        coming only in newer generations. */
    ghost predicate JobsInOrder()
      reads this
    {
      && nextGeneration <= MAX_U64
      && Increasing(ran) && Above(nextGeneration + 1, ran)
      && (pending.Some? ==> Above(pending.value.generation, ran) && pending.value.generation <= nextGeneration)
      && (Requesting() ==>
            && caller.job.generation == nextGeneration
            && Above(nextGeneration, ran)
            && (pending.Some? ==> pending.value.generation < nextGeneration))
    }

    ghost predicate Requesting()
      reads this
    {
      caller.Checking? || caller.Storing? || caller.Queuing?
    }

    /** What the runtime thread knows while it is inside a call. */
    ghost predicate CallsInStep()
      reads this
    {
      && (Requesting() ==> cache == Some(Cache(caller.job.generation, caller.job.mount, Pending)))
      && (caller.Queuing? ==> latest == caller.job.generation)
      && (caller.Cancelling? ==> caller.generation == nextGeneration)
      && (worker.Gone? ==> shutdown || spawnFailed || panicked)
      && (panicked ==> worker.Gone?)
      && (closer.Open? <==> !shutdown)
    }

    /** Unless the scheduler is shut down or its worker died, a plan shown as pending is
        on its way. */
    ghost predicate PendingIsComing()
      reads this
    {
      caller.Idle? && cache.Some? && cache.value.state.Pending? && !shutdown && !panicked ==>
        && latest == cache.value.generation
        && Delivering(cache.value.generation, cache.value.mount, pending, worker, results)
    }

    ghost predicate Valid()
      reads this
    {
      PlansAreCurrent() && JobsInOrder() && CallsInStep() && PendingIsComing()
    }

    constructor (spawnFailed: bool)
      ensures Valid() && cache.None? && ran == [] && !panicked
    {
      this.spawnFailed := spawnFailed;
      nextGeneration, latest := 0, 0;
      cache, pending, caller := None, None, Idle;
      shutdown, panicked, closer := false, false, Open;
      worker := if spawnFailed then Gone else Waiting;
      results, ran := [], [];
    }

    /** What the running job's cancellation check answers. */
    predicate Cancelled(generation: nat)
      reads this
    {
      shutdown || latest != generation
    }

    // ---- The runtime thread ----

    method BeginRequest(mount: Mount, hasStore: bool)
      requires Valid() && caller.Idle?
      modifies `nextGeneration, `cache, `caller
      ensures Valid()
      // The generation counter stops the program before it would repeat.
      ensures old(nextGeneration) == MAX_U64 ==> unchanged(this)
      ensures old(nextGeneration) < MAX_U64 ==>
        && nextGeneration == old(nextGeneration) + 1
        && cache == Some(Cache(nextGeneration, mount, if hasStore then Pending else Unavailable))
        && caller == (if hasStore then Checking(Job(nextGeneration, mount)) else Idle)
      ensures Now() == old(Now()).Next(Request(mount, hasStore))
    {
      if nextGeneration >= MAX_U64 { return; }
      nextGeneration := nextGeneration + 1;
      if !hasStore {
        cache := Some(Cache(nextGeneration, mount, Unavailable));
      } else {
        cache := Some(Cache(nextGeneration, mount, Pending));
        caller := Checking(Job(nextGeneration, mount));
      }
    }

    method BeginInvalidate()
      requires Valid() && caller.Idle?
      modifies `nextGeneration, `caller
      ensures Valid()
      ensures old(nextGeneration) == MAX_U64 ==> unchanged(this)
      ensures old(nextGeneration) < MAX_U64 ==>
        nextGeneration == old(nextGeneration) + 1 && caller == Cancelling(nextGeneration)
      ensures Now() == old(Now()).Next(Invalidate)
    {
      if nextGeneration >= MAX_U64 { return; }
      nextGeneration := nextGeneration + 1;
      caller := Cancelling(nextGeneration);
    }

    /** The next access to shared state inside `request_plan` or `cancel_before`. */
    method ContinueCall()
      requires Valid()
      modifies `cache, `caller, `latest, `pending
      ensures Valid()
      // A request is refused exactly when there is no worker to be had or a shutdown.
      ensures old(caller).Checking? ==>
        if spawnFailed || shutdown then
          caller.Idle? && cache == Some(Cache(old(caller).job.generation, old(caller).job.mount, Unavailable))
        else caller == Storing(old(caller).job) && cache == old(cache)
      ensures old(caller).Queuing? ==> caller.Idle?
      ensures old(caller).Queuing? ==>
        (shutdown <==> cache == Some(Cache(old(caller).job.generation, old(caller).job.mount, Unavailable)))
      ensures old(caller).Storing? ==> latest == old(caller).job.generation && caller == Queuing(old(caller).job)
      ensures old(caller).Cancelling? ==> latest == old(caller).generation && caller.Clearing?
      ensures Now() == old(Now()).Next(CallerStep)
      // A queued job replaces whatever was waiting.
      ensures old(caller).Queuing? && !shutdown ==> pending == Some(old(caller).job) && caller.Idle?
      // A refused request leaves no plan that looks pending.
      ensures old(caller).Checking? && caller.Idle? ==> cache.Some? && cache.value.state.Unavailable?
      // After an invalidation nothing waits, and nothing is shown.
      ensures old(caller).Clearing? ==> cache.None? && pending.None?
    {
      hide MadeBy, Increasing, Above, State.After;
      match caller {
        case Idle =>
        case Checking(job) =>
          if spawnFailed || shutdown {
            cache, caller := Some(Cache(job.generation, job.mount, Unavailable)), Idle;
          } else {
            caller := Storing(job);
          }
        case Storing(job) =>
          latest, caller := job.generation, Queuing(job);
        case Queuing(job) =>
          if shutdown {
            cache := Some(Cache(job.generation, job.mount, Unavailable));
          } else {
            pending := Some(job);
          }
          caller := Idle;
        case Cancelling(generation) =>
          latest, caller := generation, Clearing;
        case Clearing =>
          pending, cache, caller := None, None, Idle;
      }
    }

    /** Apply the oldest published result, if it is for what the cache shows. */
    method DeliverResult() returns (applied: bool)
      requires Valid() && caller.Idle? && results != []
      modifies `results, `cache
      ensures Valid() && results == old(results)[1..]
      ensures applied <==>
        && old(cache).Some?
        && old(cache).value.generation == old(results)[0].generation
        && old(cache).value.mount == old(results)[0].mount
      ensures !applied ==> cache == old(cache)
      ensures applied ==> cache == Some(old(cache).value.(state :=
        match old(results)[0].outcome case Planned(snapshot) => Ready(snapshot) case Failed => Unavailable))
      ensures Now() == old(Now()).Next(Deliver)
    {
      hide Increasing, Above, State.After;
      var r := results[0];
      results := results[1..];
      assert forall x :: x in old(results) ==> x == r || x in results;
      if cache.None? || cache.value.generation != r.generation || cache.value.mount != r.mount {
        return false;
      }
      match r.outcome {
        case Planned(snapshot) => cache := Some(cache.value.(state := Ready(snapshot)));
        case Failed => cache := Some(cache.value.(state := Unavailable));
      }
      return true;
    }

    // ---- The worker thread ----

    method TakeJob()
      requires Valid() && worker.Waiting?
      modifies `pending, `worker, `ran
      ensures Valid()
      ensures shutdown ==> worker.Gone? && pending == old(pending) && ran == old(ran)
      ensures !shutdown && old(pending).None? ==> unchanged(this)
      ensures !shutdown && old(pending).Some? ==>
        pending.None? && worker == Running(old(pending).value) && ran == old(ran) + [old(pending).value.generation]
      ensures Now() == old(Now()).Next(Take)
    {
      if shutdown {
        worker := Gone;
      } else if pending.Some? {
        ran := ran + [pending.value.generation];
        worker, pending := Running(pending.value), None;
      }
    }

    /** The running job looks whether it was cancelled, and gives up if so. */
    method ObserveCancellation()
      requires Valid() && worker.Running?
      modifies `worker
      ensures Valid()
      ensures worker == if Cancelled(old(worker).job.generation) then Waiting else old(worker)
      ensures Now() == old(Now()).Next(Observe)
    {
      if Cancelled(worker.job.generation) { worker := Waiting; }
    }

    method FinishTask(plan: Option<int>)
      requires Valid() && worker.Running?
      modifies `worker
      ensures Valid() && worker.Computed? && worker.job == old(worker).job
      ensures worker.outcome ==
        if plan.Some? then Planned(Snapshot(worker.job.generation, worker.job.mount, plan.value)) else Failed
      ensures Now() == old(Now()).Next(Compute(plan))
    {
      var job := worker.job;
      worker := Computed(job, if plan.Some? then Planned(Snapshot(job.generation, job.mount, plan.value)) else Failed);
    }

    /** The task panics, and nothing catches it. */
    method Panic()
      requires Valid() && worker.Running?
      modifies `worker, `panicked
      ensures Valid() && worker.Gone? && panicked
      ensures Now() == old(Now()).Next(TaskPanics)
    {
      worker, panicked := Gone, true;
    }

    /** The last check before publishing; the cancellation may still come after it. */
    method CheckBeforePublishing()
      requires Valid() && worker.Computed?
      modifies `worker
      ensures Valid()
      ensures worker == if Cancelled(old(worker).job.generation) then Waiting
        else Publishing(PlanResult(old(worker).job.generation, old(worker).job.mount, old(worker).outcome))
      ensures Now() == old(Now()).Next(FinalCheck)
    {
      var job, outcome := worker.job, worker.outcome;
      worker := if Cancelled(job.generation) then Waiting
        else Publishing(PlanResult(job.generation, job.mount, outcome));
    }

    method SendResult()
      requires Valid() && worker.Publishing?
      modifies `worker, `results
      ensures Valid() && worker.Waiting? && results == old(results) + [old(worker).result]
      ensures Now() == old(Now()).Next(Send)
    {
      results := results + [worker.result];
      assert results[|results| - 1] == worker.result;
      assert forall r :: r in old(results) ==> r in results;
      worker := Waiting;
    }

    // ---- Shutting down ----

    method ContinueShutdown()
      requires Valid()
      modifies `shutdown, `pending, `results, `closer
      ensures Valid() && Now() == old(Now()).Next(CloserStep)
      ensures old(closer).Joining? && closer.Closed? ==> worker.Gone? && results == []
    {
      match closer {
        case Open => shutdown, closer := true, Flagged;
        case Flagged => pending, closer := None, Joining;
        case Joining =>
          if worker.Gone? { results, closer := [], Closed; }
        case Closed =>
      }
    }

    // ---- Any interleaving ----

    method Step(action: Action)
      requires Valid()
      modifies this
      ensures Valid() && Now() == old(Now()).Next(action)
      ensures old(ran) <= ran && old(nextGeneration) <= nextGeneration
      // After a panic no job ever runs again.
      ensures old(panicked) ==> panicked && ran == old(ran)
    {
      hide PlansAreCurrent, PendingIsComing, Increasing, Above, State.After, State.Next;
      ghost var now := Now();
      match action {
        case Request(mount, hasStore) =>
          if caller.Idle? { BeginRequest(mount, hasStore); } else { StaysWhereNotDue(now, action); }
        case Invalidate => if caller.Idle? { BeginInvalidate(); } else { StaysWhereNotDue(now, action); }
        case CallerStep => ContinueCall();
        case Take => if worker.Waiting? { TakeJob(); } else { StaysWhereNotDue(now, action); }
        case Observe => if worker.Running? { ObserveCancellation(); } else { StaysWhereNotDue(now, action); }
        case Compute(plan) => if worker.Running? { FinishTask(plan); } else { StaysWhereNotDue(now, action); }
        case TaskPanics => if worker.Running? { Panic(); } else { StaysWhereNotDue(now, action); }
        case FinalCheck => if worker.Computed? { CheckBeforePublishing(); } else { StaysWhereNotDue(now, action); }
        case Send => if worker.Publishing? { SendResult(); } else { StaysWhereNotDue(now, action); }
        case Deliver =>
          if caller.Idle? && results != [] { var applied := DeliverResult(); } else { StaysWhereNotDue(now, action); }
        case CloserStep => ContinueShutdown();
      }
    }

    /** Every interleaving of requests, invalidations, worker steps, deliveries and
        shutdown: a Ready plan belongs to the generation and mount it is shown for,
        jobs ran in strictly increasing generations, and nothing shown as pending is lost
        unless a task panicked, after which no job runs again. */
    method Run(schedule: seq<Action>)
      requires Valid()
      modifies this
      ensures Valid() && Now() == old(Now()).After(schedule)
      ensures old(ran) <= ran && old(nextGeneration) <= nextGeneration
      ensures old(panicked) ==> panicked && ran == old(ran)
      ensures cache.Some? && cache.value.state.Ready? ==>
        cache.value.state.snapshot.generation == cache.value.generation
        && cache.value.state.snapshot.mount == cache.value.mount
      ensures forall i, k :: 0 <= i < k < |ran| ==> ran[i] < ran[k]
      ensures caller.Idle? && cache.Some? && cache.value.state.Pending? && !shutdown && !panicked ==>
        Delivering(cache.value.generation, cache.value.mount, pending, worker, results)
    {
      for n := 0 to |schedule|
        invariant Valid() && Now() == old(Now()).After(schedule[..n])
        invariant old(ran) <= ran && old(nextGeneration) <= nextGeneration
        invariant old(panicked) ==> panicked && ran == old(ran)
      {
        hide State.Next;
        Step(schedule[n]);
        assert schedule[..n + 1][..n] == schedule[..n];
      }
      assert schedule[..|schedule|] == schedule;
    }
  }
}
