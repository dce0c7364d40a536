/** Rolling an unfinished consolidation back, and clearing up after a committed
    one. Nothing here assumes that the protocol ran undisturbed: each method says
    what it may do to whatever it finds. */
module Recovery {
  import opened Wrappers
  import opened Paths
  import opened Journal
  import opened Machine

  // ---- The paths a journal owns ----

  function Dir(j: Journal): RelPath { Parent(j.stage) }

  function Sources(j: Journal): set<RelPath> {
    set k | 0 <= k < |j.entries| :: j.entries[k].source
  }

  function RecoveryPaths(j: Journal): set<RelPath> {
    {j.stage} + set k | 0 <= k < |j.entries| :: j.entries[k].backup
  }

  predicate IsSurvivor(j: Journal, k: nat)
    requires k < |j.entries|
  {
    j.entries[k].trackId == j.survivor
  }

  /** What validation gives every reader of a journal. */
  ghost predicate Distinct(j: Journal) {
    && |j.entries| >= 2
    && (exists k :: 0 <= k < |j.entries| && IsSurvivor(j, k))
    && (forall k :: 0 <= k < |j.entries| ==>
          && j.entries[k].backup != j.stage && j.entries[k].source != j.stage
          && Parent(j.entries[k].backup) == Dir(j) && Parent(j.entries[k].source) != Dir(j))
    && (forall i, k :: 0 <= i < |j.entries| && 0 <= k < |j.entries| ==>
          j.entries[i].source != j.entries[k].backup)
    && (forall i, k :: 0 <= i < |j.entries| && 0 <= k < |j.entries| && i != k ==>
          && j.entries[i].backup != j.entries[k].backup
          && j.entries[i].source != j.entries[k].source
          && j.entries[i].trackId != j.entries[k].trackId)
  }

  lemma ValidJournalIsDistinct(j: Journal)
    requires ValidJournal(j)
    ensures Distinct(j)
  {
    ValidJournalPathsDistinct(j);
    var s :| 0 <= s < |j.entries| && j.entries[s].trackId == j.survivor;
    assert IsSurvivor(j, s);
    forall k | 0 <= k < |j.entries| ensures Parent(j.entries[k].source) != Dir(j) {
      assert ValidEntryAt(j, k);
    }
  }

  // ---- Removing the recovery directory and what it holds ----

  ghost predicate CleanupReady(w: World, j: Journal) {
    || Dir(j) !in w.directories
    || (&& (forall k :: 0 <= k < |j.entries| && j.entries[k].backup in w.files ==>
              w.files[j.entries[k].backup] == j.entries[k].identity)
        && !DirectoryInUse(w, Dir(j), RecoveryPaths(j)))
  }

  function CleanedUp(w: World, j: Journal): World {
    w.(files := w.files - RecoveryPaths(j), directories := w.directories - {Dir(j)})
  }

  /** A backup name that holds another file than the recorded one keeps it. */
  ghost predicate ForeignBackupsKept(w0: World, w: World, j: Journal) {
    forall k :: 0 <= k < |j.entries| && j.entries[k].backup in w0.files
                && w0.files[j.entries[k].backup] != j.entries[k].identity ==>
      Same(w0, w, j.entries[k].backup)
  }

  /** Whatever interrupts a cleanup, only the stage and recorded backups are gone
      and nothing is rebound. */
  ghost predicate CleanupEffect(w0: World, w: World, j: Journal) {
    && w == w0.(files := w.files, strays := w.strays, directories := w.directories)
    && ForeignBackupsKept(w0, w, j)
    && (forall p :: p !in RecoveryPaths(j) ==> Same(w0, w, p))
    && (forall p :: p in w.files ==> p in w0.files && w.files[p] == w0.files[p])
    && w0.strays <= w.strays
    && (w.directories == w0.directories || w == CleanedUp(w0, j))
    && Grounded(w)
  }

  method CleanupRecoveryFiles(m: Machine, j: Journal, env: Env) returns (r: Outcome)
    requires Distinct(j) && Grounded(m.w)
    modifies m
    ensures CleanupEffect(old(m.w), m.w, j)
    ensures r.Done? ==> CleanupReady(old(m.w), j) && m.w == CleanedUp(old(m.w), j)
    ensures r.Failed? && !env.mayFail ==> !CleanupReady(old(m.w), j)
    ensures r.Crashed? ==> env.mayCrash
  {
    ghost var w0 := m.w;
    var dir := Parent(j.stage);
    :- Chance(env);
    if dir !in m.w.directories {
      assert w0 == CleanedUp(w0, j);
      return Done;
    }
    :- RemoveStage(m, j, env);
    assert forall i :: 0 <= i < |j.entries| ==> Same(w0, m.w, j.entries[i].backup);
    :- RemoveBackups(m, j, w0, env);
    RecoveryNamesGone(w0, m.w, j);
    DirectoryFreedByCleanup(w0, j);
    r := m.RemoveDirectory(dir, env);
  }

  /** Remove the stage, whatever file it is. */
  method RemoveStage(m: Machine, j: Journal, env: Env) returns (r: Outcome)
    requires Distinct(j) && Grounded(m.w)
    modifies m
    ensures CleanupEffect(old(m.w), m.w, j) && m.w.directories == old(m.w.directories)
    ensures forall q :: q != j.stage ==> Same(old(m.w), m.w, q)
    ensures r.Done? ==> m.w.strays == old(m.w.strays) && j.stage !in m.w.files
    ensures r.Failed? ==> env.mayFail
    ensures r.Crashed? ==> env.mayCrash
  {
    if j.stage !in m.w.files { return Done; }
    r := m.Remove(j.stage, m.w.files[j.stage], env);
    RemoveIsCleanup(old(m.w), old(m.w), m.w, j.stage, j);
  }

  /** Remove one backup, provided it still is the file the journal recorded. */
  method RemoveBackup(m: Machine, j: Journal, k: nat, ghost w0: World, env: Env) returns (r: Outcome)
    requires Distinct(j) && k < |j.entries| && CleanupEffect(w0, m.w, j) && m.w.directories == w0.directories
    requires Same(w0, m.w, j.entries[k].backup)
    modifies m
    ensures CleanupEffect(w0, m.w, j) && m.w.directories == w0.directories
    ensures forall q :: q != j.entries[k].backup ==> Same(old(m.w), m.w, q)
    ensures r.Done? ==>
      && m.w.strays == old(m.w.strays) && j.entries[k].backup !in m.w.files
      && (j.entries[k].backup in w0.files ==> w0.files[j.entries[k].backup] == j.entries[k].identity)
    ensures r.Failed? && !env.mayFail ==>
      j.entries[k].backup in w0.files && w0.files[j.entries[k].backup] != j.entries[k].identity
    ensures r.Crashed? ==> env.mayCrash
  {
    var backup := j.entries[k].backup;
    :- Chance(env);
    if backup in m.w.files {
      if m.w.files[backup] != j.entries[k].identity { return Failed; }
      r := m.Remove(backup, m.w.files[backup], env);
      assert backup in RecoveryPaths(j);
      RemoveIsCleanup(w0, old(m.w), m.w, backup, j);
      return r;
    }
    return Done;
  }

  method RemoveBackups(m: Machine, j: Journal, ghost w0: World, env: Env) returns (r: Outcome)
    requires Distinct(j) && CleanupEffect(w0, m.w, j)
    requires m.w.strays == w0.strays && m.w.directories == w0.directories
    requires forall i :: 0 <= i < |j.entries| ==> Same(w0, m.w, j.entries[i].backup)
    modifies m
    ensures CleanupEffect(w0, m.w, j) && m.w.directories == w0.directories
    ensures j.stage !in old(m.w.files) ==> j.stage !in m.w.files
    ensures r.Done? ==>
      && m.w.strays == w0.strays
      && forall i :: 0 <= i < |j.entries| ==>
           && j.entries[i].backup !in m.w.files
           && (j.entries[i].backup in w0.files ==> w0.files[j.entries[i].backup] == j.entries[i].identity)
    ensures r.Failed? && !env.mayFail ==>
      exists i :: 0 <= i < |j.entries| && j.entries[i].backup in w0.files
                  && w0.files[j.entries[i].backup] != j.entries[i].identity
    ensures r.Crashed? ==> env.mayCrash
  {
    for k := 0 to |j.entries|
      invariant CleanupEffect(w0, m.w, j)
      invariant m.w.strays == w0.strays && m.w.directories == w0.directories
      invariant j.stage !in old(m.w.files) ==> j.stage !in m.w.files
      invariant forall i :: 0 <= i < k ==> j.entries[i].backup !in m.w.files
      invariant forall i :: k <= i < |j.entries| ==> Same(w0, m.w, j.entries[i].backup)
      invariant forall i :: 0 <= i < k && j.entries[i].backup in w0.files ==>
        w0.files[j.entries[i].backup] == j.entries[i].identity
    {
      ghost var w1 := m.w;
      r := RemoveBackup(m, j, k, w0, env);
      assert Same(w1, m.w, j.stage);
      assert forall i :: 0 <= i < |j.entries| && i != k ==> Same(w1, m.w, j.entries[i].backup);
      if r.IsFailure() { return r; }
    }
    r := Done;
  }

  lemma RemoveIsCleanup(w0: World, w1: World, w: World, p: RelPath, j: Journal)
    requires CleanupEffect(w0, w1, j) && w1.directories == w0.directories
    requires p in RecoveryPaths(j) && OnlyName(w1, w, p) && w.directories == w1.directories
    requires p in w.files ==> p in w1.files && w.files[p] == w1.files[p]
    requires forall k :: 0 <= k < |j.entries| && j.entries[k].backup == p && p in w1.files ==>
      w1.files[p] == j.entries[k].identity
    ensures CleanupEffect(w0, w, j) && w.directories == w0.directories
  {
    forall q | q != p ensures Same(w1, w, q) {}
    forall q | q !in RecoveryPaths(j) ensures Same(w0, w, q) {
      assert Same(w0, w1, q) && Same(w1, w, q);
    }
    forall q | q in w.files ensures q in w0.files && w.files[q] == w0.files[q] {
      assert q != p ==> Same(w1, w, q);
    }
    forall k | 0 <= k < |j.entries| && j.entries[k].backup in w0.files
               && w0.files[j.entries[k].backup] != j.entries[k].identity
      ensures Same(w0, w, j.entries[k].backup)
    {
      assert Same(w0, w1, j.entries[k].backup) && j.entries[k].backup != p;
      assert Same(w1, w, j.entries[k].backup);
    }
  }

  lemma RecoveryNamesGone(w0: World, w: World, j: Journal)
    requires CleanupEffect(w0, w, j) && w.strays == w0.strays && w.directories == w0.directories
    requires j.stage !in w.files
    requires forall i :: 0 <= i < |j.entries| ==> j.entries[i].backup !in w.files
    ensures w == w0.(files := w0.files - RecoveryPaths(j))
  {
  }

  lemma DirectoryFreedByCleanup(w: World, j: Journal)
    ensures DirectoryInUse(w.(files := w.files - RecoveryPaths(j)), Dir(j), {})
       <==> DirectoryInUse(w, Dir(j), RecoveryPaths(j))
  {
  }

  // ---- Restoring the sources ----

  /** The source name is free, or the survivor's holds the staged replacement. */
  ghost predicate Displaced(w: World, j: Journal, k: nat)
    requires k < |j.entries|
  {
    var source := j.entries[k].source;
    source !in w.files || (IsSurvivor(j, k) && j.stage in w.files && w.files[source] == w.files[j.stage])
  }

  ghost predicate EntryRestorable(w: World, j: Journal, k: nat)
    requires k < |j.entries|
  {
    var e := j.entries[k];
    if e.backup in w.files then
      Displaced(w, j, k) || w.files[e.source] == w.files[e.backup]
    else
      e.source in w.files
  }

  ghost predicate RollbackReady(w: World, j: Journal) {
    && (forall k :: 0 <= k < |j.entries| ==> EntryRestorable(w, j, k))
    && CleanupReady(w, j)
  }

  /** A source name is untouched, or it was displaced while its backup existed
      and is now free or bound to that backup. */
  ghost predicate SourceStep(w0: World, w: World, j: Journal, k: nat)
    requires k < |j.entries|
  {
    var e := j.entries[k];
    || Same(w0, w, e.source)
    || (&& e.backup in w0.files && Displaced(w0, j, k)
        && (e.source in w.files ==> w.files[e.source] == w0.files[e.backup]))
  }

  /** Every source is bound, to its backup wherever a backup exists. */
  ghost predicate SourceSettled(w0: World, w: World, j: Journal, k: nat)
    requires k < |j.entries|
  {
    var e := j.entries[k];
    e.source in w.files && (e.backup in w0.files ==> w.files[e.source] == w0.files[e.backup])
  }

  ghost predicate RestoreEffect(w0: World, w: World, j: Journal) {
    && w == w0.(files := w.files, strays := w.strays, directories := w.directories)
    && (forall p :: p !in Sources(j) ==> Same(w0, w, p))
    && (forall k :: 0 <= k < |j.entries| ==> SourceStep(w0, w, j, k))
    && w0.strays <= w.strays
    && (forall s :: s in w.strays && s !in w0.strays ==> s.dir != Dir(j))
    && w0.directories <= w.directories
    && (forall d :: d in w.directories && d !in w0.directories ==>
          exists k :: 0 <= k < |j.entries| && d == Parent(j.entries[k].source))
    && Grounded(w)
  }

  /** Bind a free source name to its backup again. */
  method Relink(m: Machine, j: Journal, k: nat, ghost w0: World, env: Env) returns (r: Outcome)
    requires Distinct(j) && k < |j.entries| && RestoreEffect(w0, m.w, j)
    requires j.entries[k].backup in w0.files && Displaced(w0, j, k)
    requires j.entries[k].source !in m.w.files && Same(w0, m.w, j.entries[k].backup)
    modifies m
    ensures RestoreEffect(w0, m.w, j)
    ensures forall q :: q != j.entries[k].source ==> Same(old(m.w), m.w, q)
    ensures r.Done? ==> SourceSettled(w0, m.w, j, k)
    ensures r.Done? || !env.mayFail ==> m.w.strays == old(m.w.strays)
    ensures r.Failed? ==> env.mayFail
    ensures r.Crashed? ==> env.mayCrash
  {
    var e := j.entries[k];
    r := m.Publish(m.w.files[e.backup], e.source, env);
    RestoringStep(w0, old(m.w), m.w, j, k);
  }

  /** Take the staged replacement off the survivor's name. */
  method UnlinkStaged(m: Machine, j: Journal, k: nat, staged: FileIdentity, ghost w0: World, env: Env)
    returns (r: Outcome)
    requires Distinct(j) && k < |j.entries| && RestoreEffect(w0, m.w, j)
    requires j.entries[k].backup in w0.files && Displaced(w0, j, k)
    requires j.entries[k].source in m.w.files && m.w.files[j.entries[k].source] == staged
    modifies m
    ensures RestoreEffect(w0, m.w, j)
    ensures forall q :: q != j.entries[k].source ==> Same(old(m.w), m.w, q)
    ensures r.Done? ==> j.entries[k].source !in m.w.files && m.w.strays == old(m.w.strays)
    ensures r.Failed? ==> env.mayFail
    ensures r.Crashed? ==> env.mayCrash
  {
    r := m.Remove(j.entries[k].source, staged, env);
    RestoringStep(w0, old(m.w), m.w, j, k);
  }

  /** Restore one source. The stage was opened before the loop, if it could be. */
  method RestoreSource(m: Machine, j: Journal, k: nat, stage: Option<FileIdentity>, ghost w0: World, env: Env)
    returns (r: Outcome)
    requires Distinct(j) && k < |j.entries| && RestoreEffect(w0, m.w, j)
    requires Same(w0, m.w, j.entries[k].source)
    requires stage.Some? ==> j.stage in w0.files && stage.value == w0.files[j.stage]
    requires stage.None? && !env.mayFail ==> j.stage !in w0.files
    modifies m
    ensures RestoreEffect(w0, m.w, j)
    ensures forall q :: q != j.entries[k].source ==> Same(old(m.w), m.w, q)
    ensures r.Done? ==> EntryRestorable(w0, j, k) && SourceSettled(w0, m.w, j, k)
    ensures r.Done? || (r.Failed? && !env.mayFail) ==> m.w.strays == old(m.w.strays)
    ensures r.Failed? && !env.mayFail ==> !EntryRestorable(w0, j, k)
    ensures r.Crashed? ==> env.mayCrash
  {
    r := Chance(env);
    if r.IsFailure() { return r; }
    var e := j.entries[k];
    assert e.backup !in Sources(j) && j.stage !in Sources(j);
    assert Same(w0, m.w, e.backup) && Same(w0, m.w, j.stage);
    if e.backup !in m.w.files {
      if e.source !in m.w.files { return Failed; }
    } else if e.source in m.w.files && m.w.files[e.source] == m.w.files[e.backup] {
    } else if e.source !in m.w.files {
      r := Relink(m, j, k, w0, env);
      return r;
    } else if e.trackId == j.survivor && stage.Some? && m.w.files[e.source] == stage.value {
      :- UnlinkStaged(m, j, k, stage.value, w0, env);
      assert Same(old(m.w), m.w, e.backup);
      ghost var w1 := m.w;
      r := Relink(m, j, k, w0, env);
      forall q | q != e.source ensures Same(old(m.w), m.w, q) {
        assert Same(old(m.w), w1, q) && Same(w1, m.w, q);
      }
      return r;
    } else {
      return Failed;
    }
    return Done;
  }

  lemma OtherSourcesKept(w0: World, w1: World, w: World, j: Journal, k: nat)
    requires Distinct(j) && k < |j.entries|
    requires forall q :: q != j.entries[k].source ==> Same(w1, w, q)
    requires forall i :: 0 <= i < k ==> SourceSettled(w0, w1, j, i)
    requires forall i :: k <= i < |j.entries| ==> Same(w0, w1, j.entries[i].source)
    ensures forall i :: 0 <= i < k ==> SourceSettled(w0, w, j, i)
    ensures forall i :: k < i < |j.entries| ==> Same(w0, w, j.entries[i].source)
  {
    forall i | 0 <= i < |j.entries| && i != k
      ensures if i < k then SourceSettled(w0, w, j, i) else Same(w0, w, j.entries[i].source)
    {
      assert Same(w1, w, j.entries[i].source);
      if i < k { assert SourceSettled(w0, w1, j, i); }
    }
  }

  method RestoreSources(m: Machine, j: Journal, env: Env) returns (r: Outcome)
    requires Distinct(j) && Grounded(m.w)
    modifies m
    ensures RestoreEffect(old(m.w), m.w, j)
    ensures r.Done? ==> forall k :: 0 <= k < |j.entries| ==>
      EntryRestorable(old(m.w), j, k) && SourceSettled(old(m.w), m.w, j, k)
    ensures r.Done? || (r.Failed? && !env.mayFail) ==> m.w.strays == old(m.w.strays)
    ensures r.Failed? && !env.mayFail ==>
      exists k :: 0 <= k < |j.entries| && !EntryRestorable(old(m.w), j, k)
    ensures r.Crashed? ==> env.mayCrash
  {
    ghost var w0 := m.w;
    // Opening the stage may fail without stopping the rollback.
    var opening := Chance(env.(mayCrash := false));
    var stage := if opening.Done? && j.stage in m.w.files then Some(m.w.files[j.stage]) else None;
    for k := 0 to |j.entries|
      invariant RestoreEffect(w0, m.w, j)
      invariant m.w.strays == w0.strays
      invariant forall i :: 0 <= i < k ==> EntryRestorable(w0, j, i) && SourceSettled(w0, m.w, j, i)
      invariant forall i :: k <= i < |j.entries| ==> Same(w0, m.w, j.entries[i].source)
    {
      ghost var w1 := m.w;
      r := RestoreSource(m, j, k, stage, w0, env);
      if r.IsFailure() { return r; }
      OtherSourcesKept(w0, w1, m.w, j, k);
    }
    r := Done;
  }

  lemma RestoringStep(w0: World, w1: World, w: World, j: Journal, k: nat)
    requires Distinct(j) && RestoreEffect(w0, w1, j) && k < |j.entries|
    requires j.entries[k].backup in w0.files && Displaced(w0, j, k)
    requires OnlyName(w1, w, j.entries[k].source)
    requires j.entries[k].source in w.files ==>
      w.files[j.entries[k].source] == w0.files[j.entries[k].backup] || Same(w1, w, j.entries[k].source)
    ensures RestoreEffect(w0, w, j)
    ensures forall i :: 0 <= i < |j.entries| && i != k ==> Same(w1, w, j.entries[i].source)
  {
    var source := j.entries[k].source;
    assert source in Sources(j);
    forall p | p !in Sources(j) ensures Same(w0, w, p) {
      assert Same(w0, w1, p) && Same(w1, w, p);
    }
    forall i | 0 <= i < |j.entries|
      ensures SourceStep(w0, w, j, i) && (i != k ==> Same(w1, w, j.entries[i].source))
    {
      assert SourceStep(w0, w1, j, i);
      assert i != k ==> Same(w1, w, j.entries[i].source);
    }
  }

  // ---- The whole rollback ----

  /** Everything a rollback may do to the world it finds, however it ends. */
  ghost predicate RollbackEffect(w0: World, w: World, j: Journal) {
    && w == w0.(files := w.files, strays := w.strays, directories := w.directories, journal := w.journal)
    && (forall p :: p !in Sources(j) && p !in RecoveryPaths(j) ==> Same(w0, w, p))
    && (forall k :: 0 <= k < |j.entries| ==> SourceStep(w0, w, j, k))
    && (forall p :: p in RecoveryPaths(j) && p in w.files ==> p in w0.files && w.files[p] == w0.files[p])
    && ForeignBackupsKept(w0, w, j)
    && w0.strays <= w.strays
    && Grounded(w)
    // Recovery names and the journal go only once every source is settled.
    && ((exists p :: p in RecoveryPaths(j) && p in w0.files && p !in w.files)
        || Dir(j) in w0.directories - w.directories || w.journal != w0.journal
        ==> forall k :: 0 <= k < |j.entries| ==> SourceSettled(w0, w, j, k))
    && (w.journal == w0.journal || (w.journal.None? && w.files.Keys !! RecoveryPaths(j) && Dir(j) !in w.directories))
    && (Dir(j) in w.directories ==> Dir(j) in w0.directories)
    && w0.directories - {Dir(j)} <= w.directories
    && (forall d :: d in w.directories && d !in w0.directories ==>
          exists k :: 0 <= k < |j.entries| && d == Parent(j.entries[k].source))
  }

  method Rollback(m: Machine, j: Journal, env: Env) returns (r: Outcome)
    requires Distinct(j) && Grounded(m.w) && m.w.journal == Some(j)
    modifies m
    ensures RollbackEffect(old(m.w), m.w, j)
    ensures r.Done? ==> RollbackReady(old(m.w), j) && m.w.journal.None?
    ensures r.Failed? && !env.mayFail ==> !RollbackReady(old(m.w), j) && m.w.journal == Some(j)
    ensures m.w.journal.None? ==> RollbackReady(old(m.w), j)
    ensures r.Crashed? ==> env.mayCrash
    // Without I/O errors every restorable set of sources is restored, even if the cleanup then fails.
    ensures !env.mayFail && !r.Crashed? && (forall k :: 0 <= k < |j.entries| ==> EntryRestorable(old(m.w), j, k)) ==>
      forall k :: 0 <= k < |j.entries| ==> SourceSettled(old(m.w), m.w, j, k)
  {
    ghost var w0 := m.w;
    r := RestoreSources(m, j, env);
    RestoreIsRollback(w0, m.w, j);
    if r.IsFailure() { return r; }
    ghost var w1 := m.w;
    r := CleanupRecoveryFiles(m, j, env);
    CleanupIsRollback(w0, w1, m.w, j);
    CleanupReadyAfterRestore(w0, w1, j);
    if r.IsFailure() { return r; }
    w1 := m.w;
    r := m.RemoveJournal(env);
    JournalRemovalIsRollback(w0, w1, m.w, j);
  }

  lemma JournalRemovalIsRollback(w0: World, w1: World, w: World, j: Journal)
    requires RollbackEffect(w0, w1, j) && w1.journal == w0.journal
    requires forall k :: 0 <= k < |j.entries| ==> SourceSettled(w0, w1, j, k)
    requires w1.files.Keys !! RecoveryPaths(j) && Dir(j) !in w1.directories
    requires w == w1 || w == w1.(journal := None)
    ensures RollbackEffect(w0, w, j)
    ensures forall k :: 0 <= k < |j.entries| ==> SourceSettled(w0, w, j, k)
  {
    forall p ensures Same(w0, w1, p) == Same(w0, w, p) {}
    forall k | 0 <= k < |j.entries|
      ensures SourceStep(w0, w, j, k) && SourceSettled(w0, w, j, k)
    {
      assert SourceStep(w0, w1, j, k) && SourceSettled(w0, w1, j, k);
    }
  }

  lemma RestoreIsRollback(w0: World, w: World, j: Journal)
    requires Distinct(j) && RestoreEffect(w0, w, j) && w0.journal == Some(j)
    ensures RollbackEffect(w0, w, j)
  {
    forall p | p in RecoveryPaths(j) ensures Same(w0, w, p) {
      assert p !in Sources(j);
    }
  }

  lemma CleanupIsRollback(w0: World, w1: World, w: World, j: Journal)
    requires Distinct(j) && RestoreEffect(w0, w1, j) && w0.journal == Some(j)
    requires forall k :: 0 <= k < |j.entries| ==> SourceSettled(w0, w1, j, k)
    requires CleanupEffect(w1, w, j)
    ensures RollbackEffect(w0, w, j)
    ensures forall k :: 0 <= k < |j.entries| ==> SourceSettled(w0, w, j, k)
  {
    forall p | p in RecoveryPaths(j) ensures Same(w0, w1, p) {
      assert p !in Sources(j);
    }
    forall k | 0 <= k < |j.entries|
      ensures SourceStep(w0, w, j, k) && SourceSettled(w0, w, j, k)
    {
      assert j.entries[k].source in Sources(j) && j.entries[k].source !in RecoveryPaths(j);
      assert SourceStep(w0, w1, j, k) && SourceSettled(w0, w1, j, k) && Same(w1, w, j.entries[k].source);
    }
  }

  lemma CleanupReadyAfterRestore(w0: World, w1: World, j: Journal)
    requires Distinct(j) && w1.strays == w0.strays
    requires forall p :: p !in Sources(j) ==> Same(w0, w1, p)
    requires Dir(j) in w1.directories <==> Dir(j) in w0.directories
    ensures CleanupReady(w0, j) <==> CleanupReady(w1, j)
  {
    forall k | 0 <= k < |j.entries| ensures Same(w0, w1, j.entries[k].backup) {
      assert j.entries[k].backup !in Sources(j);
    }
    forall p | Parent(p) == Dir(j) ensures Same(w0, w1, p) {
      assert p !in Sources(j);
    }
  }

  // ---- Clearing up after a commit ----

  /** A duplicate's backup is present, and its own name is free or still that backup. */
  ghost predicate DuplicateReady(w: World, j: Journal, k: nat)
    requires k < |j.entries|
  {
    var e := j.entries[k];
    e.backup in w.files && (e.source in w.files ==> w.files[e.source] == w.files[e.backup])
  }

  ghost predicate CommittedReady(w: World, j: Journal) {
    && (forall k :: 0 <= k < |j.entries| ==>
          if IsSurvivor(j, k) then j.entries[k].source in w.files else DuplicateReady(w, j, k))
    && CleanupReady(w, j)
  }

  /** The survivor's name is never touched; a duplicate's name goes only if it is its backup. */
  ghost predicate DuplicateStep(w0: World, w: World, j: Journal, k: nat)
    requires k < |j.entries|
  {
    var e := j.entries[k];
    || Same(w0, w, e.source)
    || (&& !IsSurvivor(j, k) && e.source in w0.files && e.backup in w0.files
        && w0.files[e.source] == w0.files[e.backup] && e.source !in w.files)
  }

  ghost predicate DropEffect(w0: World, w: World, j: Journal) {
    && w == w0.(files := w.files, strays := w.strays)
    && (forall p :: p !in Sources(j) ==> Same(w0, w, p))
    && (forall k :: 0 <= k < |j.entries| ==> DuplicateStep(w0, w, j, k))
    && w0.strays <= w.strays
    && (forall s :: s in w.strays && s !in w0.strays ==> s.dir != Dir(j))
    && Grounded(w)
  }

  ghost predicate DuplicatesGone(w: World, j: Journal) {
    forall k :: 0 <= k < |j.entries| && !IsSurvivor(j, k) ==> j.entries[k].source !in w.files
  }

  /** Drop one duplicate's name if it still is the backed-up file. */
  method DropDuplicate(m: Machine, j: Journal, k: nat, ghost w0: World, env: Env) returns (r: Outcome)
    requires Distinct(j) && k < |j.entries| && !IsSurvivor(j, k) && DropEffect(w0, m.w, j)
    requires Same(w0, m.w, j.entries[k].source)
    modifies m
    ensures DropEffect(w0, m.w, j)
    ensures forall q :: q != j.entries[k].source ==> Same(old(m.w), m.w, q)
    ensures r.Done? ==>
      DuplicateReady(w0, j, k) && j.entries[k].source !in m.w.files && m.w.strays == old(m.w.strays)
    ensures r.Failed? && !env.mayFail ==> !DuplicateReady(w0, j, k)
    ensures r.Crashed? ==> env.mayCrash
  {
    r := Chance(env);
    if r.IsFailure() { return r; }
    var e := j.entries[k];
    assert e.backup !in Sources(j);
    assert Same(w0, m.w, e.backup);
    if e.backup !in m.w.files { return Failed; }
    if e.source in m.w.files {
      if m.w.files[e.source] != m.w.files[e.backup] { return Failed; }
      r := m.Remove(e.source, m.w.files[e.backup], env);
      DroppingStep(w0, old(m.w), m.w, j, k);
      return r;
    }
    return Done;
  }

  lemma DroppingStep(w0: World, w1: World, w: World, j: Journal, k: nat)
    requires Distinct(j) && DropEffect(w0, w1, j) && k < |j.entries| && !IsSurvivor(j, k)
    requires Same(w0, w1, j.entries[k].source)
    requires j.entries[k].source in w0.files && j.entries[k].backup in w0.files
    requires w0.files[j.entries[k].source] == w0.files[j.entries[k].backup]
    requires OnlyName(w1, w, j.entries[k].source) && RemoveEffect(w1, w, j.entries[k].source)
    ensures DropEffect(w0, w, j)
  {
    var source := j.entries[k].source;
    assert source in Sources(j);
    forall p | p !in Sources(j) ensures Same(w0, w, p) {
      assert Same(w0, w1, p) && Same(w1, w, p);
    }
    forall i | 0 <= i < |j.entries| ensures DuplicateStep(w0, w, j, i) {
      assert DuplicateStep(w0, w1, j, i);
      assert i != k ==> Same(w1, w, j.entries[i].source);
    }
  }

  method DropDuplicates(m: Machine, j: Journal, env: Env) returns (r: Outcome)
    requires Distinct(j) && Grounded(m.w)
    modifies m
    ensures DropEffect(old(m.w), m.w, j)
    ensures r.Done? ==> DuplicatesGone(m.w, j) && m.w.strays == old(m.w.strays)
    ensures r.Done? ==>
      forall k :: 0 <= k < |j.entries| && !IsSurvivor(j, k) ==> DuplicateReady(old(m.w), j, k)
    ensures r.Failed? && !env.mayFail ==>
      exists k :: 0 <= k < |j.entries| && !IsSurvivor(j, k) && !DuplicateReady(old(m.w), j, k)
    ensures r.Crashed? ==> env.mayCrash
  {
    ghost var w0 := m.w;
    for k := 0 to |j.entries|
      invariant DropEffect(w0, m.w, j) && m.w.strays == w0.strays
      invariant forall i :: 0 <= i < k && !IsSurvivor(j, i) ==>
        DuplicateReady(w0, j, i) && j.entries[i].source !in m.w.files
      invariant forall i :: k <= i < |j.entries| ==> Same(w0, m.w, j.entries[i].source)
    {
      if j.entries[k].trackId != j.survivor {
        ghost var w1 := m.w;
        r := DropDuplicate(m, j, k, w0, env);
        assert forall i :: 0 <= i < |j.entries| && i != k ==> Same(w1, m.w, j.entries[i].source);
        if r.IsFailure() { return r; }
      }
    }
    return Done;
  }

  method FindSurvivor(j: Journal) returns (s: nat)
    requires Distinct(j)
    ensures s < |j.entries| && IsSurvivor(j, s)
    ensures forall k :: 0 <= k < |j.entries| && k != s ==> !IsSurvivor(j, k)
  {
    s := 0;
    while j.entries[s].trackId != j.survivor
      invariant s < |j.entries|
      invariant forall k :: 0 <= k < s ==> !IsSurvivor(j, k)
      decreases |j.entries| - s
    {
      s := s + 1;
    }
  }

  /** Everything a committed cleanup may do to the world it finds, however it ends. */
  ghost predicate CommittedEffect(w0: World, w: World, j: Journal) {
    && w == w0.(files := w.files, strays := w.strays, directories := w.directories, journal := w.journal)
    && (forall p :: p !in Sources(j) && p !in RecoveryPaths(j) ==> Same(w0, w, p))
    && (forall k :: 0 <= k < |j.entries| ==> DuplicateStep(w0, w, j, k))
    && (forall p :: p in RecoveryPaths(j) && p in w.files ==> p in w0.files && w.files[p] == w0.files[p])
    && ForeignBackupsKept(w0, w, j)
    && w0.strays <= w.strays
    && Grounded(w)
    && ((exists p :: p in RecoveryPaths(j) && p in w0.files && p !in w.files)
        || w.directories != w0.directories || w.journal != w0.journal
        ==> DuplicatesGone(w, j))
    && (w.directories == w0.directories || w.directories == w0.directories - {Dir(j)})
    && (w.journal == w0.journal || (w.journal.None? && w.files.Keys !! RecoveryPaths(j) && Dir(j) !in w.directories))
  }

  method CleanupCommitted(m: Machine, j: Journal, env: Env) returns (r: Outcome)
    requires Distinct(j) && Grounded(m.w) && m.w.journal == Some(j)
    modifies m
    ensures CommittedEffect(old(m.w), m.w, j)
    ensures r.Done? ==> CommittedReady(old(m.w), j) && m.w.journal.None?
    ensures r.Failed? && !env.mayFail ==> !CommittedReady(old(m.w), j) && m.w.journal == Some(j)
    ensures m.w.journal.None? ==> CommittedReady(old(m.w), j)
    ensures r.Done? ==> DuplicatesGone(m.w, j) && m.w.strays == old(m.w.strays)
    ensures r.Crashed? ==> env.mayCrash
  {
    ghost var w0 := m.w;
    var survivor := FindSurvivor(j);
    DropIsCommitted(w0, w0, j);
    :- Chance(env);
    if j.entries[survivor].source !in m.w.files { return Failed; }
    r := DropDuplicates(m, j, env);
    DropIsCommitted(w0, m.w, j);
    if r.IsFailure() { return r; }
    ghost var w1 := m.w;
    r := CleanupRecoveryFiles(m, j, env);
    CleanupIsCommitted(w0, w1, m.w, j);
    CleanupReadyAfterRestore(w0, w1, j);
    if r.IsFailure() { return r; }
    w1 := m.w;
    r := m.RemoveJournal(env);
    JournalRemovalIsCommitted(w0, w1, m.w, j);
  }

  lemma DropIsCommitted(w0: World, w: World, j: Journal)
    requires Distinct(j) && w0.journal == Some(j)
    requires w == w0 || DropEffect(w0, w, j)
    requires Grounded(w0)
    ensures CommittedEffect(w0, w, j)
  {
    forall p | p !in Sources(j) ensures Same(w0, w, p) {}
    forall p | p in RecoveryPaths(j) ensures Same(w0, w, p) {
      assert p !in Sources(j);
    }
  }

  lemma CleanupIsCommitted(w0: World, w1: World, w: World, j: Journal)
    requires Distinct(j) && DropEffect(w0, w1, j) && w0.journal == Some(j) && DuplicatesGone(w1, j)
    requires CleanupEffect(w1, w, j)
    ensures CommittedEffect(w0, w, j) && DuplicatesGone(w, j)
  {
    forall p | p in RecoveryPaths(j) ensures Same(w0, w1, p) {
      assert p !in Sources(j);
    }
    forall k | 0 <= k < |j.entries|
      ensures DuplicateStep(w0, w, j, k) && Same(w1, w, j.entries[k].source)
    {
      assert j.entries[k].source in Sources(j) && j.entries[k].source !in RecoveryPaths(j);
      assert DuplicateStep(w0, w1, j, k) && Same(w1, w, j.entries[k].source);
    }
  }

  lemma JournalRemovalIsCommitted(w0: World, w1: World, w: World, j: Journal)
    requires CommittedEffect(w0, w1, j) && w1.journal == w0.journal && DuplicatesGone(w1, j)
    requires w1.files.Keys !! RecoveryPaths(j) && Dir(j) !in w1.directories
    requires w == w1 || w == w1.(journal := None)
    ensures CommittedEffect(w0, w, j) && DuplicatesGone(w, j)
  {
    forall p ensures Same(w0, w1, p) == Same(w0, w, p) {}
    forall k | 0 <= k < |j.entries| ensures DuplicateStep(w0, w, j, k) {
      assert DuplicateStep(w0, w1, j, k);
    }
  }

  // ---- Files nobody recorded ----

  /** A rollback, however it ends, leaves alone any source name that holds
      neither nothing nor the staged replacement. */
  lemma RollbackSparesForeignFile(w0: World, w: World, j: Journal, k: nat)
    requires Distinct(j) && RollbackEffect(w0, w, j) && k < |j.entries|
    requires j.entries[k].source in w0.files
    requires j.stage in w0.files ==> w0.files[j.entries[k].source] != w0.files[j.stage]
    ensures Same(w0, w, j.entries[k].source)
  {
    assert SourceStep(w0, w, j, k);
  }

  /** A committed cleanup, however it ends, leaves alone the survivor's name and
      any name that does not hold its own backup. */
  lemma CleanupSparesForeignFile(w0: World, w: World, j: Journal, k: nat)
    requires Distinct(j) && CommittedEffect(w0, w, j) && k < |j.entries|
    requires IsSurvivor(j, k) || j.entries[k].source !in w0.files || j.entries[k].backup !in w0.files
          || w0.files[j.entries[k].source] != w0.files[j.entries[k].backup]
    ensures Same(w0, w, j.entries[k].source)
  {
    assert DuplicateStep(w0, w, j, k);
  }

  /** An occupant that is neither the backup nor the stage stops the rollback
      before anything of the recovery directory or the journal is given up. */
  lemma ForeignOccupantStopsRollback(w0: World, w: World, j: Journal, k: nat)
    requires Distinct(j) && RollbackEffect(w0, w, j) && k < |j.entries|
    requires j.entries[k].source in w0.files && j.entries[k].backup in w0.files
    requires w0.files[j.entries[k].source] != w0.files[j.entries[k].backup]
    requires j.stage in w0.files ==> w0.files[j.entries[k].source] != w0.files[j.stage]
    ensures !RollbackReady(w0, j)
    ensures w.journal == w0.journal && forall p :: p in RecoveryPaths(j) ==> Same(w0, w, p)
  {
    RollbackSparesForeignFile(w0, w, j, k);
    assert !EntryRestorable(w0, j, k) && !SourceSettled(w0, w, j, k);
    forall p | p in RecoveryPaths(j) ensures Same(w0, w, p) {}
  }

  /** However a rollback or a committed cleanup ends, a backup name keeps any file
      that is not the recorded one. */
  lemma RecoverySparesForeignBackup(w0: World, w: World, j: Journal, k: nat)
    requires RollbackEffect(w0, w, j) || CommittedEffect(w0, w, j) || CleanupEffect(w0, w, j)
    requires k < |j.entries| && j.entries[k].backup in w0.files
    requires w0.files[j.entries[k].backup] != j.entries[k].identity
    ensures Same(w0, w, j.entries[k].backup)
  {
  }
}
