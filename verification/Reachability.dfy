/** What a journaled consolidation can leave behind: the states its runs, its
    crashes and its recoveries reach, and what one recovery makes of each. */
module Reachability {
  import opened Wrappers
  import opened Paths
  import opened Journal
  import opened Machine
  import opened Recovery

  /** One consolidation: its journal, the world it starts from, the row and the
      tags planned for the survivor, the files its stage will be while its tags are
      written, and the file it will be in the end. */
  datatype Case = Case(
    j: Journal, before: World, row: int, tags: Tags, drafts: seq<FileIdentity>, staged: FileIdentity)

  // ---- The starting point ----

  predicate IsStage(c: Case, inode: FileIdentity) {
    inode == c.staged || inode in c.drafts
  }

  /** All selected tracks exist. Nothing is said of what is durable. */
  ghost predicate StartingWorld(c: Case) {
    && Grounded(c.before) && c.before.journal.None?
    && Dir(c.j) !in c.before.directories
    && (forall p :: p in c.before.files ==> c.before.files[p] in c.before.data)
    && AllThere(Rows(c.before.store), c.j)
    && (forall k :: 0 <= k < |c.j.entries| ==>
          c.j.entries[k].source in c.before.files
          && c.before.files[c.j.entries[k].source] == c.j.entries[k].identity)
  }

  /** The stage's files are new, and a copy differs from the file it replaces. */
  ghost predicate FreshStage(c: Case) {
    && (forall inode :: IsStage(c, inode) ==> inode !in c.before.data)
    && |c.drafts| == 3
    && c.drafts[0] != c.drafts[1] && c.drafts[1] != c.drafts[2] && c.drafts[2] != c.staged
  }

  ghost predicate Setting(c: Case) {
    Distinct(c.j) && StartingWorld(c) && FreshStage(c)
  }

  lemma NothingInRecoveryDirectoryBefore(c: Case)
    requires Setting(c)
    ensures forall p :: p in c.before.files ==> Parent(p) != Dir(c.j)
    ensures forall p :: p in RecoveryPaths(c.j) ==> p !in c.before.files
    ensures NoStray(c.before, c.j)
  {
  }

  /** Every selected track has its row. */
  predicate AllThere(rows: map<nat, int>, j: Journal) {
    forall k :: 0 <= k < |j.entries| ==> j.entries[k].trackId in rows
  }

  /** Of the selected tracks, only the survivor has a row. */
  predicate AllGone(rows: map<nat, int>, j: Journal) {
    j.survivor in rows && forall k :: 0 <= k < |j.entries| && !IsSurvivor(j, k) ==> j.entries[k].trackId !in rows
  }

  function RemovedIds(j: Journal): set<nat> {
    set k | 0 <= k < |j.entries| && !IsSurvivor(j, k) :: j.entries[k].trackId
  }

  /** The rows one commit makes of the rows it finds. */
  function MergedFrom(rows: map<nat, int>, j: Journal, row: int): map<nat, int> {
    (rows - RemovedIds(j))[j.survivor := row]
  }

  function MergedRows(c: Case): map<nat, int> {
    MergedFrom(Rows(c.before.store), c.j, c.row)
  }

  function SelectedIds(j: Journal): set<nat> {
    set k | 0 <= k < |j.entries| :: j.entries[k].trackId
  }

  /** What a merge makes of the library: the survivor has its planned row, no duplicate
      has one, and every track that was not selected has the row it had, or none. */
  ghost predicate RowsMerged(rows: map<nat, int>, before: map<nat, int>, j: Journal, row: int) {
    && j.survivor in rows && rows[j.survivor] == row
    && (forall k :: 0 <= k < |j.entries| && !IsSurvivor(j, k) ==> j.entries[k].trackId !in rows)
    && (forall id :: id !in SelectedIds(j) ==>
          (id in rows <==> id in before) && (id in rows ==> rows[id] == before[id]))
  }

  lemma MergedRowsAre(c: Case)
    requires Setting(c)
    ensures RowsMerged(MergedRows(c), Rows(c.before.store), c.j, c.row)
  {
    CommitShowsInRows(c);
    var s, d := SurvivorAndDuplicate(c.j);
    assert c.j.entries[s].trackId in SelectedIds(c.j) && RemovedIds(c.j) <= SelectedIds(c.j);
  }

  function MergedStore(c: Case): Store {
    Store(MergedRows(c), [])
  }

  // ---- Reachable states ----

  ghost predicate NoStray(w: World, j: Journal) {
    forall s :: s in w.strays ==> s.dir != Dir(j)
  }

  /** Nothing outside the journal's paths moved, no earlier file was written,
      and the recovery names hold what they should. */
  ghost predicate Undisturbed(w: World, c: Case) {
    && Grounded(w)
    && (forall p :: p !in Sources(c.j) && p !in RecoveryPaths(c.j) ==> Same(c.before, w, p))
    && (forall i :: i in c.before.data ==> i in w.data && w.data[i] == c.before.data[i])
    && (c.j.stage in w.files ==> IsStage(c, w.files[c.j.stage]))
    && (forall k :: 0 <= k < |c.j.entries| && c.j.entries[k].backup in w.files ==>
          w.files[c.j.entries[k].backup] == c.j.entries[k].identity)
    && (w.directories == c.before.directories || w.directories == c.before.directories + {Dir(c.j)})
    && c.before.strays <= w.strays
  }

  ghost predicate Intact(w: World, j: Journal, k: nat)
    requires k < |j.entries|
  {
    var e := j.entries[k];
    e.source in w.files && w.files[e.source] == e.identity
  }

  ghost predicate EntrySafe(w: World, j: Journal, k: nat)
    requires k < |j.entries|
  {
    Intact(w, j, k) || (j.entries[k].backup in w.files && Displaced(w, j, k))
  }

  /** Every original file is at its source or its backup. */
  ghost predicate Safe(w: World, c: Case) {
    && Undisturbed(w, c)
    && w.journal == Some(c.j)
    && forall k :: 0 <= k < |c.j.entries| ==> EntrySafe(w, c.j, k)
  }

  /** Not committed: the originals are safe, and the rows are some the store had before. */
  ghost predicate PreCommit(w: World, c: Case) {
    Safe(w, c) && IsCut(w.store, c.before.store)
  }

  /** Everything a rollback would still need. */
  ghost predicate Complete(w: World, c: Case) {
    && c.j.stage in w.files && w.files[c.j.stage] == c.staged
    && forall k :: 0 <= k < |c.j.entries| ==> c.j.entries[k].backup in w.files
  }

  /** A file holds the survivor's own sound, and these tags. */
  ghost predicate Holds(w: World, c: Case, inode: FileIdentity, tags: Tags) {
    && inode in w.data && w.data[inode].tags == tags
    && forall k :: 0 <= k < |c.j.entries| && IsSurvivor(c.j, k) ==>
         && c.j.entries[k].identity in c.before.data
         && w.data[inode].audio == c.before.data[c.j.entries[k].identity].audio
  }

  ghost predicate SourcesMerged(w: World, c: Case) {
    && Holds(w, c, c.staged, c.tags)
    && forall k :: 0 <= k < |c.j.entries| ==>
         if IsSurvivor(c.j, k) then
           c.j.entries[k].source in w.files && w.files[c.j.entries[k].source] == c.staged
         else
           c.j.entries[k].source !in w.files
  }

  /** Committed: the survivor's name holds the verified stage, the duplicates are
      gone, and until the commit is durable nothing a rollback needs is missing. */
  ghost predicate PostCommit(w: World, c: Case) {
    && Undisturbed(w, c)
    && w.journal == Some(c.j)
    && IsCut(w.store, Committed(c.before.store, MergedRows(c))) && Rows(w.store) == MergedRows(c)
    && (w.store == MergedStore(c) || Complete(w, c))
    && SourcesMerged(w, c)
  }

  /** Ended without a merge: the names are those the run started from. A file that
      a crash caught renamed aside beside a source may still be there as well. */
  ghost predicate RolledBack(w: World, c: Case) {
    && Undisturbed(w, c)
    && w.journal.None?
    && w.files == c.before.files && w.directories == c.before.directories
    && IsCut(w.store, c.before.store)
  }

  /** Ended merged: nothing of the journal is left but the survivor. */
  ghost predicate Merged(w: World, c: Case) {
    && Undisturbed(w, c)
    && w.journal.None?
    && w.files.Keys !! RecoveryPaths(c.j) && w.directories == c.before.directories
    && w.store == MergedStore(c)
    && SourcesMerged(w, c)
  }

  /** A source name is free, or holds its own file or, the survivor's, a stage. */
  ghost predicate KnownSources(w: World, c: Case) {
    forall k :: 0 <= k < |c.j.entries| && c.j.entries[k].source in w.files ==>
      || w.files[c.j.entries[k].source] == c.j.entries[k].identity
      || (IsSurvivor(c.j, k) && IsStage(c, w.files[c.j.entries[k].source]))
  }

  /** The rows the store fell back to know the survivor and none of the duplicates. */
  ghost predicate DuplicatesForgotten(w: World, c: Case) {
    exists rows :: rows in States(c.before.store) && AllGone(rows, c.j) && w.store == Store(rows, [])
  }

  /** Not committed, but taken for a commit and being cleared up. */
  ghost predicate Misread(w: World, c: Case) {
    Undisturbed(w, c) && w.journal == Some(c.j) && DuplicatesForgotten(w, c) && KnownSources(w, c)
  }

  /** Ended that way: no commit was made, and yet the duplicates' files are gone. */
  ghost predicate Lost(w: World, c: Case) {
    && Undisturbed(w, c)
    && w.journal.None?
    && w.files.Keys !! RecoveryPaths(c.j) && w.directories == c.before.directories
    && DuplicatesForgotten(w, c) && KnownSources(w, c)
    && forall k :: 0 <= k < |c.j.entries| ==> (c.j.entries[k].source in w.files <==> IsSurvivor(c.j, k))
  }

  ghost predicate Ended(w: World, c: Case) {
    RolledBack(w, c) || Merged(w, c) || Lost(w, c)
  }

  ghost predicate Reachable(w: World, c: Case) {
    PreCommit(w, c) || PostCommit(w, c) || Misread(w, c) || Ended(w, c)
  }

  // ---- What every reachable state guarantees ----

  lemma SurvivorAndDuplicate(j: Journal) returns (s: nat, d: nat)
    requires Distinct(j)
    ensures s < |j.entries| && IsSurvivor(j, s)
    ensures d < |j.entries| && !IsSurvivor(j, d)
  {
    s :| 0 <= s < |j.entries| && IsSurvivor(j, s);
    d := if s == 0 then 1 else 0;
  }

  lemma ThereIsNotGone(rows: map<nat, int>, j: Journal)
    requires Distinct(j)
    ensures !(AllThere(rows, j) && AllGone(rows, j))
  {
    var s, d := SurvivorAndDuplicate(j);
  }

  lemma CommitShowsInRows(c: Case)
    requires Setting(c)
    ensures AllGone(MergedRows(c), c.j)
  {
    forall k | 0 <= k < |c.j.entries| && !IsSurvivor(c.j, k)
      ensures c.j.entries[k].trackId !in MergedRows(c)
    {
      assert c.j.entries[k].trackId in RemovedIds(c.j);
    }
  }

  /** A duplicate with a row in any state of the store that a power loss could leave
      still has its original file, unwritten, at its source or its backup. */
  lemma DurableRowKeepsItsFile(w: World, c: Case, k: nat, rows: map<nat, int>)
    requires Setting(c) && Reachable(w, c) && rows in States(w.store)
    requires k < |c.j.entries| && !IsSurvivor(c.j, k) && c.j.entries[k].trackId in rows
    ensures Intact(w, c.j, k)
         || (c.j.entries[k].backup in w.files && w.files[c.j.entries[k].backup] == c.j.entries[k].identity)
    ensures c.j.entries[k].identity in w.data
         && w.data[c.j.entries[k].identity] == c.before.data[c.j.entries[k].identity]
  {
    CommitShowsInRows(c);
    hide IsCut, Holds, NoStray, Grounded, MergedRows;
    if PreCommit(w, c) {
      assert EntrySafe(w, c.j, k);
    }
  }

  lemma StoreOnly(w0: World, w: World, c: Case)
    requires w == w0.(store := w.store)
    ensures Undisturbed(w, c) <==> Undisturbed(w0, c)
    ensures SourcesMerged(w, c) <==> SourcesMerged(w0, c)
    ensures forall k :: 0 <= k < |c.j.entries| ==> (EntrySafe(w, c.j, k) <==> EntrySafe(w0, c.j, k))
  {
    forall p ensures Same(c.before, w, p) == Same(c.before, w0, p) {}
  }

  /** Losing an unflushed commit leaves everything its rollback needs. */
  lemma LostCommitIsRecoverable(w: World, c: Case)
    requires Setting(c) && Undisturbed(w, c) && w.journal == Some(c.j)
    requires SourcesMerged(w, c) && Complete(w, c)
    ensures forall k :: 0 <= k < |c.j.entries| ==> EntrySafe(w, c.j, k)
  {
  }

  lemma CutOfFlushed(s: Store, s0: Store)
    requires IsCut(s, s0) && s0.unflushed == []
    ensures s == s0
  {
    var at: nat :| OccursAt(States(s), States(s0), at);
    assert States(s)[0] == States(s0)[at + 0];
  }

  /** Power loss and restart lead only to reachable states. */
  lemma RebootStaysReachable(w0: World, w: World, c: Case)
    requires Setting(c) && Reachable(w0, c) && RebootEffect(w0, w)
    ensures Reachable(w, c)
    ensures PostCommit(w0, c) && Rows(w.store) != MergedRows(c) ==> PreCommit(w, c)
    ensures PostCommit(w0, c) && Rows(w.store) == MergedRows(c) ==> PostCommit(w, c)
    ensures PreCommit(w0, c) ==> PreCommit(w, c)
    ensures RolledBack(w0, c) ==> RolledBack(w, c)
    ensures w0.store.unflushed == [] ==> w == w0
  {
    StoreOnly(w0, w, c);
    if w0.store.unflushed == [] { CutOfFlushed(w.store, w0.store); }
    if PreCommit(w0, c) || RolledBack(w0, c) { CutOfCut(w.store, w0.store, c.before.store); }
    if PostCommit(w0, c) {
      CutOfCut(w.store, w0.store, Committed(c.before.store, MergedRows(c)));
      CutOfCommitted(w.store, c.before.store, MergedRows(c));
      if Rows(w.store) != MergedRows(c) { LostCommitIsRecoverable(w0, c); }
    }
  }

  /** Where every state the store can fall back to has all the rows, nothing is
      ever misread or lost. */
  lemma NothingIsForgotten(w: World, c: Case)
    requires Setting(c) && Reachable(w, c)
    requires forall rows :: rows in States(c.before.store) ==> AllThere(rows, c.j)
    ensures PreCommit(w, c) || PostCommit(w, c) || RolledBack(w, c) || Merged(w, c)
    ensures PreCommit(w, c) ==> AllThere(Rows(w.store), c.j)
  {
    if PreCommit(w, c) { CutStates(w.store, c.before.store); }
    if rows :| rows in States(c.before.store) && AllGone(rows, c.j) {
      ThereIsNotGone(rows, c.j);
    }
  }

  // ---- Recovery ----

  lemma SettledIsIntact(w0: World, w: World, c: Case, k: nat)
    requires Setting(c) && PreCommit(w0, c) && k < |c.j.entries|
    requires SourceSettled(w0, w, c.j, k) && SourceStep(w0, w, c.j, k)
    ensures Intact(w, c.j, k)
  {
    assert EntrySafe(w0, c.j, k);
  }

  lemma AllIntactIsOriginal(w: World, c: Case)
    requires Setting(c) && Undisturbed(w, c)
    requires forall k :: 0 <= k < |c.j.entries| ==> Intact(w, c.j, k)
    requires w.files.Keys !! RecoveryPaths(c.j)
    ensures w.files == c.before.files
  {
    NothingInRecoveryDirectoryBefore(c);
    forall p ensures Same(c.before, w, p) {
      OriginalName(w, c, p);
    }
    assert forall p :: Same(c.before, w, p) ==> (p in w.files <==> p in c.before.files);
  }

  lemma OriginalName(w: World, c: Case, p: RelPath)
    requires Setting(c) && Undisturbed(w, c)
    requires forall k :: 0 <= k < |c.j.entries| ==> Intact(w, c.j, k)
    requires p in RecoveryPaths(c.j) ==> p !in w.files && p !in c.before.files
    ensures Same(c.before, w, p)
  {
    if p in Sources(c.j) {
      var k :| 0 <= k < |c.j.entries| && c.j.entries[k].source == p;
      assert Intact(w, c.j, k);
    }
  }

  lemma RollbackUndisturbed(w0: World, w: World, c: Case)
    requires Setting(c) && Undisturbed(w0, c) && RollbackEffect(w0, w, c.j)
    ensures Undisturbed(w, c)
  {
    forall p | p !in Sources(c.j) && p !in RecoveryPaths(c.j) ensures Same(c.before, w, p) {
      assert Same(c.before, w0, p) && Same(w0, w, p);
    }
    assert c.j.stage in RecoveryPaths(c.j);
    forall k | 0 <= k < |c.j.entries| ensures c.j.entries[k].backup in RecoveryPaths(c.j) {}
    DirectorySandwich(c.before.directories, w0.directories, w.directories, Dir(c.j));
  }

  lemma DirectorySandwich(base: set<RelPath>, ds0: set<RelPath>, ds: set<RelPath>, d: RelPath)
    requires d !in base
    requires ds0 == base || ds0 == base + {d}
    requires ds0 - {d} <= ds && (d in ds ==> d in ds0)
    requires forall x :: x in ds && x !in ds0 ==> x in base
    ensures ds == base || ds == base + {d}
  {
  }

  /** Wherever a rollback stops, it has made progress and lost nothing: the
      state is still recoverable, or it is the one the consolidation started from. */
  lemma RollbackPreserves(w0: World, w: World, c: Case)
    requires Setting(c) && PreCommit(w0, c) && RollbackEffect(w0, w, c.j)
    ensures if w.journal.Some? then PreCommit(w, c) else RolledBack(w, c)
  {
    RollbackUndisturbed(w0, w, c);
    if forall k :: 0 <= k < |c.j.entries| ==> SourceSettled(w0, w, c.j, k) {
      forall k | 0 <= k < |c.j.entries| ensures Intact(w, c.j, k) {
        SettledIsIntact(w0, w, c, k);
      }
      if w.journal.None? {
        AllIntactIsOriginal(w, c);
      }
    } else {
      forall p | p in RecoveryPaths(c.j) ensures Same(w0, w, p) {}
      assert c.j.stage in RecoveryPaths(c.j);
      forall k | 0 <= k < |c.j.entries| ensures EntrySafe(w, c.j, k) {
        assert EntrySafe(w0, c.j, k) && SourceStep(w0, w, c.j, k);
        assert c.j.entries[k].backup in RecoveryPaths(c.j);
      }
    }
  }

  lemma OnlyRecoveryNamesInDirectory(w: World, c: Case)
    requires Setting(c) && Undisturbed(w, c)
    ensures DirectoryInUse(w, Dir(c.j), RecoveryPaths(c.j)) <==> !NoStray(w, c.j)
  {
  }

  /** An undisturbed rollback can finish exactly when no file was left aside in
      the recovery directory. */
  lemma RollbackReadyIff(w: World, c: Case)
    requires Setting(c) && PreCommit(w, c)
    ensures forall k :: 0 <= k < |c.j.entries| ==> EntryRestorable(w, c.j, k)
    ensures RollbackReady(w, c.j) <==> NoStray(w, c.j)
  {
    OnlyRecoveryNamesInDirectory(w, c);
    forall k | 0 <= k < |c.j.entries| ensures EntryRestorable(w, c.j, k) {
      assert EntrySafe(w, c.j, k);
    }
    if s :| s in w.strays && s.dir == Dir(c.j) {
      assert Dir(c.j) in w.directories;
    }
  }

  ghost predicate BackupsOfDuplicates(w: World, j: Journal) {
    forall k :: 0 <= k < |j.entries| && !IsSurvivor(j, k) ==> j.entries[k].backup in w.files
  }

  ghost predicate SurvivorPresent(w: World, j: Journal) {
    forall k :: 0 <= k < |j.entries| && IsSurvivor(j, k) ==> j.entries[k].source in w.files
  }

  lemma SourcesAreKnown(w: World, c: Case)
    requires Setting(c) && (PreCommit(w, c) || PostCommit(w, c) || Misread(w, c))
    ensures KnownSources(w, c)
  {
    if PreCommit(w, c) {
      forall k | 0 <= k < |c.j.entries| && c.j.entries[k].source in w.files
        ensures w.files[c.j.entries[k].source] == c.j.entries[k].identity
             || (IsSurvivor(c.j, k) && IsStage(c, w.files[c.j.entries[k].source]))
      {
        assert EntrySafe(w, c.j, k);
      }
    }
  }

  /** A committed cleanup can finish exactly when the survivor and every duplicate's
      backup are there and nothing lies aside in the recovery directory. */
  lemma CommittedReadyIff(w: World, c: Case)
    requires Setting(c) && (PreCommit(w, c) || PostCommit(w, c) || Misread(w, c))
    ensures CommittedReady(w, c.j) <==>
      SurvivorPresent(w, c.j) && BackupsOfDuplicates(w, c.j) && NoStray(w, c.j)
  {
    SourcesAreKnown(w, c);
    OnlyRecoveryNamesInDirectory(w, c);
    forall k | 0 <= k < |c.j.entries| && !IsSurvivor(c.j, k)
      ensures DuplicateReady(w, c.j, k) <==> c.j.entries[k].backup in w.files
    {
    }
    var s, d := SurvivorAndDuplicate(c.j);
    assert DuplicateReady(w, c.j, d) ==> Dir(c.j) in w.directories;
  }

  /** A committed cleanup leaves the rest of the world alone. */
  lemma CleanupUndisturbed(w0: World, w: World, c: Case)
    requires Setting(c) && Undisturbed(w0, c) && CommittedEffect(w0, w, c.j)
    ensures Undisturbed(w, c)
  {
    forall p | p !in Sources(c.j) && p !in RecoveryPaths(c.j) ensures Same(c.before, w, p) {
      assert Same(c.before, w0, p) && Same(w0, w, p);
    }
    assert c.j.stage in RecoveryPaths(c.j);
    forall k | 0 <= k < |c.j.entries| ensures c.j.entries[k].backup in RecoveryPaths(c.j) {}
    DirectorySandwich(c.before.directories, w0.directories, w.directories, Dir(c.j));
  }

  /** A committed cleanup, wherever it stops, keeps the merge. */
  lemma CleanupPreserves(w0: World, w: World, c: Case)
    requires Setting(c) && PostCommit(w0, c) && w0.store == MergedStore(c)
    requires CommittedEffect(w0, w, c.j)
    ensures if w.journal.Some? then PostCommit(w, c) else Merged(w, c)
  {
    CleanupUndisturbed(w0, w, c);
    forall k | 0 <= k < |c.j.entries| ensures Same(w0, w, c.j.entries[k].source) {
      assert DuplicateStep(w0, w, c.j, k);
    }
  }

  /** One that was never meant, wherever it stops, adds nothing and keeps the survivor. */
  lemma MisreadingPreserves(w0: World, w: World, c: Case)
    requires Setting(c) && (PreCommit(w0, c) || Misread(w0, c)) && DuplicatesForgotten(w0, c)
    requires CommittedEffect(w0, w, c.j) && (w.journal.None? ==> CommittedReady(w0, c.j))
    ensures if w.journal.Some? then Misread(w, c) else Lost(w, c)
  {
    SourcesAreKnown(w0, c);
    CleanupUndisturbed(w0, w, c);
    CleanupKeepsSources(w0, w, c.j);
    StillKnown(w0, w, c);
    hide Undisturbed, Setting, PreCommit, KnownSources, IsStage, Grounded, ForeignBackupsKept;
  }

  /** A cleanup rebinds no source and leaves the survivor's. */
  lemma CleanupKeepsSources(w0: World, w: World, j: Journal)
    requires CommittedEffect(w0, w, j)
    ensures forall k :: 0 <= k < |j.entries| && j.entries[k].source in w.files ==> Same(w0, w, j.entries[k].source)
    ensures forall k :: 0 <= k < |j.entries| && IsSurvivor(j, k) ==> Same(w0, w, j.entries[k].source)
  {
    forall k | 0 <= k < |j.entries|
      ensures j.entries[k].source in w.files ==> Same(w0, w, j.entries[k].source)
      ensures IsSurvivor(j, k) ==> Same(w0, w, j.entries[k].source)
    {
      assert DuplicateStep(w0, w, j, k);
    }
  }

  lemma StillKnown(w0: World, w: World, c: Case)
    requires KnownSources(w0, c)
    requires forall k :: 0 <= k < |c.j.entries| && c.j.entries[k].source in w.files ==>
      Same(w0, w, c.j.entries[k].source)
    ensures KnownSources(w, c)
  {
  }

  /** Exactly the reachable states one undisturbed recovery brings to an end. */
  ghost predicate Recoverable(w: World, c: Case) {
    || w.journal.None?
    || (AllThere(Rows(w.store), c.j) && NoStray(w, c.j))
    || (AllGone(Rows(w.store), c.j) && CommittedReady(w, c.j))
  }

  /** Survivor present, and either all of the duplicates' rows or none. */
  method ClassifyRows(rows: map<nat, int>, j: Journal) returns (survivor: bool, allGone: bool, allThere: bool)
    ensures survivor == (j.survivor in rows)
    ensures allGone == forall k :: 0 <= k < |j.entries| && !IsSurvivor(j, k) ==> j.entries[k].trackId !in rows
    ensures allThere == forall k :: 0 <= k < |j.entries| && !IsSurvivor(j, k) ==> j.entries[k].trackId in rows
  {
    survivor, allGone, allThere := j.survivor in rows, true, true;
    for k := 0 to |j.entries|
      invariant allGone == forall i :: 0 <= i < k && !IsSurvivor(j, i) ==> j.entries[i].trackId !in rows
      invariant allThere == forall i :: 0 <= i < k && !IsSurvivor(j, i) ==> j.entries[i].trackId in rows
    {
      if j.entries[k].trackId != j.survivor {
        if j.entries[k].trackId in rows { allGone := false; } else { allThere := false; }
      }
    }
  }

  /** Recovery takes the branch the state calls for exactly when it was committed or
      the rows it fell back to are complete. */
  lemma RowsTellThePhase(w: World, c: Case)
    requires Setting(c) && (PreCommit(w, c) || PostCommit(w, c) || Misread(w, c))
    ensures PostCommit(w, c) || Misread(w, c) ==> AllGone(Rows(w.store), c.j)
    ensures AllThere(Rows(w.store), c.j) ==> PreCommit(w, c) && !AllGone(Rows(w.store), c.j)
  {
    CommitShowsInRows(c);
    ThereIsNotGone(Rows(w.store), c.j);
  }

  /** Read the journal, let the rows decide, and finish one way or the other. */
  method Recover(m: Machine, ghost c: Case, env: Env) returns (r: Outcome)
    requires Setting(c) && Reachable(m.w, c)
    modifies m
    ensures Reachable(m.w, c)
    ensures r.Done? ==> Ended(m.w, c) && Recoverable(old(m.w), c)
    ensures r.Failed? && !env.mayFail ==> !Recoverable(old(m.w), c) && m.w.journal.Some?
    ensures r.Crashed? ==> env.mayCrash
    ensures old(m.w.journal).None? ==> r.Done? && m.w == old(m.w)
    ensures Rows(m.w.store) == Rows(old(m.w).store)
    // A recovery that cannot end never becomes able to.
    ensures !Recoverable(old(m.w), c) ==> !Recoverable(m.w, c)
    // With all rows there it rolls back, after a commit it clears up.
    ensures old(m.w.journal).Some? && AllThere(Rows(old(m.w).store), c.j) ==> PreCommit(m.w, c) || RolledBack(m.w, c)
    ensures PostCommit(old(m.w), c) ==> PostCommit(m.w, c) || Merged(m.w, c)
    // With the duplicates' rows gone and no commit, it loses their files.
    ensures (PreCommit(old(m.w), c) || Misread(old(m.w), c)) && AllGone(Rows(old(m.w).store), c.j) ==>
      PreCommit(m.w, c) || Misread(m.w, c) || Lost(m.w, c)
    // With some of the rows missing, it does nothing.
    ensures old(m.w.journal).Some? && !AllThere(Rows(old(m.w).store), c.j) && !AllGone(Rows(old(m.w).store), c.j) ==>
      m.w == old(m.w) && !r.Done?
    // Stuck or not, an undisturbed rollback has put every original file back.
    ensures old(m.w.journal).Some? && AllThere(Rows(old(m.w).store), c.j) && !env.mayFail && !r.Crashed? ==>
      forall k :: 0 <= k < |c.j.entries| ==> Intact(m.w, c.j, k)
  {
    if m.w.journal.None? { return Done; }
    var j := m.w.journal.value;
    assert j == c.j;
    RowsTellThePhase(m.w, c);
    SurvivorIsListed(Rows(m.w.store), j);
    assert PreCommit(m.w, c) || PostCommit(m.w, c) || Misread(m.w, c);
    RecoverableByPhase(m.w, c);
    hide PreCommit, PostCommit, Misread, RolledBack, Merged, Lost, Setting, NoStray, CommittedReady, Rows;
    :- Chance(env);
    var survivor, allGone, allThere := ClassifyRows(Rows(m.w.store), j);
    if survivor && allGone {
      r := FinishCommitted(m, j, c, env);
    } else if survivor && allThere {
      r := UndoUncommitted(m, j, c, env);
    } else {
      return Failed;
    }
  }

  lemma SurvivorIsListed(rows: map<nat, int>, j: Journal)
    requires Distinct(j)
    ensures AllThere(rows, j) <==>
      j.survivor in rows && forall k :: 0 <= k < |j.entries| && !IsSurvivor(j, k) ==> j.entries[k].trackId in rows
  {
    var s, d := SurvivorAndDuplicate(j);
  }

  /** Make the rows durable, then clear up. */
  method FinishCommitted(m: Machine, j: Journal, ghost c: Case, env: Env) returns (r: Outcome)
    requires Setting(c) && j == c.j && (PreCommit(m.w, c) || PostCommit(m.w, c) || Misread(m.w, c))
    requires AllGone(Rows(m.w.store), j)
    modifies m
    ensures PostCommit(old(m.w), c) ==> if m.w.journal.Some? then PostCommit(m.w, c) else Merged(m.w, c)
    ensures PreCommit(old(m.w), c) || Misread(old(m.w), c) ==>
      if m.w.journal.Some? then PreCommit(m.w, c) || Misread(m.w, c) else Lost(m.w, c)
    ensures r.Done? ==> m.w.journal.None? && Recoverable(old(m.w), c)
    ensures r.Failed? && !env.mayFail ==> m.w.journal.Some? && !Recoverable(old(m.w), c)
    ensures !Recoverable(old(m.w), c) ==> !Recoverable(m.w, c)
    ensures Rows(m.w.store) == Rows(old(m.w).store)
    ensures r.Crashed? ==> env.mayCrash
  {
    ghost var w0 := m.w;
    r := m.FlushDurable(env);
    FlushKeepsPhase(w0, m.w, c);
    if r.IsFailure() { return r; }
    r := ClearUp(m, j, c, env);
  }

  /** A flush leaves the phase and its chances of ending as they are, and fixes
      which of the two kinds of cleanup follows. */
  lemma FlushKeepsPhase(w0: World, w: World, c: Case)
    requires Setting(c) && (PreCommit(w0, c) || PostCommit(w0, c) || Misread(w0, c))
    requires AllGone(Rows(w0.store), c.j)
    requires w == w0 || w == w0.(store := Flushed(w0.store))
    ensures PreCommit(w0, c) ==> PreCommit(w, c)
    ensures PostCommit(w0, c) ==> PostCommit(w, c)
    ensures Misread(w0, c) ==> Misread(w, c)
    ensures w == w0.(store := Flushed(w0.store)) ==>
      (PostCommit(w0, c) ==> w.store == MergedStore(c))
      && (PreCommit(w0, c) || Misread(w0, c) ==> DuplicatesForgotten(w, c))
    ensures Recoverable(w, c) == Recoverable(w0, c) && AllGone(Rows(w.store), c.j)
    ensures Rows(w.store) == Rows(w0.store)
  {
    StoreOnly(w0, w, c);
    WholeIsCut(w0.store);
    assert Rows(w.store) == Rows(w0.store);
    ReadyAlike(w0, w, c.j);
    if PreCommit(w0, c) {
      CutStates(w0.store, c.before.store);
      if w != w0 { CutOfCut(w.store, w0.store, c.before.store); }
    }
    if PostCommit(w0, c) && w != w0 {
      CutOfCut(w.store, w0.store, Committed(c.before.store, MergedRows(c)));
    }
  }

  lemma ReadyAlike(w0: World, w: World, j: Journal)
    requires w == w0.(store := w.store)
    ensures CommittedReady(w, j) == CommittedReady(w0, j) && NoStray(w, j) == NoStray(w0, j)
  {
  }

  /** The cleanup a commit calls for, once the rows are durable. */
  method ClearUp(m: Machine, j: Journal, ghost c: Case, env: Env) returns (r: Outcome)
    requires Setting(c) && j == c.j && AllGone(Rows(m.w.store), j)
    requires (PostCommit(m.w, c) && m.w.store == MergedStore(c))
          || ((PreCommit(m.w, c) || Misread(m.w, c)) && DuplicatesForgotten(m.w, c))
    modifies m
    ensures PostCommit(old(m.w), c) && old(m.w).store == MergedStore(c) ==>
      if m.w.journal.Some? then PostCommit(m.w, c) else Merged(m.w, c)
    ensures (PreCommit(old(m.w), c) || Misread(old(m.w), c)) && DuplicatesForgotten(old(m.w), c) ==>
      if m.w.journal.Some? then Misread(m.w, c) else Lost(m.w, c)
    ensures r.Done? ==> m.w.journal.None? && Recoverable(old(m.w), c)
    ensures r.Failed? && !env.mayFail ==> m.w.journal.Some? && !Recoverable(old(m.w), c)
    ensures !Recoverable(old(m.w), c) ==> !Recoverable(m.w, c)
    ensures m.w.store == old(m.w).store
    ensures r.Crashed? ==> env.mayCrash
  {
    ghost var w0 := m.w;
    r := CleanupCommitted(m, j, env);
    ThereIsNotGone(Rows(w0.store), j);
    if PostCommit(w0, c) && w0.store == MergedStore(c) { CleanupPreserves(w0, m.w, c); }
    if (PreCommit(w0, c) || Misread(w0, c)) && DuplicatesForgotten(w0, c) { MisreadingPreserves(w0, m.w, c); }
    CommittedReadyIff(w0, c);
    if m.w.journal.Some? {
      CommittedReadyIff(m.w, c);
      CleanupBringsNothingBack(w0, m.w, c);
    }
  }

  lemma CleanupBringsNothingBack(w0: World, w: World, c: Case)
    requires Setting(c) && CommittedEffect(w0, w, c.j)
    ensures BackupsOfDuplicates(w, c.j) ==> BackupsOfDuplicates(w0, c.j)
    ensures NoStray(w, c.j) ==> NoStray(w0, c.j)
    ensures SurvivorPresent(w, c.j) ==> SurvivorPresent(w0, c.j)
  {
    forall k | 0 <= k < |c.j.entries|
      ensures c.j.entries[k].backup in w.files ==> c.j.entries[k].backup in w0.files
      ensures IsSurvivor(c.j, k) ==> Same(w0, w, c.j.entries[k].source)
    {
      assert c.j.entries[k].backup in RecoveryPaths(c.j);
      assert DuplicateStep(w0, w, c.j, k);
    }
  }

  /** Roll back what was not committed. */
  method UndoUncommitted(m: Machine, j: Journal, ghost c: Case, env: Env) returns (r: Outcome)
    requires Setting(c) && j == c.j && PreCommit(m.w, c)
    modifies m
    ensures if m.w.journal.Some? then PreCommit(m.w, c) else RolledBack(m.w, c)
    ensures r.Done? ==> m.w.journal.None? && NoStray(old(m.w), j)
    ensures r.Failed? && !env.mayFail ==> m.w.journal.Some? && !NoStray(old(m.w), j)
    ensures m.w.journal.None? ==> NoStray(old(m.w), j)
    ensures NoStray(m.w, j) ==> NoStray(old(m.w), j)
    ensures m.w.store == old(m.w).store
    ensures !env.mayFail && !r.Crashed? ==> forall k :: 0 <= k < |j.entries| ==> Intact(m.w, j, k)
    ensures r.Crashed? ==> env.mayCrash
  {
    ghost var w0 := m.w;
    r := Rollback(m, j, env);
    RollbackPreserves(w0, m.w, c);
    RollbackReadyIff(w0, c);
    if forall k :: 0 <= k < |j.entries| ==> SourceSettled(w0, m.w, j, k) {
      forall k | 0 <= k < |j.entries| ensures Intact(m.w, j, k) {
        SettledIsIntact(w0, m.w, c, k);
      }
    }
  }

  /** Committed or not, a state is recoverable exactly when the rows it is read with
      let its branch finish. */
  lemma RecoverableByPhase(w: World, c: Case)
    requires Setting(c)
    ensures PreCommit(w, c) && AllThere(Rows(w.store), c.j) ==> (Recoverable(w, c) <==> NoStray(w, c.j))
    ensures PostCommit(w, c) ==> (Recoverable(w, c) <==> BackupsOfDuplicates(w, c.j) && NoStray(w, c.j))
    ensures PreCommit(w, c) && AllGone(Rows(w.store), c.j) ==>
      (Recoverable(w, c) <==> SurvivorPresent(w, c.j) && BackupsOfDuplicates(w, c.j) && NoStray(w, c.j))
    ensures PreCommit(w, c) && !AllThere(Rows(w.store), c.j) && !AllGone(Rows(w.store), c.j) ==> !Recoverable(w, c)
  {
    CommitShowsInRows(c);
    ThereIsNotGone(Rows(w.store), c.j);
    if PreCommit(w, c) || PostCommit(w, c) { CommittedReadyIff(w, c); }
  }
}
