/** The journaled consolidation itself, the lives it can lead through crashes and
    recoveries, and where a recovery gets stuck or goes wrong. */
module Consolidation {
  import opened Wrappers
  import opened Paths
  import opened Journal
  import opened Machine
  import opened Recovery
  import opened Reachability

  // ---- The forward run, up to the commit ----

  /** Not committed, every source still in place, rows as they were. */
  ghost predicate Preparing(w: World, c: Case) {
    && Safe(w, c) && w.store == c.before.store
    && forall k :: 0 <= k < |c.j.entries| ==> Intact(w, c.j, k)
  }

  ghost predicate BackedUp(w: World, j: Journal) {
    forall k :: 0 <= k < |j.entries| ==> j.entries[k].backup in w.files
  }

  /** The stage is this file, with the survivor's sound and these tags. */
  ghost predicate StageAt(w: World, c: Case, inode: FileIdentity, tags: Tags) {
    c.j.stage in w.files && w.files[c.j.stage] == inode && Holds(w, c, inode, tags)
  }

  /** Every file a rollback needs is in place, and the stage's tags are verified. */
  ghost predicate Replacing(w: World, c: Case) {
    Safe(w, c) && w.store == c.before.store && Complete(w, c) && Holds(w, c, c.staged, c.tags)
  }

  /** What is safe with the rows as they were is not committed, and can be rolled
      back unless something lies aside. */
  lemma SafeIsPreCommit(w: World, c: Case)
    requires Setting(c) && Safe(w, c) && w.store == c.before.store
    ensures PreCommit(w, c) && AllThere(Rows(w.store), c.j)
    ensures Recoverable(w, c) <==> NoStray(w, c.j)
  {
    WholeIsCut(c.before.store);
    RecoverableByPhase(w, c);
  }

  /** The journal was published and nothing else happened yet. */
  lemma PublishedIsPreparing(w: World, c: Case)
    requires Setting(c) && w == c.before.(journal := Some(c.j))
    ensures Preparing(w, c) && NoStray(w, c.j)
    ensures c.j.stage !in w.files
    ensures forall k :: 0 <= k < |c.j.entries| ==> c.j.entries[k].backup !in w.files
  {
    NothingInRecoveryDirectoryBefore(c);
    assert c.j.stage in RecoveryPaths(c.j);
    forall k | 0 <= k < |c.j.entries| ensures Intact(w, c.j, k) && EntrySafe(w, c.j, k) {
      assert c.j.entries[k].backup in RecoveryPaths(c.j);
    }
  }

  lemma TouchRecoveryName(w0: World, w: World, c: Case, p: RelPath)
    requires Setting(c) && Preparing(w0, c) && p in RecoveryPaths(c.j) && OnlyName(w0, w, p)
    requires p in w.files ==>
      if p == c.j.stage then IsStage(c, w.files[p])
      else forall k :: 0 <= k < |c.j.entries| && c.j.entries[k].backup == p ==> w.files[p] == c.j.entries[k].identity
    ensures Preparing(w, c)
  {
    assert Parent(p) == Dir(c.j);
    forall q | q !in Sources(c.j) && q !in RecoveryPaths(c.j) ensures Same(c.before, w, q) {
      assert Same(c.before, w0, q) && Same(w0, w, q);
    }
    assert p != c.j.stage ==> Same(w0, w, c.j.stage);
    forall k | 0 <= k < |c.j.entries|
      ensures Intact(w, c.j, k) && EntrySafe(w, c.j, k)
      ensures c.j.entries[k].backup in w.files ==> w.files[c.j.entries[k].backup] == c.j.entries[k].identity
    {
      assert Intact(w0, c.j, k) && Same(w0, w, c.j.entries[k].source);
      assert c.j.entries[k].backup != p ==> Same(w0, w, c.j.entries[k].backup);
    }
  }

  /** Writing a file of the stage touches nothing else. */
  lemma WriteStage(w0: World, w: World, c: Case, inode: FileIdentity)
    requires Setting(c) && Preparing(w0, c) && IsStage(c, inode)
    requires w == w0.(data := w.data) && inode in w.data && w.data - {inode} == w0.data - {inode}
    ensures Preparing(w, c)
  {
    forall p ensures Same(c.before, w, p) == Same(c.before, w0, p) {}
    forall i | i in c.before.data ensures i in w.data && w.data[i] == c.before.data[i] {
      assert i in w0.data - {inode};
      assert i in w.data - {inode};
    }
    forall k | 0 <= k < |c.j.entries| ensures Intact(w, c.j, k) && EntrySafe(w, c.j, k) {
      assert Intact(w0, c.j, k);
    }
  }

  lemma TouchSourceName(w0: World, w: World, c: Case, k: nat)
    requires Setting(c) && Replacing(w0, c) && k < |c.j.entries| && OnlyName(w0, w, c.j.entries[k].source)
    requires c.j.entries[k].source in w.files ==>
      || w.files[c.j.entries[k].source] == c.j.entries[k].identity
      || (IsSurvivor(c.j, k) && w.files[c.j.entries[k].source] == c.staged)
    ensures Replacing(w, c)
    ensures NoStray(w0, c.j) ==> NoStray(w, c.j)
    ensures forall i :: 0 <= i < |c.j.entries| && i != k ==> Same(w0, w, c.j.entries[i].source)
  {
    var p := c.j.entries[k].source;
    assert p in Sources(c.j) && p !in RecoveryPaths(c.j);
    assert Parent(p) in w0.directories by {
      assert p in c.before.files;
    }
    forall q | q !in Sources(c.j) && q !in RecoveryPaths(c.j) ensures Same(c.before, w, q) {
      assert Same(c.before, w0, q) && Same(w0, w, q);
    }
    assert Same(w0, w, c.j.stage);
    forall i | 0 <= i < |c.j.entries|
      ensures EntrySafe(w, c.j, i) && Same(w0, w, c.j.entries[i].backup)
      ensures i != k ==> Same(w0, w, c.j.entries[i].source)
    {
      assert EntrySafe(w0, c.j, i);
      assert Same(w0, w, c.j.entries[i].backup);
      assert i != k ==> Same(w0, w, c.j.entries[i].source);
    }
    assert w.directories == w0.directories;
  }

  /** Hard-link one source to its backup, after checking that it is still the
      file the journal recorded. */
  method BackUpSource(m: Machine, c: Case, k: nat, env: Env) returns (r: Outcome)
    requires Setting(c) && Preparing(m.w, c) && k < |c.j.entries| && c.j.entries[k].backup !in m.w.files
    modifies m
    ensures Preparing(m.w, c)
    ensures forall q :: q != c.j.entries[k].backup ==> Same(old(m.w), m.w, q)
    ensures r.Done? ==> c.j.entries[k].backup in m.w.files
    ensures !env.mayFail ==> m.w.strays == old(m.w.strays)
    ensures r.Failed? ==> env.mayFail
    ensures r.Crashed? ==> env.mayCrash
  {
    r := Chance(env);
    if r.IsFailure() { return r; }
    var e := c.j.entries[k];
    assert Intact(m.w, c.j, k) && e.backup in RecoveryPaths(c.j);
    if e.source !in m.w.files || m.w.files[e.source] != e.identity { return Failed; }
    r := m.Publish(e.identity, e.backup, env);
    TouchRecoveryName(old(m.w), m.w, c, e.backup);
  }

  method BackUpSources(m: Machine, c: Case, env: Env) returns (r: Outcome)
    requires Setting(c) && Preparing(m.w, c) && c.j.stage !in m.w.files
    requires forall k :: 0 <= k < |c.j.entries| ==> c.j.entries[k].backup !in m.w.files
    modifies m
    ensures Preparing(m.w, c)
    ensures r.Done? ==> BackedUp(m.w, c.j)
    ensures r.Done? ==> c.j.stage !in m.w.files
    ensures !env.mayFail ==> m.w.strays == old(m.w.strays)
    ensures r.Failed? ==> env.mayFail
    ensures r.Crashed? ==> env.mayCrash
  {
    for k := 0 to |c.j.entries|
      invariant Preparing(m.w, c)
      invariant forall i :: 0 <= i < k ==> c.j.entries[i].backup in m.w.files
      invariant forall i :: k <= i < |c.j.entries| ==> c.j.entries[i].backup !in m.w.files
      invariant c.j.stage !in m.w.files
      invariant !env.mayFail ==> m.w.strays == old(m.w.strays)
    {
      ghost var w1 := m.w;
      r := BackUpSource(m, c, k, env);
      if r.IsFailure() { return r; }
      OtherBackupsKept(w1, m.w, c.j, k);
    }
    return Done;
  }

  lemma OtherBackupsKept(w0: World, w: World, j: Journal, k: nat)
    requires Distinct(j) && k < |j.entries|
    requires forall q :: q != j.entries[k].backup ==> Same(w0, w, q)
    ensures j.stage in w.files <==> j.stage in w0.files
    ensures forall i :: 0 <= i < |j.entries| && i != k ==>
      (j.entries[i].backup in w.files <==> j.entries[i].backup in w0.files)
  {
    assert Same(w0, w, j.stage);
    forall i | 0 <= i < |j.entries| && i != k
      ensures j.entries[i].backup in w.files <==> j.entries[i].backup in w0.files
    {
      assert Same(w0, w, j.entries[i].backup);
    }
  }

  /** The world, but for the rows a power loss may have taken since, is one that a crash
      left while a tag write had its temporary name in use. */
  ghost predicate InsideTagWrite(w: World, c: Case) {
    exists w0: World, to: FileIdentity, contents: Data ::
      && Preparing(w0, c) && BackedUp(w0, c.j) && c.j.stage in w0.files && NoStray(w0, c.j) && IsStage(c, to)
      && Torn(w0, w.(store := w0.store), c.j.stage, to, contents)
  }

  /** No such world can be recovered. */
  lemma TagWriteIsAside(w: World, c: Case)
    requires InsideTagWrite(w, c)
    ensures !NoStray(w, c.j)
  {
    var w0: World, to: FileIdentity, contents: Data :|
      && Preparing(w0, c) && BackedUp(w0, c.j) && c.j.stage in w0.files && NoStray(w0, c.j) && IsStage(c, to)
      && Torn(w0, w.(store := w0.store), c.j.stage, to, contents);
    TornIsAside(w0, w.(store := w0.store), c, to, contents);
  }

  lemma TornIsInside(w0: World, w: World, c: Case, to: FileIdentity, contents: Data)
    requires Preparing(w0, c) && BackedUp(w0, c.j) && c.j.stage in w0.files && NoStray(w0, c.j) && IsStage(c, to)
    requires Torn(w0, w, c.j.stage, to, contents)
    ensures InsideTagWrite(w, c)
  {
    assert w.store == w0.store && w.(store := w0.store) == w;
  }

  /** Create the stage as a copy of the survivor, then write its tags in three
      parts and verify them. Only the stage's own files are ever written. */
  method StageSurvivor(m: Machine, c: Case, env: Env) returns (r: Outcome, ghost torn: bool)
    requires Setting(c) && Preparing(m.w, c) && c.j.stage !in m.w.files && BackedUp(m.w, c.j)
    modifies m
    ensures Preparing(m.w, c)
    ensures r.Done? ==> Replacing(m.w, c)
    ensures torn ==> r.Crashed? && !NoStray(m.w, c.j)
    ensures torn && !env.mayFail && NoStray(old(m.w), c.j) ==> InsideTagWrite(m.w, c)
    ensures !torn && !env.mayFail ==> m.w.strays == old(m.w.strays)
    ensures r.Failed? ==> env.mayFail
    ensures r.Crashed? ==> env.mayCrash
  {
    torn := false;
    var tags: Tags;
    r, tags := CopyToStage(m, c, env);
    if r.IsFailure() { return; }
    r, torn := WriteTags(m, c, c.drafts[0], c.drafts[1], tags, tags.(metadata := c.tags.metadata), env);
    if r.IsFailure() { return; }
    tags := tags.(metadata := c.tags.metadata);
    r, torn := WriteTags(m, c, c.drafts[1], c.drafts[2], tags, tags.(rating := c.tags.rating), env);
    if r.IsFailure() { return; }
    tags := tags.(rating := c.tags.rating);
    r, torn := WriteTags(m, c, c.drafts[2], c.staged, tags, tags.(artwork := c.tags.artwork), env);
    if r.IsFailure() { return; }
    r := Chance(env);
    if r.IsFailure() { return; }
    if m.w.data[c.staged].tags != c.tags { return Failed, false; }
    return Done, false;
  }

  /** One part of the tags: the stage becomes another file. */
  method WriteTags(m: Machine, c: Case, from: FileIdentity, to: FileIdentity, tags: Tags, newTags: Tags, env: Env)
    returns (r: Outcome, ghost torn: bool)
    requires Setting(c) && Preparing(m.w, c) && BackedUp(m.w, c.j)
    requires StageAt(m.w, c, from, tags) && IsStage(c, to) && from != to
    modifies m
    ensures Preparing(m.w, c) && BackedUp(m.w, c.j)
    ensures r.Done? ==> StageAt(m.w, c, to, newTags)
    // A crash while the temporary name is in use leaves it in the recovery directory.
    ensures torn ==> r.Crashed? && !NoStray(m.w, c.j)
    ensures torn && !env.mayFail && NoStray(old(m.w), c.j) ==> InsideTagWrite(m.w, c)
    ensures !torn && !env.mayFail ==> m.w.strays == old(m.w.strays)
    ensures r.Failed? ==> env.mayFail
    ensures r.Crashed? ==> env.mayCrash
  {
    ghost var w0 := m.w;
    var partial: Data := *;
    var contents := m.w.data[from].(tags := newTags);
    r, torn := m.Replace(c.j.stage, to, contents, partial, env);
    ReplacingStage(w0, m.w, c, to, contents);
    if torn {
      TornIsAside(w0, m.w, c, to, contents);
      if NoStray(w0, c.j) { TornIsInside(w0, m.w, c, to, contents); }
    }
  }

  lemma TornIsAside(w0: World, w: World, c: Case, to: FileIdentity, contents: Data)
    requires Torn(w0, w, c.j.stage, to, contents)
    ensures !NoStray(w, c.j)
  {
    if to in w.data && w == WithSibling(w0, c.j.stage, to, w.data[to]) {
      assert Stray(Dir(c.j), to) in w.strays;
    } else {
      assert Stray(Dir(c.j), w0.files[c.j.stage]) in w.strays;
    }
  }

  /** Wherever a tag write stops, nothing but the stage was touched. */
  lemma ReplacingStage(w0: World, w: World, c: Case, to: FileIdentity, contents: Data)
    requires Setting(c) && Preparing(w0, c) && BackedUp(w0, c.j) && c.j.stage in w0.files
    requires IsStage(c, to) && ReplaceEffect(w0, w, c.j.stage, to, contents)
    ensures Preparing(w, c) && BackedUp(w, c.j)
  {
    var w1 := w0.(files := w.files, strays := w.strays);
    ReplaceTouchesOneName(w0, w, c.j.stage, to, contents);
    hide ReplaceEffect;
    NamesTouchOneName(w0, w1, c.j.stage, to);
    assert c.j.stage in RecoveryPaths(c.j);
    TouchRecoveryName(w0, w1, c, c.j.stage);
    if w != w0 { WriteStage(w1, w, c, to); }
    hide OnlyName;
    StillBackedUp(w0, w1, c.j);
  }

  lemma StillBackedUp(w0: World, w: World, j: Journal)
    requires Distinct(j) && BackedUp(w0, j) && OnlyName(w0, w, j.stage)
    ensures BackedUp(w, j)
  {
    forall k | 0 <= k < |j.entries| ensures Same(w0, w, j.entries[k].backup) {}
  }

  /** A new file with the survivor's sound and tags, under the stage's name. */
  method CopyToStage(m: Machine, c: Case, env: Env) returns (r: Outcome, tags: Tags)
    requires Setting(c) && Preparing(m.w, c) && c.j.stage !in m.w.files && BackedUp(m.w, c.j)
    modifies m
    ensures Preparing(m.w, c)
    ensures r.Done? ==> BackedUp(m.w, c.j) && StageAt(m.w, c, c.drafts[0], tags)
    ensures !env.mayFail ==> m.w.strays == old(m.w.strays)
    ensures r.Failed? ==> env.mayFail
    ensures r.Crashed? ==> env.mayCrash
  {
    var s := FindSurvivor(c.j);
    assert Intact(m.w, c.j, s);
    var original := m.w.data[c.j.entries[s].identity];
    tags := original.tags;
    ghost var w0 := m.w;
    assert Dir(c.j) in w0.directories by {
      assert c.j.entries[0].backup in w0.files;
    }
    r := m.CreateFile(c.j.stage, c.drafts[0], env);
    StageCreated(w0, m.w, c);
    if r.IsFailure() { return; }
    ghost var w1 := m.w;
    var partial: Data := *;
    r := m.WriteData(c.drafts[0], original, partial, env);
    WriteStage(w1, m.w, c, c.drafts[0]);
    if r.Failed? {
      ghost var w2 := m.w;
      r := m.Remove(c.j.stage, c.drafts[0], env);
      assert c.j.stage in RecoveryPaths(c.j);
      TouchRecoveryName(w2, m.w, c, c.j.stage);
      r := if r.Crashed? then Crashed else Failed;
    }
  }

  lemma StageCreated(w0: World, w: World, c: Case)
    requires Setting(c) && Preparing(w0, c) && c.j.stage !in w0.files && Dir(c.j) in w0.directories
    requires w == w0 || w == Created(w0, c.j.stage, c.drafts[0])
    ensures Preparing(w, c)
    ensures BackedUp(w0, c.j) ==> BackedUp(w, c.j)
  {
    if w != w0 {
      var w1 := Linked(w0, c.j.stage, c.drafts[0]);
      assert c.j.stage in RecoveryPaths(c.j);
      assert OnlyName(w0, w1, c.j.stage);
      TouchRecoveryName(w0, w1, c, c.j.stage);
      WriteStage(w1, w, c, c.drafts[0]);
    }
  }

  /** Swap the stage in under the survivor's name. */
  method SwapSurvivor(m: Machine, c: Case, s: nat, env: Env) returns (r: Outcome)
    requires Setting(c) && Preparing(m.w, c) && Replacing(m.w, c) && s < |c.j.entries| && IsSurvivor(c.j, s)
    modifies m
    ensures Replacing(m.w, c)
    ensures r.Done? ==>
      c.j.entries[s].source in m.w.files && m.w.files[c.j.entries[s].source] == c.staged
    ensures forall k :: 0 <= k < |c.j.entries| && k != s ==> Intact(m.w, c.j, k)
    ensures NoStray(old(m.w), c.j) ==> NoStray(m.w, c.j)
    ensures r.Failed? ==> env.mayFail
    ensures r.Crashed? ==> env.mayCrash
  {
    var e := c.j.entries[s];
    assert Intact(m.w, c.j, s);
    ghost var w0 := m.w;
    r := m.Remove(e.source, e.identity, env);
    TouchSourceName(w0, m.w, c, s);
    OthersIntact(w0, m.w, c, s);
    if r.IsFailure() { return r; }
    ghost var w1 := m.w;
    r := m.Publish(c.staged, e.source, env);
    TouchSourceName(w1, m.w, c, s);
    OthersIntact(w1, m.w, c, s);
  }

  lemma OthersIntact(w0: World, w: World, c: Case, s: nat)
    requires s < |c.j.entries|
    requires forall k :: 0 <= k < |c.j.entries| && k != s ==> Intact(w0, c.j, k)
    requires forall k :: 0 <= k < |c.j.entries| && k != s ==> Same(w0, w, c.j.entries[k].source)
    ensures forall k :: 0 <= k < |c.j.entries| && k != s ==> Intact(w, c.j, k)
  {
    forall k | 0 <= k < |c.j.entries| && k != s ensures Intact(w, c.j, k) {
      assert Intact(w0, c.j, k) && Same(w0, w, c.j.entries[k].source);
    }
  }

  /** Unlink every duplicate's own name. */
  method UnlinkDuplicates(m: Machine, c: Case, ghost s: nat, env: Env) returns (r: Outcome)
    requires Setting(c) && Replacing(m.w, c) && s < |c.j.entries| && IsSurvivor(c.j, s)
    requires c.j.entries[s].source in m.w.files && m.w.files[c.j.entries[s].source] == c.staged
    requires forall k :: 0 <= k < |c.j.entries| && k != s ==> Intact(m.w, c.j, k)
    modifies m
    ensures Replacing(m.w, c)
    ensures r.Done? ==> SourcesMerged(m.w, c)
    ensures NoStray(old(m.w), c.j) ==> NoStray(m.w, c.j)
    ensures r.Failed? ==> env.mayFail
    ensures r.Crashed? ==> env.mayCrash
  {
    hide Safe, Complete, StartingWorld, FreshStage, OnlyName;
    for k := 0 to |c.j.entries|
      invariant Replacing(m.w, c)
      invariant c.j.entries[s].source in m.w.files && m.w.files[c.j.entries[s].source] == c.staged
      invariant forall i :: 0 <= i < k && i != s ==> c.j.entries[i].source !in m.w.files
      invariant forall i :: k <= i < |c.j.entries| && i != s ==> Intact(m.w, c.j, i)
      invariant NoStray(old(m.w), c.j) ==> NoStray(m.w, c.j)
    {
      if c.j.entries[k].trackId != c.j.survivor {
        assert k != s && Intact(m.w, c.j, k);
        ghost var w1 := m.w;
        r := m.Remove(c.j.entries[k].source, c.j.entries[k].identity, env);
        TouchSourceName(w1, m.w, c, k);
        if r.IsFailure() { return r; }
        DuplicateUnlinked(w1, m.w, c, s, k);
      }
    }
    return Done;
  }

  lemma DuplicateUnlinked(w0: World, w: World, c: Case, s: nat, k: nat)
    requires k < |c.j.entries| && s < |c.j.entries| && k != s
    requires forall i :: 0 <= i < |c.j.entries| && i != k ==> Same(w0, w, c.j.entries[i].source)
    requires c.j.entries[s].source in w0.files && w0.files[c.j.entries[s].source] == c.staged
    requires forall i :: 0 <= i < k && i != s ==> c.j.entries[i].source !in w0.files
    requires forall i :: k <= i < |c.j.entries| && i != s ==> Intact(w0, c.j, i)
    ensures c.j.entries[s].source in w.files && w.files[c.j.entries[s].source] == c.staged
    ensures forall i :: 0 <= i < k && i != s ==> c.j.entries[i].source !in w.files
    ensures forall i :: k < i < |c.j.entries| && i != s ==> Intact(w, c.j, i)
  {
    assert Same(w0, w, c.j.entries[s].source);
    forall i | 0 <= i < |c.j.entries| && i != s && i != k
      ensures if i < k then c.j.entries[i].source !in w.files else Intact(w, c.j, i)
    {
      assert Same(w0, w, c.j.entries[i].source);
      if i > k { assert Intact(w0, c.j, i); }
    }
  }

  /** Everything up to the commit. */
  method RunPreCommit(m: Machine, c: Case, env: Env) returns (r: Outcome, ghost torn: bool)
    requires Setting(c) && m.w == c.before.(journal := Some(c.j))
    modifies m
    ensures r.Done? ==> PostCommit(m.w, c) && Complete(m.w, c)
    ensures r.Failed? ==> env.mayFail
    ensures r.Crashed? ==> env.mayCrash
    // Whatever cuts it short: not committed, or committed with all a rollback needs.
    ensures (Safe(m.w, c) && m.w.store == c.before.store && !r.Done?)
         || (PostCommit(m.w, c) && Complete(m.w, c) && !r.Failed?)
    ensures torn ==> r.Crashed? && Preparing(m.w, c) && !NoStray(m.w, c.j) && (!env.mayFail ==> InsideTagWrite(m.w, c))
    ensures !torn && !env.mayFail ==> NoStray(m.w, c.j)
  {
    torn := false;
    PublishedIsPreparing(m.w, c);
    r := BackUpSources(m, c, env);
    if r.IsFailure() { return; }
    r, torn := StageSurvivor(m, c, env);
    if r.IsFailure() { return; }
    var s := FindSurvivor(c.j);
    r := SwapSurvivor(m, c, s, env);
    if r.IsFailure() { return; }
    r := UnlinkDuplicates(m, c, s, env);
    if r.IsFailure() { return; }
    r := Chance(env);
    if r.IsFailure() { return; }
    ghost var w1 := m.w;
    r := m.Commit(MergedFrom(Rows(m.w.store), c.j, c.row), env);
    CommitIsPostCommit(w1, m.w, c);
  }

  lemma CommitIsPostCommit(w0: World, w: World, c: Case)
    requires Setting(c) && Replacing(w0, c) && SourcesMerged(w0, c)
    requires w == w0 || w == w0.(store := Committed(w0.store, MergedRows(c)))
    ensures if w == w0 then Safe(w, c) else PostCommit(w, c) && Complete(w, c)
    ensures NoStray(w0, c.j) ==> NoStray(w, c.j)
  {
    StoreOnly(w0, w, c);
    if w != w0 { WholeIsCut(w.store); }
  }

  /** What one call reports: how it ended, and whether only the cleanup failed. */
  datatype Report = Report(outcome: Outcome, cleanupFailed: bool)

  /** What a crash without I/O errors leaves, up to and including the flush: nothing
      begun, or a state that can be recovered, or a tag write cut short. */
  ghost predicate CutShort(w: World, c: Case) {
    || RolledBack(w, c)
    || ((PreCommit(w, c) || PostCommit(w, c)) && Recoverable(w, c) && NoStray(w, c.j))
    || (Preparing(w, c) && InsideTagWrite(w, c))
  }

  /** Among these the tag writes are exactly those that are not recoverable. */
  lemma CutShortIff(w: World, c: Case)
    requires Setting(c) && CutShort(w, c)
    ensures Recoverable(w, c) <==> !InsideTagWrite(w, c)
    ensures PreCommit(w, c) || PostCommit(w, c) || RolledBack(w, c)
    ensures InsideTagWrite(w, c) ==> forall k :: 0 <= k < |c.j.entries| ==> Intact(w, c.j, k)
  {
    if InsideTagWrite(w, c) {
      TagWriteIsAside(w, c);
      if RolledBack(w, c) {
        TagWriteHasJournal(w, c);
      } else {
        SafeIsPreCommit(w, c);
      }
    }
  }

  lemma TagWriteHasJournal(w: World, c: Case)
    requires InsideTagWrite(w, c)
    ensures w.journal.Some?
  {
  }

  /** The whole operation. The second result says that the durable flush succeeded. */
  method Consolidate(m: Machine, c: Case, env: Env) returns (report: Report, flushed: bool)
    requires Setting(c) && m.w == c.before
    modifies m
    ensures Reachable(m.w, c)
    ensures report.outcome.Done? && !report.cleanupFailed ==> Merged(m.w, c)
    ensures report.outcome.Done? ==> m.w.store == MergedStore(c)
    ensures env == CALM ==> report == Report(Done, false)
    // Then the merge is durable, and no row but those of the selected tracks changed.
    ensures flushed ==> m.w.store.unflushed == [] && RowsMerged(m.w.store.durable, Rows(c.before.store), c.j, c.row)
    ensures report.outcome.Done? ==> flushed
    ensures report.outcome.Failed? ==> env.mayFail
    ensures report.outcome.Crashed? ==> env.mayCrash
    ensures flushed ==> (PostCommit(m.w, c) || Merged(m.w, c)) && m.w.store == MergedStore(c)
    ensures !flushed ==> !report.outcome.Done? && (PreCommit(m.w, c) || PostCommit(m.w, c) || RolledBack(m.w, c))
    // A crash up to and including the flush leaves a recoverable state exactly when
    // it does not fall inside a tag write; if it does, every original is in place.
    ensures !env.mayFail && !flushed ==> CutShort(m.w, c) && (Recoverable(m.w, c) <==> !InsideTagWrite(m.w, c))
    ensures !env.mayFail && !flushed && InsideTagWrite(m.w, c) ==>
      forall k :: 0 <= k < |c.j.entries| ==> Intact(m.w, c.j, k)
  {
    MergedRowsAre(c);
    hide RowsMerged;
    var r;
    r := PublishAndPrepare(m, c, env);
    if !env.mayFail && !r.Done? { CutShortIff(m.w, c); }
    if r.IsFailure() { return Report(r, false), false; }
    report, flushed := SettleCommit(m, c, env);
    if !env.mayFail && !flushed { CutShortIff(m.w, c); }
  }

  /** Flush the commit, then clear up; a cleanup that fails is only reported. */
  method SettleCommit(m: Machine, c: Case, env: Env) returns (report: Report, flushed: bool)
    requires Setting(c) && PostCommit(m.w, c) && Complete(m.w, c)
    modifies m
    ensures PostCommit(m.w, c) || (flushed && Merged(m.w, c))
    ensures report.outcome.Done? && !report.cleanupFailed ==> Merged(m.w, c)
    ensures report.outcome.Done? ==> m.w.store == MergedStore(c)
    ensures env == CALM && NoStray(old(m.w), c.j) ==> report == Report(Done, false)
    ensures report.outcome.Failed? ==> env.mayFail
    ensures report.outcome.Crashed? ==> env.mayCrash
    ensures flushed ==> m.w.store == MergedStore(c)
    ensures !flushed ==> !report.outcome.Done?
    ensures NoStray(old(m.w), c.j) && !flushed ==> Recoverable(m.w, c) && NoStray(m.w, c.j)
  {
    ghost var w1 := m.w;
    CommitShowsInRows(c);
    RecoverableByPhase(w1, c);
    var r := m.FlushDurable(env);
    FlushKeepsPhase(w1, m.w, c);
    if r.IsFailure() { return Report(r, false), false; }
    r := ClearUp(m, c.j, c, env);
    return Report(if r.Crashed? then Crashed else Done, r.Failed?), true;
  }

  /** The steps before the flush: everything that may still be rolled back. */
  method PublishAndPrepare(m: Machine, c: Case, env: Env) returns (r: Outcome)
    requires Setting(c) && m.w == c.before
    modifies m
    ensures r.Done? ==> PostCommit(m.w, c) && Complete(m.w, c)
    ensures !r.Done? ==> PreCommit(m.w, c) || PostCommit(m.w, c) || RolledBack(m.w, c)
    ensures r.Failed? ==> env.mayFail
    ensures r.Crashed? ==> env.mayCrash
    ensures !env.mayFail && r.Done? ==> NoStray(m.w, c.j)
    ensures !env.mayFail && !r.Done? ==> CutShort(m.w, c)
  {
    StartIsRolledBack(c);
    PublishedIsPreparing(c.before.(journal := Some(c.j)), c);
    SafeIsPreCommit(c.before.(journal := Some(c.j)), c);
    r := Recover(m, c, env);
    if r.IsFailure() { return; }
    r := m.PublishJournal(c.j, env);
    if r.IsFailure() { return; }
    hide IsCut, Undisturbed, EntrySafe, SourcesMerged, CommittedReady, NoStray, AllThere, AllGone, Rows, StartingWorld;
    hide InsideTagWrite;
    ghost var torn;
    r, torn := RunPreCommit(m, c, env);
    if Safe(m.w, c) && m.w.store == c.before.store { SafeIsPreCommit(m.w, c); }
    if PostCommit(m.w, c) && Complete(m.w, c) { CompleteIsRecoverable(m.w, c); }
    if r.Failed? {
      r := UndoUncommitted(m, c.j, c, env);
      r := if r.Crashed? then Crashed else Failed;
    }
  }

  lemma CompleteIsRecoverable(w: World, c: Case)
    requires Setting(c) && PostCommit(w, c) && Complete(w, c)
    ensures Recoverable(w, c) <==> NoStray(w, c.j)
  {
    RecoverableByPhase(w, c);
  }

  lemma StartIsRolledBack(c: Case)
    requires Setting(c)
    ensures RolledBack(c.before, c)
  {
    WholeIsCut(c.before.store);
  }

  // ---- Whole lives ----

  /** What one undisturbed recovery makes of the state it finds. The rows decide: the
      commit itself, all the rows, only the survivor's, or some of them. */
  ghost predicate RecoveryOutcome(last: World, w: World, c: Case) {
    && Reachable(last, c) && Reachable(w, c) && (Ended(w, c) <==> Recoverable(last, c))
    && (last.journal.None? ==> w == last)
    && (PostCommit(last, c) ==> if Recoverable(last, c) then Merged(w, c) else PostCommit(w, c))
    // All rows: the original world again, unless a file lies aside in the recovery
    // directory; then every original is in place and the journal stays for good.
    && (last.journal.Some? && AllThere(Rows(last.store), c.j) ==>
          (forall k :: 0 <= k < |c.j.entries| ==> Intact(w, c.j, k))
          && if NoStray(last, c.j) then RolledBack(w, c) else PreCommit(w, c) && !Recoverable(w, c))
    // Only the survivor's row, without the commit: the duplicates' files are lost as
    // soon as every one of them was backed up and the survivor has a file.
    && (PreCommit(last, c) && AllGone(Rows(last.store), c.j) ==>
          if SurvivorPresent(last, c.j) && BackupsOfDuplicates(last, c.j) && NoStray(last, c.j) then Lost(w, c)
          else PreCommit(w, c) || Misread(w, c))
    // Some of the rows: stuck, with nothing touched.
    && (last.journal.Some? && !AllThere(Rows(last.store), c.j) && !AllGone(Rows(last.store), c.j) ==> w == last)
  }

  /** Merged, the store durably holds the merge; rolled back, a state it had before. */
  ghost predicate RowsTell(w: World, c: Case) {
    && (Merged(w, c) ==>
          w.store.unflushed == [] && RowsMerged(w.store.durable, Rows(c.before.store), c.j, c.row))
    && (RolledBack(w, c) ==> Rows(w.store) in States(c.before.store))
  }

  lemma WhatRowsTell(c: Case)
    requires Setting(c)
    ensures forall w :: RowsTell(w, c)
  {
    MergedRowsAre(c);
    forall w ensures RowsTell(w, c) {
      if RolledBack(w, c) { CutStates(w.store, c.before.store); }
    }
  }

  method RecoverUndisturbed(m: Machine, ghost c: Case) returns (r: Outcome)
    requires Setting(c) && Reachable(m.w, c)
    modifies m
    ensures RecoveryOutcome(old(m.w), m.w, c)
    ensures Rows(m.w.store) == Rows(old(m.w).store)
    ensures r.Done? <==> Recoverable(old(m.w), c)
    ensures !r.Done? ==> r.Failed? && m.w.journal == Some(c.j)
    ensures RowsTell(m.w, c)
  {
    WhatRowsTell(c);
    hide RowsMerged;
    ghost var last := m.w;
    RecoverableByPhase(last, c);
    JournalTellsPhase(last, c);
    r := Recover(m, c, CALM);
    JournalTellsPhase(m.w, c);
    RecoverableByPhase(m.w, c);
  }

  lemma JournalTellsPhase(w: World, c: Case)
    requires Setting(c) && Reachable(w, c)
    ensures w.journal.None? <==> Ended(w, c)
    ensures w.journal.Some? ==> w.journal == Some(c.j) && (PreCommit(w, c) || PostCommit(w, c) || Misread(w, c))
    ensures w.journal.Some? && AllThere(Rows(w.store), c.j) ==> PreCommit(w, c)
  {
    if w.journal.Some? { RowsTellThePhase(w, c); }
  }

  /** What a crash, a restart that keeps any number of the unflushed commits, and one
      undisturbed recovery make of the world the crash left. */
  ghost predicate RestartOutcome(crashed: World, w: World, c: Case) {
    && RowsTell(w, c)
    && (crashed.journal.None? ==> RolledBack(w, c))
    && (PostCommit(crashed, c) && Rows(w.store) == MergedRows(c) ==> Merged(w, c))
    // With all the rows there: the original world, unless the crash fell inside a tag
    // write, and every original in place in either case.
    && (crashed.journal.Some? && AllThere(Rows(w.store), c.j) ==>
          (RolledBack(w, c) <==> !InsideTagWrite(crashed, c))
          && forall k :: 0 <= k < |c.j.entries| ==> Intact(w, c.j, k))
    // So it always ends well, but for the tag write, if no state the store can fall
    // back to lacks a row.
    && (!InsideTagWrite(crashed, c) && KnowsAllRows(c) ==> RolledBack(w, c) || Merged(w, c))
  }

  /** Restart and recover. */
  method RestartThenRecover(m: Machine, c: Case) returns (ghost last: World)
    requires Setting(c) && CutShort(m.w, c)
    modifies m
    ensures RebootEffect(old(m.w), last) && RecoveryOutcome(last, m.w, c) && Rows(m.w.store) == Rows(last.store)
    ensures RestartOutcome(old(m.w), m.w, c)
  {
    ghost var w1 := m.w;
    CutShortIff(w1, c);
    hide Setting, PreCommit, PostCommit, RolledBack, Merged, Lost, Misread, CutShort, InsideTagWrite;
    hide RecoveryOutcome, KnowsAllRows, AllThere, Rows, NoStray, RowsTell;
    m.Reboot();
    last := m.w;
    RebootStaysReachable(w1, last, c);
    var r := RecoverUndisturbed(m, c);
    CrashEnds(w1, last, m.w, c);
  }

  /** A crash anywhere up to and including the flush, a restart, and one undisturbed
      recovery. */
  method CrashThenRecover(m: Machine, c: Case) returns (flushed: bool, ghost crashed: World, ghost last: World)
    requires Setting(c) && m.w == c.before
    modifies m
    ensures flushed ==> (PostCommit(m.w, c) || Merged(m.w, c)) && m.w.store == MergedStore(c)
    ensures flushed ==> m.w.store.unflushed == [] && RowsMerged(m.w.store.durable, Rows(c.before.store), c.j, c.row)
    ensures !flushed ==> CutShort(crashed, c) && RestartOutcome(crashed, m.w, c)
    ensures !flushed ==> RebootEffect(crashed, last) && RecoveryOutcome(last, m.w, c)
  {
    hide *;
    var report;
    report, flushed := Consolidate(m, c, Env(true, false));
    crashed, last := m.w, m.w;
    if !flushed { last := RestartThenRecover(m, c); }
  }

  /** What follows for a run that a crash cut short before the flush was done. */
  lemma CrashEnds(w1: World, last: World, w: World, c: Case)
    requires Setting(c) && CutShort(w1, c) && RebootEffect(w1, last) && RecoveryOutcome(last, w, c)
    requires Rows(w.store) == Rows(last.store) && RowsTell(w, c)
    ensures RestartOutcome(w1, w, c)
  {
    hide RowsTell;
    CutShortIff(w1, c);
    if InsideTagWrite(w1, c) { TagWriteIsAside(w1, c); }
    RebootStaysReachable(w1, last, c);
    RebootKeepsNames(w1, last, c);
    RecoverableByPhase(w1, c);
    RecoverableByPhase(last, c);
    JournalTellsPhase(last, c);
    if PostCommit(last, c) { MergedWorldIsSound(w1, last, c); }
    if KnowsAllRows(c) { NothingIsForgotten(last, c); }
    hide PreCommit, PostCommit, Misread, Lost, NoStray, AllThere, AllGone, Rows, Setting, KnowsAllRows, InsideTagWrite;
  }

  lemma MergedWorldIsSound(w1: World, last: World, c: Case)
    requires Setting(c) && CutShort(w1, c) && RebootEffect(w1, last) && PostCommit(last, c)
    ensures !InsideTagWrite(w1, c) && Recoverable(last, c)
  {
    CutShortIff(w1, c);
    RecoverableByPhase(last, c);
    RecoverableByPhase(w1, c);
    hide InsideTagWrite, Preparing;
    var s, d := SurvivorAndDuplicate(c.j);
    assert c.j.entries[d].source !in w1.files && !Intact(w1, c.j, d);
    if PreCommit(w1, c) {
      forall k | 0 <= k < |c.j.entries| && !IsSurvivor(c.j, k) ensures c.j.entries[k].backup in last.files {
        assert EntrySafe(w1, c.j, k);
      }
    }
  }

  /** No state the store can fall back to lacks the row of a selected track. */
  ghost predicate KnowsAllRows(c: Case) {
    forall rows :: rows in States(c.before.store) ==> AllThere(rows, c.j)
  }

  lemma RebootKeepsNames(w0: World, w: World, c: Case)
    requires RebootEffect(w0, w)
    ensures NoStray(w, c.j) == NoStray(w0, c.j) && w.journal == w0.journal
    ensures BackupsOfDuplicates(w, c.j) == BackupsOfDuplicates(w0, c.j)
    ensures RolledBack(w0, c) ==> (forall p :: p in w.files <==> p in c.before.files)
  {
  }

  /** And only then: a run that is cut short once its backups are made, with a power
      loss that takes the store back to any one of the states it could still fall back
      to, ends as that state has it. */
  method PowerLossAfterBackups(m: Machine, c: Case, n: nat) returns (r: Outcome)
    requires Setting(c) && m.w == c.before && n <= |c.before.store.unflushed|
    modifies m
    ensures var rows := States(c.before.store)[n];
      && (AllThere(rows, c.j) ==> r.Done? && RolledBack(m.w, c))
      && (AllGone(rows, c.j) ==>
            r.Done? && Lost(m.w, c) && m.w.files.Keys == c.before.files.Keys - DuplicateSources(c.j))
      && (!AllThere(rows, c.j) && !AllGone(rows, c.j) ==>
            r.Failed? && m.w.journal == Some(c.j) && forall k :: 0 <= k < |c.j.entries| ==> Intact(m.w, c.j, k))
  {
    PublishedIsPreparing(c.before.(journal := Some(c.j)), c);
    r := m.PublishJournal(c.j, CALM);
    r := BackUpSources(m, c, CALM);
    ghost var w1 := m.w;
    SafeIsPreCommit(w1, c);
    CutIsCut(m.w.store, n, n);
    m.w := m.w.(store := Cut(m.w.store, n, n));
    ghost var last := m.w;
    assert RebootEffect(w1, last) && Rows(last.store) == States(c.before.store)[n];
    RebootStaysReachable(w1, last, c);
    RebootKeepsNames(w1, last, c);
    AllSourcesStay(w1, last, c);
    RecoverableByPhase(last, c);
    ThereIsNotGone(Rows(last.store), c.j);
    hide PreCommit, PostCommit, Misread, RolledBack, NoStray, AllThere, AllGone, Setting, Rows, States;
    r := RecoverUndisturbed(m, c);
    if Lost(m.w, c) { LostNames(m.w, c); }
  }

  lemma AllSourcesStay(w0: World, w: World, c: Case)
    requires Setting(c) && Preparing(w0, c) && BackedUp(w0, c.j) && w == w0.(store := w.store)
    ensures forall k :: 0 <= k < |c.j.entries| ==> Intact(w, c.j, k)
    ensures SurvivorPresent(w, c.j) && BackupsOfDuplicates(w, c.j)
  {
    forall k | 0 <= k < |c.j.entries| ensures Intact(w, c.j, k) && c.j.entries[k].backup in w.files {
      assert Intact(w0, c.j, k);
    }
    assert forall k :: 0 <= k < |c.j.entries| && Intact(w, c.j, k) ==> c.j.entries[k].source in w.files;
  }

  function DuplicateSources(j: Journal): set<RelPath> {
    set k | 0 <= k < |j.entries| && !IsSurvivor(j, k) :: j.entries[k].source
  }

  /** A loss takes exactly the duplicates' names, and adds none. */
  lemma LostNames(w: World, c: Case)
    requires Setting(c) && Lost(w, c)
    ensures w.files.Keys == c.before.files.Keys - DuplicateSources(c.j)
  {
    NothingInRecoveryDirectoryBefore(c);
    forall p ensures p in w.files <==> p in c.before.files && p !in DuplicateSources(c.j) {
      if p in Sources(c.j) {
        var k :| 0 <= k < |c.j.entries| && c.j.entries[k].source == p;
        assert p in DuplicateSources(c.j) <==> !IsSurvivor(c.j, k);
      } else if p !in RecoveryPaths(c.j) {
        assert Same(c.before, w, p);
      }
    }
  }

  /** Any run, with any mishaps, followed by any number of restarts and
      disturbed recoveries: every state reached is accounted for, and one more
      undisturbed recovery ends it exactly in the recoverable ones. */
  method AnyLife(m: Machine, c: Case, env: Env, attempts: nat) returns (r: Outcome, ghost last: World)
    requires Setting(c) && m.w == c.before
    modifies m
    ensures RecoveryOutcome(last, m.w, c)
    ensures r.Done? <==> Recoverable(last, c)
    ensures !r.Done? ==> r.Failed? && m.w.journal == Some(c.j)
    ensures KnowsAllRows(c) ==> !Lost(m.w, c) && !Misread(m.w, c)
    // Without mishaps it ends merged, and restarts and recoveries leave it so.
    ensures env == CALM ==> Merged(m.w, c)
  {
    var report, _ := Consolidate(m, c, env);
    for attempt := 0 to attempts
      invariant Reachable(m.w, c)
      invariant env == CALM ==> Merged(m.w, c)
    {
      ghost var w1 := m.w;
      m.Reboot();
      RebootStaysReachable(w1, m.w, c);
      var interrupted := Recover(m, c, env);
    }
    ghost var w1 := m.w;
    m.Reboot();
    RebootStaysReachable(w1, m.w, c);
    last := m.w;
    r := RecoverUndisturbed(m, c);
    NeverLost(m.w, c);
  }

  lemma NeverLost(w: World, c: Case)
    requires Setting(c)
    ensures KnowsAllRows(c) ==> !Lost(w, c) && !Misread(w, c)
  {
    if rows :| rows in States(c.before.store) && AllGone(rows, c.j) {
      ThereIsNotGone(rows, c.j);
    }
  }

  /** From the journal as it is written: an invalid one stops the operation before
      anything is touched, a valid one is read back as it was, and what was said of
      crashes holds for it. */
  method WrittenLife(m: Machine, c: Case)
    returns (published: bool, recovered: Option<Journal>, flushed: bool, ghost crashed: World, ghost last: World)
    requires WellTyped(c.j) && StartingWorld(c) && FreshStage(c) && m.w == c.before
    modifies m
    ensures published == ValidJournal(c.j)
    ensures !published ==> m.w == c.before
    ensures published ==> recovered == Some(c.j)
    ensures published && flushed ==>
      && (PostCommit(m.w, c) || Merged(m.w, c)) && m.w.store.unflushed == []
      && RowsMerged(m.w.store.durable, Rows(c.before.store), c.j, c.row)
    ensures published && !flushed ==>
      && CutShort(crashed, c) && RestartOutcome(crashed, m.w, c)
      && RebootEffect(crashed, last) && RecoveryOutcome(last, m.w, c)
  {
    published, recovered := PublishThenRead(c.j);
    flushed, crashed, last := false, m.w, m.w;
    if published {
      ValidJournalIsDistinct(c.j);
      hide CutShort, RestartOutcome, RecoveryOutcome, RebootEffect, PostCommit, Merged, RowsMerged;
      flushed, crashed, last := CrashThenRecover(m, c);
    }
  }

  // ---- Where recovery gets stuck ----

  /** A crash between the rename and the unlink of one recovery name is a state
      a rollback can stop in; every source is in place, and yet no rollback from
      there can ever finish. */
  lemma InterruptedRemovalBlocksRollback(w: World, c: Case, p: RelPath)
    requires Setting(c) && Preparing(w, c) && p in RecoveryPaths(c.j) && p in w.files
    ensures PreCommit(Aside(w, p), c) && RollbackEffect(w, Aside(w, p), c.j)
    ensures forall k :: 0 <= k < |c.j.entries| ==> Intact(Aside(w, p), c.j, k)
    ensures !RollbackReady(Aside(w, p), c.j) && !Recoverable(Aside(w, p), c)
  {
    var stuck := Aside(w, p);
    RemoveTouchesOneName(w, stuck, p);
    TouchRecoveryName(w, stuck, c, p);
    assert Stray(Parent(p), w.files[p]) in stuck.strays && Parent(p) == Dir(c.j);
    SafeIsPreCommit(stuck, c);
    RollbackReadyIff(stuck, c);
    forall k | 0 <= k < |c.j.entries|
      ensures SourceStep(w, stuck, c.j, k) && SourceSettled(w, stuck, c.j, k)
    {
      assert c.j.entries[k].source != p;
      assert Intact(w, c.j, k) && Same(w, stuck, c.j.entries[k].source);
    }
  }

  /** So is a crash inside a tag write, before the exchange or after it. */
  lemma InterruptedTagWriteBlocksRollback(w: World, stuck: World, c: Case, to: FileIdentity, contents: Data)
    requires Setting(c) && Preparing(w, c) && BackedUp(w, c.j) && c.j.stage in w.files && IsStage(c, to)
    requires stuck == WithSibling(w, c.j.stage, to, contents) || stuck == Exchanged(w, c.j.stage, to, contents)
    ensures PreCommit(stuck, c) && forall k :: 0 <= k < |c.j.entries| ==> Intact(stuck, c.j, k)
    ensures !RollbackReady(stuck, c.j) && !Recoverable(stuck, c)
  {
    assert Torn(w, stuck, c.j.stage, to, contents);
    ReplacingStage(w, stuck, c, to, contents);
    TornIsAside(w, stuck, c, to, contents);
    SafeIsPreCommit(stuck, c);
    RollbackReadyIff(stuck, c);
  }

  /** Once a committed cleanup has removed one duplicate's backup, a crash leaves
      a state no later cleanup can finish, although the merge itself is complete. */
  lemma InterruptedCleanupCannotResume(w: World, c: Case, d: nat)
    requires Setting(c) && PostCommit(w, c) && w.store == MergedStore(c)
    requires d < |c.j.entries| && !IsSurvivor(c.j, d) && c.j.entries[d].backup in w.files
    ensures PostCommit(Removed(w, c.j.entries[d].backup), c)
    ensures CommittedEffect(w, Removed(w, c.j.entries[d].backup), c.j)
    ensures !Recoverable(Removed(w, c.j.entries[d].backup), c)
  {
    var p := c.j.entries[d].backup;
    var stuck := Removed(w, p);
    assert p in RecoveryPaths(c.j);
    RemoveTouchesOneName(w, stuck, p);
    forall k | 0 <= k < |c.j.entries| ensures DuplicateStep(w, stuck, c.j, k) {
      assert Same(w, stuck, c.j.entries[k].source);
    }
    assert DuplicatesGone(stuck, c.j);
    CleanupPreserves(w, stuck, c);
    RecoverableByPhase(stuck, c);
    var s, d' := SurvivorAndDuplicate(c.j);
  }
}
