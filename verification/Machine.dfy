/** The machine a consolidation runs on: a filesystem of hard links, the
    published journal, and a library store whose commits become durable later.
    Every primitive may be cut short by a crash or refused by an I/O error at
    each of its own steps. */
module Machine {
  import opened Wrappers
  import opened Paths
  import opened Journal

  /** The tags of a file, in the parts they are written in. */
  datatype Tags = Tags(metadata: int, rating: int, artwork: int)

  const UNTAGGED := Tags(0, 0, 0)

  /** What a file holds: its sound and its tags. */
  datatype Data = Data(audio: int, tags: Tags)

  /** A file under a temporary name of its own: renamed aside to be removed, or a
      copy made beside another file to replace it. */
  datatype Stray = Stray(dir: RelPath, inode: FileIdentity)

  datatype World = World(
    files: map<RelPath, FileIdentity>,
    data: map<FileIdentity, Data>,
    directories: set<RelPath>,
    strays: multiset<Stray>,
    journal: Option<Journal>,
    store: Store)

  // ---- The library store ----

  /** The rows that are durable, and the rows after each commit since. */
  datatype Store = Store(durable: map<nat, int>, unflushed: seq<map<nat, int>>)

  function States(s: Store): (states: seq<map<nat, int>>)
    ensures |states| == |s.unflushed| + 1
  {
    [s.durable] + s.unflushed
  }

  /** What queries see. */
  function Rows(s: Store): map<nat, int> {
    States(s)[|s.unflushed|]
  }

  function Committed(s: Store, rows: map<nat, int>): Store {
    s.(unflushed := s.unflushed + [rows])
  }

  function Flushed(s: Store): Store {
    Store(Rows(s), [])
  }

  ghost predicate OccursAt<T>(xs: seq<T>, ys: seq<T>, at: nat) {
    at + |xs| <= |ys| && forall i :: 0 <= i < |xs| ==> xs[i] == ys[at + i]
  }

  /** What a power loss leaves: some commits became durable, and later ones were lost. */
  ghost predicate IsCut(s: Store, s0: Store) {
    exists at: nat :: OccursAt(States(s), States(s0), at)
  }

  lemma OccursInOccurrence<T>(xs: seq<T>, ys: seq<T>, zs: seq<T>, a: nat, b: nat)
    requires OccursAt(xs, ys, a) && OccursAt(ys, zs, b)
    ensures OccursAt(xs, zs, b + a)
  {
    forall i | 0 <= i < |xs| ensures xs[i] == zs[b + a + i] {
      assert xs[i] == ys[a + i] == zs[b + (a + i)];
    }
  }

  lemma CutOfCut(s: Store, s1: Store, s0: Store)
    requires IsCut(s, s1) && IsCut(s1, s0)
    ensures IsCut(s, s0)
  {
    var a: nat :| OccursAt(States(s), States(s1), a);
    var b: nat :| OccursAt(States(s1), States(s0), b);
    OccursInOccurrence(States(s), States(s1), States(s0), a, b);
  }

  /** A cut has no states of its own. */
  lemma CutStates(s: Store, s0: Store)
    requires IsCut(s, s0)
    ensures forall rows :: rows in States(s) ==> rows in States(s0)
    ensures Rows(s) in States(s) && Rows(s) in States(s0)
  {
    var at: nat :| OccursAt(States(s), States(s0), at);
    assert Rows(s) == States(s)[|s.unflushed|];
  }

  function Cut(s: Store, from: nat, to: nat): Store
    requires from <= to <= |s.unflushed|
  {
    Store(States(s)[from], States(s)[from + 1..to + 1])
  }

  lemma CutIsCut(s: Store, from: nat, to: nat)
    requires from <= to <= |s.unflushed|
    ensures IsCut(Cut(s, from, to), s)
  {
    assert OccursAt(States(Cut(s, from, to)), States(s), from);
  }

  lemma WholeIsCut(s: Store)
    ensures IsCut(s, s) && IsCut(Flushed(s), s)
  {
    assert OccursAt(States(s), States(s), 0);
    assert OccursAt(States(Flushed(s)), States(s), |s.unflushed|);
  }

  /** What a power loss leaves of a store with one more commit: that commit, or a
      cut of the store before it. */
  lemma CutOfCommitted(s: Store, s0: Store, rows: map<nat, int>)
    requires IsCut(s, Committed(s0, rows))
    ensures IsCut(s, s0) || Rows(s) == rows
  {
    var all := States(Committed(s0, rows));
    var at: nat :| OccursAt(States(s), all, at);
    assert all == States(s0) + [rows];
    if at + |States(s)| < |all| {
      assert OccursAt(States(s), States(s0), at);
    } else {
      assert Rows(s) == States(s)[|States(s)| - 1] == all[|all| - 1];
    }
  }

  // ---- Worlds ----

  /** Which mishaps a run may meet. */
  datatype Env = Env(mayCrash: bool, mayFail: bool)

  const CALM := Env(false, false)

  datatype Outcome = Done | Failed | Crashed {
    predicate IsFailure() { !Done? }

    function PropagateFailure(): Outcome
      requires IsFailure()
    {
      this
    }
  }

  /** A point where a crash or an I/O error may strike. */
  method Chance(env: Env) returns (r: Outcome)
    ensures r.Crashed? ==> env.mayCrash
    ensures r.Failed? ==> env.mayFail
  {
    if * { return if env.mayCrash then Crashed else Done; }
    if * { return if env.mayFail then Failed else Done; }
    return Done;
  }

  /** The same mishaps without I/O errors. */
  function CrashOnly(env: Env): Env { env.(mayFail := false) }

  /** Every name is in an existing directory. */
  ghost predicate Grounded(w: World) {
    && (forall p :: p in w.files ==> Parent(p) in w.directories)
    && (forall s :: s in w.strays ==> s.dir in w.directories)
  }

  function Linked(w: World, path: RelPath, inode: FileIdentity): World {
    w.(files := w.files[path := inode])
  }

  function Created(w: World, path: RelPath, unused: FileIdentity): World {
    Linked(w, path, unused).(data := w.data[unused := Data(0, UNTAGGED)])
  }

  function WithDirectory(w: World, dir: RelPath): World {
    w.(directories := w.directories + {dir})
  }

  function Removed(w: World, path: RelPath): World {
    w.(files := w.files - {path})
  }

  function Aside(w: World, path: RelPath): World
    requires path in w.files
  {
    Removed(w, path).(strays := w.strays + multiset{Stray(Parent(path), w.files[path])})
  }

  /** A copy of a file under a temporary name beside it. */
  function WithSibling(w: World, path: RelPath, unused: FileIdentity, contents: Data): World {
    w.(data := w.data[unused := contents], strays := w.strays + multiset{Stray(Parent(path), unused)})
  }

  /** The copy under the file's own name, and the file under the temporary one. */
  function Exchanged(w: World, path: RelPath, unused: FileIdentity, contents: Data): World
    requires path in w.files
  {
    Rewritten(w, path, unused, contents).(strays := w.strays + multiset{Stray(Parent(path), w.files[path])})
  }

  function Rewritten(w: World, path: RelPath, unused: FileIdentity, contents: Data): World {
    Linked(w, path, unused).(data := w.data[unused := contents])
  }

  /** A replacement cut short while its temporary name is in use. */
  ghost predicate Torn(w0: World, w: World, path: RelPath, unused: FileIdentity, contents: Data) {
    || (unused in w.data && w == WithSibling(w0, path, unused, w.data[unused]))
    || (path in w0.files && w == Exchanged(w0, path, unused, contents))
  }

  /** What replacing a file by an edited copy may leave. */
  ghost predicate ReplaceEffect(w0: World, w: World, path: RelPath, unused: FileIdentity, contents: Data) {
    || w == w0 || Torn(w0, w, path, unused, contents)
    || (unused in w.data && w == w0.(data := w0.data[unused := w.data[unused]]))
    || w == Rewritten(w0, path, unused, contents)
  }

  /** Something other than the listed children keeps the directory from being removed. */
  ghost predicate DirectoryInUse(w: World, dir: RelPath, children: set<RelPath>) {
    || (exists p :: p in w.files && Parent(p) == dir && p !in children)
    || (exists s :: s in w.strays && s.dir == dir)
  }

  /** A name is bound the same way in two worlds. */
  ghost predicate Same(w0: World, w: World, p: RelPath) {
    (p in w.files <==> p in w0.files) && (p in w0.files ==> w.files[p] == w0.files[p])
  }

  /** Only one name, its directory, and strays beside it are affected. */
  ghost predicate OnlyName(w0: World, w: World, p: RelPath) {
    && w == w0.(files := w.files, strays := w.strays, directories := w.directories)
    && (forall q :: q != p ==> Same(w0, w, q))
    && w0.strays <= w.strays
    && (forall s :: s in w.strays && s !in w0.strays ==> s.dir == Parent(p))
    && (w.directories == w0.directories || w.directories == w0.directories + {Parent(p)})
    && (Grounded(w0) ==> Grounded(w))
  }

  /** What removing a name may leave: nothing changed, the file aside, or the name gone. */
  ghost predicate RemoveEffect(w0: World, w: World, path: RelPath) {
    w == w0 || (path in w0.files && (w == Aside(w0, path) || w == Removed(w0, path)))
  }

  /** What publishing a name may leave: at most the parent directory, the name,
      or the new link moved aside again. */
  ghost predicate PublishEffect(w0: World, w: World, path: RelPath, inode: FileIdentity) {
    var w1 := WithDirectory(w0, Parent(path));
    || w == w0 || w == w1
    || (path !in w0.files && (w == Linked(w1, path, inode) || w == Aside(Linked(w1, path, inode), path)))
  }

  lemma RemoveTouchesOneName(w0: World, w: World, p: RelPath)
    requires RemoveEffect(w0, w, p)
    ensures OnlyName(w0, w, p)
  {
  }

  lemma PublishTouchesOneName(w0: World, w: World, p: RelPath, inode: FileIdentity)
    requires PublishEffect(w0, w, p, inode)
    ensures OnlyName(w0, w, p)
  {
  }

  /** The names and strays a replacement can leave. */
  ghost predicate ReplaceNames(w0: World, w: World, path: RelPath, unused: FileIdentity)
    requires path in w0.files
  {
    && (w.files == w0.files || w.files == w0.files[path := unused])
    && (|| w.strays == w0.strays || w.strays == w0.strays + multiset{Stray(Parent(path), unused)}
        || w.strays == w0.strays + multiset{Stray(Parent(path), w0.files[path])})
  }

  lemma ReplaceTouchesOneName(w0: World, w: World, path: RelPath, unused: FileIdentity, contents: Data)
    requires ReplaceEffect(w0, w, path, unused, contents) && path in w0.files
    ensures w == w0.(files := w.files, strays := w.strays, data := w.data) && ReplaceNames(w0, w, path, unused)
    ensures w.data - {unused} == w0.data - {unused} && (w != w0 ==> unused in w.data)
  {
    if w != w0 { ButOne(w0.data, unused, w.data[unused]); }
  }

  lemma NamesTouchOneName(w0: World, w: World, path: RelPath, unused: FileIdentity)
    requires path in w0.files && ReplaceNames(w0, w, path, unused) && Grounded(w0)
    requires w == w0.(files := w.files, strays := w.strays)
    ensures OnlyName(w0, w, path)
    ensures path in w.files && (w.files[path] == w0.files[path] || w.files[path] == unused)
  {
  }

  lemma ButOne<K, V>(m: map<K, V>, k: K, v: V)
    ensures m[k := v] - {k} == m - {k}
  {
  }

  class Machine {
    var w: World

    constructor (initial: World)
      ensures w == initial
    {
      w := initial;
    }

    /** Hard-link an open file under a new name; an existing name is never replaced. */
    method Link(inode: FileIdentity, path: RelPath, env: Env) returns (r: Outcome)
      modifies this
      ensures w == old(w) || (path !in old(w.files) && w == Linked(old(w), path, inode))
      ensures r.Done? ==> path !in old(w.files) && w == Linked(old(w), path, inode)
      ensures r.Failed? ==> w == old(w) && (path in old(w.files) || env.mayFail)
      ensures r.Crashed? ==> env.mayCrash
    {
      r := Chance(env);
      if r.IsFailure() { return r; }
      if path in w.files { return Failed; }
      w := Linked(w, path, inode);
      :- Chance(CrashOnly(env));
      return Done;
    }

    /** Remove a name only while it still holds the expected file. */
    method Remove(path: RelPath, expected: FileIdentity, env: Env) returns (r: Outcome)
      modifies this
      ensures RemoveEffect(old(w), w, path) && OnlyName(old(w), w, path)
      ensures r.Done? ==> path in old(w.files) && old(w.files)[path] == expected && w == Removed(old(w), path)
      ensures path in old(w.files) && old(w.files)[path] != expected ==> w == old(w) || w == Aside(old(w), path)
      ensures r.Failed? && !env.mayFail ==>
        w == old(w) && (path in old(w.files) ==> old(w.files)[path] != expected)
      ensures r.Crashed? ==> env.mayCrash
    {
      r := CompareAndRemove(path, expected, env);
      RemoveTouchesOneName(old(w), w, path);
    }

    /** Rename the file aside, compare it, then unlink it or put it back. */
    method CompareAndRemove(path: RelPath, expected: FileIdentity, env: Env) returns (r: Outcome)
      modifies this
      ensures RemoveEffect(old(w), w, path)
      ensures r.Done? ==> path in old(w.files) && old(w.files)[path] == expected && w == Removed(old(w), path)
      ensures path in old(w.files) && old(w.files)[path] != expected ==> w == old(w) || w == Aside(old(w), path)
      ensures r.Failed? && !env.mayFail ==>
        w == old(w) && (path in old(w.files) ==> old(w.files)[path] != expected)
      ensures r.Crashed? ==> env.mayCrash
    {
      if path !in w.files { return Failed; }
      :- Chance(env);
      var aside := Stray(Parent(path), w.files[path]);
      w := Aside(w, path);
      r := Chance(env);
      if r.Failed? {
        if * { PutBack(path, aside); }
      }
      if r.IsFailure() { return r; }
      if aside.inode != expected {
        PutBack(path, aside);
        return Failed;
      }
      w := w.(strays := w.strays - multiset{aside});
      assert w == Removed(old(w), path);
      :- Chance(env);
      return Done;
    }

    method PutBack(path: RelPath, aside: Stray)
      requires path !in w.files && aside in w.strays
      modifies this
      ensures w == Linked(old(w), path, aside.inode).(strays := old(w.strays) - multiset{aside})
    {
      w := Linked(w, path, aside.inode).(strays := w.strays - multiset{aside});
    }

    /** Link an open file under a name whose parent is created on demand. */
    method Publish(inode: FileIdentity, path: RelPath, env: Env) returns (r: Outcome)
      modifies this
      ensures PublishEffect(old(w), w, path, inode) && OnlyName(old(w), w, path)
      ensures r.Done? ==> path !in old(w.files) && w == Linked(WithDirectory(old(w), Parent(path)), path, inode)
      ensures !env.mayFail ==> w.strays == old(w.strays)
      ensures r.Failed? && !env.mayFail ==> path in old(w.files)
      ensures r.Crashed? ==> env.mayCrash
    {
      r := LinkDurably(inode, path, env);
      PublishTouchesOneName(old(w), w, path, inode);
    }

    /** A link that cannot be made durable is taken back. */
    method LinkDurably(inode: FileIdentity, path: RelPath, env: Env) returns (r: Outcome)
      modifies this
      ensures PublishEffect(old(w), w, path, inode)
      ensures r.Done? ==> path !in old(w.files) && w == Linked(WithDirectory(old(w), Parent(path)), path, inode)
      ensures !env.mayFail ==> w.strays == old(w.strays)
      ensures r.Failed? && !env.mayFail ==> path in old(w.files)
      ensures r.Crashed? ==> env.mayCrash
    {
      r := Chance(env);
      if r.IsFailure() { return r; }
      w := WithDirectory(w, Parent(path));
      :- Link(inode, path, env);
      r := Chance(env.(mayCrash := false));
      if r.Failed? {
        r := Remove(path, inode, env);
        assert Removed(Linked(WithDirectory(old(w), Parent(path)), path, inode), path)
            == WithDirectory(old(w), Parent(path)) by {
          assert old(w.files)[path := inode] - {path} == old(w.files);
        }
        return if r.Crashed? then Crashed else Failed;
      }
      return Done;
    }

    /** Remove a directory, which must be empty. */
    method RemoveDirectory(dir: RelPath, env: Env) returns (r: Outcome)
      modifies this
      ensures w == old(w) || (w == old(w).(directories := old(w.directories) - {dir}) && !DirectoryInUse(old(w), dir, {}))
      ensures r.Done? ==> w == old(w).(directories := old(w.directories) - {dir}) && !DirectoryInUse(old(w), dir, {})
      ensures r.Failed? && !env.mayFail ==> w == old(w) && DirectoryInUse(old(w), dir, {})
      ensures r.Crashed? ==> env.mayCrash
    {
      r := Chance(env);
      if r.IsFailure() { return r; }
      if (exists p | p in w.files.Keys :: Parent(p) == dir)
         || (exists s | s in w.strays :: s.dir == dir) {
        return Failed;
      }
      w := w.(directories := w.directories - {dir});
      :- Chance(env);
      return Done;
    }

    /** Create an empty file that no name referred to before. */
    method CreateFile(path: RelPath, unused: FileIdentity, env: Env) returns (r: Outcome)
      modifies this
      ensures w == old(w) || (path !in old(w.files) && w == Created(old(w), path, unused))
      ensures r.Done? ==> path !in old(w.files) && w == Created(old(w), path, unused)
      ensures r.Failed? ==> w == old(w) && (path in old(w.files) || env.mayFail)
      ensures r.Crashed? ==> env.mayCrash
    {
      r := Chance(env);
      if r.IsFailure() { return r; }
      if path in w.files { return Failed; }
      w := Created(w, path, unused);
      :- Chance(CrashOnly(env));
      return Done;
    }

    /** Rewrite one file; cut short, it may hold anything. */
    method WriteData(inode: FileIdentity, contents: Data, partial: Data, env: Env) returns (r: Outcome)
      modifies this
      ensures w == old(w).(data := w.data) && inode in w.data && w.data - {inode} == old(w.data) - {inode}
      ensures r.Done? ==> w == old(w).(data := old(w.data)[inode := contents])
      ensures r.Failed? ==> env.mayFail
      ensures r.Crashed? ==> env.mayCrash
    {
      w := w.(data := w.data[inode := partial]);
      :- Chance(env);
      w := w.(data := w.data[inode := contents]);
      :- Chance(env);
      return Done;
    }

    /** Replace a file by an edited copy: the copy is made beside it under a
        temporary name, filled, exchanged with it, and the old file unlinked. The
        second result says that a crash came while the temporary name was in use. */
    method Replace(path: RelPath, unused: FileIdentity, contents: Data, partial: Data, env: Env)
      returns (r: Outcome, ghost torn: bool)
      requires path in w.files && w.files[path] != unused
      modifies this
      ensures ReplaceEffect(old(w), w, path, unused, contents)
      ensures r.Done? ==> w == Rewritten(old(w), path, unused, contents)
      ensures torn ==> r.Crashed? && Torn(old(w), w, path, unused, contents)
      ensures !torn && !env.mayFail ==> w.strays == old(w.strays)
      ensures r.Failed? ==> env.mayFail
      ensures r.Crashed? ==> env.mayCrash
    {
      torn := false;
      r := Chance(env);
      if r.IsFailure() { return; }
      ghost var w0 := w;
      r, torn := MakeCopy(path, unused, contents, partial, env);
      if r.IsFailure() { return; }
      r, torn := Exchange(path, unused, w0, contents, env);
    }

    /** Make the edited copy beside the file; one that cannot be finished is removed
        again, if that succeeds. */
    method MakeCopy(path: RelPath, unused: FileIdentity, contents: Data, partial: Data, env: Env)
      returns (r: Outcome, ghost torn: bool)
      modifies this
      ensures unused in w.data
      ensures r.Done? ==> w == WithSibling(old(w), path, unused, contents)
      ensures !r.Done? ==>
        w == WithSibling(old(w), path, unused, w.data[unused])
        || (!torn && w == old(w).(data := old(w.data)[unused := w.data[unused]]))
      ensures torn <==> r.Crashed?
      ensures r.Failed? ==> env.mayFail
      ensures r.Crashed? ==> env.mayCrash
    {
      ghost var w0 := w;
      w := WithSibling(w, path, unused, partial);
      r := Chance(env);
      if r.Done? {
        w := w.(data := w.data[unused := contents]);
        assert w == WithSibling(w0, path, unused, contents);
        r := Chance(env);
      }
      torn := r.Crashed?;
      if r.Failed? {
        if * { w := w.(strays := w.strays - multiset{Stray(Parent(path), unused)}); }
      }
    }

    /** Exchange the finished copy with the file, and unlink the old file. */
    method Exchange(path: RelPath, unused: FileIdentity, ghost w0: World, ghost contents: Data, env: Env)
      returns (r: Outcome, ghost torn: bool)
      requires path in w0.files && w == WithSibling(w0, path, unused, contents)
      modifies this
      ensures w == Exchanged(w0, path, unused, contents) || w == Rewritten(w0, path, unused, contents)
      ensures r.Done? ==> w == Rewritten(w0, path, unused, contents)
      ensures torn ==> r.Crashed? && w == Exchanged(w0, path, unused, contents)
      ensures !torn && !env.mayFail ==> w == Rewritten(w0, path, unused, contents)
      ensures r.Failed? ==> env.mayFail
      ensures r.Crashed? ==> env.mayCrash
    {
      var sibling, alias := Stray(Parent(path), unused), Stray(Parent(path), w.files[path]);
      var strays := w.strays - multiset{sibling};
      assert strays == w0.strays && strays + multiset{alias} - multiset{alias} == strays;
      w := w.(files := w.files[path := unused], strays := strays + multiset{alias});
      r := Chance(env);
      torn := r.Crashed?;
      if r.IsFailure() { return; }
      w := w.(strays := w.strays - multiset{alias});
      r := Chance(env);
    }

    /** Publish the journal under its one well-known name, all at once. */
    method PublishJournal(j: Journal, env: Env) returns (r: Outcome)
      modifies this
      ensures w == old(w) || (old(w.journal).None? && w == old(w).(journal := Some(j)))
      ensures r.Done? ==> w == old(w).(journal := Some(j)) && old(w.journal).None?
      ensures r.Failed? ==> old(w.journal).Some? || env.mayFail
      ensures r.Crashed? ==> env.mayCrash
    {
      r := Chance(env);
      if r.IsFailure() { return r; }
      if w.journal.Some? { return Failed; }
      w := w.(journal := Some(j));
      :- Chance(env);
      return Done;
    }

    method RemoveJournal(env: Env) returns (r: Outcome)
      modifies this
      ensures w == old(w) || w == old(w).(journal := None)
      ensures r.Done? ==> w == old(w).(journal := None)
      ensures r.Failed? && !env.mayFail ==> old(w.journal).None?
      ensures r.Crashed? ==> env.mayCrash
    {
      r := Chance(env);
      if r.IsFailure() { return r; }
      if w.journal.None? { return Failed; }
      w := w.(journal := None);
      :- Chance(env);
      return Done;
    }

    /** One SQLite transaction: all of it becomes visible, or none of it. */
    method Commit(rows: map<nat, int>, env: Env) returns (r: Outcome)
      modifies this
      ensures w == old(w) || w == old(w).(store := Committed(old(w.store), rows))
      ensures r.Done? ==> w == old(w).(store := Committed(old(w.store), rows))
      ensures r.Failed? ==> w == old(w) && env.mayFail
      ensures r.Crashed? ==> env.mayCrash
    {
      r := Chance(env);
      if r.IsFailure() { return r; }
      w := w.(store := Committed(w.store, rows));
      :- Chance(CrashOnly(env));
      return Done;
    }

    /** Carry every visible row across the durability boundary. */
    method FlushDurable(env: Env) returns (r: Outcome)
      modifies this
      ensures w == old(w) || w == old(w).(store := Flushed(old(w.store)))
      ensures r.Done? ==> w == old(w).(store := Flushed(old(w.store)))
      ensures r.Failed? ==> env.mayFail
      ensures r.Crashed? ==> env.mayCrash
    {
      r := Chance(env);
      if r.IsFailure() { return r; }
      w := w.(store := Flushed(w.store));
      :- Chance(CrashOnly(env));
      return Done;
    }

    /** Restart after a crash: any number of the unflushed commits is kept, in order,
        and any number of those kept is durable by now. */
    method Reboot()
      modifies this
      ensures RebootEffect(old(w), w)
    {
      var from: nat, to: nat := *, *;
      if from <= to <= |w.store.unflushed| {
        CutIsCut(w.store, from, to);
        w := w.(store := Cut(w.store, from, to));
      } else {
        WholeIsCut(w.store);
      }
    }
  }

  ghost predicate RebootEffect(w0: World, w: World) {
    w == w0.(store := w.store) && IsCut(w.store, w0.store)
  }
}
