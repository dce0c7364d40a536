/** Library-relative paths as their normal components. */
module Paths {
  import opened Wrappers
  import opened Text

  type Component = seq<Byte>
  type RelPath = seq<Component>

  const SLASH: Byte := 47
  const DOT: Component := [46]
  const DOT_DOT: Component := [46, 46]

  function Ascii(s: string): (bytes: seq<Byte>)
    requires forall i :: 0 <= i < |s| ==> s[i] < 128 as char
    ensures |bytes| == |s|
  {
    seq(|s|, i requires 0 <= i < |s| => s[i] as int)
  }

  predicate NormalComponent(c: Component) {
    c != [] && SLASH !in c && c != DOT && c != DOT_DOT
  }

  predicate ValidPath(p: RelPath) {
    p != [] && forall i :: 0 <= i < |p| ==> NormalComponent(p[i])
  }

  /** The bytes of a normalized path. */
  function PathBytes(p: RelPath): seq<Byte>
    requires p != []
  {
    Join(p, SLASH)
  }

  function DropTrivial(parts: seq<Component>): seq<Component> {
    if parts == [] then []
    else if parts[0] == [] || parts[0] == DOT then DropTrivial(parts[1..])
    else [parts[0]] + DropTrivial(parts[1..])
  }

  /** An absolute path, a parent component, or a path with no normal component
      is rejected; empty and current-directory components are dropped. */
  function Normalize(bytes: seq<Byte>): Option<RelPath> {
    if bytes != [] && bytes[0] == SLASH then None
    else
      var parts := DropTrivial(Split(bytes, SLASH));
      if parts == [] || DOT_DOT in parts then None else Some(parts)
  }

  lemma {:induction false} DropTrivialKeepsNormal(parts: seq<Component>)
    requires forall i :: 0 <= i < |parts| ==> NormalComponent(parts[i])
    ensures DropTrivial(parts) == parts
  {
    if parts != [] {
      DropTrivialKeepsNormal(parts[1..]);
    }
  }

  /** A normalized path is recovered from its bytes. */
  lemma NormalizeRoundTrip(p: RelPath)
    requires ValidPath(p)
    ensures Normalize(PathBytes(p)) == Some(p)
  {
    forall i | 0 <= i < |p| ensures SLASH !in p[i] {
      assert NormalComponent(p[i]);
    }
    SplitJoin(p, SLASH);
    DropTrivialKeepsNormal(p);
    assert NormalComponent(p[0]);
    assert PathBytes(p)[0] == p[0][0];
  }

  lemma {:induction false} DropTrivialSound(parts: seq<Component>)
    requires forall i :: 0 <= i < |parts| ==> SLASH !in parts[i]
    ensures forall c :: c in DropTrivial(parts) ==> c != [] && c != DOT && SLASH !in c
  {
    if parts != [] {
      DropTrivialSound(parts[1..]);
    }
  }

  /** Whatever normalization accepts is a valid path. */
  lemma NormalizeSound(bytes: seq<Byte>)
    ensures Normalize(bytes).Some? ==> ValidPath(Normalize(bytes).value)
  {
    SplitPartsLackSeparator(bytes, SLASH);
    DropTrivialSound(Split(bytes, SLASH));
    var parts := DropTrivial(Split(bytes, SLASH));
    if Normalize(bytes).Some? {
      forall i | 0 <= i < |parts| ensures NormalComponent(parts[i]) {
        assert parts[i] in parts;
      }
    }
  }

  /** The containing directory; the library root is its own parent. */
  function Parent(p: RelPath): RelPath {
    if p == [] then [] else p[..|p| - 1]
  }

  function FileName(p: RelPath): Component
    requires p != []
  {
    p[|p| - 1]
  }

  /** Component-wise prefix. */
  predicate StartsWith(p: RelPath, dir: RelPath) {
    |dir| <= |p| && p[..|dir|] == dir
  }
}
