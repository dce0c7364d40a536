/** The consolidation recovery journal: its text format, and the validation
    every writer and reader applies. */
module Journal {
  import opened Wrappers
  import opened Numbers
  import opened Text
  import opened Paths

  datatype FileIdentity = FileIdentity(device: nat, inode: nat)

  datatype Entry = Entry(trackId: nat, identity: FileIdentity, source: RelPath, backup: RelPath)

  datatype Journal = Journal(survivor: nat, stage: RelPath, entries: seq<Entry>)

  const MAX_TRACK_ID: nat := 0x7FFF_FFFF_FFFF_FFFF
  const HEADER: string := "# sustain duplicate consolidation journal v1"
  const RECOVERY_PREFIX: string := ".sustain-duplicate-consolidation-"
  const STAGE_PREFIX: string := "stage."
  const BACKUP_PREFIX: string := "backup-"

  // ---- What the source's types guarantee: positive i64 ids, u64 identities, normalized paths ----

  predicate WellTypedEntry(e: Entry) {
    && 1 <= e.trackId <= MAX_TRACK_ID
    && e.identity.device <= MAX_U64 && e.identity.inode <= MAX_U64
    && ValidPath(e.source) && ValidPath(e.backup)
  }

  predicate WellTyped(j: Journal) {
    && 1 <= j.survivor <= MAX_TRACK_ID
    && ValidPath(j.stage)
    && forall i :: 0 <= i < |j.entries| ==> WellTypedEntry(j.entries[i])
  }

  // ---- Validation ----

  predicate Continuation(b: Byte) { 0x80 <= b <= 0xBF }

  /** Well-formed UTF-8 (section 4 of RFC 3629). */
  predicate ValidUtf8(b: seq<Byte>) {
    if b == [] then true
    else if b[0] < 0x80 then ValidUtf8(b[1..])
    else if 0xC2 <= b[0] <= 0xDF then |b| >= 2 && Continuation(b[1]) && ValidUtf8(b[2..])
    else if 0xE0 <= b[0] <= 0xEF then
      && |b| >= 3 && Continuation(b[1]) && Continuation(b[2])
      && (b[0] == 0xE0 ==> b[1] >= 0xA0) && (b[0] == 0xED ==> b[1] <= 0x9F)
      && ValidUtf8(b[3..])
    else
      && 0xF0 <= b[0] <= 0xF4
      && |b| >= 4 && Continuation(b[1]) && Continuation(b[2]) && Continuation(b[3])
      && (b[0] == 0xF0 ==> b[1] >= 0x90) && (b[0] == 0xF4 ==> b[1] <= 0x8F)
      && ValidUtf8(b[4..])
  }

  /** A Unicode scalar value, and its UTF-8 form (section 3 of RFC 3629). */
  predicate IsScalar(c: nat) { c < 0xD800 || 0xE000 <= c <= 0x10FFFF }

  function Utf8(c: nat): seq<Byte>
    requires IsScalar(c)
  {
    if c < 0x80 then [c]
    else if c < 0x800 then [0xC0 + c / 64, 0x80 + c % 64]
    else if c < 0x10000 then [0xE0 + c / 4096, 0x80 + c / 64 % 64, 0x80 + c % 64]
    else [0xF0 + c / 262144, 0x80 + c / 4096 % 64, 0x80 + c / 64 % 64, 0x80 + c % 64]
  }

  ghost predicate AllScalars(text: seq<nat>) { forall i :: 0 <= i < |text| ==> IsScalar(text[i]) }

  ghost function Utf8Of(text: seq<nat>): seq<Byte>
    requires AllScalars(text)
  {
    if text == [] then [] else Utf8(text[0]) + Utf8Of(text[1..])
  }

  lemma EncodedHeadIsValid(c: nat, rest: seq<Byte>)
    requires IsScalar(c)
    ensures ValidUtf8(Utf8(c) + rest) <==> ValidUtf8(rest)
  {
    assert (Utf8(c) + rest)[|Utf8(c)|..] == rest;
  }

  lemma {:induction false} EncodedIsValid(text: seq<nat>)
    requires AllScalars(text)
    ensures ValidUtf8(Utf8Of(text))
  {
    if text != [] {
      EncodedIsValid(text[1..]);
      EncodedHeadIsValid(text[0], Utf8Of(text[1..]));
    }
  }

  lemma TwoParts(a: nat, b: nat)
    requires b < 64
    ensures (a * 64 + b) / 64 == a && (a * 64 + b) % 64 == b
  {
  }

  lemma ThreeParts(a: nat, b: nat, c: nat)
    requires b < 64 && c < 64
    ensures var n := a * 4096 + b * 64 + c; n / 4096 == a && n / 64 % 64 == b && n % 64 == c
  {
    TwoParts(a * 64 + b, c);
    TwoParts(a, b);
  }

  lemma FourParts(a: nat, b: nat, c: nat, d: nat)
    requires b < 64 && c < 64 && d < 64
    ensures var n := a * 262144 + b * 4096 + c * 64 + d;
      n / 262144 == a && n / 4096 % 64 == b && n / 64 % 64 == c && n % 64 == d
  {
    ThreeParts(a * 64 + b, c, d);
    TwoParts(a, b);
  }

  /** The scalar value a valid sequence begins with. */
  lemma ValidHasHead(b: seq<Byte>) returns (c: nat)
    requires b != [] && ValidUtf8(b)
    ensures IsScalar(c) && Utf8(c) <= b && ValidUtf8(b[|Utf8(c)|..])
  {
    if b[0] < 0x80 {
      c := b[0];
    } else if b[0] <= 0xDF {
      c := LongHead(b, 2);
    } else if b[0] <= 0xEF {
      c := LongHead(b, 3);
    } else {
      c := LongHead(b, 4);
    }
  }

  lemma LongHead(b: seq<Byte>, n: nat) returns (c: nat)
    requires b != [] && ValidUtf8(b) && 2 <= n <= 4
    requires if n == 2 then 0x80 <= b[0] <= 0xDF else if n == 3 then 0xE0 <= b[0] <= 0xEF else 0xF0 <= b[0]
    ensures IsScalar(c) && n <= |b| && Utf8(c) == b[..n] && ValidUtf8(b[n..])
  {
    var b0: int, b1: int := b[0], b[1];
    assert n <= |b| && ValidUtf8(b[n..]);
    if n == 2 {
      TwoParts(b0 - 0xC0, b1 - 0x80);
      c := (b0 - 0xC0) * 64 + (b1 - 0x80);
      return;
    }
    hide Utf8, IsScalar;
    if n == 3 {
      c := ThreeByteScalar(b0, b1, b[2]);
    } else {
      c := FourByteScalar(b0, b1, b[2], b[3]);
    }
  }

  lemma ThreeByteScalar(b0: int, b1: int, b2: int) returns (c: nat)
    requires 0xE0 <= b0 <= 0xEF && 0x80 <= b1 <= 0xBF && 0x80 <= b2 <= 0xBF
    requires (b0 == 0xE0 ==> b1 >= 0xA0) && (b0 == 0xED ==> b1 <= 0x9F)
    ensures IsScalar(c) && Utf8(c) == [b0, b1, b2]
  {
    ThreeParts(b0 - 0xE0, b1 - 0x80, b2 - 0x80);
    c := (b0 - 0xE0) * 4096 + (b1 - 0x80) * 64 + (b2 - 0x80);
  }

  lemma FourByteScalar(b0: int, b1: int, b2: int, b3: int) returns (c: nat)
    requires 0xF0 <= b0 <= 0xF4 && 0x80 <= b1 <= 0xBF && 0x80 <= b2 <= 0xBF && 0x80 <= b3 <= 0xBF
    requires (b0 == 0xF0 ==> b1 >= 0x90) && (b0 == 0xF4 ==> b1 <= 0x8F)
    ensures IsScalar(c) && Utf8(c) == [b0, b1, b2, b3]
  {
    FourParts(b0 - 0xF0, b1 - 0x80, b2 - 0x80, b3 - 0x80);
    c := (b0 - 0xF0) * 262144 + (b1 - 0x80) * 4096 + (b2 - 0x80) * 64 + (b3 - 0x80);
  }

  lemma {:induction false} ValidIsEncoded(b: seq<Byte>) returns (text: seq<nat>)
    requires ValidUtf8(b)
    ensures AllScalars(text) && Utf8Of(text) == b
    decreases |b|
  {
    text := [];
    if b != [] {
      var c := ValidHasHead(b);
      assert Utf8(c) != [];
      hide ValidUtf8, Utf8, IsScalar;
      var rest := ValidIsEncoded(b[|Utf8(c)|..]);
      text := [c] + rest;
      assert text[1..] == rest;
    }
  }

  /** Exactly the encodings of texts are valid. */
  lemma ValidUtf8Iff(b: seq<Byte>)
    ensures ValidUtf8(b) <==> exists text :: AllScalars(text) && Utf8Of(text) == b
  {
    if ValidUtf8(b) {
      var text := ValidIsEncoded(b);
    }
    forall text | AllScalars(text) && Utf8Of(text) == b ensures ValidUtf8(b) {
      EncodedIsValid(text);
    }
  }

  /** A UTF-8 name that extends the prefix by at least one byte. */
  predicate NamedWithPrefix(name: Component, prefix: string)
    requires forall i :: 0 <= i < |prefix| ==> prefix[i] < 128 as char
  {
    ValidUtf8(name) && Ascii(prefix) < name
  }

  function BackupName(index: nat): Component {
    Ascii(BACKUP_PREFIX) + Ascii(Dec(index))
  }

  predicate ValidLayout(j: Journal) {
    && |j.stage| == 2
    && NamedWithPrefix(j.stage[0], RECOVERY_PREFIX)
    && NamedWithPrefix(j.stage[1], STAGE_PREFIX)
    && |j.entries| >= 2
  }

  predicate ValidEntryAt(j: Journal, i: nat)
    requires j.stage != [] && i < |j.entries|
  {
    && j.entries[i].backup == Parent(j.stage) + [BackupName(i)]
    && !StartsWith(j.entries[i].source, Parent(j.stage))
  }

  predicate DistinctEntries(entries: seq<Entry>) {
    forall i, k :: 0 <= i < k < |entries| ==>
      entries[i].trackId != entries[k].trackId && entries[i].source != entries[k].source
  }

  predicate ValidJournal(j: Journal) {
    && ValidLayout(j)
    && (forall i :: 0 <= i < |j.entries| ==> ValidEntryAt(j, i))
    && DistinctEntries(j.entries)
    && (exists i :: 0 <= i < |j.entries| && j.entries[i].trackId == j.survivor)
  }

  method ValidateJournal(j: Journal) returns (ok: bool)
    requires ValidPath(j.stage)
    ensures ok == ValidJournal(j)
  {
    hide Ascii, NormalComponent, NamedWithPrefix, StartsWith, BackupName;
    var directory := Parent(j.stage);
    if |directory| != 1 || !NamedWithPrefix(directory[0], RECOVERY_PREFIX)
       || !NamedWithPrefix(FileName(j.stage), STAGE_PREFIX) || |j.entries| < 2 {
      return false;
    }
    var trackIds: set<nat> := {};
    var sources: set<RelPath> := {};
    for index := 0 to |j.entries|
      invariant trackIds == set i | 0 <= i < index :: j.entries[i].trackId
      invariant sources == set i | 0 <= i < index :: j.entries[i].source
      invariant forall i :: 0 <= i < index ==> ValidEntryAt(j, i)
      invariant DistinctEntries(j.entries[..index])
    {
      var entry := j.entries[index];
      if entry.backup != directory + [BackupName(index)] || StartsWith(entry.source, directory)
         || entry.trackId in trackIds || entry.source in sources {
        assert !ValidEntryAt(j, index) || !DistinctEntries(j.entries);
        return false;
      }
      trackIds := trackIds + {entry.trackId};
      sources := sources + {entry.source};
    }
    assert j.entries[..|j.entries|] == j.entries;
    return j.survivor in trackIds;
  }

  /** What a valid journal is, name by name: the stage in its own recovery directory, the
      backups beside it under their numbers, two entries or more, each track and source
      once and no source in that directory, and the survivor among them. */
  lemma ValidJournalIff(j: Journal)
    ensures ValidJournal(j) <==>
      && |j.stage| == 2 && |j.entries| >= 2
      && ValidUtf8(j.stage[0]) && Ascii(".sustain-duplicate-consolidation-") < j.stage[0]
      && ValidUtf8(j.stage[1]) && Ascii("stage.") < j.stage[1]
      && (forall i :: 0 <= i < |j.entries| ==>
            && j.entries[i].backup == [j.stage[0], Ascii("backup-" + Dec(i))]
            && (j.entries[i].source == [] || j.entries[i].source[0] != j.stage[0]))
      && (forall i, k :: 0 <= i < k < |j.entries| ==>
            j.entries[i].trackId != j.entries[k].trackId && j.entries[i].source != j.entries[k].source)
      && (exists i :: 0 <= i < |j.entries| && j.entries[i].trackId == j.survivor)
  {
    hide ValidUtf8;
    if |j.stage| == 2 {
      forall i | 0 <= i < |j.entries|
        ensures ValidEntryAt(j, i) <==>
          && j.entries[i].backup == [j.stage[0], Ascii("backup-" + Dec(i))]
          && (j.entries[i].source == [] || j.entries[i].source[0] != j.stage[0])
      {
        assert BackupName(i) == Ascii("backup-" + Dec(i));
        var source, directory := j.entries[i].source, Parent(j.stage);
        assert directory == [j.stage[0]];
        assert StartsWith(source, directory) <==> source != [] && source[0] == j.stage[0];
      }
    }
  }

  // ---- The paths a valid journal names ----

  lemma BackupNamesDiffer(i: nat, k: nat)
    requires i != k
    ensures BackupName(i) != BackupName(k)
  {
    if BackupName(i) == BackupName(k) {
      var n := |BACKUP_PREFIX|;
      assert BackupName(i)[n..] == Ascii(Dec(i)) && BackupName(k)[n..] == Ascii(Dec(k));
      assert Ascii(Dec(i)) == Ascii(Dec(k));
      forall x | 0 <= x < |Dec(i)| ensures Dec(i)[x] == Dec(k)[x] {
        assert Ascii(Dec(i))[x] == Ascii(Dec(k))[x];
      }
      assert Dec(i) == Dec(k);
      DecInjective(i, k);
    }
  }

  /** The stage, every backup and every source are pairwise distinct paths; the
      stage and the backups are exactly the recovery directory's own children. */
  lemma ValidJournalPathsDistinct(j: Journal)
    requires ValidJournal(j)
    ensures forall i :: 0 <= i < |j.entries| ==>
      j.entries[i].backup != j.stage && j.entries[i].source != j.stage
    ensures forall i, k :: 0 <= i < |j.entries| && 0 <= k < |j.entries| ==>
      j.entries[i].source != j.entries[k].backup
    ensures forall i, k :: 0 <= i < |j.entries| && 0 <= k < |j.entries| && i != k ==>
      j.entries[i].backup != j.entries[k].backup && j.entries[i].source != j.entries[k].source
    ensures forall i :: 0 <= i < |j.entries| ==>
      Parent(j.entries[i].backup) == Parent(j.stage)
  {
    var directory := Parent(j.stage);
    assert Ascii(STAGE_PREFIX)[0] != Ascii(BACKUP_PREFIX)[0];
    forall i | 0 <= i < |j.entries|
      ensures j.entries[i].backup != j.stage && j.entries[i].source != j.stage
      ensures Parent(j.entries[i].backup) == directory && StartsWith(j.entries[i].backup, directory)
    {
      assert ValidEntryAt(j, i);
      assert j.entries[i].backup[1][0] == Ascii(BACKUP_PREFIX)[0];
      assert j.stage[1][0] == Ascii(STAGE_PREFIX)[0];
      assert StartsWith(j.stage, directory);
    }
    forall i, k | 0 <= i < |j.entries| && 0 <= k < |j.entries|
      ensures j.entries[i].source != j.entries[k].backup
      ensures i != k ==> j.entries[i].backup != j.entries[k].backup && j.entries[i].source != j.entries[k].source
    {
      assert ValidEntryAt(j, i) && ValidEntryAt(j, k);
      if i != k {
        BackupNamesDiffer(i, k);
        assert j.entries[i].backup[1] == BackupName(i) && j.entries[k].backup[1] == BackupName(k);
      }
    }
  }

  // ---- Writing ----

  function EncodePath(p: RelPath): string
    requires p != []
  {
    HexEncode(PathBytes(p))
  }

  function SurvivorFields(j: Journal): seq<string>
    requires j.stage != []
  {
    ["survivor", Dec(j.survivor), EncodePath(j.stage)]
  }

  function EntryFields(e: Entry): seq<string>
    requires e.source != [] && e.backup != []
  {
    ["entry", Dec(e.trackId), Dec(e.identity.device), Dec(e.identity.inode),
     EncodePath(e.source), EncodePath(e.backup)]
  }

  function Unlines(lines: seq<string>): string {
    if lines == [] then "" else lines[0] + ['\n'] + Unlines(lines[1..])
  }

  lemma {:induction false} UnlinesAppend(lines: seq<string>, last: string)
    ensures Unlines(lines + [last]) == Unlines(lines) + last + ['\n']
  {
    if lines == [] {
      assert (lines + [last])[1..] == [];
    } else {
      UnlinesAppend(lines[1..], last);
      assert (lines + [last])[1..] == lines[1..] + [last];
    }
  }

  lemma UnlinesExtend(lines: seq<string>, n: nat)
    requires n < |lines|
    ensures Unlines(lines[..n + 1]) == Unlines(lines[..n]) + lines[n] + ['\n']
  {
    UnlinesAppend(lines[..n], lines[n]);
    assert lines[..n + 1] == lines[..n] + [lines[n]];
  }

  predicate WellTypedEntries(entries: seq<Entry>) {
    forall i :: 0 <= i < |entries| ==> WellTypedEntry(entries[i])
  }

  function EntryLines(entries: seq<Entry>): (lines: seq<string>)
    requires WellTypedEntries(entries)
    ensures |lines| == |entries|
  {
    seq(|entries|, i requires 0 <= i < |entries| =>
      assert WellTypedEntry(entries[i]); Join(EntryFields(entries[i]), '\t'))
  }

  function JournalLines(j: Journal): seq<string>
    requires WellTyped(j)
  {
    [HEADER, Join(SurvivorFields(j), '\t')] + EntryLines(j.entries)
  }

  /** The lines, word by word: the heading, the survivor with its stage, and each entry
      with its numbers in decimal and its paths in hexadecimal. */
  lemma JournalLinesAre(j: Journal)
    requires WellTyped(j)
    ensures var lines := JournalLines(j);
      && |lines| == |j.entries| + 2
      && lines[0] == "# sustain duplicate consolidation journal v1"
      && lines[1] == "survivor\t" + Dec(j.survivor) + "\t" + HexEncode(PathBytes(j.stage))
      && forall i :: 0 <= i < |j.entries| ==> WellTypedEntry(j.entries[i]) && lines[i + 2] == EntryLine(j.entries[i])
  {
    JoinThree("survivor", Dec(j.survivor), EncodePath(j.stage));
    hide HexEncode, Dec, Join, ValidPath;
    forall i | 0 <= i < |j.entries|
      ensures WellTypedEntry(j.entries[i]) && JournalLines(j)[i + 2] == EntryLine(j.entries[i])
    {
      assert WellTypedEntry(j.entries[i]);
      EntryLineIs(j.entries[i]);
    }
  }

  function EntryLine(e: Entry): string
    requires e.source != [] && e.backup != []
  {
    "entry\t" + Dec(e.trackId) + "\t" + Dec(e.identity.device) + "\t" + Dec(e.identity.inode)
      + "\t" + HexEncode(PathBytes(e.source)) + "\t" + HexEncode(PathBytes(e.backup))
  }

  lemma EntryLineIs(e: Entry)
    requires e.source != [] && e.backup != []
    ensures Join(EntryFields(e), '\t') == EntryLine(e)
  {
    hide HexEncode, Dec;
    JoinSix("entry", Dec(e.trackId), Dec(e.identity.device), Dec(e.identity.inode),
            EncodePath(e.source), EncodePath(e.backup));
  }

  lemma JoinOneMore(part: string, parts: seq<string>)
    requires parts != []
    ensures Join([part] + parts, '\t') == part + "\t" + Join(parts, '\t')
  {
    assert ([part] + parts)[1..] == parts;
  }

  lemma JoinThree(a: string, b: string, c: string)
    ensures Join([a, b, c], '\t') == a + "\t" + b + "\t" + c
  {
    JoinOneMore(b, [c]);
    JoinOneMore(a, [b, c]);
    assert [b] + [c] == [b, c] && [a] + [b, c] == [a, b, c] && Join([c], '\t') == c;
    assert a + "\t" + (b + "\t" + c) == a + "\t" + b + "\t" + c;
  }

  lemma JoinSix(a: string, b: string, c: string, d: string, e: string, f: string)
    ensures Join([a, b, c, d, e, f], '\t') == a + "\t" + b + "\t" + c + "\t" + d + "\t" + e + "\t" + f
  {
    hide Join;
    JoinThree(d, e, f);
    JoinOneMore(c, [d, e, f]);
    JoinOneMore(b, [c, d, e, f]);
    JoinOneMore(a, [b, c, d, e, f]);
    assert [c] + [d, e, f] == [c, d, e, f] && [b] + [c, d, e, f] == [b, c, d, e, f];
    assert [a] + [b, c, d, e, f] == [a, b, c, d, e, f];
    var rest := d + "\t" + e + "\t" + f;
    assert a + "\t" + (b + "\t" + (c + "\t" + rest)) == a + "\t" + b + "\t" + c + "\t" + d + "\t" + e + "\t" + f;
  }

  method WriteJournal(j: Journal) returns (text: Option<string>)
    requires WellTyped(j)
    ensures text.Some? <==> ValidJournal(j)
    ensures text.Some? ==> text.value == Unlines(JournalLines(j))
  {
    var ok := ValidateJournal(j);
    if !ok { return None; }
    ghost var lines := JournalLines(j);
    var contents := HEADER + ['\n'] + Join(SurvivorFields(j), '\t') + ['\n'];
    UnlinesExtend(lines, 0);
    UnlinesExtend(lines, 1);
    for index := 0 to |j.entries|
      invariant contents == Unlines(lines[..index + 2])
    {
      assert WellTypedEntry(j.entries[index]);
      var line := Join(EntryFields(j.entries[index]), '\t');
      assert line == lines[index + 2];
      UnlinesExtend(lines, index + 2);
      contents := contents + line + ['\n'];
    }
    assert lines[..|lines|] == lines;
    return Some(contents);
  }

  // ---- Reading ----

  function StripCarriageReturn(line: string): string {
    if line != [] && line[|line| - 1] == '\r' then line[..|line| - 1] else line
  }

  /** Lines end at a line feed, with one carriage return before it dropped; an
      unterminated last line is kept unless it is empty. */
  function Lines(text: string): seq<string> {
    var pieces := Split(text, '\n');
    var n := |pieces| - 1;
    seq(n, i requires 0 <= i < n => StripCarriageReturn(pieces[i])) +
    (if pieces[n] == [] then [] else [pieces[n]])
  }

  function ParseTrackId(s: string): Option<nat> {
    match ParseUnsigned(s, MAX_TRACK_ID)
    case Some(n) => if n > 0 then Some(n) else None
    case None => None
  }

  /** Track ids are read back up to the greatest signed 64-bit number, and zero is none. */
  lemma TrackIdsAre(n: nat)
    ensures ParseTrackId(Dec(n)) == if 1 <= n <= 9_223_372_036_854_775_807 then Some(n) else None
  {
    ParseDec(n, MAX_TRACK_ID);
  }

  function DecodePath(s: string): Option<RelPath> {
    match HexDecode(s)
    case Some(bytes) => Normalize(bytes)
    case None => None
  }

  function ParseSurvivor(line: string): Option<(nat, RelPath)> {
    var parts := Split(line, '\t');
    if |parts| != 3 || parts[0] != "survivor" then None
    else
      match (ParseTrackId(parts[1]), DecodePath(parts[2]))
      case (Some(id), Some(stage)) => Some((id, stage))
      case _ => None
  }

  function ParseEntry(line: string): Option<Entry> {
    var parts := Split(line, '\t');
    if |parts| != 6 || parts[0] != "entry" then None
    else
      match (ParseTrackId(parts[1]), ParseUnsigned(parts[2], MAX_U64), ParseUnsigned(parts[3], MAX_U64),
             DecodePath(parts[4]), DecodePath(parts[5]))
      case (Some(id), Some(device), Some(inode), Some(source), Some(backup)) =>
        Some(Entry(id, FileIdentity(device, inode), source, backup))
      case _ => None
  }

  /** Some(all) exactly when the parser accepts every line. */
  function ParseAll<T>(lines: seq<string>, parse: string -> Option<T>): Option<seq<T>> {
    if lines == [] then Some([])
    else
      var last := |lines| - 1;
      match (ParseAll(lines[..last], parse), parse(lines[last]))
      case (Some(parsed), Some(item)) => Some(parsed + [item])
      case _ => None
  }

  function Parse(text: string): Option<Journal> {
    var lines := Lines(text);
    if |lines| < 2 || lines[0] != HEADER then None
    else
      match (ParseSurvivor(lines[1]), ParseAll(lines[2..], ParseEntry))
      case (Some((survivor, stage)), Some(entries)) => Some(Journal(survivor, stage, entries))
      case _ => None
  }

  lemma {:induction false} ParseAllFailsEarly<T>(lines: seq<string>, parse: string -> Option<T>, k: nat)
    requires k <= |lines| && ParseAll(lines[..k], parse).None?
    ensures ParseAll(lines, parse).None?
    decreases |lines| - k
  {
    if k < |lines| {
      assert lines[..k + 1][..k] == lines[..k];
      ParseAllFailsEarly(lines, parse, k + 1);
    } else {
      assert lines[..k] == lines;
    }
  }

  lemma {:induction false} ParseAllPointwise<T>(lines: seq<string>, parse: string -> Option<T>, items: seq<T>)
    requires |lines| == |items|
    requires forall i :: 0 <= i < |lines| ==> parse(lines[i]) == Some(items[i])
    ensures ParseAll(lines, parse) == Some(items)
  {
    if lines != [] {
      var last := |lines| - 1;
      ParseAllPointwise(lines[..last], parse, items[..last]);
      assert items == items[..last] + [items[last]];
    }
  }

  method ReadJournal(text: string) returns (journal: Option<Journal>)
    ensures journal == match Parse(text)
                       case Some(j) => if ValidJournal(j) then Some(j) else None
                       case None => None
  {
    var lines := Lines(text);
    if |lines| < 2 || lines[0] != HEADER { return None; }
    var survivor := ParseSurvivor(lines[1]);
    if survivor.None? { return None; }
    var rest := lines[2..];
    var entries: seq<Entry> := [];
    for index := 0 to |rest|
      invariant ParseAll(rest[..index], ParseEntry) == Some(entries)
    {
      assert rest[..index + 1][..index] == rest[..index];
      var entry := ParseEntry(rest[index]);
      if entry.None? {
        ParseAllFailsEarly(rest, ParseEntry, index + 1);
        return None;
      }
      entries := entries + [entry.value];
    }
    assert rest[..|rest|] == rest;
    var parsed := Journal(survivor.value.0, survivor.value.1, entries);
    DecodedStageIsValid(lines[1]);
    var ok := ValidateJournal(parsed);
    return if ok then Some(parsed) else None;
  }

  lemma DecodedStageIsValid(line: string)
    ensures ParseSurvivor(line).Some? ==> ValidPath(ParseSurvivor(line).value.1)
  {
    var parts := Split(line, '\t');
    if |parts| == 3 && HexDecode(parts[2]).Some? {
      NormalizeSound(HexDecode(parts[2]).value);
    }
  }

  // ---- Round trip ----

  predicate PlainLine(s: string) { '\n' !in s && '\r' !in s }

  predicate PlainField(s: string) { '\t' !in s && '\n' !in s && '\r' !in s }

  lemma DecIsPlain(n: nat)
    ensures PlainField(Dec(n))
  {
  }

  lemma PathFieldRoundTrip(p: RelPath)
    requires ValidPath(p)
    ensures PlainField(EncodePath(p)) && DecodePath(EncodePath(p)) == Some(p)
  {
    HexRoundTrip(PathBytes(p));
    NormalizeRoundTrip(p);
  }

  lemma {:induction false} JoinedFieldsArePlainLine(fields: seq<string>)
    requires |fields| >= 1 && forall i :: 0 <= i < |fields| ==> PlainField(fields[i])
    ensures PlainLine(Join(fields, '\t'))
  {
    assert PlainField(fields[0]);
    if |fields| > 1 {
      JoinedFieldsArePlainLine(fields[1..]);
    }
  }

  lemma SurvivorLineRoundTrip(j: Journal)
    requires WellTyped(j)
    ensures ParseSurvivor(Join(SurvivorFields(j), '\t')) == Some((j.survivor, j.stage))
    ensures PlainLine(Join(SurvivorFields(j), '\t'))
  {
    hide Join, Split, ParseUnsigned, DecodePath, EncodePath, PlainField, PlainLine;
    SurvivorIsPlain();
    var fields := SurvivorFields(j);
    DecIsPlain(j.survivor);
    ParseDec(j.survivor, MAX_TRACK_ID);
    PathFieldRoundTrip(j.stage);
    assert forall i :: 0 <= i < |fields| ==> PlainField(fields[i]);
    FieldsSplit(fields);
    JoinedFieldsArePlainLine(fields);
  }

  lemma EntryLineRoundTrip(e: Entry)
    requires WellTypedEntry(e)
    ensures ParseEntry(Join(EntryFields(e), '\t')) == Some(e)
    ensures PlainLine(Join(EntryFields(e), '\t'))
  {
    hide Join, Split, ParseUnsigned, DecodePath, EncodePath, PlainField, PlainLine;
    var fields := EntryFields(e);
    DecIsPlain(e.trackId);
    DecIsPlain(e.identity.device);
    DecIsPlain(e.identity.inode);
    ParseDec(e.trackId, MAX_TRACK_ID);
    ParseDec(e.identity.device, MAX_U64);
    ParseDec(e.identity.inode, MAX_U64);
    PathFieldRoundTrip(e.source);
    PathFieldRoundTrip(e.backup);
    EntryIsPlain();
    assert forall i :: 0 <= i < |fields| ==> PlainField(fields[i]);
    FieldsSplit(fields);
    JoinedFieldsArePlainLine(fields);
  }

  lemma EntryIsPlain()
    ensures PlainField("entry")
  {
  }

  lemma SurvivorIsPlain()
    ensures PlainField("survivor")
  {
  }

  lemma HeaderIsPlain()
    ensures PlainLine(HEADER)
  {
  }

  lemma FieldsSplit(fields: seq<string>)
    requires fields != [] && forall i :: 0 <= i < |fields| ==> PlainField(fields[i])
    ensures Split(Join(fields, '\t'), '\t') == fields
  {
    SplitJoin(fields, '\t');
  }

  lemma {:induction false} SplitUnlines(lines: seq<string>)
    requires forall i :: 0 <= i < |lines| ==> '\n' !in lines[i]
    ensures Split(Unlines(lines), '\n') == lines + [[]]
  {
    if lines != [] {
      SplitUnlines(lines[1..]);
      SplitHead(lines[0], '\n', Unlines(lines[1..]));
      assert [lines[0]] + (lines[1..] + [[]]) == lines + [[]];
    }
  }

  lemma LinesFromPieces(text: string, lines: seq<string>)
    requires Split(text, '\n') == lines + [[]]
    requires forall i :: 0 <= i < |lines| ==> PlainLine(lines[i])
    ensures Lines(text) == lines
  {
  }

  lemma LinesOfUnlines(lines: seq<string>)
    requires forall i :: 0 <= i < |lines| ==> PlainLine(lines[i])
    ensures Lines(Unlines(lines)) == lines
  {
    forall i | 0 <= i < |lines| ensures '\n' !in lines[i] {
      assert PlainLine(lines[i]);
    }
    SplitUnlines(lines);
    LinesFromPieces(Unlines(lines), lines);
  }

  lemma EntryLinesRoundTrip(entries: seq<Entry>)
    requires WellTypedEntries(entries)
    ensures ParseAll(EntryLines(entries), ParseEntry) == Some(entries)
    ensures forall i :: 0 <= i < |entries| ==> PlainLine(EntryLines(entries)[i])
  {
    var lines := EntryLines(entries);
    forall i | 0 <= i < |lines|
      ensures ParseEntry(lines[i]) == Some(entries[i]) && PlainLine(lines[i])
    {
      assert WellTypedEntry(entries[i]);
      EntryLineRoundTrip(entries[i]);
    }
    ParseAllPointwise(lines, ParseEntry, entries);
  }

  lemma ParseFromLines(text: string, lines: seq<string>)
    requires Lines(text) == lines && |lines| >= 2 && lines[0] == HEADER
    ensures Parse(text) == match (ParseSurvivor(lines[1]), ParseAll(lines[2..], ParseEntry))
                           case (Some((survivor, stage)), Some(entries)) => Some(Journal(survivor, stage, entries))
                           case _ => None
  {
  }

  lemma JournalLinesArePlain(lines: seq<string>, header: string, second: string, rest: seq<string>)
    requires lines == [header, second] + rest
    requires PlainLine(header) && PlainLine(second) && forall i :: 0 <= i < |rest| ==> PlainLine(rest[i])
    ensures forall i :: 0 <= i < |lines| ==> PlainLine(lines[i])
  {
  }

  /** The text written for a journal parses back to exactly that journal. */
  lemma JournalRoundTrip(j: Journal)
    requires WellTyped(j)
    ensures Parse(Unlines(JournalLines(j))) == Some(j)
  {
    var lines := JournalLines(j);
    HeaderIsPlain();
    hide Join, Split, PlainLine, ParseSurvivor, ParseEntry, Unlines, Lines;
    SurvivorLineRoundTrip(j);
    EntryLinesRoundTrip(j.entries);
    JournalLinesArePlain(lines, HEADER, Join(SurvivorFields(j), '\t'), EntryLines(j.entries));
    LinesOfUnlines(lines);
    ParseFromLines(Unlines(lines), lines);
    assert lines[2..] == EntryLines(j.entries);
  }

  /** Through the two methods: what is published is exactly what recovery reads,
      and an invalid journal is never published. */
  method PublishThenRead(j: Journal) returns (published: bool, recovered: Option<Journal>)
    requires WellTyped(j)
    ensures published == ValidJournal(j)
    ensures recovered == if ValidJournal(j) then Some(j) else None
  {
    var text := WriteJournal(j);
    if text.None? { return false, None; }
    JournalRoundTrip(j);
    recovered := ReadJournal(text.value);
    published := true;
  }
}
