/** Publishing a file into the desktop trash while others use the same directories. */
module Trash {
  import opened Wrappers
  import opened Text

  const MAX_NAME_ATTEMPTS: nat := 10_000

  // ---- The percent-encoded path of an info file ----

  predicate IsUnreserved(b: Byte) {
    || '0' as int <= b <= '9' as int || 'a' as int <= b <= 'z' as int || 'A' as int <= b <= 'Z' as int
    || b == '/' as int || b == '-' as int || b == '_' as int || b == '.' as int || b == '~' as int
  }

  function EncodeByte(b: Byte): string {
    if IsUnreserved(b) then [b as char] else ['%', HexDigitUpper(b / 16), HexDigitUpper(b % 16)]
  }

  function Encoded(bytes: seq<Byte>): string {
    if bytes == [] then "" else Encoded(bytes[..|bytes| - 1]) + EncodeByte(bytes[|bytes| - 1])
  }

  method EncodeUriPath(bytes: seq<Byte>) returns (encoded: string)
    ensures encoded == Encoded(bytes)
    ensures PercentDecode(encoded) == Some(bytes)
    ensures forall c :: c in encoded ==> c != '\n' && c != '\r'
  {
    encoded := "";
    for i := 0 to |bytes|
      invariant encoded == Encoded(bytes[..i])
    {
      assert bytes[..i + 1][..i] == bytes[..i];
      var c := bytes[i] as char;
      var alphanumeric := 'a' <= c <= 'z' || 'A' <= c <= 'Z' || '0' <= c <= '9';
      if alphanumeric || c in {'/', '-', '_', '.', '~'} {
        encoded := encoded + [c];
      } else {
        encoded := encoded + ['%', HexDigitUpper(bytes[i] / 16), HexDigitUpper(bytes[i] % 16)];
      }
    }
    assert bytes[..|bytes|] == bytes;
    EncodingRoundTrip(bytes);
  }

  /** Section 2.1 of RFC 3986: a percent sign and two hexadecimal digits of either
      case stand for one byte; any other character stands for itself. */
  function PercentDecode(s: string): Option<seq<Byte>> {
    if s == [] then Some([])
    else if s[0] != '%' then
      (if s[0] as int >= 256 then None
       else
         match PercentDecode(s[1..])
         case Some(rest) => Some([s[0] as int] + rest)
         case None => None)
    else if |s| < 3 then None
    else
      match (HexValue(s[1]), HexValue(s[2]), PercentDecode(s[3..]))
      case (Some(hi), Some(lo), Some(rest)) =>
        var b: int := hi * 16 + lo;
        if b < 256 then Some([b] + rest) else None
      case _ => None
  }

  lemma DecodeFirst(b: Byte, tail: string)
    requires PercentDecode(tail).Some?
    ensures PercentDecode(EncodeByte(b) + tail) == Some([b] + PercentDecode(tail).value)
  {
    hide HexValue, HexDigitUpper;
    var s := EncodeByte(b) + tail;
    if IsUnreserved(b) {
      assert s[1..] == tail;
    } else {
      assert s[3..] == tail;
      UpperDigit(b / 16);
      UpperDigit(b % 16);
    }
  }

  lemma UpperDigit(n: nat)
    requires n < 16
    ensures HexValue(HexDigitUpper(n)) == Some(n)
  {
  }

  lemma {:induction false} EncodedThen(bytes: seq<Byte>, tail: string)
    requires PercentDecode(tail).Some?
    ensures PercentDecode(Encoded(bytes) + tail) == Some(bytes + PercentDecode(tail).value)
  {
    hide PercentDecode, EncodeByte;
    if bytes == [] {
      assert Encoded(bytes) + tail == tail;
      assert bytes + PercentDecode(tail).value == PercentDecode(tail).value;
    } else {
      var front, last := bytes[..|bytes| - 1], bytes[|bytes| - 1];
      DecodeFirst(last, tail);
      EncodedThen(front, EncodeByte(last) + tail);
      assert Encoded(front) + (EncodeByte(last) + tail) == Encoded(bytes) + tail;
      assert front + ([last] + PercentDecode(tail).value) == bytes + PercentDecode(tail).value;
    }
  }

  lemma {:induction false} EncodedStaysOnOneLine(bytes: seq<Byte>)
    ensures forall c :: c in Encoded(bytes) ==> c != '\n' && c != '\r'
  {
    if bytes != [] {
      EncodedStaysOnOneLine(bytes[..|bytes| - 1]);
    }
  }

  /** Decoding gives back the original bytes, whatever they are. */
  lemma EncodingRoundTrip(bytes: seq<Byte>)
    ensures PercentDecode(Encoded(bytes)) == Some(bytes)
    ensures forall c :: c in Encoded(bytes) ==> c != '\n' && c != '\r'
  {
    assert PercentDecode("") == Some([]);
    hide PercentDecode, Encoded;
    EncodedThen(bytes, "");
    assert Encoded(bytes) + "" == Encoded(bytes);
    assert bytes + [] == bytes;
    EncodedStaysOnOneLine(bytes);
  }

  const HEADER := "[Trash Info]"
  const PATH := "Path="
  const DELETION_DATE := "DeletionDate="

  function InfoText(path: seq<Byte>, date: string): string {
    Join([HEADER, PATH + Encoded(path), DELETION_DATE + date, ""], '\n')
  }

  /** Whoever reads an info file line by line: its path and its deletion date. */
  function ReadInfo(text: string): Option<(seq<Byte>, string)> {
    var lines := Split(text, '\n');
    if |lines| != 4 || lines[0] != "[Trash Info]" || !("Path=" <= lines[1]) || !("DeletionDate=" <= lines[2])
       || lines[3] != "" then None
    else
      match PercentDecode(lines[1][5..])
      case Some(path) => Some((path, lines[2][13..]))
      case None => None
  }

  /** Such a reader finds the original path and the date again, and nothing else. */
  lemma InfoReadsBack(path: seq<Byte>, date: string)
    requires '\n' !in date
    ensures ReadInfo(InfoText(path, date)) == Some((path, date))
  {
    EncodingRoundTrip(path);
    hide PercentDecode, Encoded;
    var lines := [HEADER, PATH + Encoded(path), DELETION_DATE + date, ""];
    assert forall i :: 0 <= i < |lines| ==> '\n' !in lines[i];
    SplitJoin(lines, '\n');
    hide Join, Split;
    assert lines[1][5..] == Encoded(path) && lines[2][13..] == date;
  }

  // ---- Names ----

  function CollisionFreeName(original: string, attempt: nat): string {
    if attempt > 0 then original + "." + Dec(attempt + 1) else original
  }

  function InfoName(name: string): string {
    name + ".trashinfo"
  }

  /** The original name, then the same with ".2", ".3" and so on behind it. */
  ghost predicate IsAttemptName(name: string, original: string, attempt: nat) {
    if attempt == 0 then name == original
    else
      && |name| > |original| && name[..|original|] == original && name[|original|] == '.'
      && ParseUnsigned(name[|original| + 1..], attempt + 1) == Some(attempt + 1)
  }

  lemma AttemptNames(original: string, attempt: nat)
    ensures IsAttemptName(CollisionFreeName(original, attempt), original, attempt)
  {
    var name := CollisionFreeName(original, attempt);
    if attempt > 0 {
      assert name[|original| + 1..] == Dec(attempt + 1);
      ParseDec(attempt + 1, attempt + 1);
    }
  }

  /** No attempt repeats a name. */
  lemma AttemptsDiffer(original: string, a: nat, b: nat)
    requires CollisionFreeName(original, a) == CollisionFreeName(original, b)
    ensures a == b
  {
    if a > 0 && b > 0 {
      var prefix := original + ".";
      assert CollisionFreeName(original, a)[|prefix|..] == Dec(a + 1);
      assert CollisionFreeName(original, b)[|prefix|..] == Dec(b + 1);
      DecInjective(a + 1, b + 1);
    } else {
      assert |CollisionFreeName(original, a)| == |CollisionFreeName(original, b)|;
    }
  }

  // ---- The directories, and everyone who uses them ----

  /** What a name can hold; only regular files are ever opened. */
  datatype Node = Node(id: nat, regular: bool)

  datatype Reservation = Reserved(id: nat) | NameTaken | NotReserved

  datatype Moved = Moved | DataTaken | NotMoved

  datatype Outcome = Trashed | Collision | Failed

  /** How the check of the renamed entry ended. */
  datatype Verdict = Kept | NotOpened | WrongFile | NotDurable

  ghost predicate Extends<K, V>(small: map<K, V>, large: map<K, V>) {
    forall k :: k in small ==> k in large && large[k] == small[k]
  }

  /** Names are either foreign or ours. */
  ghost predicate Divided<V>(all: map<string, V>, foreign: map<string, V>, ours: map<string, V>) {
    && (forall k :: k in foreign ==> k in all && all[k] == foreign[k] && k !in ours)
    && (forall k :: k in ours ==> k in all && all[k] == ours[k])
    && (forall k :: k in all ==> k in foreign || k in ours)
  }

  lemma DividedGrows<V>(all: map<string, V>, foreign: map<string, V>, ours: map<string, V>, more: map<string, V>)
    requires Divided(all, foreign, ours)
    ensures var added := more - all.Keys;
      && Divided(all + added, foreign + added, ours)
      && Extends(all, all + added) && Extends(foreign, foreign + added)
  {
  }

  lemma DividedAdds<V>(all: map<string, V>, foreign: map<string, V>, ours: map<string, V>, name: string, v: V)
    requires Divided(all, foreign, ours) && name !in all
    ensures Divided(all[name := v], foreign, ours[name := v]) && ours[name := v] - {name} == ours
  {
  }

  lemma DividedDrops<V>(all: map<string, V>, foreign: map<string, V>, ours: map<string, V>, name: string)
    requires Divided(all, foreign, ours) && name in ours
    ensures Divided(all - {name}, foreign, ours - {name}) && name in all && all[name] == ours[name]
  {
  }

  method AnyNode() returns (node: Option<Node>) {
    node := *;
  }

  class Directories {
    // The inode the caller has open and wants trashed.
    const retained: nat
    // Whether operations may fail, and whether others may act in between.
    const mayFail: bool
    const mayInterfere: bool
    var source: Option<Node>
    var data: map<string, Node>
    var info: map<string, nat>
    var texts: map<nat, string>
    // Info files renamed aside whose removal was cut short.
    var strays: multiset<nat>
    // What others put under these names, before or during the publication, and
    // what this publication put there.
    ghost var foreignData: map<string, Node>
    ghost var foreignInfo: map<string, nat>
    ghost var ourData: map<string, Node>
    ghost var ourInfo: map<string, nat>
    // Any one file to keep an eye on, and whether others took it from its source name.
    ghost const watched: Node
    ghost var takenAway: bool

    ghost predicate AtHand()
      reads this
    {
      source == Some(watched) || exists name :: name in data && data[name] == watched
    }

    /** No entry of anyone else is touched, and the watched file stays reachable
        unless others took it away. */
    ghost predicate Valid()
      reads this
    {
      && Divided(data, foreignData, ourData) && Divided(info, foreignInfo, ourInfo)
      && (takenAway || AtHand())
    }

    constructor (retained: nat, source: Option<Node>, data: map<string, Node>, info: map<string, nat>,
                 texts: map<nat, string>, mayFail: bool, mayInterfere: bool, ghost watched: Node)
      ensures Valid() && this.retained == retained && this.watched == watched
      ensures this.mayFail == mayFail && this.mayInterfere == mayInterfere
      ensures this.source == source && this.data == data && this.info == info && this.texts == texts
      ensures foreignData == data && foreignInfo == info && ourData == map[] && ourInfo == map[]
    {
      this.retained, this.watched := retained, watched;
      this.mayFail, this.mayInterfere := mayFail, mayInterfere;
      this.source, this.data, this.info, this.texts := source, data, info, texts;
      strays := multiset{};
      foreignData, foreignInfo, ourData, ourInfo := data, info, map[], map[];
      takenAway := source != Some(watched) && !exists name :: name in data && data[name] == watched;
    }

    // ---- Others ----

    /** Others may take any free name in the trash. */
    method OthersAdd(newData: map<string, Node>, newInfo: map<string, nat>, newTexts: map<nat, string>)
      requires Valid()
      modifies `data, `info, `texts, `foreignData, `foreignInfo
      ensures Valid() && Extends(old(texts), texts)
      ensures Extends(old(foreignData), foreignData) && Extends(old(foreignInfo), foreignInfo)
    {
      DividedGrows(data, foreignData, ourData, newData);
      DividedGrows(info, foreignInfo, ourInfo, newInfo);
      hide Divided;
      texts := newTexts + texts;
      var addedData, addedInfo := newData - data.Keys, newInfo - info.Keys;
      data, foreignData := data + addedData, foreignData + addedData;
      info, foreignInfo := info + addedInfo, foreignInfo + addedInfo;
    }

    /** Others may remove or replace what the source name holds, though not by the
        retained inode. */
    method OthersSwap(newSource: Option<Node>)
      requires Valid() && (newSource.None? || newSource.value.id != retained)
      modifies `source, `takenAway
      ensures Valid() && source == newSource
      ensures takenAway <==> !AtHand()
    {
      source := newSource;
      takenAway := !AtHand();
    }

    method Others()
      requires Valid()
      modifies `source, `data, `info, `texts, `foreignData, `foreignInfo, `takenAway
      ensures Valid() && Extends(old(texts), texts)
      ensures Extends(old(foreignData), foreignData) && Extends(old(foreignInfo), foreignInfo)
      ensures source == old(source) || source.None? || source.value.id != retained
      ensures !mayInterfere ==> unchanged(this)
    {
      if !mayInterfere { return; }
      if * {
        var newData: map<string, Node>, newInfo: map<string, nat>, newTexts: map<nat, string> := *, *, *;
        OthersAdd(newData, newInfo, newTexts);
      }
      if * {
        var newSource := AnyNode();
        if newSource.None? || newSource.value.id != retained { OthersSwap(newSource); }
      }
    }

    /** An operation's chance to fail. */
    method Fails() returns (failed: bool)
      ensures failed ==> mayFail
    {
      failed := *;
      failed := failed && mayFail;
    }

    /** Nothing fails and nobody interferes. */
    ghost predicate Quiet() { !mayFail && !mayInterfere }

    /** Moreover the source name holds the file that is meant. */
    ghost predicate Calm()
      reads this
    {
      Quiet() && source == Some(Node(retained, true))
    }

    /** How a quiet attempt under a free name ends, by what the source name held: a
        wrong file is put back, but what is no regular file stays in the trash, with
        no info file beside it. */
    ghost predicate EndsQuietly(r: Outcome, name: string, was: Option<Node>)
      reads this
    {
      if was.None? then r.Failed? && ourData == map[] && ourInfo == map[] && source.None?
      else if !was.value.regular then
        r.Failed? && ourData == map[name := was.value] && ourInfo == map[] && source.None?
      else if was.value.id != retained then r.Failed? && ourData == map[] && ourInfo == map[] && source == was
      else r.Trashed?
    }

    // ---- Single steps of the publication ----

    /** Create the info file, which fails when the name is taken, and fill it. */
    method CreateInfo(name: string, unused: nat, text: string) returns (r: Reservation)
      requires Valid() && unused !in texts
      modifies `info, `ourInfo, `texts, `strays
      ensures Valid() && Extends(old(texts), texts)
      ensures r.NameTaken? ==> name in info && unchanged(this)
      ensures r.NotReserved? ==> mayFail
      ensures r.Reserved? ==>
        r.id == unused && name !in old(info) && ourInfo == old(ourInfo)[name := unused]
        && texts == old(texts)[unused := text] && strays == old(strays)
      ensures r.NotReserved? ==> ourInfo == old(ourInfo) || (name !in old(info) && ourInfo == old(ourInfo)[name := unused])
    {
      hide Divided;
      var failed := Fails();
      if failed { return NotReserved; }
      if name in info { return NameTaken; }
      DividedAdds(info, foreignInfo, ourInfo, name, unused);
      info, ourInfo := info[name := unused], ourInfo[name := unused];
      texts := texts[unused := text];
      failed := Fails();
      if failed {
        // The text could not be written or made durable.
        var removed := RemoveInfo(name);
        assert old(ourInfo)[name := unused] - {name} == old(ourInfo);
        return NotReserved;
      }
      return Reserved(unused);
    }

    /** Remove our info file: renamed aside, then unlinked. Nobody replaces it, so
        the comparison between the two steps always finds the file created before. */
    method RemoveInfo(name: string) returns (removed: bool)
      requires Valid() && name in ourInfo
      modifies `info, `ourInfo, `strays
      ensures Valid()
      ensures ourInfo == old(ourInfo) || ourInfo == old(ourInfo) - {name}
      ensures removed ==> ourInfo == old(ourInfo) - {name} && strays == old(strays)
      ensures !removed ==> mayFail
    {
      hide Divided;
      DividedDrops(info, foreignInfo, ourInfo, name);
      var failed := Fails();
      if failed { return false; }
      var aside := info[name];
      info, ourInfo := info - {name}, ourInfo - {name};
      strays := strays + multiset{aside};
      failed := Fails();
      if failed { return false; }
      strays := strays - multiset{aside};
      return true;
    }

    /** Rename whatever the source name holds to a data name that must be free. */
    method RenameToData(name: string) returns (r: Moved)
      requires Valid()
      modifies `source, `data, `ourData
      ensures Valid()
      ensures !r.Moved? ==> unchanged(this)
      ensures r.DataTaken? ==> name in data
      ensures r.NotMoved? ==> mayFail || source.None?
      ensures r.Moved? ==>
        name !in old(data) && old(source).Some? && source.None? && ourData == old(ourData)[name := old(source).value]
    {
      var failed := Fails();
      if failed { return NotMoved; }
      if source.None? { return NotMoved; }
      if name in data { return DataTaken; }
      var node := source.value;
      source, data, ourData := None, data[name := node], ourData[name := node];
      assert node == watched ==> data[name] == watched;
      assert forall n :: n in old(data) ==> n in data && data[n] == old(data)[n];
      return Moved;
    }

    /** Move the wrong file back, unless its name is in use again. */
    method RollBack(name: string)
      requires Valid() && name in ourData
      modifies `source, `data, `ourData
      ensures Valid()
      ensures (ourData == old(ourData) && source == old(source))
           || (old(source).None? && source == Some(old(ourData)[name]) && ourData == old(ourData) - {name})
      ensures !mayFail && old(source).None? ==> source.Some?
      ensures old(source).Some? ==> source == old(source)
    {
      var failed := Fails();
      if failed { return; }
      if source.Some? { return; }
      source := Some(data[name]);
      data, ourData := data - {name}, ourData - {name};
      assert forall n :: n in old(data) && n != name ==> n in data && data[n] == old(data)[n];
    }

    method UnusedId() returns (id: nat)
      ensures id !in texts
    {
      id := 0;
      ghost var rest := texts.Keys;
      while id in texts
        invariant forall x :: x in texts.Keys && x >= id ==> x in rest
        decreases rest
      {
        rest := rest - {id};
        id := id + 1;
      }
    }

    // ---- The publication ----

    /** One attempt under one name, others acting between any two steps. */
    method Attempt(name: string, text: string) returns (r: Outcome)
      requires Valid() && ourData == map[] && ourInfo == map[]
      modifies this
      ensures Valid() && Extends(old(texts), texts)
      ensures Extends(old(foreignData), foreignData) && Extends(old(foreignInfo), foreignInfo)
      ensures r.Trashed? ==> Published(name, text)
      ensures r.Collision? ==>
        ourData == map[] && ourInfo == map[] && strays == old(strays)
        && Taken(name)
        && (source == old(source) || source.None? || source.value.id != retained)
      // Undisturbed, an attempt succeeds exactly when both of its names are free.
      ensures old(Calm()) ==>
        && !r.Failed? && (r.Collision? <==> old(Taken(name)))
        && foreignData == old(foreignData) && foreignInfo == old(foreignInfo)
        && (r.Collision? ==> Calm())
      // A quiet attempt collides under a taken name, and ends by what it finds otherwise.
      ensures Quiet() ==> foreignData == old(foreignData) && foreignInfo == old(foreignInfo) && strays == old(strays)
      ensures Quiet() && r.Collision? ==> source == old(source) && old(Taken(name))
      ensures Quiet() && !r.Collision? ==>
        (old(source).Some? ==> !old(Taken(name))) && EndsQuietly(r, name, old(source))
    {
      Others();
      var unused := UnusedId();
      var reservation := CreateInfo(InfoName(name), unused, text);
      if reservation.NameTaken? { return Collision; }
      if reservation.NotReserved? { return Failed; }
      r := Fill(name, text);
    }

    /** The retained inode is in the trash under this one name, with its own info
        file, and has left its source. */
    ghost predicate Published(name: string, text: string)
      reads this
    {
      && ourData == map[name := Node(retained, true)]
      && ourInfo.Keys == {InfoName(name)}
      && ourInfo[InfoName(name)] in texts && texts[ourInfo[InfoName(name)]] == text
      && (source.None? || source.value.id != retained)
    }

    /** The rest of an attempt, once its info file is there. */
    method Fill(name: string, text: string) returns (r: Outcome)
      requires Valid() && ourData == map[] && ourInfo.Keys == {InfoName(name)}
      requires ourInfo[InfoName(name)] in texts && texts[ourInfo[InfoName(name)]] == text
      modifies this
      ensures Valid() && Extends(old(texts), texts)
      ensures Extends(old(foreignData), foreignData) && Extends(old(foreignInfo), foreignInfo)
      ensures r.Trashed? ==> Published(name, text)
      ensures r.Collision? ==>
        ourData == map[] && ourInfo == map[] && strays == old(strays) && name in foreignData
        && (source == old(source) || source.None? || source.value.id != retained)
      ensures old(Calm()) ==>
        && !r.Failed? && (r.Collision? <==> name in old(foreignData))
        && foreignData == old(foreignData) && foreignInfo == old(foreignInfo)
        && (r.Collision? ==> Calm())
      ensures Quiet() ==> foreignData == old(foreignData) && foreignInfo == old(foreignInfo) && strays == old(strays)
      ensures Quiet() && r.Collision? ==> source == old(source)
      ensures Quiet() && !r.Collision? ==>
        (old(source).Some? ==> name !in old(foreignData)) && EndsQuietly(r, name, old(source))
    {
      Others();
      var moved := RenameToData(name);
      if !moved.Moved? {
        var removed := RemoveInfo(InfoName(name));
        return if removed && moved.DataTaken? then Collision else Failed;
      }
      r := CheckMoved(name, text);
    }

    /** The check of what was renamed, others acting before and after it. */
    method CheckMoved(name: string, text: string) returns (r: Outcome)
      requires Valid() && ourData.Keys == {name} && ourInfo.Keys == {InfoName(name)}
      requires ourInfo[InfoName(name)] in texts && texts[ourInfo[InfoName(name)]] == text
      requires source.None?
      modifies this
      ensures Valid() && !r.Collision? && Extends(old(texts), texts)
      ensures Extends(old(foreignData), foreignData) && Extends(old(foreignInfo), foreignInfo)
      ensures r.Trashed? ==> Published(name, text)
      ensures Quiet() ==> foreignData == old(foreignData) && foreignInfo == old(foreignInfo) && strays == old(strays)
      ensures Quiet() ==> EndsQuietly(r, name, Some(old(ourData)[name]))
    {
      hide Divided;
      Others();
      ghost var verdict;
      r, verdict := Verify(name);
      Others();
    }

    /** Keep the entry only if it can be opened and is the file that was meant. */
    method Verify(name: string) returns (r: Outcome, ghost verdict: Verdict)
      requires Valid() && ourData.Keys == {name} && InfoName(name) in ourInfo
      modifies this
      ensures Valid() && !r.Collision? && Extends(old(texts), texts)
      ensures Extends(old(foreignData), foreignData) && Extends(old(foreignInfo), foreignInfo)
      ensures r.Trashed? <==> verdict.Kept?
      ensures r.Trashed? ==>
        ourData == old(ourData) && ourInfo == old(ourInfo) && ourData[name] == Node(retained, true)
      ensures r.Failed? ==> mayFail || old(ourData)[name] != Node(retained, true)
      ensures !mayInterfere && r.Trashed? ==> unchanged(this)
      ensures Quiet() ==> foreignData == old(foreignData) && foreignInfo == old(foreignInfo) && strays == old(strays)
      // Unless it was put back the entry stays, and its info file goes all the same,
      // but for a failure of the last steps, which leaves both.
      ensures name in ourData ==> ourData == old(ourData)
      ensures verdict.NotOpened? || verdict.NotDurable? ==> name in ourData
      ensures verdict.NotOpened? ==> mayFail || !old(ourData)[name].regular
      ensures verdict.WrongFile? ==> old(ourData)[name].regular && old(ourData)[name].id != retained
      ensures verdict.NotDurable? ==> mayFail && ourInfo == old(ourInfo) && ourData[name] == Node(retained, true)
      ensures ourInfo == old(ourInfo) || ourInfo == old(ourInfo) - {InfoName(name)}
      ensures !mayFail && r.Failed? ==> ourInfo == old(ourInfo) - {InfoName(name)}
      // The wrong file goes back exactly when its name is free.
      ensures Quiet() && verdict.WrongFile? ==>
        if old(source).None? then source == Some(old(ourData)[name]) && ourData == old(ourData) - {name}
        else source == old(source) && name in ourData
      ensures source == old(source) || source.None? || source.value.id != retained
      ensures Quiet() && !verdict.WrongFile? ==> source == old(source)
    {
      DividedDrops(data, foreignData, ourData, name);
      hide Divided;
      var staged := data[name];
      var failed := Fails();
      if failed || !staged.regular {
        var removed := RemoveInfo(InfoName(name));
        return Failed, NotOpened;
      }
      Others();
      if staged.id != retained {
        PutBackWrong(name);
        return Failed, WrongFile;
      }
      failed := Fails(); // A directory could not be made durable.
      if failed { return Failed, NotDurable; }
      return Trashed, Kept;
    }

    /** Take a wrong file back out of the trash, if its name is free, and remove its info
        file in any case. */
    method PutBackWrong(name: string)
      requires Valid() && name in ourData && InfoName(name) in ourInfo && ourData[name].id != retained
      modifies this
      ensures Valid() && Extends(old(texts), texts)
      ensures Extends(old(foreignData), foreignData) && Extends(old(foreignInfo), foreignInfo)
      ensures Quiet() ==> foreignData == old(foreignData) && foreignInfo == old(foreignInfo) && strays == old(strays)
      ensures ourData == old(ourData) || ourData == old(ourData) - {name}
      ensures ourInfo == old(ourInfo) || ourInfo == old(ourInfo) - {InfoName(name)}
      ensures !mayFail ==> ourInfo == old(ourInfo) - {InfoName(name)}
      ensures Quiet() ==>
        if old(source).None? then source == Some(old(ourData)[name]) && ourData == old(ourData) - {name}
        else source == old(source) && ourData == old(ourData)
      ensures source == old(source) || source.None? || source.value.id != retained
    {
      hide Divided;
      RollBack(name);
      Others();
      var removed := RemoveInfo(InfoName(name));
    }

    /** Try one name after another. Whatever happens, no entry of others is changed
        or removed and the watched file stays reachable; on success the retained
        inode is under one of the names, and names run out only when all are taken. */
    method TrashRegularFile(original: string, infoPath: seq<Byte>, date: string)
      returns (r: Outcome, ghost attempts: nat)
      requires Valid() && ourData == map[] && ourInfo == map[]
      modifies this
      ensures Valid()
      ensures Extends(old(foreignData), foreignData) && Extends(foreignData, data)
      ensures Extends(old(foreignInfo), foreignInfo) && Extends(foreignInfo, info)
      ensures r.Trashed? ==>
        attempts < MAX_NAME_ATTEMPTS && Published(CollisionFreeName(original, attempts), InfoText(infoPath, date))
      ensures r.Trashed? && '\n' !in date ==> Filed(original, attempts, infoPath, date)
      ensures r.Collision? ==>
        ourData == map[] && ourInfo == map[] && strays == old(strays)
        && forall a: nat :: a < 10_000 ==> Taken(CollisionFreeName(original, a))
      // Undisturbed, the first name that is free is taken.
      ensures old(Calm()) && r.Trashed? ==>
        && !old(Taken(CollisionFreeName(original, attempts)))
        && forall a: nat :: a < attempts ==> old(Taken(CollisionFreeName(original, a)))
      ensures old(Calm()) ==> !r.Failed?
      ensures Quiet() ==> forall a: nat :: a < attempts ==> old(Taken(CollisionFreeName(original, a)))
      ensures Quiet() && !r.Collision? ==> EndsQuietly(r, CollisionFreeName(original, attempts), old(source))
      // An entry without an info file is left exactly when what was renamed is no
      // regular file.
      ensures Quiet() ==>
        (ourData != map[] && ourInfo == map[] <==>
          (old(source).Some? && !old(source).value.regular
           && exists a: nat :: a < MAX_NAME_ATTEMPTS && !old(Taken(CollisionFreeName(original, a)))))
      ensures Quiet() ==> foreignData == old(foreignData) && foreignInfo == old(foreignInfo)
    {
      attempts := 0;
      for attempt: nat := 0 to MAX_NAME_ATTEMPTS
        invariant Valid() && ourData == map[] && ourInfo == map[] && strays == old(strays)
        invariant Extends(old(foreignData), foreignData) && Extends(old(foreignInfo), foreignInfo)
        invariant forall a: nat :: a < attempt ==> Taken(CollisionFreeName(original, a))
        invariant Quiet() ==> source == old(source) && foreignData == old(foreignData) && foreignInfo == old(foreignInfo)
      {
        var failed := Fails(); // A directory could not be opened.
        if failed { return Failed, attempt; }
        r := Attempt(CollisionFreeName(original, attempt), InfoText(infoPath, date));
        if !r.Collision? {
          AttemptNames(original, attempt);
          if '\n' !in date { InfoReadsBack(infoPath, date); }
          return r, attempt;
        }
      }
      return Collision, MAX_NAME_ATTEMPTS;
    }

    /** Read from outside: the retained inode under the name of this attempt, and beside
        it an info file that gives back the path and the date. */
    ghost predicate Filed(original: string, attempt: nat, infoPath: seq<Byte>, date: string)
      reads this
    {
      exists name :: IsAttemptName(name, original, attempt)
        && ourData == map[name := Node(retained, true)]
        && ourInfo.Keys == {name + ".trashinfo"} && ourInfo[name + ".trashinfo"] in texts
        && ReadInfo(texts[ourInfo[name + ".trashinfo"]]) == Some((infoPath, date))
    }

    ghost predicate Taken(name: string)
      reads this
    {
      name in foreignData || InfoName(name) in foreignInfo
    }
  }

  /** What takes the source's name after the caller looked, and is no regular file,
      ends up in the trash without an info file. */
  method IrregularEntryIsOrphaned(retained: nat, node: Node, original: string, infoPath: seq<Byte>, date: string)
    returns (data: map<string, Node>, info: map<string, nat>, source: Option<Node>)
    requires !node.regular
    ensures data == map[original := node] && info == map[] && source.None?
  {
    var trash := new Directories(retained, Some(node), map[], map[], map[], false, false, node);
    assert !trash.Taken(CollisionFreeName(original, 0));
    var r;
    ghost var attempts;
    r, attempts := trash.TrashRegularFile(original, infoPath, date);
    data, info, source := trash.data, trash.info, trash.source;
  }
}
