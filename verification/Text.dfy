/** Splitting, decimal numbers and hexadecimal bytes: the text primitives the
    recovery journal and the trash info file are written with. */
module Text {
  import opened Wrappers

  type Byte = x: int | 0 <= x < 256

  // ---- Splitting on a separator ----

  function Split<T(==)>(s: seq<T>, sep: T): (parts: seq<seq<T>>)
    ensures |parts| >= 1
  {
    if s == [] then [[]]
    else
      var rest := Split(s[1..], sep);
      if s[0] == sep then [[]] + rest
      else [[s[0]] + rest[0]] + rest[1..]
  }

  function Join<T>(parts: seq<seq<T>>, sep: T): seq<T>
    requires |parts| >= 1
  {
    if |parts| == 1 then parts[0] else parts[0] + [sep] + Join(parts[1..], sep)
  }

  /** A separator-free head in front of a separator becomes the first part. */
  lemma {:induction false} SplitHead<T>(head: seq<T>, sep: T, tail: seq<T>)
    requires sep !in head
    ensures Split(head + [sep] + tail, sep) == [head] + Split(tail, sep)
  {
    var s := head + [sep] + tail;
    if head == [] {
      assert s[1..] == tail;
    } else {
      SplitHead(head[1..], sep, tail);
      assert s[1..] == head[1..] + [sep] + tail;
      assert [head[0]] + head[1..] == head;
    }
  }

  lemma {:induction false} SplitWithoutSeparator<T>(s: seq<T>, sep: T)
    requires sep !in s
    ensures Split(s, sep) == [s]
  {
    if s != [] {
      SplitWithoutSeparator(s[1..], sep);
      assert s == [s[0]] + s[1..];
    }
  }

  /** Splitting inverts joining when no part contains the separator. */
  lemma {:induction false} SplitJoin<T>(parts: seq<seq<T>>, sep: T)
    requires |parts| >= 1
    requires forall i :: 0 <= i < |parts| ==> sep !in parts[i]
    ensures Split(Join(parts, sep), sep) == parts
  {
    if |parts| == 1 {
      SplitWithoutSeparator(parts[0], sep);
    } else {
      SplitJoin(parts[1..], sep);
      SplitHead(parts[0], sep, Join(parts[1..], sep));
    }
  }

  lemma {:induction false} SplitPartsLackSeparator<T>(s: seq<T>, sep: T)
    ensures forall i :: 0 <= i < |Split(s, sep)| ==> sep !in Split(s, sep)[i]
  {
    if s != [] {
      SplitPartsLackSeparator(s[1..], sep);
    }
  }

  // ---- Decimal numbers ----

  predicate IsDigit(c: char) { '0' <= c <= '9' }

  predicate AllDigits(s: string) { forall i :: 0 <= i < |s| ==> IsDigit(s[i]) }

  function DigitChar(d: nat): (c: char)
    requires d < 10
    ensures IsDigit(c) && c as int - '0' as int == d
  {
    ('0' as int + d) as char
  }

  function Dec(n: nat): (s: string)
    ensures |s| > 0 && AllDigits(s)
  {
    if n < 10 then [DigitChar(n)] else Dec(n / 10) + [DigitChar(n % 10)]
  }

  function Value(s: string): nat
    requires AllDigits(s)
  {
    if s == [] then 0 else 10 * Value(s[..|s| - 1]) + (s[|s| - 1] as int - '0' as int)
  }

  lemma {:induction false} DecValue(n: nat)
    ensures Value(Dec(n)) == n
  {
    if n < 10 {
      assert Dec(n)[..0] == [];
    } else {
      DecValue(n / 10);
      var s := Dec(n);
      assert s[..|s| - 1] == Dec(n / 10);
    }
  }

  lemma DecInjective(m: nat, n: nat)
    requires Dec(m) == Dec(n)
    ensures m == n
  {
    DecValue(m);
    DecValue(n);
  }

  /** Unsigned parsing: one leading plus sign is accepted, an empty or
      non-digit body and a value above the limit are rejected. */
  function ParseUnsigned(s: string, limit: nat): Option<nat> {
    var body := if s != [] && s[0] == '+' then s[1..] else s;
    if body == [] || !AllDigits(body) || Value(body) > limit then None else Some(Value(body))
  }

  lemma ParseDec(n: nat, limit: nat)
    ensures ParseUnsigned(Dec(n), limit) == if n <= limit then Some(n) else None
  {
    DecValue(n);
    assert IsDigit(Dec(n)[0]);
  }

  // ---- Hexadecimal bytes ----

  function HexDigit(d: nat): (c: char)
    requires d < 16
  {
    if d < 10 then DigitChar(d) else ('a' as int + (d - 10)) as char
  }

  function HexDigitUpper(d: nat): (c: char)
    requires d < 16
  {
    if d < 10 then DigitChar(d) else ('A' as int + (d - 10)) as char
  }

  function HexValue(c: char): Option<nat> {
    if '0' <= c <= '9' then Some(c as int - '0' as int)
    else if 'a' <= c <= 'f' then Some(c as int - 'a' as int + 10)
    else if 'A' <= c <= 'F' then Some(c as int - 'A' as int + 10)
    else None
  }

  function HexEncode(bytes: seq<Byte>): string {
    if bytes == [] then "" else [HexDigit(bytes[0] / 16), HexDigit(bytes[0] % 16)] + HexEncode(bytes[1..])
  }

  function HexDecode(s: string): Option<seq<Byte>> {
    if s == [] then Some([])
    else if |s| == 1 then None
    else
      match (HexValue(s[0]), HexValue(s[1]), HexDecode(s[2..]))
      case (Some(hi), Some(lo), Some(rest)) =>
        var b: int := hi * 16 + lo;
        if b < 256 then Some([b] + rest) else None
      case _ => None
  }

  /** Decoding inverts encoding for every byte string, and the encoding has
      neither tabs nor line breaks, so it survives as one journal field. */
  lemma {:induction false} HexRoundTrip(bytes: seq<Byte>)
    ensures HexDecode(HexEncode(bytes)) == Some(bytes)
    ensures '\t' !in HexEncode(bytes) && '\n' !in HexEncode(bytes) && '\r' !in HexEncode(bytes)
  {
    if bytes != [] {
      HexRoundTrip(bytes[1..]);
      assert HexEncode(bytes)[2..] == HexEncode(bytes[1..]);
      assert bytes == [bytes[0]] + bytes[1..];
    }
  }
}
