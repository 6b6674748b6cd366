/** The textual form of a random UUID, written into a fixed buffer. */
module Uuid {
  newtype Byte = b: int | 0 <= b < 256

  /** The length of a UUID's text with its terminator. */
  const UUID_MAX := 37
  const NUL := '\0'
  const PATTERN := "00000000-0000-0000-0000-000000000000" + [NUL]
  const HEX := "0123456789abcdef"

  /** What "%02x" prints for one byte. */
  function HexByte(b: Byte): (s: string)
    ensures |s| == 2
  {
    [HEX[b as int / 16], HEX[b as int % 16]]
  }

  function HexAll(bytes: seq<Byte>): string {
    if bytes == [] then "" else HexAll(bytes[..|bytes| - 1]) + HexByte(bytes[|bytes| - 1])
  }

  /** The text after the first `i` bytes: a hyphen follows bytes 4, 6, 8 and 10. */
  function TextUpTo(bytes: seq<Byte>, i: nat): (s: string)
    requires i <= |bytes|
    ensures |s| == 2 * i + Hyphens(i)
  {
    if i == 0 then ""
    else TextUpTo(bytes, i - 1) + HexByte(bytes[i - 1]) + if Hyphenated(i) then "-" else ""
  }

  predicate Hyphenated(i: nat) { i == 4 || i == 6 || i == 8 || i == 10 }

  function Hyphens(i: nat): nat {
    if i < 4 then 0 else if i < 6 then 1 else if i < 8 then 2 else if i < 10 then 3 else 4
  }

  /** Section 3 of RFC 4122: five groups of 4, 2, 2, 2 and 6 bytes in lower-case hex. */
  function RfcText(bytes: seq<Byte>): string
    requires |bytes| == 16
  {
    HexAll(bytes[0..4]) + "-" + HexAll(bytes[4..6]) + "-" + HexAll(bytes[6..8]) + "-"
    + HexAll(bytes[8..10]) + "-" + HexAll(bytes[10..16])
  }

  // ----- the loop -----

  /** g_snprintf into `size` bytes of the buffer: returns the full length, but
      writes no more than fits with its terminator. */
  method Snprintf(buffer: array<char>, at: nat, size: nat, text: string) returns (length: nat)
    requires 0 < size && at + size <= buffer.Length
    modifies buffer
    ensures length == |text|
    ensures var n := if |text| < size then |text| else size - 1;
      buffer[..] == old(buffer[..at]) + text[..n] + [NUL] + old(buffer[at + n + 1..])
  {
    var n := if |text| < size then |text| else size - 1;
    forall i | 0 <= i < n {
      buffer[at + i] := text[i];
    }
    buffer[at + n] := NUL;
    length := |text|;
  }

  /** One turn of the loop: the digits of a byte, and a hyphen where the pattern has one. */
  method PutByte(buffer: array<char>, at: nat, b: Byte) returns (index: nat)
    requires buffer.Length == UUID_MAX == |PATTERN| && at + 2 < UUID_MAX
    requires PATTERN[at + 2] == '-' ==> at + 3 < UUID_MAX
    modifies buffer
    ensures var text := HexByte(b) + if PATTERN[at + 2] == '-' then "-" else "";
      && index == at + |text|
      && buffer[..index] == old(buffer[..at]) + text && buffer[index] == NUL
  {
    hide PATTERN;
    var length := Snprintf(buffer, at, UUID_MAX - at, HexByte(b));
    assert buffer[..at + 2] == old(buffer[..at]) + HexByte(b);
    index := at + length;
    if PATTERN[index] == '-' {
      length := Snprintf(buffer, index, UUID_MAX - index, "-");
      assert buffer[..index + 1] == old(buffer[..at]) + HexByte(b) + "-";
      index := index + length;
    }
  }

  /** Index and buffer never leave their bounds; the text ends at exactly 36. */
  method Format(uuid: seq<Byte>) returns (buffer: array<char>, index: nat)
    requires |uuid| == 16
    ensures fresh(buffer) && buffer.Length == UUID_MAX && index == 36
    ensures buffer[..36] == RfcText(uuid) && buffer[36] == NUL
  {
    hide HexAll, HexByte, RfcText, PATTERN;
    buffer := new char[UUID_MAX](_ => NUL);
    index := 0;
    var i := 0;
    while i < 16 && index < UUID_MAX
      invariant 0 <= i <= 16 && index == 2 * i + Hyphens(i)
      invariant buffer[..index] == TextUpTo(uuid, i)
      invariant buffer[index] == NUL
    {
      HyphenPlace(i + 1);
      index := PutByte(buffer, index, uuid[i]);
      i := i + 1;
    }
    TextIsRfc(uuid);
  }

  /** The pattern is 37 characters long and has its hyphens where the text needs them. */
  lemma HyphenPlace(i: nat)
    requires 0 < i <= 16
    ensures |PATTERN| == UUID_MAX
    ensures PATTERN[2 * (i - 1) + Hyphens(i - 1) + 2] == '-' <==> Hyphenated(i)
  {
    var groups := "00000000" + "-0000" + "-0000" + "-0000" + "-000000000000" + [NUL];
    assert PATTERN == groups;
  }

  /** From byte `from` to byte `to` no hyphen falls between. */
  lemma {:induction false} TextGroup(bytes: seq<Byte>, from: nat, to: nat)
    requires from <= to <= |bytes|
    requires forall i :: from < i <= to ==> !Hyphenated(i)
    ensures TextUpTo(bytes, to) == TextUpTo(bytes, from) + HexAll(bytes[from..to])
  {
    if from < to {
      TextGroup(bytes, from, to - 1);
      HexSnoc(bytes, from, to);
    } else {
      assert TextUpTo(bytes, from) + "" == TextUpTo(bytes, from);
    }
  }

  lemma HexSnoc(bytes: seq<Byte>, from: nat, to: nat)
    requires from < to <= |bytes|
    ensures HexAll(bytes[from..to]) == HexAll(bytes[from..to - 1]) + HexByte(bytes[to - 1])
  {
    assert bytes[from..to][..to - from - 1] == bytes[from..to - 1];
  }

  /** A group that ends in a hyphen. */
  lemma HyphenGroup(bytes: seq<Byte>, from: nat, to: nat)
    requires from < to <= |bytes| && Hyphenated(to)
    requires forall i :: from < i < to ==> !Hyphenated(i)
    ensures TextUpTo(bytes, to) == TextUpTo(bytes, from) + HexAll(bytes[from..to]) + "-"
  {
    TextGroup(bytes, from, to - 1);
    HexSnoc(bytes, from, to);
  }

  lemma TextIsRfc(bytes: seq<Byte>)
    requires |bytes| == 16
    ensures TextUpTo(bytes, 16) == RfcText(bytes)
  {
    assert TextUpTo(bytes, 0) == "";
    hide HexAll, TextUpTo;
    HyphenGroup(bytes, 0, 4);
    HyphenGroup(bytes, 4, 6);
    HyphenGroup(bytes, 6, 8);
    HyphenGroup(bytes, 8, 10);
    TextGroup(bytes, 10, 16);
    assert "" + HexAll(bytes[0..4]) == HexAll(bytes[0..4]);
    assert TextUpTo(bytes, 4) == HexAll(bytes[0..4]) + "-";
  }

  // ----- what the text says -----

  function HexDigit(c: char): (v: int) {
    if '0' <= c <= '9' then c as int - '0' as int else c as int - 'a' as int + 10
  }

  /** Reads the digits back, two to a byte, passing over hyphens. */
  function Decode(s: string): seq<int> {
    if |s| < 2 then []
    else if s[0] == '-' then Decode(s[1..])
    else [HexDigit(s[0]) * 16 + HexDigit(s[1])] + Decode(s[2..])
  }

  lemma HexByteDigits(b: Byte)
    ensures HexDigit(HexByte(b)[0]) * 16 + HexDigit(HexByte(b)[1]) == b as int
    ensures HexByte(b)[0] != '-' && HexByte(b)[1] != '-'
  {
    HexDigitOf(b as int / 16);
    HexDigitOf(b as int % 16);
  }

  lemma HexDigitOf(v: nat)
    requires v < 16
    ensures HexDigit(HEX[v]) == v
  {
  }

  function Ints(bytes: seq<Byte>): seq<int> {
    seq(|bytes|, i requires 0 <= i < |bytes| => bytes[i] as int)
  }

  lemma {:induction false} HexAllDigits(bytes: seq<Byte>)
    ensures |HexAll(bytes)| == 2 * |bytes| && '-' !in HexAll(bytes)
  {
    if bytes != [] {
      HexAllDigits(bytes[..|bytes| - 1]);
      HexByteDigits(bytes[|bytes| - 1]);
    }
  }

  lemma DecodeByte(b: Byte, tail: string)
    ensures Decode(HexByte(b) + tail) == [b as int] + Decode(tail)
  {
    HexByteDigits(b);
    DecodePair(HexByte(b), tail);
    hide Decode, HexDigit, HexByte;
  }

  lemma DecodePair(pair: string, tail: string)
    requires |pair| == 2 && pair[0] != '-'
    ensures Decode(pair + tail) == [HexDigit(pair[0]) * 16 + HexDigit(pair[1])] + Decode(tail)
  {
    hide HexDigit;
    assert (pair + tail)[2..] == tail;
  }

  lemma {:induction false} DecodeGroup(bytes: seq<Byte>, tail: string)
    ensures Decode(HexAll(bytes) + tail) == Ints(bytes) + Decode(tail)
  {
    hide Decode, HexByte;
    if bytes == [] {
      assert HexAll(bytes) + tail == tail;
      assert Ints(bytes) + Decode(tail) == Decode(tail);
    } else {
      var n := |bytes| - 1;
      var last := HexByte(bytes[n]);
      assert HexAll(bytes) + tail == HexAll(bytes[..n]) + (last + tail);
      hide HexAll;
      DecodeByte(bytes[n], tail);
      DecodeGroup(bytes[..n], last + tail);
      assert Ints(bytes) == Ints(bytes[..n]) + [bytes[n] as int];
      assert Ints(bytes[..n]) + ([bytes[n] as int] + Decode(tail)) == Ints(bytes) + Decode(tail);
    }
  }

  /** Hyphens at 8, 13, 18 and 23 and nowhere else; the digits give the bytes back. */
  lemma RfcTextDecodes(bytes: seq<Byte>)
    requires |bytes| == 16
    ensures var s := RfcText(bytes);
      && |s| == 36 && Decode(s) == Ints(bytes)
      && forall i :: 0 <= i < 36 ==> (s[i] == '-' <==> i in {8, 13, 18, 23})
  {
    HexAllDigits(bytes[0..4]);
    HexAllDigits(bytes[4..6]);
    HexAllDigits(bytes[6..8]);
    HexAllDigits(bytes[8..10]);
    HexAllDigits(bytes[10..16]);
    DecodeGroups(bytes);
    hide HexAll, Decode, Ints;
  }

  /** A group with a hyphen after it, then more text. */
  lemma DecodeGroupHyphen(bytes: seq<Byte>, tail: string)
    requires |tail| >= 1
    ensures Decode(HexAll(bytes) + ("-" + tail)) == Ints(bytes) + Decode(tail)
  {
    DecodeGroup(bytes, "-" + tail);
    assert ("-" + tail)[1..] == tail;
  }

  lemma DecodeGroups(bytes: seq<Byte>)
    requires |bytes| == 16
    ensures Decode(RfcText(bytes)) == Ints(bytes)
  {
    var a, b, c, d, e := bytes[0..4], bytes[4..6], bytes[6..8], bytes[8..10], bytes[10..16];
    HexAllDigits(b);
    HexAllDigits(e);
    DecodeNothing();
    hide HexAll, Decode;
    var t4 := HexAll(e);
    var t3 := HexAll(d) + ("-" + t4);
    var t2 := HexAll(c) + ("-" + t3);
    var t1 := HexAll(b) + ("-" + t2);
    assert RfcText(bytes) == HexAll(a) + ("-" + t1);
    DecodeGroup(e, "");
    assert t4 + "" == t4 && Ints(e) + [] == Ints(e);
    DecodeGroupHyphen(d, t4);
    DecodeGroupHyphen(c, t3);
    DecodeGroupHyphen(b, t2);
    DecodeGroupHyphen(a, t1);
    IntsSplit(bytes);
  }

  lemma IntsSplit(bytes: seq<Byte>)
    requires |bytes| == 16
    ensures Ints(bytes)
         == Ints(bytes[0..4]) + (Ints(bytes[4..6]) + (Ints(bytes[6..8]) + (Ints(bytes[8..10]) + Ints(bytes[10..16]))))
  {
  }

  lemma DecodeNothing()
    ensures Decode("") == []
  {
  }

  // ----- the name -----

  /** What follows the last '-' (g_strrstr and one step on). */
  function AfterLastHyphen(s: string): string {
    if s == [] then ""
    else if s[|s| - 1] == '-' then ""
    else AfterLastHyphen(s[..|s| - 1]) + [s[|s| - 1]]
  }

  lemma {:induction false} AfterLast(head: string, tail: string)
    requires '-' !in tail
    ensures AfterLastHyphen(head + "-" + tail) == tail
  {
    var s := head + "-" + tail;
    if tail == [] {
      assert s[|s| - 1] == '-';
    } else {
      AfterLast(head, tail[..|tail| - 1]);
      assert s[..|s| - 1] == head + "-" + tail[..|tail| - 1];
    }
  }

  /** The value of @NAME@ is exactly the last twelve digits. */
  lemma NameIsLastTwelve(bytes: seq<Byte>)
    requires |bytes| == 16
    ensures |RfcText(bytes)| == 36 && AfterLastHyphen(RfcText(bytes)) == RfcText(bytes)[24..]
  {
    HexAllDigits(bytes[10..16]);
    RfcTextDecodes(bytes);
    var head :=
      HexAll(bytes[0..4]) + "-" + HexAll(bytes[4..6]) + "-" + HexAll(bytes[6..8]) + "-" + HexAll(bytes[8..10]);
    AfterLast(head, HexAll(bytes[10..16]));
    assert RfcText(bytes) == head + "-" + HexAll(bytes[10..16]);
    assert |HexAll(bytes[10..16])| == 12;
    hide HexAll, Decode;
  }
}
