/** The C and GLib string routines the runtime leans on, over `string` values.
    C strings are modelled without their terminating NUL. */
module CLib {

  datatype Option<+T> = None | Some(value: T)

  function OrEmpty(text: Option<string>): string {
    match text case Some(s) => s case None => ""
  }

  /** What printf prints for "%s", NULL included. */
  function Printed(text: Option<string>): string {
    match text case Some(s) => s case None => "(null)"
  }

  // ----- searching (g_strstr_len with a length of -1) -----

  predicate MatchAt(s: string, needle: string, i: int) {
    0 <= i <= |s| - |needle| && s[i..i + |needle|] == needle
  }

  /** The first occurrence of `needle` at or after `from`. */
  function FindFrom(s: string, needle: string, from: nat): (r: Option<nat>)
    ensures r.Some? ==> from <= r.value && MatchAt(s, needle, r.value)
    ensures r.Some? ==> forall j :: from <= j < r.value ==> !MatchAt(s, needle, j)
    ensures r.None? ==> forall j :: from <= j ==> !MatchAt(s, needle, j)
    decreases |s| - from
  {
    if from > |s| then None
    else if MatchAt(s, needle, from) then Some(from)
    else FindFrom(s, needle, from + 1)
  }

  function Find(s: string, needle: string): (r: Option<nat>)
    ensures r.Some? ==> r.value + |needle| <= |s|
  {
    FindFrom(s, needle, 0)
  }

  // ----- g_strsplit on one character, and g_strjoinv -----

  /** All fields of `s`, which are one more than its separators. */
  function Split(s: string, sep: char): (r: seq<string>)
    ensures |r| >= 1
  {
    if s == [] then [""]
    else if s[0] == sep then [""] + Split(s[1..], sep)
    else var rest := Split(s[1..], sep); [[s[0]] + rest[0]] + rest[1..]
  }

  function Join(fields: seq<string>, sep: char): string {
    if fields == [] then ""
    else if |fields| == 1 then fields[0]
    else fields[0] + [sep] + Join(fields[1..], sep)
  }

  /** Splitting undoes joining when no field holds the separator. */
  lemma {:induction false} SplitJoin(fields: seq<string>, sep: char)
    requires fields != []
    requires forall i :: 0 <= i < |fields| ==> sep !in fields[i]
    ensures Split(Join(fields, sep), sep) == fields
  {
    if |fields| == 1 {
      SplitPrefix(fields[0], "", sep);
      assert fields[0] + "" == fields[0];
    } else {
      var rest := Join(fields[1..], sep);
      SplitJoin(fields[1..], sep);
      SplitPrefix(fields[0], [sep] + rest, sep);
      assert Join(fields, sep) == fields[0] + ([sep] + rest);
      assert ([sep] + rest)[1..] == rest;
      assert Split([sep] + rest, sep) == [""] + fields[1..];
      assert fields[0] + "" == fields[0];
    }
  }

  /** Text without the separator only lengthens the first field. */
  lemma {:induction false} SplitPrefix(head: string, tail: string, sep: char)
    requires sep !in head
    ensures Split(head + tail, sep) == [head + Split(tail, sep)[0]] + Split(tail, sep)[1..]
  {
    if head == [] {
      assert head + tail == tail;
      assert head + Split(tail, sep)[0] == Split(tail, sep)[0];
    } else {
      assert (head + tail)[1..] == head[1..] + tail;
      SplitPrefix(head[1..], tail, sep);
      var t := Split(tail, sep);
      assert [head[0]] + (head[1..] + t[0]) == head + t[0];
      assert Split(head[1..] + tail, sep)[1..] == t[1..];
    }
  }

  // ----- decimal numbers -----

  predicate IsDigit(c: char) { '0' <= c <= '9' }

  predicate AllDigits(s: string) { forall i :: 0 <= i < |s| ==> IsDigit(s[i]) }

  function DigitValue(c: char): (v: nat)
    requires IsDigit(c)
    ensures v < 10
  { c as int - '0' as int }

  function DigitChar(d: nat): (c: char)
    requires d < 10
    ensures IsDigit(c) && DigitValue(c) == d
  { ('0' as int + d) as char }

  function DigitsValue(s: string): nat
    requires AllDigits(s)
  {
    if s == [] then 0 else 10 * DigitsValue(s[..|s| - 1]) + DigitValue(s[|s| - 1])
  }

  /** What printf prints for an unsigned decimal. */
  function Decimal(n: nat): (s: string)
    ensures s != [] && AllDigits(s) && DigitsValue(s) == n
    ensures |s| > 1 ==> s[0] != '0'
  {
    if n < 10 then [DigitChar(n)]
    else
      var front := Decimal(n / 10);
      var s := front + [DigitChar(n % 10)];
      assert s[..|s| - 1] == front;
      assert n / 10 >= 1;
      s
  }

  function SignedDecimal(n: int): string {
    if n < 0 then "-" + Decimal(-n) else Decimal(n)
  }

  // ----- strtoll, atol, atoi -----

  const LONG_MAX := 0x7FFF_FFFF_FFFF_FFFF
  const LONG_MIN := -0x8000_0000_0000_0000

  predicate IsSpace(c: char) { c == ' ' || '\t' as int <= c as int <= '\r' as int }

  function SkipSpaces(s: string): nat
  {
    if s != [] && IsSpace(s[0]) then 1 + SkipSpaces(s[1..]) else 0
  }

  function DigitRun(s: string): (n: nat)
    ensures n <= |s| && AllDigits(s[..n])
    ensures n < |s| ==> !IsDigit(s[n])
  {
    if s != [] && IsDigit(s[0]) then 1 + DigitRun(s[1..]) else 0
  }

  function Saturate(n: int): int {
    if n > LONG_MAX then LONG_MAX else if n < LONG_MIN then LONG_MIN else n
  }

  /** strtoll: None when no number starts the text (the end is the
      start), otherwise the number, saturated at the limits of 64 bits. */
  function StrToLL(s: string): Option<int>
  {
    var t := Drop(s, SkipSpaces(s));
    var negative := t != [] && t[0] == '-';
    ParseDigits(if negative || (t != [] && t[0] == '+') then t[1..] else t, negative)
  }

  function ParseDigits(u: string, negative: bool): Option<int> {
    var n := DigitRun(u);
    if n == 0 then None
    else Some(Saturate(if negative then 0 - DigitsValue(u[..n]) else DigitsValue(u[..n])))
  }

  function Drop(s: string, n: nat): string { if n <= |s| then s[n..] else "" }

  /** atol: the number at the start of the text, 0 when there is none. */
  function Atol(s: string): int {
    match StrToLL(s) case Some(n) => n case None => 0
  }

  /** A conversion to a 32-bit signed int, which wraps around. */
  function ToInt32(n: int): (r: int)
    ensures -0x8000_0000 <= r < 0x8000_0000 && (r - n) % 0x1_0000_0000 == 0
  {
    (n + 0x8000_0000) % 0x1_0000_0000 - 0x8000_0000
  }

  function Atoi(s: string): int { ToInt32(Atol(s)) }

  lemma {:induction false} DigitRunStops(digits: string, rest: string)
    requires AllDigits(digits) && (rest != [] ==> !IsDigit(rest[0]))
    ensures DigitRun(digits + rest) == |digits|
  {
    if digits != [] {
      assert (digits + rest)[1..] == digits[1..] + rest;
      DigitRunStops(digits[1..], rest);
    }
  }

  lemma ParsePrinted(n: nat, rest: string, negative: bool)
    requires rest != [] ==> !IsDigit(rest[0])
    ensures ParseDigits(Decimal(n) + rest, negative) == Some(Saturate(if negative then 0 - n else n))
  {
    DigitRunStops(Decimal(n), rest);
    assert (Decimal(n) + rest)[..|Decimal(n)|] == Decimal(n);
  }

  lemma ReadUnsigned(u: string, n: nat, rest: string)
    requires u == Decimal(n) + rest
    requires rest != [] ==> !IsDigit(rest[0])
    ensures StrToLL(u) == Some(Saturate(n)) && StrToLL("-" + u) == Some(Saturate(0 - n))
  {
    ParsePrinted(n, rest, false);
    ParsePrinted(n, rest, true);
    assert IsDigit(Decimal(n)[0]);
    assert SkipSpaces(u) == 0;
    assert Drop(u, 0) == u;
    var s := "-" + u;
    assert SkipSpaces(s) == 0;
    assert Drop(s, 0) == s && s[1..] == u;
  }

  /** A printed number reads back, whatever text follows it. */
  lemma ReadBack(n: int, rest: string)
    requires LONG_MIN <= n <= LONG_MAX
    requires rest != [] ==> !IsDigit(rest[0])
    ensures StrToLL(SignedDecimal(n) + rest) == Some(n)
  {
    var m := if n < 0 then -n else n;
    hide DigitsValue, Decimal, StrToLL, DigitRun;
    ReadUnsigned(Decimal(m) + rest, m, rest);
    assert n < 0 ==> SignedDecimal(n) + rest == "-" + (Decimal(m) + rest);
  }

  lemma AtoiPrinted(n: int)
    requires LONG_MIN <= n <= LONG_MAX
    ensures StrToLL(SignedDecimal(n)) == Some(n) && Atoi(SignedDecimal(n)) == ToInt32(n)
  {
    assert SignedDecimal(n) + "" == SignedDecimal(n);
    ReadBack(n, "");
  }
}
