/** Comparing version strings: the code's steps, from the split of a version into
    fields down to the comparison of two pre-release identifiers. */
module Semver {
  import opened CLib

  const NUL := '\0'

  // ----- library calls -----

  /** g_strsplit with a limit: the last field keeps the rest of the text. */
  function SplitMax(s: string, sep: char, max: nat): (r: seq<string>)
    requires max > 0
    ensures 1 <= |r| <= max
    decreases |s|
  {
    if max == 1 || s == [] then [s]
    else if s[0] == sep then [""] + SplitMax(s[1..], sep, max - 1)
    else var rest := SplitMax(s[1..], sep, max); [[s[0]] + rest[0]] + rest[1..]
  }

  /** g_strsplit without a limit: an empty text has no fields at all. */
  function SplitAll(s: string, sep: char): seq<string> {
    if s == "" then [] else Split(s, sep)
  }

  /** strcmp: the difference of the first characters that differ. */
  function StrCmp(a: string, b: string): int {
    if a == "" && b == "" then 0
    else if a == "" then -1
    else if b == "" then 1
    else if a[0] != b[0] then a[0] as int - b[0] as int
    else StrCmp(a[1..], b[1..])
  }

  /** The index of the first `c`, or the length of the text. */
  function IndexOf(s: string, c: char): (i: nat)
    ensures i <= |s|
  {
    if s == [] || s[0] == c then 0 else 1 + IndexOf(s[1..], c)
  }

  lemma {:induction false} IndexOfFirst(s: string, c: char)
    ensures var i := IndexOf(s, c); c !in s[..i] && (i < |s| ==> s[i] == c)
  {
    if s != [] && s[0] != c {
      IndexOfFirst(s[1..], c);
      var i := IndexOf(s[1..], c);
      assert s[..i + 1] == [s[0]] + s[1..][..i];
    }
  }

  /** The C string that starts at an index of a buffer. */
  function CStr(cells: seq<char>, at: nat): string
    requires at <= |cells|
  {
    cells[at..][..IndexOf(cells[at..], NUL)]
  }

  // ----- pre-releases -----

  function CmpIdent(a: string, b: string): int {
    if AllDigits(a) && AllDigits(b) then ToInt32(Atol(a) - Atol(b)) else StrCmp(a, b)
  }

  /** From field `i` on: the first difference decides, then the number of fields. */
  function CmpIdents(a: seq<string>, b: seq<string>, i: nat): int
    decreases |a| - i
  {
    if i >= |a| && i >= |b| then 0
    else if i >= |b| then 1
    else if i >= |a| then -1
    else if CmpIdent(a[i], b[i]) != 0 then CmpIdent(a[i], b[i])
    else CmpIdents(a, b, i + 1)
  }

  method IsNumeric(str: Option<string>) returns (numeric: bool)
    ensures numeric <==> str.Some? && AllDigits(str.value)
  {
    if str.None? {
      return false;
    }
    var p := 0;
    while p < |str.value|
      invariant 0 <= p <= |str.value| && AllDigits(str.value[..p])
    {
      if !IsDigit(str.value[p]) {
        return false;
      }
      p := p + 1;
    }
    return true;
  }

  method CmpPreReleases(a: string, b: string) returns (ret: int)
    ensures ret == CmpIdents(SplitAll(a, '.'), SplitAll(b, '.'), 0)
  {
    var fieldsA, fieldsB := SplitAll(a, '.'), SplitAll(b, '.');
    ret := 0;
    var i := 0;
    while true
      invariant 0 <= i <= |fieldsA| && i <= |fieldsB|
      invariant CmpIdents(fieldsA, fieldsB, i) == CmpIdents(fieldsA, fieldsB, 0)
      decreases |fieldsA| - i
    {
      var fa := if i < |fieldsA| then Some(fieldsA[i]) else None;
      var fb := if i < |fieldsB| then Some(fieldsB[i]) else None;
      if fa.Some? && fb.None? {
        return 1;
      } else if fa.None? && fb.Some? {
        return -1;
      } else if fa.None? && fb.None? {
        return 0;
      }
      var numericA := IsNumeric(fa);
      var numericB := IsNumeric(fb);
      if numericA && numericB {
        ret := ToInt32(Atol(fa.value) - Atol(fb.value));
      } else {
        ret := StrCmp(fa.value, fb.value);
      }
      if ret != 0 {
        return;
      }
      i := i + 1;
    }
  }

  // ----- the patch field -----

  function Least(a: nat, b: nat): nat { if a < b then a else b }

  /** The patch number is what comes before the first '-' or '+'. */
  function PatchNumber(patch: string): int {
    Atoi(patch[..Least(IndexOf(patch, '-'), IndexOf(patch, '+'))])
  }

  /** The pre-release runs from the first '-' to the first '+' after it, or to the
      end; so without a pre-release, a '-' in the build metadata begins one. */
  function PreRelease(patch: string): Option<string> {
    var dash, plus := IndexOf(patch, '-'), IndexOf(patch, '+');
    if dash == |patch| then None
    else Some(patch[dash + 1..if plus > dash then plus else |patch|])
  }

  /** The buffer after NULs are written over the first '-' and the first '+'. */
  function Cut(patch: string): seq<char> {
    var dash, plus := IndexOf(patch, '-'), IndexOf(patch, '+');
    var cells := patch + [NUL];
    var once := cells[dash := NUL];
    once[plus := NUL]
  }

  /** Cuts the text in the buffer by writing NULs into it. The results are indices. */
  method SplitPatchVersion(patchVersion: array<char>, ghost patch: string)
    returns (patchNum: int, preRelease: Option<nat>, buildMetadata: Option<nat>)
    requires patchVersion[..] == patch + [NUL] && NUL !in patch
    modifies patchVersion
    ensures patchNum == PatchNumber(patch)
    ensures preRelease.Some? <==> PreRelease(patch).Some?
    ensures preRelease.Some? ==>
      preRelease.value <= patchVersion.Length && CStr(patchVersion[..], preRelease.value) == PreRelease(patch).value
  {
    var text := patchVersion[..patchVersion.Length - 1];
    assert text == patch;
    var plus, dash := IndexOf(text, '+'), IndexOf(text, '-');
    preRelease, buildMetadata := None, None;
    if dash < |text| {
      patchVersion[dash] := NUL;
      preRelease := Some(dash + 1);
    }
    if plus < |text| {
      patchVersion[plus] := NUL;
      buildMetadata := Some(plus + 1);
    }
    assert patchVersion[..] == Cut(patch);
    hide Cut, CStr, IndexOf;
    CutStrings(patch);
    patchNum := Atoi(CStr(patchVersion[..], 0));
  }

  lemma CutAt(patch: string)
    ensures var dash, plus := IndexOf(patch, '-'), IndexOf(patch, '+');
      && |Cut(patch)| == |patch| + 1
      && Cut(patch)[dash] == Cut(patch)[plus] == Cut(patch)[|patch|] == NUL
      && forall j :: 0 <= j < |patch| && j != dash && j != plus ==> Cut(patch)[j] == patch[j]
  {
    hide IndexOf;
  }

  /** A stretch of the text that reaches up to a NUL and has none inside. */
  lemma CutPiece(patch: string, cells: seq<char>, at: nat, end: nat)
    requires NUL !in patch && at <= end <= |patch| < |cells|
    requires cells[end] == NUL
    requires forall j :: at <= j < end ==> cells[j] == patch[j]
    ensures CStr(cells, at) == patch[at..end]
  {
    hide CStr;
    assert cells[at..end] == patch[at..end];
    forall j | 0 <= j < end - at ensures cells[at..end][j] != NUL {
      assert patch[at + j] in patch;
    }
    CStrEnds(cells, at, end);
  }

  lemma CutStrings(patch: string)
    requires NUL !in patch
    ensures var dash, plus := IndexOf(patch, '-'), IndexOf(patch, '+');
      && CStr(Cut(patch), 0) == patch[..Least(dash, plus)]
      && (dash < |patch| ==> CStr(Cut(patch), dash + 1) == PreRelease(patch).value)
  {
    var dash, plus := IndexOf(patch, '-'), IndexOf(patch, '+');
    IndexOfFirst(patch, '-');
    IndexOfFirst(patch, '+');
    CutAt(patch);
    hide IndexOf, CStr, Cut;
    CutPiece(patch, Cut(patch), 0, Least(dash, plus));
    if dash < |patch| {
      CutPiece(patch, Cut(patch), dash + 1, if plus > dash then plus else |patch|);
    }
  }

  lemma {:induction false} IndexOfIs(s: string, c: char, k: nat)
    requires k < |s| && s[k] == c && c !in s[..k]
    ensures IndexOf(s, c) == k
  {
    if k > 0 {
      assert s[0] in s[..k];
      assert s[..k] == [s[0]] + s[1..][..k - 1];
      IndexOfIs(s[1..], c, k - 1);
    }
  }

  lemma CStrEnds(cells: seq<char>, at: nat, end: nat)
    requires at <= end < |cells| && cells[end] == NUL && NUL !in cells[at..end]
    ensures CStr(cells, at) == cells[at..end]
  {
    assert cells[at..][..end - at] == cells[at..end];
    IndexOfIs(cells[at..], NUL, end - at);
  }

  function CmpPatch(a: string, b: string): int {
    var preA, preB := PreRelease(a), PreRelease(b);
    if PatchNumber(a) > PatchNumber(b) then 1
    else if PatchNumber(a) < PatchNumber(b) then -1
    else if preA.Some? && preB.None? then -1
    else if preA.None? && preB.Some? then 1
    else if preA.None? then 0
    else CmpIdents(SplitAll(preA.value, '.'), SplitAll(preB.value, '.'), 0)
  }

  method Strdup(s: string) returns (copy: array<char>)
    ensures fresh(copy) && copy[..] == s + [NUL]
  {
    copy := new char[|s| + 1](i requires 0 <= i => if i < |s| then s[i] else NUL);
  }

  method CmpPatchVersions(patchA: string, patchB: string) returns (ret: int)
    requires NUL !in patchA && NUL !in patchB
    ensures ret == CmpPatch(patchA, patchB)
  {
    var a := Strdup(patchA);
    var b := Strdup(patchB);
    var pva, pra, _ := SplitPatchVersion(a, patchA);
    var pvb, prb, _ := SplitPatchVersion(b, patchB);
    if pva > pvb {
      return 1;
    } else if pva < pvb {
      return -1;
    }
    if pra.Some? && prb.None? {
      return -1;
    } else if prb.Some? && pra.None? {
      return 1;
    } else if pra.None? && prb.None? {
      return 0;
    }
    ret := CmpPreReleases(CStr(a[..], pra.value), CStr(b[..], prb.value));
  }

  // ----- whole versions -----

  /** None: the code dereferences NULL or stops at an assertion, for want of a field. */
  function CmpFields(a: seq<string>, b: seq<string>): Option<int> {
    if |a| < 2 || |b| < 2 then None
    else if Atol(a[0]) > Atol(b[0]) then Some(1)
    else if Atol(a[0]) < Atol(b[0]) then Some(-1)
    else if Atol(a[1]) > Atol(b[1]) then Some(1)
    else if Atol(a[1]) < Atol(b[1]) then Some(-1)
    else if |a| < 3 || |b| < 3 then None
    else Some(CmpPatch(a[2], b[2]))
  }

  function Cmp(a: string, b: string): Option<int> {
    CmpFields(SplitMax(a, '.', 3), SplitMax(b, '.', 3))
  }

  method SemverCmp(versionA: string, versionB: string) returns (ret: Option<int>)
    requires NUL !in versionA && NUL !in versionB
    ensures ret == Cmp(versionA, versionB)
  {
    var fieldsA, fieldsB := SplitMax(versionA, '.', 3), SplitMax(versionB, '.', 3);
    SplitMaxChars(versionA, '.', 3);
    SplitMaxChars(versionB, '.', 3);
    if |fieldsA| < 2 || |fieldsB| < 2 {
      return None;
    }
    var majA, minA := Atol(fieldsA[0]), Atol(fieldsA[1]);
    var majB, minB := Atol(fieldsB[0]), Atol(fieldsB[1]);
    if majA > majB {
      return Some(1);
    } else if majA < majB {
      return Some(-1);
    }
    if minA > minB {
      return Some(1);
    } else if minA < minB {
      return Some(-1);
    }
    if |fieldsA| < 3 || |fieldsB| < 3 {
      return None;
    }
    var r := CmpPatchVersions(fieldsA[2], fieldsB[2]);
    return Some(r);
  }

  lemma {:induction false} SplitMaxChars(s: string, sep: char, max: nat)
    requires max > 0 && NUL !in s
    ensures forall i :: 0 <= i < |SplitMax(s, sep, max)| ==> NUL !in SplitMax(s, sep, max)[i]
    decreases |s|
  {
    if max > 1 && s != [] {
      SplitMaxChars(s[1..], sep, if s[0] == sep then max - 1 else max);
    }
  }
}
