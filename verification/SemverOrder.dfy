/** The comparison of version strings against the precedence of section 11 of
    Semantic Versioning 2.0.0: where they agree, exactly when they do not, and
    the order laws that follow. */
module SemverOrder {
  import opened CLib
  import opened Semver

  // ----- versions as the standard describes them -----

  datatype Ident = Num(n: nat) | Alnum(s: string)

  datatype Version = Version(major: nat, minor: nat, patch: nat, pre: seq<Ident>, build: seq<string>)

  predicate IsIdentChar(c: char) {
    '0' <= c <= '9' || 'A' <= c <= 'Z' || 'a' <= c <= 'z' || c == '-'
  }

  predicate IsIdentText(s: string) { s != "" && forall i :: 0 <= i < |s| ==> IsIdentChar(s[i]) }

  predicate WellFormedIdent(p: Ident) { p.Alnum? ==> IsIdentText(p.s) && !AllDigits(p.s) }

  predicate WellFormed(v: Version) {
    && (forall i :: 0 <= i < |v.pre| ==> WellFormedIdent(v.pre[i]))
    && (forall i :: 0 <= i < |v.build| ==> IsIdentText(v.build[i]))
  }

  const LIMIT := 0x8000_0000

  predicate BoundedIdent(p: Ident) { p.Num? ==> p.n < LIMIT }

  predicate BoundedCore(v: Version) { v.major < LIMIT && v.minor < LIMIT && v.patch < LIMIT }

  predicate Bounded(v: Version) {
    BoundedCore(v) && forall i :: 0 <= i < |v.pre| ==> BoundedIdent(v.pre[i])
  }

  function IdentText(p: Ident): string {
    match p case Num(n) => Decimal(n) case Alnum(s) => s
  }

  function Texts(pre: seq<Ident>): (r: seq<string>)
    ensures |r| == |pre| && forall i :: 0 <= i < |r| ==> r[i] == IdentText(pre[i])
  {
    seq(|pre|, i requires 0 <= i < |pre| => IdentText(pre[i]))
  }

  function PreText(v: Version): string { Join(Texts(v.pre), '.') }

  function BuildText(v: Version): string { Join(v.build, '.') }

  function PrePart(v: Version): string { if v.pre == [] then "" else "-" + PreText(v) }

  function BuildPart(v: Version): string { if v.build == [] then "" else "+" + BuildText(v) }

  function PatchText(v: Version): string {
    Decimal(v.patch) + PrePart(v) + BuildPart(v)
  }

  function Render(v: Version): string {
    Decimal(v.major) + "." + (Decimal(v.minor) + "." + PatchText(v))
  }

  /** A '-' in the build metadata of a version without a pre-release is taken
      for the beginning of one. */
  predicate BuildHyphen(v: Version) { v.pre == [] && '-' in BuildText(v) }

  // ----- precedence: -1, 0 or 1 -----

  function Sign(n: int): int { if n < 0 then -1 else if n > 0 then 1 else 0 }

  function IdentOrder(a: Ident, b: Ident): int {
    match (a, b)
    case (Num(x), Num(y)) => Sign(x - y)
    case (Num(_), Alnum(_)) => -1
    case (Alnum(_), Num(_)) => 1
    case (Alnum(x), Alnum(y)) => Sign(StrCmp(x, y))
  }

  function PreOrder(a: seq<Ident>, b: seq<Ident>, i: nat): int
    decreases |a| - i
  {
    if i >= |a| && i >= |b| then 0
    else if i >= |b| then 1
    else if i >= |a| then -1
    else if IdentOrder(a[i], b[i]) != 0 then IdentOrder(a[i], b[i])
    else PreOrder(a, b, i + 1)
  }

  function Precedence(a: Version, b: Version): int {
    if a.major != b.major then Sign(a.major - b.major)
    else if a.minor != b.minor then Sign(a.minor - b.minor)
    else if a.patch != b.patch then Sign(a.patch - b.patch)
    else if a.pre == [] && b.pre == [] then 0
    else if b.pre == [] then -1
    else if a.pre == [] then 1
    else PreOrder(a.pre, b.pre, 0)
  }

  // ----- strcmp is an order -----

  lemma {:induction false} StrCmpEqual(a: string, b: string)
    ensures StrCmp(a, b) == 0 <==> a == b
  {
    if a != "" && b != "" && a[0] == b[0] {
      StrCmpEqual(a[1..], b[1..]);
      assert a == [a[0]] + a[1..] && b == [b[0]] + b[1..];
    }
  }

  lemma {:induction false} StrCmpOpposite(a: string, b: string)
    ensures StrCmp(b, a) == -StrCmp(a, b)
  {
    if a != "" && b != "" && a[0] == b[0] {
      StrCmpOpposite(a[1..], b[1..]);
    }
  }

  lemma {:induction false} StrCmpTransitive(a: string, b: string, c: string)
    requires StrCmp(a, b) <= 0 && StrCmp(b, c) <= 0
    ensures StrCmp(a, c) <= 0
    ensures StrCmp(a, b) < 0 || StrCmp(b, c) < 0 ==> StrCmp(a, c) < 0
  {
    if a != "" && b != "" && c != "" && a[0] == b[0] == c[0] {
      StrCmpTransitive(a[1..], b[1..], c[1..]);
    }
  }

  // ----- identifiers -----

  /** A numeric and an alphanumeric identifier, which strcmp puts the wrong way. */
  predicate WrongPair(a: Ident, b: Ident) {
    || (a.Num? && b.Alnum? && StrCmp(Decimal(a.n), b.s) > 0)
    || (a.Alnum? && b.Num? && StrCmp(Decimal(b.n), a.s) > 0)
  }

  lemma NumbersAgree(m: nat, n: nat)
    requires m < LIMIT && n < LIMIT
    ensures CmpIdent(Decimal(m), Decimal(n)) == m - n
  {
    AtolDecimal(m);
    AtolDecimal(n);
    SmallDifference(m - n);
    hide Atol, Decimal, StrCmp, ToInt32, DigitsValue;
  }

  lemma TextsDiffer(a: Ident, b: Ident)
    requires WellFormedIdent(a) && WellFormedIdent(b)
    ensures IdentText(a) == IdentText(b) <==> a == b
    ensures AllDigits(IdentText(a)) <==> a.Num?
  {
    hide IsIdentText;
  }

  lemma IdentAgrees(a: Ident, b: Ident)
    requires WellFormedIdent(a) && WellFormedIdent(b)
    requires a.Num? && b.Num? ==> BoundedIdent(a) && BoundedIdent(b)
    ensures CmpIdent(IdentText(a), IdentText(b)) == 0 <==> IdentOrder(a, b) == 0
    ensures IdentOrder(a, b) == 0 <==> a == b
    ensures a != b ==>
      (Sign(CmpIdent(IdentText(a), IdentText(b))) == IdentOrder(a, b) <==> !WrongPair(a, b))
  {
    TextsDiffer(a, b);
    TextsDiffer(b, a);
    StrCmpEqual(IdentText(a), IdentText(b));
    StrCmpOpposite(IdentText(a), IdentText(b));
    if a.Num? && b.Num? {
      NumbersAgree(a.n, b.n);
      hide Atol, Decimal, StrCmp, ToInt32, DigitsValue, CmpIdent, AllDigits, WellFormedIdent;
    } else {
      hide Atol, Decimal, StrCmp, ToInt32, DigitsValue, AllDigits, WellFormedIdent;
    }
  }

  lemma AtolDecimal(n: nat)
    requires n <= LONG_MAX
    ensures Atol(Decimal(n)) == n
  {
    AtoiPrinted(n);
  }

  lemma SmallDifference(n: int)
    requires -LIMIT < n < LIMIT
    ensures ToInt32(n) == n
  {
  }

  /** The first identifiers that differ are a numeric and an alphanumeric one,
      and strcmp puts them the wrong way. */
  predicate Misordered(a: seq<Ident>, b: seq<Ident>, i: nat)
    decreases |a| - i
  {
    i < |a| && i < |b| && if a[i] == b[i] then Misordered(a, b, i + 1) else WrongPair(a[i], b[i])
  }

  lemma {:induction false} IdentsAgree(a: seq<Ident>, b: seq<Ident>, i: nat)
    requires forall k :: 0 <= k < |a| ==> WellFormedIdent(a[k]) && BoundedIdent(a[k])
    requires forall k :: 0 <= k < |b| ==> WellFormedIdent(b[k]) && BoundedIdent(b[k])
    ensures Sign(CmpIdents(Texts(a), Texts(b), i)) == PreOrder(a, b, i) <==> !Misordered(a, b, i)
    decreases |a| - i
  {
    if i < |a| && i < |b| {
      IdentAgrees(a[i], b[i]);
      if a[i] == b[i] {
        IdentsAgree(a, b, i + 1);
      }
      hide CmpIdent, IdentOrder, WrongPair, IdentText, WellFormedIdent, BoundedIdent;
    }
  }

  // ----- from the text of a version back to its parts -----

  lemma {:induction false} SplitMaxFirst(head: string, tail: string, max: nat)
    requires max > 1 && '.' !in head
    ensures SplitMax(head + "." + tail, '.', max) == [head] + SplitMax(tail, '.', max - 1)
  {
    var s := head + "." + tail;
    if head == "" {
      assert s[1..] == tail;
    } else {
      SplitMaxFirst(head[1..], tail, max);
      assert s[1..] == head[1..] + "." + tail;
      assert [s[0]] + head[1..] == head;
    }
  }

  lemma DecimalHas(n: nat, c: char)
    requires !IsDigit(c)
    ensures c !in Decimal(n)
  {
  }

  lemma RenderFields(v: Version)
    ensures SplitMax(Render(v), '.', 3) == [Decimal(v.major), Decimal(v.minor), PatchText(v)]
  {
    DecimalHas(v.major, '.');
    DecimalHas(v.minor, '.');
    hide Decimal, PatchText;
    SplitMaxFirst(Decimal(v.major), Decimal(v.minor) + "." + PatchText(v), 3);
    SplitMaxFirst(Decimal(v.minor), PatchText(v), 2);
    assert SplitMax(PatchText(v), '.', 1) == [PatchText(v)];
  }

  lemma {:induction false} JoinLacks(fields: seq<string>, c: char)
    requires c != '.' && forall i :: 0 <= i < |fields| ==> c !in fields[i]
    ensures c !in Join(fields, '.')
  {
    if |fields| > 1 {
      JoinLacks(fields[1..], c);
    }
  }

  lemma IdentLacks(s: string, c: char)
    requires IsIdentText(s) && !IsIdentChar(c)
    ensures c !in s
  {
  }

  lemma PreTextLacks(v: Version, c: char)
    requires WellFormed(v) && !IsIdentChar(c) && c != '.'
    ensures c !in PreText(v)
  {
    forall i | 0 <= i < |v.pre| ensures c !in Texts(v.pre)[i] {
      assert WellFormedIdent(v.pre[i]);
      if v.pre[i].Alnum? {
        IdentLacks(v.pre[i].s, c);
      } else {
        DecimalHas(v.pre[i].n, c);
      }
    }
    JoinLacks(Texts(v.pre), c);
  }

  /** The first '-' of a patch field. */
  lemma DashMark(v: Version)
    requires WellFormed(v) && !BuildHyphen(v)
    ensures IndexOf(PatchText(v), '-') == if v.pre == [] then |PatchText(v)| else |Decimal(v.patch)|
  {
    DecimalHas(v.patch, '-');
    assert v.pre == [] ==> '-' !in BuildPart(v);
    hide Decimal, PreText, BuildText, IndexOf, WellFormed, BuildHyphen;
    assert PatchText(v) == Decimal(v.patch) + (PrePart(v) + BuildPart(v));
    assert v.pre != [] ==> (PrePart(v) + BuildPart(v))[0] == '-';
    assert v.pre == [] ==> PrePart(v) + BuildPart(v) == BuildPart(v);
    hide PatchText, PrePart, BuildPart;
    FirstAfter(Decimal(v.patch), PrePart(v) + BuildPart(v), '-');
  }

  /** The first '+' of a patch field. */
  lemma PlusMark(v: Version)
    requires WellFormed(v)
    ensures IndexOf(PatchText(v), '+') == if v.build == [] then |PatchText(v)| else |Decimal(v.patch)| + |PrePart(v)|
  {
    DecimalHas(v.patch, '+');
    PreTextLacks(v, '+');
    hide Decimal, PreText, BuildText, IndexOf, WellFormed;
    assert PatchText(v) == (Decimal(v.patch) + PrePart(v)) + BuildPart(v);
    assert '+' !in Decimal(v.patch) + PrePart(v);
    assert v.build != [] ==> BuildPart(v)[0] == '+';
    assert v.build == [] ==> BuildPart(v) == "";
    hide PatchText, PrePart, BuildPart;
    FirstAfter(Decimal(v.patch) + PrePart(v), BuildPart(v), '+');
  }

  /** Text without the character only shifts its first occurrence. */
  lemma {:induction false} FirstAfter(head: string, tail: string, c: char)
    requires c !in head && (tail != "" && c in tail ==> tail[0] == c)
    ensures IndexOf(head + tail, c) == if c in tail then |head| else |head| + |tail|
  {
    if head != "" {
      assert (head + tail)[1..] == head[1..] + tail;
      FirstAfter(head[1..], tail, c);
    } else {
      assert head + tail == tail;
      NoIndex(tail, c);
    }
  }

  lemma {:induction false} NoIndex(s: string, c: char)
    ensures c !in s ==> IndexOf(s, c) == |s|
    ensures c in s && s[0] == c ==> IndexOf(s, c) == 0
  {
    if s != "" {
      NoIndex(s[1..], c);
    }
  }

  lemma PatchParts(v: Version)
    requires WellFormed(v) && BoundedCore(v) && !BuildHyphen(v)
    ensures PatchNumber(PatchText(v)) == v.patch
    ensures PreRelease(PatchText(v)) == if v.pre == [] then None else Some(PreText(v))
  {
    DashMark(v);
    PlusMark(v);
    AtoiPrinted(v.patch);
    SmallDifference(v.patch);
    hide IndexOf, Decimal, PreText, BuildText, WellFormed, BuildHyphen, Atoi, ToInt32, SignedDecimal, StrToLL;
    assert Atoi(Decimal(v.patch)) == v.patch;
    var s, n := PatchText(v), |Decimal(v.patch)|;
    PatchShape(v);
    hide PatchText;
    if v.pre != [] {
      assert PreRelease(s).value == s[n + 1..n + 1 + |PreText(v)|];
    }
  }

  lemma PatchShape(v: Version)
    ensures var s := PatchText(v); var n := |Decimal(v.patch)|;
      && |s| == n + |PrePart(v)| + |BuildPart(v)| && s[..n] == Decimal(v.patch)
      && (v.pre != [] ==> s[n + 1..n + 1 + |PreText(v)|] == PreText(v))
  {
    hide Decimal, PreText, BuildText;
  }

  lemma PreFields(v: Version)
    requires WellFormed(v) && v.pre != []
    ensures SplitAll(PreText(v), '.') == Texts(v.pre)
  {
    forall i | 0 <= i < |v.pre| ensures '.' !in Texts(v.pre)[i] && Texts(v.pre)[i] != "" {
      assert WellFormedIdent(v.pre[i]);
      if v.pre[i].Alnum? {
        IdentLacks(v.pre[i].s, '.');
      } else {
        DecimalHas(v.pre[i].n, '.');
      }
    }
    SplitJoin(Texts(v.pre), '.');
    assert Texts(v.pre)[0] != "";
    assert PreText(v) != "";
  }

  // ----- the main results -----

  predicate InDomain(v: Version) { WellFormed(v) && Bounded(v) && !BuildHyphen(v) }

  /** The two versions differ first in identifiers that strcmp puts the wrong way. */
  predicate Confused(a: Version, b: Version) {
    a.major == b.major && a.minor == b.minor && a.patch == b.patch && Misordered(a.pre, b.pre, 0)
  }

  lemma CompareCore(a: Version, b: Version)
    requires WellFormed(a) && BoundedCore(a) && WellFormed(b) && BoundedCore(b)
    ensures Cmp(Render(a), Render(b)) == Some(
      if a.major != b.major then Sign(a.major - b.major)
      else if a.minor != b.minor then Sign(a.minor - b.minor)
      else CmpPatch(PatchText(a), PatchText(b)))
  {
    RenderFields(a);
    RenderFields(b);
    AtolDecimal(a.major);
    AtolDecimal(b.major);
    AtolDecimal(a.minor);
    AtolDecimal(b.minor);
    hide Render, PatchText, Atol, Decimal, CmpPatch, BuildHyphen, WellFormed, SplitMax;
    var fa, fb := SplitMax(Render(a), '.', 3), SplitMax(Render(b), '.', 3);
    assert fa[0] == Decimal(a.major) && fa[1] == Decimal(a.minor) && fa[2] == PatchText(a);
    assert fb[0] == Decimal(b.major) && fb[1] == Decimal(b.minor) && fb[2] == PatchText(b);
  }

  lemma ComparePatch(a: Version, b: Version)
    requires WellFormed(a) && BoundedCore(a) && !BuildHyphen(a) && WellFormed(b) && BoundedCore(b) && !BuildHyphen(b)
    ensures CmpPatch(PatchText(a), PatchText(b))
         == if a.patch != b.patch then Sign(a.patch - b.patch)
            else if a.pre == [] && b.pre == [] then 0
            else if b.pre == [] then -1
            else if a.pre == [] then 1
            else CmpIdents(Texts(a.pre), Texts(b.pre), 0)
  {
    hide PatchText, PatchNumber, PreRelease, PreText, SplitAll, CmpIdents, BuildHyphen, WellFormed, BoundedCore;
    PatchParts(a);
    PatchParts(b);
    if a.pre != [] && b.pre != [] {
      PreFields(a);
      PreFields(b);
    }
  }

  /** The comparison has the sign of the standard's precedence, build metadata
      ignored, if and only if the versions are not confused. */
  lemma AgreesWithPrecedence(a: Version, b: Version)
    requires InDomain(a) && InDomain(b)
    ensures Cmp(Render(a), Render(b)).Some?
    ensures Sign(Cmp(Render(a), Render(b)).value) == Precedence(a, b) <==> !Confused(a, b)
  {
    CompareCore(a, b);
    ComparePatch(a, b);
    IdentsAgree(a.pre, b.pre, 0);
    hide Cmp, Render, PatchText, CmpPatch, CmpIdents, PreOrder, BuildHyphen;
  }
}
