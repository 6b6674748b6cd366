/** Versions whose build metadata holds a hyphen, which the code may take for the
    beginning of a pre-release; and antisymmetry over all well-formed versions. */
module SemverHyphens {
  import opened CLib
  import opened Semver
  import opened SemverOrder
  import opened SemverFields

  // ----- every well-formed version, hyphens in the build metadata included -----

  /** What the code takes for a pre-release: build metadata after its first '-'. */
  function SeenInBuild(v: Version): string
    requires BuildHyphen(v)
  {
    NoIndexIn(BuildText(v), '-');
    BuildText(v)[IndexOf(BuildText(v), '-') + 1..]
  }

  lemma {:induction false} NoIndexIn(s: string, c: char)
    requires c in s
    ensures IndexOf(s, c) < |s|
  {
    if s[0] != c {
      NoIndexIn(s[1..], c);
    }
  }

  lemma {:induction false} IndexAfter(head: string, tail: string, c: char)
    requires c !in head && c in tail
    ensures IndexOf(head + tail, c) == |head| + IndexOf(tail, c)
  {
    if head == "" {
      assert head + tail == tail;
    } else {
      assert (head + tail)[1..] == head[1..] + tail;
      IndexAfter(head[1..], tail, c);
    }
  }

  lemma CutAfterPlus(core: string, build: string)
    requires '-' !in core && '+' !in core && '-' in build
    ensures IndexOf(build, '-') < |build|
    ensures PatchNumber(core + "+" + build) == Atoi(core)
    ensures PreRelease(core + "+" + build) == Some(build[IndexOf(build, '-') + 1..])
  {
    hide IndexOf, Atoi;
    var s, head, k := core + "+" + build, core + "+", IndexOf(build, '-');
    NoIndexIn(build, '-');
    assert '-' !in head;
    IndexAfter(head, build, '-');
    assert s[..|core|] == core && s[|core|] == '+';
    IndexOfIs(s, '+', |core|);
    assert |head| == |core| + 1 && s[|head|..] == build;
    assert s[|head| + k + 1..|s|] == build[k + 1..];
    assert IndexOf(s, '-') == |head| + k;
    assert PreRelease(s).value == s[|head| + k + 1..|s|];
  }

  lemma HyphenParts(v: Version)
    requires WellFormed(v) && BoundedCore(v) && BuildHyphen(v)
    ensures PatchNumber(PatchText(v)) == v.patch
    ensures PreRelease(PatchText(v)) == Some(SeenInBuild(v))
  {
    hide IndexOf, Decimal, BuildText, WellFormed, Atoi, PatchNumber, PreRelease;
    AtoiDecimal(v.patch);
    DecimalHas(v.patch, '-');
    DecimalHas(v.patch, '+');
    EmptyBuild(v);
    CutAfterPlus(Decimal(v.patch), BuildText(v));
    assert PatchText(v) == Decimal(v.patch) + "+" + BuildText(v);
  }

  lemma AtoiDecimal(n: nat)
    requires n < LIMIT
    ensures Atoi(Decimal(n)) == n
  {
    AtoiPrinted(n);
    SmallDifference(n);
    hide Decimal, Atoi, ToInt32;
  }

  lemma EmptyBuild(v: Version)
    ensures v.build == [] ==> BuildText(v) == ""
  {
  }

  function Seen(v: Version): seq<string>
    requires BuildHyphen(v)
  {
    SplitAll(SeenInBuild(v), '.')
  }

  /** The fields compared for a version with a pre-release, real or seen. */
  function SeenFields(v: Version): Option<seq<string>> {
    if v.pre != [] then Some(Texts(v.pre))
    else if BuildHyphen(v) then Some(Seen(v))
    else None
  }

  lemma SeenParts(v: Version)
    requires WellFormed(v) && BoundedCore(v)
    ensures var pre := PreRelease(PatchText(v));
      && PatchNumber(PatchText(v)) == v.patch && (pre.Some? <==> SeenFields(v).Some?)
      && (pre.Some? ==> SplitAll(pre.value, '.') == SeenFields(v).value)
  {
    hide PatchNumber, PatchText, PreRelease, WellFormed, BoundedCore, SplitAll, SeenInBuild;
    if BuildHyphen(v) {
      HyphenParts(v);
    } else {
      PatchParts(v);
      if v.pre != [] {
        PreFields(v);
      }
    }
  }

  /** Two pre-releases whose order, as the texts and 32-bit numbers have it, is not the
      order of the standard. */
  ghost predicate PreMisread(a: seq<Ident>, b: seq<Ident>) {
    && a != [] && b != []
    && (|| (PreOrder(a, b, 0) == 0) != SameFields(Texts(a), Texts(b))
        || (PreOrder(a, b, 0) > 0) != FieldsAfter(Texts(a), Texts(b)))
  }

  /** Two versions of one core whose comparison is not the precedence: their pre-releases
      are misread; or a hyphen in build metadata makes
      the code compare fields that have no precedence, and they do not happen to be equal,
      or after those of a real pre-release. */
  ghost predicate Misread(a: Version, b: Version) {
    a.major == b.major && a.minor == b.minor && a.patch == b.patch &&
    if !BuildHyphen(a) && !BuildHyphen(b) then PreMisread(a.pre, b.pre)
    else if BuildHyphen(a) && BuildHyphen(b) then !SameFields(Seen(a), Seen(b))
    else if BuildHyphen(a) then b.pre == [] || !FieldsAfter(Seen(a), Texts(b.pre))
    else a.pre == [] || SameFields(Texts(a.pre), Seen(b)) || FieldsAfter(Texts(a.pre), Seen(b))
  }

  lemma CompareSeen(a: Version, b: Version)
    requires WellFormed(a) && BoundedCore(a) && WellFormed(b) && BoundedCore(b)
    ensures CmpPatch(PatchText(a), PatchText(b))
         == if a.patch != b.patch then Sign(a.patch - b.patch)
            else if SeenFields(a).None? && SeenFields(b).None? then 0
            else if SeenFields(b).None? then -1
            else if SeenFields(a).None? then 1
            else CmpIdents(SeenFields(a).value, SeenFields(b).value, 0)
  {
    hide PatchText, PatchNumber, PreRelease, SplitAll, CmpIdents, WellFormed, BoundedCore, SeenFields;
    SeenParts(a);
    SeenParts(b);
  }

  /** For all well-formed versions whose core is bounded: the comparison has the sign of
      the precedence if and only if the pair is not misread. */
  lemma AgreesExactly(a: Version, b: Version)
    requires WellFormed(a) && BoundedCore(a) && WellFormed(b) && BoundedCore(b)
    ensures Cmp(Render(a), Render(b)).Some?
    ensures Sign(Cmp(Render(a), Render(b)).value) == Precedence(a, b) <==> !Misread(a, b)
  {
    hide Cmp, Render, PatchText, CmpPatch, CmpIdents, PreOrder, BuildHyphen, Seen, SameFields, FieldsAfter, WellFormed;
    CompareCore(a, b);
    CompareSeen(a, b);
    PreOrderSigns(a.pre, b.pre, 0);
    HyphenMeansRelease(a);
    HyphenMeansRelease(b);
    if SeenFields(a).Some? && SeenFields(b).Some? {
      FieldsSign(SeenFields(a).value, SeenFields(b).value, 0);
    }
  }

  lemma {:induction false} PreOrderSigns(a: seq<Ident>, b: seq<Ident>, i: nat)
    ensures -1 <= PreOrder(a, b, i) <= 1
    decreases |a| - i
  {
    if i < |a| && i < |b| {
      PreOrderSigns(a, b, i + 1);
    }
  }

  /** When identifiers are bounded, pre-releases are misread exactly if the first
      identifiers that differ are put the wrong way. */
  lemma BoundedMisread(a: Version, b: Version)
    requires WellFormed(a) && Bounded(a) && WellFormed(b) && Bounded(b)
    ensures PreMisread(a.pre, b.pre) <==> Misordered(a.pre, b.pre, 0)
  {
    hide PreOrder, WrongPair, SameFields, FieldsAfter, CmpIdents;
    IdentsAgree(a.pre, b.pre, 0);
    FieldsSign(Texts(a.pre), Texts(b.pre), 0);
    PreOrderSigns(a.pre, b.pre, 0);
  }

  lemma HyphenMeansRelease(v: Version)
    ensures BuildHyphen(v) ==> v.pre == []
  {
  }

  // ----- antisymmetry over all well-formed versions -----

  /** Two versions of one core whose fields, real or seen, are half the range apart. */
  ghost predicate VersionsHalfApart(a: Version, b: Version) {
    && a.major == b.major && a.minor == b.minor && a.patch == b.patch
    && SeenFields(a).Some? && SeenFields(b).Some? && HalfApart(SeenFields(a).value, SeenFields(b).value)
  }

  /** For all well-formed versions whose core is bounded: exchanging them exchanges the
      answer if and only if they are not half apart. */
  lemma VersionsAntisymmetry(a: Version, b: Version)
    requires WellFormed(a) && BoundedCore(a) && WellFormed(b) && BoundedCore(b)
    ensures Cmp(Render(a), Render(b)).Some? && Cmp(Render(b), Render(a)).Some?
    ensures Sign(Cmp(Render(b), Render(a)).value) == -Sign(Cmp(Render(a), Render(b)).value) <==>
      !VersionsHalfApart(a, b)
  {
    hide Cmp, Render, PatchText, CmpPatch, CmpIdents, SeenFields, HalfApart, WellFormed;
    CompareCore(a, b);
    CompareCore(b, a);
    CompareSeen(a, b);
    CompareSeen(b, a);
    if SeenFields(a).Some? && SeenFields(b).Some? {
      FieldsOpposite(SeenFields(a).value, SeenFields(b).value, 0);
    }
  }

  lemma BoundedFields(a: Ident, b: Ident)
    requires WellFormedIdent(a) && BoundedIdent(a) && WellFormedIdent(b) && BoundedIdent(b)
    ensures !(AllDigits(IdentText(a)) && AllDigits(IdentText(b)) && Above(IdentText(a), IdentText(b)) == HALF)
  {
    hide AllDigits, Decimal, WellFormedIdent, Number;
    TextsDiffer(a, b);
    TextsDiffer(b, a);
    if a.Num? && b.Num? {
      NumberOf(a.n);
      NumberOf(b.n);
    }
  }

  /** No two versions with bounded identifiers are, unless a hyphen in build metadata is
      taken for the beginning of a pre-release. */
  lemma InDomainNotHalfApart(a: Version, b: Version)
    requires InDomain(a) && InDomain(b)
    ensures !VersionsHalfApart(a, b)
  {
    hide AllDigits, Above, IdentText, BuildHyphen, SameField;
    if VersionsHalfApart(a, b) {
      var i: nat :| HalfApartAt(SeenFields(a).value, SeenFields(b).value, i);
      assert WellFormedIdent(a.pre[i]) && WellFormedIdent(b.pre[i]);
      BoundedFields(a.pre[i], b.pre[i]);
    }
  }

  // ----- where the laws end -----

  lemma OneFieldHalfApart()
    ensures HalfApart([Decimal(0)], [Decimal(HALF)])
  {
    hide Decimal, DigitsValue, AllDigits;
    ZeroAndHalf(HALF);
    assert HalfApartAt([Decimal(0)], [Decimal(HALF)], 0);
  }

  lemma ZeroAndHalf(n: nat)
    requires n == HALF
    ensures AllDigits(Decimal(0)) && AllDigits(Decimal(n)) && Above(Decimal(0), Decimal(n)) == HALF
  {
    hide DigitsValue, AllDigits, Decimal, Number;
    NumberOf(0);
    NumberOf(n);
  }

  lemma NumberOf(n: nat)
    requires n <= LONG_MAX
    ensures AllDigits(Decimal(n)) && Number(Decimal(n)) == n
  {
    hide DigitsValue, AllDigits;
  }

  /** 1.0.0-0 and 1.0.0-2147483648 are each older than the other. */
  lemma HalfRange()
    ensures var a, b := Version(1, 0, 0, [Num(0)], []), Version(1, 0, 0, [Num(HALF)], []);
      && WellFormed(a) && BoundedCore(a) && WellFormed(b) && BoundedCore(b) && VersionsHalfApart(a, b)
      && Cmp(Render(a), Render(b)) == Some(-HALF) && Cmp(Render(b), Render(a)) == Some(-HALF)
  {
    hide Cmp, Render, PatchText, CmpPatch, Decimal, HalfApart, SeenFields;
    var a, b := Version(1, 0, 0, [Num(0)], []), Version(1, 0, 0, [Num(HALF)], []);
    NumFields(a, 0);
    NumFields(b, HALF);
    OneFieldHalfApart();
    CompareCore(a, b);
    CompareCore(b, a);
    CompareSeen(a, b);
    CompareSeen(b, a);
    OneFieldCompared(Decimal(0), Decimal(HALF));
    OneFieldCompared(Decimal(HALF), Decimal(0));
    ZeroAndHalfCompared(HALF);
  }

  lemma NumFields(v: Version, n: nat)
    requires v.pre == [Num(n)]
    ensures SeenFields(v) == Some([Decimal(n)])
  {
    hide Decimal;
    assert Texts(v.pre) == [Decimal(n)];
  }

  lemma OneFieldCompared(x: string, y: string)
    ensures CmpIdents([x], [y], 0) == CmpIdent(x, y)
  {
    assert CmpIdents([x], [y], 1) == 0;
  }

  lemma ZeroAndHalfCompared(n: nat)
    requires n == HALF
    ensures CmpIdent(Decimal(0), Decimal(n)) == -HALF && CmpIdent(Decimal(n), Decimal(0)) == -HALF
  {
    hide DigitsValue, AllDigits, Atol, ToInt32, Decimal;
    AtolDecimal(0);
    AtolDecimal(n);
    Remainder(0 - n);
    Remainder(n);
    NumberOf(0);
    NumberOf(n);
  }

  /** So are 1.0.0+a-0 and 1.0.0+a-2147483648, whose identifiers are none to be compared. */
  lemma HyphenHalfRange()
    ensures var a := Version(1, 0, 0, [], ["a-" + Decimal(0)]);
      var b := Version(1, 0, 0, [], ["a-" + Decimal(HALF)]);
      WellFormed(a) && Bounded(a) && WellFormed(b) && Bounded(b) && VersionsHalfApart(a, b)
  {
    hide Decimal, SplitAll, HalfApart, SeenFields, WellFormed, Bounded;
    HyphenThenNumber(Version(1, 0, 0, [], ["a-" + Decimal(0)]), 0);
    HyphenThenNumber(Version(1, 0, 0, [], ["a-" + Decimal(HALF)]), HALF);
    OneFieldHalfApart();
  }

  lemma HyphenThenNumber(v: Version, n: nat)
    requires n <= LONG_MAX && v == Version(1, 0, 0, [], ["a-" + Decimal(n)])
    ensures WellFormed(v) && Bounded(v) && SeenFields(v) == Some([Decimal(n)])
  {
    hide Decimal, SplitAll;
    var s := "a-" + Decimal(n);
    NumberOf(n);
    assert BuildText(v) == s && s[1] == '-' && '-' in s;
    IndexOfIs(s, '-', 1);
    assert s[2..] == Decimal(n);
    SplitNumber(n);
  }

  lemma SplitNumber(n: nat)
    ensures SplitAll(Decimal(n), '.') == [Decimal(n)]
  {
    DecimalHas(n, '.');
    SplitJoin([Decimal(n)], '.');
  }

  /** A hyphen in the build metadata of 1.0.0+a-1 makes it older than 1.0.0,
      although build metadata has no precedence. */
  lemma BuildHyphenSeen()
    ensures var plain, built := Version(1, 0, 0, [], []), Version(1, 0, 0, [], ["a-1"]);
      && WellFormed(built) && Precedence(built, plain) == 0
      && Cmp(Render(built), Render(plain)) == Some(-1)
  {
    hide Atol, Render, SplitMax, PatchText, PatchNumber, PreRelease, Decimal, CmpIdents;
    var plain, built := Version(1, 0, 0, [], []), Version(1, 0, 0, [], ["a-1"]);
    RenderFields(plain);
    RenderFields(built);
    HyphenPatches();
    HyphenText(built, plain);
  }

  lemma HyphenText(built: Version, plain: Version)
    requires built == Version(1, 0, 0, [], ["a-1"]) && plain == Version(1, 0, 0, [], [])
    ensures PatchText(plain) == "0" && PatchText(built) == "0+a-1"
  {
    assert Decimal(0) == "0";
    assert BuildText(built) == "a-1";
  }

  lemma HyphenPatches()
    ensures PatchNumber("0+a-1") == PatchNumber("0")
    ensures PreRelease("0+a-1").Some? && PreRelease("0").None?
  {
    hide Atoi;
    IndexOfIs("0+a-1", '-', 3);
    IndexOfIs("0+a-1", '+', 1);
    NoIndex("0", '-');
    NoIndex("0", '+');
    assert "0+a-1"[..1] == "0"[..1];
  }
}
