/** Order laws of the version comparison, and the inputs on which they fail. */
module SemverLaws {
  import opened CLib
  import opened Semver
  import opened SemverOrder
  import opened SemverFields

  // ----- antisymmetry, on every pair of texts -----

  predicate PatchesMeet(a: string, b: string) {
    PatchNumber(a) == PatchNumber(b) && PreRelease(a).Some? && PreRelease(b).Some?
  }

  /** The comparison comes down to pre-release fields that are half the range apart. */
  ghost predicate TextsHalfApart(a: seq<string>, b: seq<string>) {
    && |a| > 2 && |b| > 2 && Atol(a[0]) == Atol(b[0]) && Atol(a[1]) == Atol(b[1]) && PatchesMeet(a[2], b[2])
    && HalfApart(SplitAll(PreRelease(a[2]).value, '.'), SplitAll(PreRelease(b[2]).value, '.'))
  }

  /** Exchanging the versions exchanges the answer, on every pair of texts the
      code compares at all, except for the pairs that are half apart. */
  lemma Antisymmetry(a: string, b: string)
    ensures Cmp(b, a).Some? <==> Cmp(a, b).Some?
    ensures Cmp(a, b).Some? ==>
      (Sign(Cmp(b, a).value) == -Sign(Cmp(a, b).value) <==>
        !TextsHalfApart(SplitMax(a, '.', 3), SplitMax(b, '.', 3)))
  {
    hide SplitMax, SplitAll, PreRelease, PatchNumber, Atol, CmpIdents, HalfApart;
    var x, y := SplitMax(a, '.', 3), SplitMax(b, '.', 3);
    if |x| > 2 && |y| > 2 {
      var p, q := PreRelease(x[2]), PreRelease(y[2]);
      if p.Some? && q.Some? {
        FieldsOpposite(SplitAll(p.value, '.'), SplitAll(q.value, '.'), 0);
      }
    }
  }

  // ----- transitivity, on the letter-led versions -----

  predicate IsLetter(c: char) { 'A' <= c <= 'Z' || 'a' <= c <= 'z' }

  predicate LetterLed(v: Version) {
    forall i :: 0 <= i < |v.pre| && v.pre[i].Alnum? && v.pre[i].s != "" ==> IsLetter(v.pre[i].s[0])
  }

  lemma LettersAfterDigits(n: nat, s: string)
    requires s != "" && IsLetter(s[0])
    ensures StrCmp(Decimal(n), s) < 0
  {
    assert IsDigit(Decimal(n)[0]);
    hide Decimal;
  }

  lemma {:induction false} LetterLedOrdered(a: Version, b: Version, i: nat)
    requires WellFormed(a) && WellFormed(b) && LetterLed(a) && LetterLed(b)
    ensures !Misordered(a.pre, b.pre, i)
    decreases |a.pre| - i
  {
    if i < |a.pre| && i < |b.pre| {
      LetterLedOrdered(a, b, i + 1);
      assert WellFormedIdent(a.pre[i]) && WellFormedIdent(b.pre[i]);
      if a.pre[i].Num? && b.pre[i].Alnum? {
        LettersAfterDigits(a.pre[i].n, b.pre[i].s);
      } else if a.pre[i].Alnum? && b.pre[i].Num? {
        LettersAfterDigits(b.pre[i].n, a.pre[i].s);
      }
      hide Decimal, StrCmp, AllDigits;
    }
  }

  /** On letter-led versions the comparison is the standard's precedence. */
  lemma LetterLedAgrees(a: Version, b: Version)
    requires InDomain(a) && InDomain(b) && LetterLed(a) && LetterLed(b)
    ensures Cmp(Render(a), Render(b)).Some?
    ensures Sign(Cmp(Render(a), Render(b)).value) == Precedence(a, b)
  {
    LetterLedOrdered(a, b, 0);
    hide Cmp, Render, LetterLed, BuildHyphen;
    AgreesWithPrecedence(a, b);
  }

  lemma IdentOrderTransitive(a: Ident, b: Ident, c: Ident)
    requires IdentOrder(a, b) <= 0 && IdentOrder(b, c) <= 0
    ensures IdentOrder(a, c) <= 0
    ensures IdentOrder(a, b) < 0 || IdentOrder(b, c) < 0 ==> IdentOrder(a, c) < 0
  {
    if a.Alnum? && b.Alnum? && c.Alnum? {
      StrCmpTransitive(a.s, b.s, c.s);
    }
  }

  lemma {:induction false} PreOrderTransitive(a: seq<Ident>, b: seq<Ident>, c: seq<Ident>, i: nat)
    requires PreOrder(a, b, i) <= 0 && PreOrder(b, c, i) <= 0
    ensures PreOrder(a, c, i) <= 0
    ensures PreOrder(a, b, i) < 0 || PreOrder(b, c, i) < 0 ==> PreOrder(a, c, i) < 0
    decreases |a| - i
  {
    hide IdentOrder;
    if i < |a| && i < |b| && i < |c| {
      IdentOrderTransitive(a[i], b[i], c[i]);
      if IdentOrder(a[i], b[i]) == 0 && IdentOrder(b[i], c[i]) == 0 {
        PreOrderTransitive(a, b, c, i + 1);
      }
    }
  }

  lemma PrecedenceTransitive(a: Version, b: Version, c: Version)
    requires Precedence(a, b) <= 0 && Precedence(b, c) <= 0
    ensures Precedence(a, c) <= 0
    ensures Precedence(a, b) < 0 || Precedence(b, c) < 0 ==> Precedence(a, c) < 0
  {
    hide PreOrder;
    if a.pre != [] && b.pre != [] && c.pre != []
       && a.major == b.major == c.major && a.minor == b.minor == c.minor && a.patch == b.patch == c.patch {
      PreOrderTransitive(a.pre, b.pre, c.pre, 0);
    }
  }

  lemma {:induction false} PreOrderOpposite(a: seq<Ident>, b: seq<Ident>, i: nat)
    ensures PreOrder(b, a, i) == -PreOrder(a, b, i)
    decreases |a| - i
  {
    if i < |a| && i < |b| {
      if a[i].Alnum? && b[i].Alnum? {
        StrCmpOpposite(a[i].s, b[i].s);
      }
      hide StrCmp;
      PreOrderOpposite(a, b, i + 1);
    }
  }

  lemma PrecedenceOpposite(a: Version, b: Version)
    ensures Precedence(b, a) == -Precedence(a, b)
  {
    PreOrderOpposite(a.pre, b.pre, 0);
    hide PreOrder;
  }

  /** The comparison itself is transitive there. */
  lemma Transitivity(a: Version, b: Version, c: Version)
    requires InDomain(a) && InDomain(b) && InDomain(c)
    requires LetterLed(a) && LetterLed(b) && LetterLed(c)
    ensures var ab, bc, ac := Cmp(Render(a), Render(b)), Cmp(Render(b), Render(c)), Cmp(Render(a), Render(c));
      && ab.Some? && bc.Some? && ac.Some?
      && (ab.value <= 0 && bc.value <= 0 ==> ac.value <= 0)
      && (ab.value <= 0 && bc.value <= 0 && (ab.value < 0 || bc.value < 0) ==> ac.value < 0)
  {
    hide Cmp, Render, LetterLed, InDomain, Precedence;
    LetterLedAgrees(a, b);
    LetterLedAgrees(b, c);
    LetterLedAgrees(a, c);
    if Precedence(a, b) <= 0 && Precedence(b, c) <= 0 {
      PrecedenceTransitive(a, b, c);
    }
  }

  // ----- where the laws end -----

  function Release(pre: seq<Ident>): Version { Version(1, 0, 0, pre, []) }

  lemma OneIdent(a: Ident, b: Ident)
    requires WellFormedIdent(a) && WellFormedIdent(b)
    ensures Cmp(Render(Release([a])), Render(Release([b]))) == Some(CmpIdent(IdentText(a), IdentText(b)))
  {
    var x, y := Release([a]), Release([b]);
    assert WellFormed(x) && WellFormed(y) && !BuildHyphen(x) && !BuildHyphen(y);
    CompareCore(x, y);
    ComparePatch(x, y);
    hide Cmp, Render, PatchText, CmpPatch, CmpIdent, IdentText;
    assert CmpIdents(Texts(x.pre), Texts(y.pre), 1) == 0;
  }

  predicate Older(a: Version, b: Version) {
    Cmp(Render(a), Render(b)).Some? && Cmp(Render(a), Render(b)).value < 0
  }

  lemma OlderIdent(a: Ident, b: Ident)
    requires WellFormedIdent(a) && WellFormedIdent(b) && BoundedIdent(a) && BoundedIdent(b)
    requires CmpIdent(IdentText(a), IdentText(b)) < 0
    ensures Older(Release([a]), Release([b]))
  {
    hide Cmp, Render, CmpIdent, IdentText, Release;
    OneIdent(a, b);
  }

  /** 1.0.0-9 is older than 1.0.0-10, that older than 1.0.0-1a, and that older
      than 1.0.0-9. */
  lemma Cycle()
    ensures Older(Release([Num(9)]), Release([Num(10)]))
    ensures Older(Release([Num(10)]), Release([Alnum("1a")]))
    ensures Older(Release([Alnum("1a")]), Release([Num(9)]))
  {
    hide Older, CmpIdent, Decimal, Release;
    assert !IsDigit("1a"[1]);
    NumbersAgree(9, 10);
    MixedIdents();
    OlderIdent(Num(9), Num(10));
    OlderIdent(Num(10), Alnum("1a"));
    OlderIdent(Alnum("1a"), Num(9));
  }

  lemma MixedIdents()
    ensures CmpIdent(Decimal(10), "1a") < 0 && CmpIdent("1a", Decimal(9)) < 0
  {
    assert Decimal(9) == "9" && Decimal(10) == "10";
    assert !IsDigit("1a"[1]);
    assert StrCmp("10", "1a") == StrCmp("0", "a");
    hide Atol, ToInt32, Decimal;
  }
}
