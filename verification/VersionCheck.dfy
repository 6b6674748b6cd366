/** The check of a configuration's version against the supported one. */
module VersionCheck {
  import opened CLib
  import opened Semver
  import opened SemverOrder
  import opened SemverFields
  import opened SemverHyphens
  import opened SemverLaws

  const SUPPORTED := "1.0.0-rc1"
  const RC1 := "rc1"

  /** None when the comparison stops the program. */
  function ConfigCheck(version: Option<string>): Option<bool> {
    if version.None? then Some(false)
    else match Cmp(SUPPORTED, version.value)
      case None => None
      case Some(ret) => Some(ret >= 0)
  }

  const SUPPORTED_VERSION := Version(1, 0, 0, [Alnum(RC1)], [])

  lemma SupportedText()
    ensures Render(SUPPORTED_VERSION) == SUPPORTED == "1.0.0-rc1" && InDomain(SUPPORTED_VERSION)
    ensures Texts(SUPPORTED_VERSION.pre) == [RC1]
  {
    assert Decimal(1) == "1" && Decimal(0) == "0";
    assert Texts(SUPPORTED_VERSION.pre) == ["rc1"];
    assert PreText(SUPPORTED_VERSION) == "rc1";
    assert !IsDigit("rc1"[0]);
  }

  /** No pre-release is misread against the supported one, whatever its numbers. */
  lemma SupportedNotMisread(v: Version)
    requires WellFormed(v) && v.pre != []
    ensures !PreMisread(SUPPORTED_VERSION.pre, v.pre)
  {
    SupportedText();
    var a, b := SUPPORTED_VERSION.pre, v.pre;
    assert WellFormedIdent(a[0]) && WellFormedIdent(b[0]);
    if b[0].Num? {
      LettersAfterDigits(b[0].n, RC1);
    }
    hide Cmp, Render, WellFormed, CmpIdent, StrCmp, SameFields, FieldsAfter, WellFormedIdent, IdentText, InDomain;
    IdentAgrees(a[0], b[0]);
    FieldsSign(Texts(a), Texts(b), 0);
    PreOrderSigns(a, b, 0);
    IdentOrderSigns(a[0], b[0]);
    assert CmpIdents(Texts(a), Texts(b), 1) == if |b| == 1 then 0 else -1;
    assert PreOrder(a, b, 1) == if |b| == 1 then 0 else -1;
  }

  /** A release 1.0.0 whose build metadata, after its first hyphen, compares as the
      supported pre-release or as one before it. */
  ghost predicate TakenForOlder(v: Version) {
    && v.major == 1 && v.minor == 0 && v.patch == 0 && BuildHyphen(v)
    && (SameFields([RC1], Seen(v)) || FieldsAfter([RC1], Seen(v)))
  }

  /** For all well-formed versions whose core is bounded: the check accepts exactly those
      of precedence up to the supported one, if and only if the version is not taken for
      an older one. */
  lemma AcceptsExactly(v: Version)
    requires WellFormed(v) && BoundedCore(v)
    ensures ConfigCheck(Some(Render(v))) == Some(Precedence(SUPPORTED_VERSION, v) >= 0) <==> !TakenForOlder(v)
    ensures ConfigCheck(Some(Render(v))) == Some(Precedence(SUPPORTED_VERSION, v) >= 0 || TakenForOlder(v))
    ensures ConfigCheck(None) == Some(false)
  {
    hide Cmp, Render, SameFields, FieldsAfter, Seen, PreOrder, PreMisread, BuildHyphen, WellFormed, SUPPORTED, Texts;
    SupportedText();
    SupportedIsPre();
    HyphenMeansRelease(v);
    AgreesExactly(SUPPORTED_VERSION, v);
    if v.pre != [] {
      SupportedNotMisread(v);
    } else {
      NothingToMisread(SUPPORTED_VERSION.pre);
    }
  }

  lemma SupportedIsPre()
    ensures !BuildHyphen(SUPPORTED_VERSION) && WellFormed(SUPPORTED_VERSION) && BoundedCore(SUPPORTED_VERSION)
  {
    SupportedText();
  }

  lemma NothingToMisread(pre: seq<Ident>)
    ensures !PreMisread(pre, [])
  {
    hide PreOrder, SameFields, FieldsAfter;
  }

  /** For all such versions: one that is not above an accepted one is accepted as well, if
      and only if it is not itself above the supported one, below one taken for older. */
  lemma AcceptedDownwardClosed(v: Version, w: Version)
    requires WellFormed(v) && BoundedCore(v) && WellFormed(w) && BoundedCore(w)
    ensures ConfigCheck(Some(Render(v))) == Some(true) && Precedence(w, v) <= 0 ==>
      (ConfigCheck(Some(Render(w))) == Some(true) <==>
        !(TakenForOlder(v) && Precedence(SUPPORTED_VERSION, w) < 0 && !TakenForOlder(w)))
  {
    hide ConfigCheck, Render, WellFormed, Precedence, SUPPORTED_VERSION, TakenForOlder;
    AcceptsExactly(v);
    AcceptsExactly(w);
    PrecedenceOpposite(SUPPORTED_VERSION, v);
    PrecedenceOpposite(SUPPORTED_VERSION, w);
    if Precedence(w, v) <= 0 && Precedence(v, SUPPORTED_VERSION) <= 0 {
      PrecedenceTransitive(w, v, SUPPORTED_VERSION);
    }
  }

  /** 1.0.0+a-a is newer than the supported version, and accepted; 1.0.0 has the same
      precedence, and is refused. */
  lemma NewerIsAccepted()
    ensures var v, w := Version(1, 0, 0, [], ["a-a"]), Version(1, 0, 0, [], []);
      && WellFormed(v) && Bounded(v) && WellFormed(w) && Bounded(w)
      && Precedence(SUPPORTED_VERSION, v) < 0 && ConfigCheck(Some(Render(v))) == Some(true)
      && Precedence(w, v) <= 0 && ConfigCheck(Some(Render(w))) == Some(false)
  {
    hide Cmp, Render, ConfigCheck, TakenForOlder, BuildHyphen;
    var v, w := Version(1, 0, 0, [], ["a-a"]), Version(1, 0, 0, [], []);
    HyphenSeenAsA(v);
    NoBuildNoHyphen(w);
    AcceptsExactly(v);
    AcceptsExactly(w);
  }

  lemma NoBuildNoHyphen(w: Version)
    requires w.build == []
    ensures !TakenForOlder(w)
  {
    EmptyBuild(w);
    hide BuildText, SameFields, FieldsAfter, Seen;
  }

  lemma HyphenSeenAsA(v: Version)
    requires v == Version(1, 0, 0, [], ["a-a"])
    ensures TakenForOlder(v)
  {
    assert BuildText(v) == "a-a" && "a-a"[1] == '-';
    IndexOfIs("a-a", '-', 1);
    assert "a-a"[2..] == "a";
    assert '.' !in "a";
    SplitJoin(["a"], '.');
    assert Seen(v) == ["a"];
    RcAfterA();
  }

  lemma RcAfterA()
    ensures FieldsAfter([RC1], ["a"])
  {
    assert TextAfterAt(RC1, "a", 0);
    assert !IsDigit(RC1[0]);
    hide Number;
    assert FieldsAfterAt([RC1], ["a"], 0);
  }
}
