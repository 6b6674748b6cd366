/** What the comparison of pre-release fields says, in terms of the fields' texts. */
module SemverFields {
  import opened CLib
  import opened Semver
  import opened SemverOrder

  const WORD := 0x1_0000_0000
  const HALF := 0x8000_0000

  // ----- one field -----

  /** The number that digits stand for, which stops growing at the largest long. */
  function Number(s: string): int
    requires AllDigits(s)
  {
    Saturate(DigitsValue(s))
  }

  /** How far one number is above the other, in 32 bits. */
  function Above(x: string, y: string): int
    requires AllDigits(x) && AllDigits(y)
  {
    (Number(x) - Number(y)) % WORD
  }

  /** Equal texts, or digits of numbers that are equal in 32 bits. */
  predicate SameField(x: string, y: string) {
    x == y || (AllDigits(x) && AllDigits(y) && Above(x, y) == 0)
  }

  /** In the order of texts: the first character that differs is greater, or the other
      text ends first. */
  ghost predicate TextAfter(x: string, y: string) {
    exists k: nat :: TextAfterAt(x, y, k)
  }

  predicate TextAfterAt(x: string, y: string, k: nat) {
    k < |x| && k <= |y| && x[..k] == y[..k] && (k == |y| || x[k] > y[k])
  }

  /** Digits of a number less than half the 32-bit range above, or a text after. */
  ghost predicate FieldAfter(x: string, y: string) {
    if AllDigits(x) && AllDigits(y) then 0 < Above(x, y) < HALF else TextAfter(x, y)
  }

  lemma {:induction false} StrCmpAfter(x: string, y: string)
    ensures StrCmp(x, y) > 0 <==> TextAfter(x, y)
  {
    if x != "" && y != "" && x[0] == y[0] {
      StrCmpAfter(x[1..], y[1..]);
      if TextAfter(x[1..], y[1..]) {
        var k: nat :| TextAfterAt(x[1..], y[1..], k);
        assert x[..k + 1] == [x[0]] + x[1..][..k] && y[..k + 1] == [y[0]] + y[1..][..k];
        assert TextAfterAt(x, y, k + 1);
      }
      if TextAfter(x, y) {
        var k: nat :| TextAfterAt(x, y, k);
        assert k > 0;
        assert x[1..][..k - 1] == x[..k][1..] && y[1..][..k - 1] == y[..k][1..];
        assert TextAfterAt(x[1..], y[1..], k - 1);
      }
    } else if TextAfter(x, y) {
      var k: nat :| TextAfterAt(x, y, k);
      FirstChars(x, y, k);
    } else {
      assert !TextAfterAt(x, y, 0);
    }
  }

  lemma FirstChars(x: string, y: string, k: nat)
    requires TextAfterAt(x, y, k)
    ensures k == 0 || (y != "" && x[0] == y[0])
  {
    if k > 0 {
      assert x[..k][0] == y[..k][0];
    }
  }

  lemma {:induction false} DigitsRun(s: string)
    requires AllDigits(s)
    ensures DigitRun(s) == |s|
  {
    if s != "" {
      DigitsRun(s[1..]);
    }
  }

  lemma AtolDigits(s: string)
    requires AllDigits(s)
    ensures Atol(s) == Number(s)
  {
    DigitsRun(s);
    assert SkipSpaces(s) == 0 && Drop(s, 0) == s && s[..|s|] == s;
    hide DigitRun;
  }

  lemma Remainder(n: int)
    ensures ToInt32(n) == if n % WORD < HALF then n % WORD else n % WORD - WORD
  {
    var q, m := n / WORD, n % WORD;
    if m < HALF {
      assert n + HALF == q * WORD + (m + HALF);
    } else {
      assert n + HALF == (q + 1) * WORD + (m - HALF);
    }
  }

  lemma FieldSign(x: string, y: string)
    ensures CmpIdent(x, y) == 0 <==> SameField(x, y)
    ensures CmpIdent(x, y) > 0 <==> FieldAfter(x, y)
  {
    hide Atol, Number, AllDigits, StrCmp, ToInt32, TextAfter;
    StrCmpEqual(x, y);
    StrCmpAfter(x, y);
    if AllDigits(x) && AllDigits(y) {
      AtolDigits(x);
      AtolDigits(y);
      Remainder(Atol(x) - Atol(y));
    }
  }

  /** On identifiers that is the order of the standard, but for the pairs put the wrong way. */
  lemma FieldAfterIsOrder(a: Ident, b: Ident)
    requires WellFormedIdent(a) && WellFormedIdent(b) && BoundedIdent(a) && BoundedIdent(b) && a != b
    ensures FieldAfter(IdentText(a), IdentText(b)) <==> (IdentOrder(a, b) > 0) != WrongPair(a, b)
  {
    hide CmpIdent, IdentText, StrCmp, FieldAfter, WellFormedIdent, BoundedIdent;
    IdentAgrees(a, b);
    FieldSign(IdentText(a), IdentText(b));
    IdentOrderSigns(a, b);
  }

  lemma IdentOrderSigns(a: Ident, b: Ident)
    ensures -1 <= IdentOrder(a, b) <= 1
  {
  }

  // ----- lists of fields -----

  predicate SameFields(x: seq<string>, y: seq<string>) {
    |x| == |y| && forall k :: 0 <= k < |x| ==> SameField(x[k], y[k])
  }

  /** The first field that differs is after the other one, or the other list ends there. */
  ghost predicate FieldsAfter(x: seq<string>, y: seq<string>) {
    exists i: nat :: FieldsAfterAt(x, y, i)
  }

  ghost predicate FieldsAfterAt(x: seq<string>, y: seq<string>, i: nat) {
    && i < |x| && i <= |y| && (forall k :: 0 <= k < i ==> SameField(x[k], y[k]))
    && (i == |y| || FieldAfter(x[i], y[i]))
  }

  lemma {:induction false} FieldsSign(x: seq<string>, y: seq<string>, i: nat)
    requires i <= |x| && i <= |y| && forall k :: 0 <= k < i ==> SameField(x[k], y[k])
    ensures CmpIdents(x, y, i) == 0 <==> SameFields(x, y)
    ensures CmpIdents(x, y, i) > 0 <==> FieldsAfter(x, y)
    decreases |x| - i
  {
    hide CmpIdent, SameField, FieldAfter;
    if i < |x| && i < |y| {
      FieldSign(x[i], y[i]);
      if SameField(x[i], y[i]) {
        FieldsSign(x, y, i + 1);
      } else {
        FieldsDecided(x, y, i);
      }
    } else {
      FieldsDecided(x, y, i);
    }
  }

  /** At the first difference, there is no other place to look. */
  lemma FieldsDecided(x: seq<string>, y: seq<string>, i: nat)
    requires i <= |x| && i <= |y| && forall k :: 0 <= k < i ==> SameField(x[k], y[k])
    requires i < |x| && i < |y| ==> !SameField(x[i], y[i])
    ensures FieldsAfter(x, y) <==> i < |x| && (i == |y| || FieldAfter(x[i], y[i]))
  {
    hide SameField, FieldAfter;
    if FieldsAfter(x, y) {
      var j: nat :| FieldsAfterAt(x, y, j);
      if j < i {
        AfterIsNotSame(x[j], y[j]);
      }
    }
    assert i < |x| && (i == |y| || FieldAfter(x[i], y[i])) ==> FieldsAfterAt(x, y, i);
  }

  lemma AfterIsNotSame(x: string, y: string)
    ensures !(FieldAfter(x, y) && SameField(x, y))
  {
    hide CmpIdent, SameField, FieldAfter;
    FieldSign(x, y);
  }

  // ----- exchanging the sides -----

  /** The first fields that differ are two numbers half the 32-bit range apart. */
  predicate HalfApartAt(x: seq<string>, y: seq<string>, i: nat) {
    && i < |x| && i < |y| && (forall k :: 0 <= k < i ==> SameField(x[k], y[k]))
    && AllDigits(x[i]) && AllDigits(y[i]) && Above(x[i], y[i]) == HALF
  }

  ghost predicate HalfApart(x: seq<string>, y: seq<string>) { exists i: nat :: HalfApartAt(x, y, i) }

  lemma ToInt32Opposite(n: int)
    ensures ToInt32(-n) == 0 <==> ToInt32(n) == 0
    ensures n % WORD != HALF ==> ToInt32(-n) == -ToInt32(n)
    ensures n % WORD == HALF ==> ToInt32(-n) == ToInt32(n) == -HALF
  {
    hide ToInt32;
    Remainder(n);
    Remainder(-n);
    Negated(n);
  }

  lemma Negated(n: int)
    ensures (-n) % WORD == if n % WORD == 0 then 0 else WORD - n % WORD
  {
    var q, m := n / WORD, n % WORD;
    if m == 0 {
      assert -n == (-q) * WORD;
    } else {
      assert -n == (-q - 1) * WORD + (WORD - m);
    }
  }

  lemma FieldOpposite(x: string, y: string)
    ensures Sign(CmpIdent(y, x)) == -Sign(CmpIdent(x, y)) <==>
      !(AllDigits(x) && AllDigits(y) && Above(x, y) == HALF)
  {
    hide Atol, Number, AllDigits, StrCmp, ToInt32;
    StrCmpOpposite(x, y);
    if AllDigits(x) && AllDigits(y) {
      AtolDigits(x);
      AtolDigits(y);
      ToInt32Opposite(Atol(x) - Atol(y));
    }
  }

  lemma {:induction false} FieldsOpposite(x: seq<string>, y: seq<string>, i: nat)
    requires i <= |x| && i <= |y| && forall k :: 0 <= k < i ==> SameField(x[k], y[k])
    ensures Sign(CmpIdents(y, x, i)) == -Sign(CmpIdents(x, y, i)) <==> !HalfApart(x, y)
    decreases |x| - i
  {
    hide CmpIdent, SameField, AllDigits, Above;
    if i < |x| && i < |y| {
      FieldSign(x[i], y[i]);
      FieldSign(y[i], x[i]);
      SameBothWays(x[i], y[i]);
      if SameField(x[i], y[i]) {
        FieldsOpposite(x, y, i + 1);
      } else {
        FieldOpposite(x[i], y[i]);
        HalfApartDecided(x, y, i);
      }
    } else {
      HalfApartDecided(x, y, i);
    }
  }

  lemma SameBothWays(x: string, y: string)
    ensures SameField(x, y) <==> SameField(y, x)
  {
    hide Number, AllDigits;
    if AllDigits(x) && AllDigits(y) {
      Negated(Number(x) - Number(y));
    }
  }

  lemma HalfApartDecided(x: seq<string>, y: seq<string>, i: nat)
    requires i <= |x| && i <= |y| && forall k :: 0 <= k < i ==> SameField(x[k], y[k])
    requires i < |x| && i < |y| ==> !SameField(x[i], y[i])
    ensures HalfApart(x, y) <==>
      i < |x| && i < |y| && AllDigits(x[i]) && AllDigits(y[i]) && Above(x[i], y[i]) == HALF
  {
    hide AllDigits, Above;
    if HalfApart(x, y) {
      var j: nat :| HalfApartAt(x, y, j);
      if j < i {
        HalfIsNotSame(x[j], y[j]);
      }
    }
    assert i < |x| && i < |y| && AllDigits(x[i]) && AllDigits(y[i]) && Above(x[i], y[i]) == HALF ==>
      HalfApartAt(x, y, i);
  }

  lemma HalfIsNotSame(x: string, y: string)
    requires AllDigits(x) && AllDigits(y) && Above(x, y) == HALF
    ensures !SameField(x, y)
  {
    hide AllDigits, Number;
  }
}
