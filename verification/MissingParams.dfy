/** Expansion for a launch without kernel parameters, whose tag is left in place. */
module MissingParams {
  import opened CLib
  import opened Uuid
  import opened CmdLine
  import opened Templates
  import opened Expansion
  import opened KernelParams

  /** Every tag replaced at once, but for that of the parameters, which is left in place. */
  function SubstRest(t: Template, values: seq<string>): string
    requires WellFormed(t) && PlainValues(values)
    decreases |t.tags|
  {
    if t.tags == [] then t.lits[0]
    else t.lits[0] + (if t.tags[0] == PARAMS then TagText(PARAMS) else values[t.tags[0]]) + SubstRest(Tail(t), values)
  }

  /** The template after all stages but that of the parameters. */
  function FillRest(t: Template, values: seq<string>, k: nat): (u: Template)
    requires WellFormed(t) && PlainValues(values) && k <= TAGS
    ensures WellFormed(u)
    decreases TAGS - k
  {
    if k == TAGS then t else FillRest(if k == PARAMS then t else Fill(t, k, values[k]), values, k + 1)
  }

  predicate GivenRest(given: seq<Option<string>>, values: seq<string>) {
    && |given| == |values| == TAGS && given[PARAMS].None?
    && forall i :: 0 <= i < TAGS && i != PARAMS ==> given[i] == Some(values[i])
  }

  lemma {:induction false} ExpandsToRest(t: Template, given: seq<Option<string>>, values: seq<string>, k: nat)
    requires WellFormed(t) && PlainValues(values) && GivenRest(given, values) && k <= TAGS && NoBareNames(t)
    requires forall i :: 0 <= i < TAGS && i != PARAMS ==> Foreign(values[i])
    ensures ExpandFrom(Render(t), given, k) == Render(FillRest(t, values, k))
    decreases TAGS - k
  {
    hide Find, Render, Fill, Impostor, NoBareNames, Foreign, Plain, TagName;
    if k == PARAMS {
      ExpandsToRest(t, given, values, k + 1);
    } else if k < TAGS {
      FillKeepsNames(t, k, values[k]);
      hide Replace;
      StageFills(t, values, k);
      ExpandsToRest(Fill(t, k, values[k]), given, values, k + 1);
    }
  }

  lemma {:induction false} FillSubstRest(t: Template, k: nat, values: seq<string>)
    requires WellFormed(t) && PlainValues(values) && k < TAGS && k != PARAMS
    ensures SubstRest(Fill(t, k, values[k]), values) == SubstRest(t, values)
    decreases |t.tags|
  {
    hide TagName;
    if t.tags != [] {
      var u := Fill(t, k, values[k]);
      if t.tags[0] == k {
        FirstSubstRest(t, values);
      } else {
        FillSubstRest(Tail(t), k, values);
        assert Tail(u) == Fill(Tail(t), k, values[k]);
      }
    }
  }

  lemma FirstSubstRest(t: Template, values: seq<string>)
    requires WellFormed(t) && PlainValues(values) && t.tags != [] && t.tags[0] != PARAMS
    ensures SubstRest(Fill(t, t.tags[0], values[t.tags[0]]), values) == SubstRest(t, values)
  {
    hide TagText, SubstRest;
    var k := t.tags[0];
    var u, value, x := Fill(t, k, values[k]), values[k], Tail(t);
    assert u.lits[0] == t.lits[0] + value + x.lits[0] && u.tags == x.tags && u.lits[1..] == x.lits[1..];
    UnfoldRest(t, values);
    UnfoldRest(u, values);
    UnfoldRest(x, values);
    hide Fill;
    if x.tags != [] {
      assert Tail(u) == Tail(x);
      var next := if x.tags[0] == PARAMS then TagText(PARAMS) else values[x.tags[0]];
      Regroup(t.lits[0] + value, x.lits[0], next, SubstRest(Tail(x), values));
    }
  }

  lemma UnfoldRest(t: Template, values: seq<string>)
    requires WellFormed(t) && PlainValues(values)
    ensures SubstRest(t, values)
         == if t.tags == [] then t.lits[0]
            else t.lits[0] + (if t.tags[0] == PARAMS then TagText(PARAMS) else values[t.tags[0]])
                 + SubstRest(Tail(t), values)
  {
    hide TagText;
  }

  lemma Regroup(a: string, b: string, c: string, d: string)
    ensures a + (b + c + d) == (a + b) + c + d
  {
  }

  lemma {:induction false} FillRestSubst(t: Template, values: seq<string>, k: nat)
    requires WellFormed(t) && PlainValues(values) && k <= TAGS
    ensures SubstRest(FillRest(t, values, k), values) == SubstRest(t, values)
    decreases TAGS - k
  {
    hide SubstRest, Fill;
    if k < TAGS {
      if k != PARAMS {
        FillSubstRest(t, k, values);
      }
      FillRestSubst(if k == PARAMS then t else Fill(t, k, values[k]), values, k + 1);
    }
  }

  lemma {:induction false} DropFirstCounts(tags: seq<nat>, k: nat)
    ensures multiset(DropFirst(tags, k)) == multiset(tags) - multiset{k}
  {
    if tags != [] {
      assert tags == [tags[0]] + tags[1..];
      if tags[0] != k {
        DropFirstCounts(tags[1..], k);
      }
    }
  }

  lemma EveryPlain(values: seq<string>, k: nat)
    requires PlainValues(values) && k < TAGS
    ensures Plain(values[k])
  {
  }

  lemma FillCounts(t: Template, k: nat, value: string)
    requires WellFormed(t) && Plain(value)
    ensures multiset(Fill(t, k, value).tags) == multiset(t.tags) - multiset{k}
  {
    hide Fill, DropFirst;
    FillTags(t, k, value);
    DropFirstCounts(t.tags, k);
  }

  /** Each stage takes away one tag of its own. */
  lemma {:induction false} FillRestCounts(t: Template, values: seq<string>, k: nat, j: nat)
    requires WellFormed(t) && PlainValues(values) && k <= TAGS && j < TAGS
    ensures var before, after := multiset(t.tags)[j], multiset(FillRest(t, values, k).tags)[j];
      after == if j == PARAMS || j < k || before == 0 then before else before - 1
    decreases TAGS - k
  {
    hide Fill, Plain;
    if k < TAGS {
      if k != PARAMS {
        assert Plain(values[k]) by { EveryPlain(values, k); }
        FillCounts(t, k, values[k]);
      }
      FillRestCounts(if k == PARAMS then t else Fill(t, k, values[k]), values, k + 1, j);
    }
  }

  // ----- how many '@'s are left -----

  function Marks(s: string): nat { multiset(s)['@'] }

  lemma {:induction false} PlainMarks(s: string)
    requires Plain(s)
    ensures Marks(s) == 0
  {
    if s != "" {
      assert s == [s[0]] + s[1..];
      PlainMarks(s[1..]);
    }
  }

  lemma MarksSum(a: string, b: string)
    ensures Marks(a + b) == Marks(a) + Marks(b)
  {
  }

  lemma TagMarks(k: nat)
    requires k < TAGS
    ensures Marks(TagText(k)) == 2
  {
    TagNamePlain(k);
    hide TagName;
    PlainMarks(TagName(k));
    MarksSum("@" + TagName(k), "@");
    MarksSum("@", TagName(k));
  }

  /** A rendered template has two '@'s for each tag; with the tags replaced, two for each
      tag of the parameters. */
  lemma {:induction false} MarksLeft(t: Template, values: seq<string>)
    requires WellFormed(t) && PlainValues(values)
    ensures Marks(Render(t)) == 2 * |t.tags|
    ensures Marks(SubstRest(t, values)) == 2 * multiset(t.tags)[PARAMS]
    decreases |t.tags|
  {
    hide TagName, TagText, Marks;
    PlainMarks(t.lits[0]);
    if t.tags != [] {
      var k := t.tags[0];
      assert t.tags == [k] + t.tags[1..];
      MarksLeft(Tail(t), values);
      TagMarks(k);
      TagMarks(PARAMS);
      PlainMarks(values[k]);
      MarksSum(t.lits[0] + TagText(k), Render(Tail(t)));
      MarksSum(t.lits[0], TagText(k));
      var next := if k == PARAMS then TagText(PARAMS) else values[k];
      MarksSum(t.lits[0] + next, SubstRest(Tail(t), values));
      MarksSum(t.lits[0], next);
    }
  }

  lemma {:induction false} OnlyParamsRender(t: Template, values: seq<string>)
    requires WellFormed(t) && PlainValues(values) && forall i :: 0 <= i < |t.tags| ==> t.tags[i] == PARAMS
    ensures Render(t) == SubstRest(t, values)
    decreases |t.tags|
  {
    hide TagText;
    if t.tags != [] {
      OnlyParamsRender(Tail(t), values);
    }
  }

  lemma {:induction false} OtherTag(tags: seq<nat>) returns (at: nat)
    requires multiset(tags)[PARAMS] != |tags|
    ensures at < |tags| && tags[at] != PARAMS
  {
    assert tags == [tags[0]] + tags[1..];
    if tags[0] != PARAMS {
      at := 0;
    } else {
      at := OtherTag(tags[1..]);
      at := at + 1;
    }
  }

  /** No tag but that of the parameters is used twice. */
  ghost predicate OthersOnce(tags: seq<nat>) {
    forall j: nat {:trigger multiset(tags)[j]} :: j < TAGS && j != PARAMS ==> multiset(tags)[j] <= 1
  }

  /** Without kernel parameters, and with foreign values for all other tags: these get
      their values at once, and @KERNEL_PARAMS@ is left in place, if and only if no other
      tag is repeated. */
  lemma RestExpands(t: Template, given: seq<Option<string>>, values: seq<string>)
    requires WellFormed(t) && PlainValues(values) && GivenRest(given, values) && NoBareNames(t)
    requires forall i :: 0 <= i < TAGS && i != PARAMS ==> Foreign(values[i])
    ensures Expand(Render(t), given) == SubstRest(t, values) <==> OthersOnce(t.tags)
  {
    hide Render, SubstRest, FillRest, ExpandFrom, Foreign, NoBareNames, Plain;
    var u := FillRest(t, values, 0);
    ExpandsToRest(t, given, values, 0);
    FillRestSubst(t, values, 0);
    forall j: nat | j < TAGS
      ensures multiset(u.tags)[j] ==
        if j == PARAMS || multiset(t.tags)[j] == 0 then multiset(t.tags)[j] else multiset(t.tags)[j] - 1
    {
      FillRestCounts(t, values, 0, j);
    }
    if multiset(u.tags)[PARAMS] == |u.tags| {
      AllParams(u.tags);
      OnlyParamsRender(u, values);
      forall j: nat | j < TAGS && j != PARAMS ensures multiset(t.tags)[j] <= 1 {
        assert j !in u.tags;
        assert multiset(u.tags)[j] == 0;
      }
    } else {
      MarksLeft(u, values);
      var at := OtherTag(u.tags);
      assert u.tags[at] in multiset(u.tags);
    }
  }

  lemma {:induction false} AllParams(tags: seq<nat>)
    requires multiset(tags)[PARAMS] == |tags|
    ensures forall i :: 0 <= i < |tags| ==> tags[i] == PARAMS
  {
    if tags != [] {
      assert tags == [tags[0]] + tags[1..];
      CountAtMost(tags[1..]);
      AllParams(tags[1..]);
    }
  }

  lemma {:induction false} CountAtMost(tags: seq<nat>)
    ensures multiset(tags)[PARAMS] <= |tags|
  {
    if tags != [] {
      assert tags == [tags[0]] + tags[1..];
      CountAtMost(tags[1..]);
    }
  }

  /** So for every launch whose kernel parameters are missing. */
  lemma LaunchWithoutParams(l: Launch, given: Option<string>, uuid: seq<Byte>, t: Template)
    requires l.Launchable() && |uuid| == 16 && l.kernelParams.None? && Resolved(l)
    requires WellFormed(t) && NoBareNames(t) && PlainValues(ValuesOf(l, given, uuid))
    ensures Expand(Render(t), l.Values(given, uuid)) == SubstRest(t, ValuesOf(l, given, uuid)) <==> OthersOnce(t.tags)
  {
    hide Render, SubstRest, ExpandFrom, Plain, NoBareNames, Foreign, OthersOnce;
    LaunchValuesForeign(l, given, uuid);
    RestGiven(l, given, uuid);
    RestExpands(t, l.Values(given, uuid), ValuesOf(l, given, uuid));
  }

  lemma RestGiven(l: Launch, given: Option<string>, uuid: seq<Byte>)
    requires l.Launchable() && |uuid| == 16 && l.kernelParams.None?
    ensures GivenRest(l.Values(given, uuid), ValuesOf(l, given, uuid))
  {
    hide RfcText, AfterLastHyphen, Decimal, SocketConsole, StdioConsole, ProcessDevice, BuildPath;
  }
}
