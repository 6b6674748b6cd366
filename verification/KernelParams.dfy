/** Expansion with the values of a real launch. Paths, size, devices and UUID all hold
    a character that no tag name has; the kernel parameters may be any text, also the
    empty one, so they alone decide whether an argument is misread. */
module KernelParams {
  import opened CLib
  import opened Uuid
  import opened CmdLine
  import opened Templates
  import opened Expansion

  /** The place of the kernel parameters among the tags. */
  const PARAMS := 2

  /** The parameters stand between two other tags, and with the literals around them
      make the name of tag `j`: one replaced after the parameters, but before the tag on
      their left and not after the one on their right; no real tag `j` comes first. */
  predicate ParamsReadAs(t: Template, params: string, i: nat, j: nat)
    requires WellFormed(t)
  {
    && 1 <= i < |t.tags| - 1 && t.tags[i] == PARAMS
    && PARAMS < j < TAGS && t.lits[i] + params + t.lits[i + 1] == TagName(j)
    && t.tags[i - 1] > j && t.tags[i + 1] >= j && j !in t.tags[..i]
  }

  ghost predicate ParamsMisread(t: Template, params: string)
    requires WellFormed(t)
  {
    exists i: nat, j: nat :: ParamsReadAs(t, params, i, j)
  }

  // ----- filling and impostors by place -----

  lemma {:induction false} FillAt(t: Template, k: nat, value: string, at: nat)
    requires WellFormed(t) && Plain(value) && at < |t.tags| && t.tags[at] == k && k !in t.tags[..at]
    ensures Fill(t, k, value).lits == t.lits[..at] + [t.lits[at] + value + t.lits[at + 1]] + t.lits[at + 2..]
    ensures Fill(t, k, value).tags == t.tags[..at] + t.tags[at + 1..]
    decreases at
  {
    if at > 0 {
      assert t.tags[0] in t.tags[..at];
      assert t.tags[..at] == [t.tags[0]] + Tail(t).tags[..at - 1];
      FillAt(Tail(t), k, value, at - 1);
      FillLater(t, k, value, at);
    }
  }

  lemma FillLater(t: Template, k: nat, value: string, at: nat)
    requires WellFormed(t) && Plain(value) && 0 < at < |t.tags| && t.tags[0] != k
    requires var rest, x := Fill(Tail(t), k, value), Tail(t);
      && rest.lits == x.lits[..at - 1] + [x.lits[at - 1] + value + x.lits[at]] + x.lits[at + 1..]
      && rest.tags == x.tags[..at - 1] + x.tags[at..]
    ensures Fill(t, k, value).lits == t.lits[..at] + [t.lits[at] + value + t.lits[at + 1]] + t.lits[at + 2..]
    ensures Fill(t, k, value).tags == t.tags[..at] + t.tags[at + 1..]
  {
    hide Plain;
    var rest := Fill(Tail(t), k, value);
    assert Fill(t, k, value) == Template([t.lits[0]] + rest.lits, [t.tags[0]] + rest.tags);
    hide Fill;
    ConsSlices(t.lits, t.lits[at] + value + t.lits[at + 1], at);
    ConsCut(t.tags, at);
  }

  lemma ConsSlices(all: seq<string>, mid: string, at: nat)
    requires 0 < at && at + 2 <= |all|
    ensures [all[0]] + (all[1..][..at - 1] + [mid] + all[1..][at + 1..]) == all[..at] + [mid] + all[at + 2..]
  {
    assert all[1..][at + 1..] == all[at + 2..];
    assert [all[0]] + all[1..][..at - 1] == all[..at];
  }

  lemma ConsCut(all: seq<nat>, at: nat)
    requires 0 < at < |all|
    ensures [all[0]] + (all[1..][..at - 1] + all[1..][at..]) == all[..at] + all[at + 1..]
  {
    assert all[1..][at..] == all[at + 1..];
    assert [all[0]] + all[1..][..at - 1] == all[..at];
  }

  lemma {:induction false} ImpostorAt(t: Template, k: nat, at: nat)
    requires WellFormed(t) && k < TAGS && 1 <= at < |t.tags| && t.lits[at] == TagName(k) && k !in t.tags[..at]
    ensures Impostor(t, k)
    decreases at
  {
    hide TagName;
    assert t.tags[0] in t.tags[..at];
    if at > 1 {
      assert t.tags[..at] == [t.tags[0]] + Tail(t).tags[..at - 1];
      ImpostorAt(Tail(t), k, at - 1);
    }
  }

  lemma {:induction false} ImpostorPlace(t: Template, k: nat) returns (at: nat)
    requires WellFormed(t) && k < TAGS && Impostor(t, k)
    ensures 1 <= at < |t.tags| && t.lits[at] == TagName(k) && k !in t.tags[..at]
    decreases |t.tags|
  {
    hide TagName;
    if t.lits[1] == TagName(k) {
      at := 1;
    } else {
      at := ImpostorPlace(Tail(t), k);
      assert t.tags[..at + 1] == [t.tags[0]] + Tail(t).tags[..at];
      at := at + 1;
    }
  }

  lemma PlaceOf(tags: seq<nat>, k: nat) returns (at: nat)
    requires Distinct(tags) && k in tags
    ensures at < |tags| && tags[at] == k && k !in tags[..at] && k !in tags[at + 1..]
  {
    at :| 0 <= at < |tags| && tags[at] == k;
  }

  lemma FilledTags(t: Template, k: nat, value: string)
    requires WellFormed(t) && Plain(value) && Distinct(t.tags) && forall i :: 0 <= i < |t.tags| ==> t.tags[i] >= k
    ensures var u := Fill(t, k, value);
      Distinct(u.tags) && forall i :: 0 <= i < |u.tags| ==> u.tags[i] >= k + 1
  {
    hide Distinct, Fill;
    FillTags(t, k, value);
    DropDistinct(t.tags, k);
    DropAtLeast(t.tags, k);
  }

  // ----- one literal that is a tag name -----

  ghost predicate OneName(t: Template, m: nat, j: nat)
    requires WellFormed(t)
  {
    && 1 <= m < |t.tags| && j < TAGS && t.lits[m] == TagName(j)
    && forall i :: 1 <= i < |t.tags| && i != m ==> !IsName(t.lits[i])
  }

  predicate ReadsAs(t: Template, m: nat, j: nat)
    requires WellFormed(t) && 1 <= m < |t.tags|
  {
    t.tags[m - 1] > j && t.tags[m] >= j && j !in t.tags[..m]
  }

  lemma OneNameImpostor(t: Template, k: nat, m: nat, j: nat)
    requires WellFormed(t) && k < TAGS && OneName(t, m, j)
    ensures Impostor(t, k) <==> j == k && k !in t.tags[..m]
  {
    hide TagName, IsName;
    if Impostor(t, k) {
      var at := ImpostorPlace(t, k);
      NameIsName(k);
      if j != k {
        NamesDiffer(j, k);
      }
    }
    if j == k && k !in t.tags[..m] {
      ImpostorAt(t, k, m);
    }
  }

  /** Filling a neighbouring tag with a foreign value ends the name. */
  lemma NeighbourEndsName(t: Template, k: nat, value: string, m: nat, j: nat, at: nat)
    requires WellFormed(t) && Plain(value) && Foreign(value) && OneName(t, m, j)
    requires at < |t.tags| && t.tags[at] == k && k !in t.tags[..at] && (at == m - 1 || at == m)
    ensures NoBareNames(Fill(t, k, value))
  {
    hide TagName, IsName, Foreign, Fill;
    FillAt(t, k, value, at);
    ForeignIsNoName(t.lits[at], value, t.lits[at + 1]);
  }

  /** Filling any other tag keeps it, and moves it with what comes before. */
  lemma OthersKeepName(t: Template, k: nat, value: string, m: nat, j: nat, at: nat) returns (m': nat)
    requires WellFormed(t) && Plain(value) && Foreign(value) && OneName(t, m, j)
    requires at < |t.tags| && t.tags[at] == k && k !in t.tags[..at] && k !in t.tags[at + 1..]
    requires at != m - 1 && at != m
    ensures var u := Fill(t, k, value);
      && OneName(u, m', j)
      && (j != k ==> (ReadsAs(u, m', j) <==> ReadsAs(t, m, j)))
      && (k in t.tags[..m] <==> at < m)
  {
    hide TagName, IsName, Foreign, Fill;
    FillAt(t, k, value, at);
    ForeignIsNoName(t.lits[at], value, t.lits[at + 1]);
    var u := Fill(t, k, value);
    if at < m {
      m' := m - 1;
      assert t.tags[..m] == t.tags[..at] + [k] + t.tags[at + 1..m];
      assert u.tags[..m'] == t.tags[..at] + t.tags[at + 1..m];
    } else {
      m' := m;
      assert u.tags[..m] == t.tags[..m];
      assert t.tags[..m] == t.tags[..at][..m];
    }
  }

  /** When one literal is a tag name and the values to come are foreign: it is misread
      exactly if its tag is still to be replaced, both neighbours then still stand, and
      no real tag of that name comes first. */
  lemma {:induction false} OneNameMisread(t: Template, values: seq<string>, k: nat, m: nat, j: nat)
    requires WellFormed(t) && PlainValues(values) && k <= TAGS && OneName(t, m, j)
    requires Distinct(t.tags) && forall i :: 0 <= i < |t.tags| ==> t.tags[i] >= k
    requires forall i :: k <= i < TAGS ==> Foreign(values[i])
    ensures Misread(t, values, k) <==> k <= j && ReadsAs(t, m, j)
    decreases TAGS - k
  {
    hide TagName, IsName, Foreign, Fill, Impostor, OneName, Distinct, Plain;
    NameInside(t, m, j);
    if k < TAGS {
      OneNameImpostor(t, k, m, j);
      FilledTags(t, k, values[k]);
      if k !in t.tags {
        FillNothing(t, k, values[k]);
        OneNameMisread(t, values, k + 1, m, j);
      } else {
        var at := PlaceOf(t.tags, k);
        if at == m - 1 || at == m {
          NeighbourEndsName(t, k, values[k], m, j, at);
          NothingMisread(Fill(t, k, values[k]), values, k + 1);
          assert at == m ==> k !in t.tags[..m];
        } else {
          var m' := OthersKeepName(t, k, values[k], m, j, at);
          OneNameMisread(Fill(t, k, values[k]), values, k + 1, m', j);
        }
      }
    }
  }

  lemma NameInside(t: Template, m: nat, j: nat)
    requires WellFormed(t) && OneName(t, m, j)
    ensures 1 <= m < |t.tags| && j < TAGS
  {
  }

  // ----- from the argument as written -----

  /** Filling a tag that comes before the parameters in the order changes nothing. */
  lemma EarlierTag(t: Template, k: nat, value: string, params: string)
    requires WellFormed(t) && Plain(value) && Foreign(value) && Distinct(t.tags) && k < PARAMS
    ensures ParamsMisread(Fill(t, k, value), params) <==> ParamsMisread(t, params)
  {
    hide TagName, Foreign, Fill, Distinct;
    var u := Fill(t, k, value);
    if k !in t.tags {
      FillNothing(t, k, value);
    } else {
      var at := PlaceOf(t.tags, k);
      FillAt(t, k, value, at);
      if ParamsMisread(t, params) {
        var i, j :| ParamsReadAs(t, params, i, j);
        EarlierTagForth(t, u, k, value, params, at, i, j);
      }
      if ParamsMisread(u, params) {
        var i, j :| ParamsReadAs(u, params, i, j);
        EarlierTagBack(t, u, k, value, params, at, i, j);
      }
    }
  }

  predicate FilledAt(t: Template, u: Template, value: string, at: nat)
    requires WellFormed(t) && at < |t.tags|
  {
    && u.lits == t.lits[..at] + [t.lits[at] + value + t.lits[at + 1]] + t.lits[at + 2..]
    && u.tags == t.tags[..at] + t.tags[at + 1..]
  }

  lemma EarlierTagForth(
    t: Template, u: Template, k: nat, value: string, params: string, at: nat, i: nat, j: nat)
    requires WellFormed(t) && WellFormed(u) && k < PARAMS
    requires at < |t.tags| && t.tags[at] == k && FilledAt(t, u, value, at) && ParamsReadAs(t, params, i, j)
    ensures ParamsMisread(u, params)
  {
    hide TagName;
    if at < i {
      assert u.tags[..i - 1] == t.tags[..at] + t.tags[at + 1..i];
      assert t.tags[..i] == t.tags[..at] + [k] + t.tags[at + 1..i];
      assert ParamsReadAs(u, params, i - 1, j);
    } else {
      assert u.tags[..i] == t.tags[..i];
      assert ParamsReadAs(u, params, i, j);
    }
  }

  lemma MergedIsNoName(a: string, value: string, b: string, params: string, other: string)
    requires Foreign(value)
    ensures !IsName((a + value + b) + params + other) && !IsName(other + params + (a + value + b))
  {
    hide Foreign, IsName;
    assert (a + value + b) + params + other == a + value + (b + params + other);
    assert other + params + (a + value + b) == (other + params + a) + value + b;
    ForeignIsNoName(a, value, b + params + other);
    ForeignIsNoName(other + params + a, value, b);
  }

  lemma EarlierTagBack(
    t: Template, u: Template, k: nat, value: string, params: string, at: nat, i: nat, j: nat)
    requires WellFormed(t) && WellFormed(u) && k < PARAMS && Foreign(value)
    requires at < |t.tags| && t.tags[at] == k && FilledAt(t, u, value, at) && ParamsReadAs(u, params, i, j)
    ensures ParamsMisread(t, params)
  {
    hide TagName, Foreign, IsName;
    NameIsName(j);
    if i == at || i + 1 == at {
      MergedIsNoName(t.lits[at], value, t.lits[at + 1], params, if i == at then u.lits[i + 1] else u.lits[i]);
    } else if i > at {
      assert u.tags[..i] == t.tags[..at] + t.tags[at + 1..i + 1];
      assert t.tags[..i + 1] == t.tags[..at] + [k] + t.tags[at + 1..i + 1];
      assert ParamsReadAs(t, params, i + 1, j);
    } else {
      assert u.tags[..i] == t.tags[..i];
      assert ParamsReadAs(t, params, i, j);
    }
  }

  lemma NoImpostor(t: Template, k: nat)
    requires WellFormed(t) && k < TAGS && NoBareNames(t)
    ensures !Impostor(t, k)
  {
    hide TagName, IsName;
    if Impostor(t, k) {
      var at := ImpostorPlace(t, k);
      NameIsName(k);
    }
  }

  /** The stage of the parameters themselves. */
  lemma ParamsStage(t: Template, values: seq<string>)
    requires WellFormed(t) && PlainValues(values) && NoBareNames(t) && Distinct(t.tags)
    requires forall i :: 0 <= i < |t.tags| ==> t.tags[i] >= PARAMS
    requires forall i :: PARAMS < i < TAGS ==> Foreign(values[i])
    ensures Misread(t, values, PARAMS) <==> ParamsMisread(t, values[PARAMS])
  {
    hide TagName, IsName, Foreign, Fill, Impostor, Distinct, Plain;
    var u, params := Fill(t, PARAMS, values[PARAMS]), values[PARAMS];
    NoImpostor(t, PARAMS);
    FilledTags(t, PARAMS, params);
    if PARAMS !in t.tags {
      FillNothing(t, PARAMS, params);
      NothingMisread(u, values, PARAMS + 1);
    } else {
      var at := PlaceOf(t.tags, PARAMS);
      FillAt(t, PARAMS, params, at);
      var merged := t.lits[at] + params + t.lits[at + 1];
      if 1 <= at < |t.tags| - 1 && IsName(merged) {
        var j := NameOf(merged);
        assert OneName(u, at, j);
        OneNameMisread(u, values, PARAMS + 1, at, j);
        SameBefore(t.tags, u.tags, at);
        if ParamsMisread(t, params) {
          var i', j' :| ParamsReadAs(t, params, i', j');
          OnlyPlace(t.tags, at, i');
          if j != j' {
            NamesDiffer(j, j');
          }
        }
        assert PARAMS < j && ReadsAs(u, at, j) ==> ParamsReadAs(t, params, at, j);
      } else {
        assert NoBareNames(u);
        NothingMisread(u, values, PARAMS + 1);
        if ParamsMisread(t, params) {
          var i', j' :| ParamsReadAs(t, params, i', j');
          OnlyPlace(t.tags, at, i');
          NameIsName(j');
        }
      }
    }
  }

  lemma SameBefore(tags: seq<nat>, cut: seq<nat>, at: nat)
    requires at < |tags| && cut == tags[..at] + tags[at + 1..]
    ensures cut[..at] == tags[..at] && |cut| == |tags| - 1
    ensures at > 0 ==> cut[at - 1] == tags[at - 1]
    ensures at + 1 < |tags| ==> cut[at] == tags[at + 1]
  {
  }

  lemma OnlyPlace(tags: seq<nat>, a: nat, b: nat)
    requires Distinct(tags) && a < |tags| && b < |tags| && tags[a] == tags[b]
    ensures a == b
  {
  }

  lemma NameOf(s: string) returns (j: nat)
    requires IsName(s)
    ensures j < TAGS && s == TagName(j)
  {
    j :| 0 <= j < TAGS && s == TagName(j);
  }

  /** With foreign values for all other tags, an argument is misread exactly through the
      kernel parameters. */
  lemma ParamsMisreadExactly(t: Template, values: seq<string>)
    requires WellFormed(t) && PlainValues(values) && NoBareNames(t) && Distinct(t.tags)
    requires forall i :: 0 <= i < TAGS && i != PARAMS ==> Foreign(values[i])
    ensures Misread(t, values, 0) <==> ParamsMisread(t, values[PARAMS])
  {
    hide Fill, Impostor, Distinct, Plain, Foreign, NoBareNames, ParamsMisread;
    assert Plain(values[0]) && Plain(values[1]);
    var t1 := Fill(t, 0, values[0]);
    FillKeepsNames(t, 0, values[0]);
    FilledTags(t, 0, values[0]);
    EarlierTag(t, 0, values[0], values[PARAMS]);
    var t2 := Fill(t1, 1, values[1]);
    FillKeepsNames(t1, 1, values[1]);
    FilledTags(t1, 1, values[1]);
    EarlierTag(t1, 1, values[1], values[PARAMS]);
    ParamsStage(t2, values);
    assert Misread(t1, values, 1) <==> Misread(t2, values, 2);
  }

  // ----- the values of a launch -----

  /** What the resolution of paths guarantees of them. */
  predicate Resolved(l: Launch) {
    && l.rootPath != "" && l.rootPath[0] == '/' && l.kernelPath != "" && l.kernelPath[0] == '/'
    && l.imagePath != "" && l.imagePath[0] == '/' && '/' in l.commsPath
  }

  function ValuesOf(l: Launch, given: Option<string>, uuid: seq<Byte>): (r: seq<string>)
    requires l.Launchable() && |uuid| == 16
    ensures |r| == TAGS
  {
    var values := l.Values(given, uuid);
    seq(TAGS, i requires 0 <= i < TAGS => if values[i].Some? then values[i].value else "")
  }

  lemma AllGiven(l: Launch, given: Option<string>, uuid: seq<Byte>)
    requires l.Launchable() && |uuid| == 16 && l.kernelParams.Some?
    ensures Given(ValuesOf(l, given, uuid)) == l.Values(given, uuid)
  {
    hide RfcText, AfterLastHyphen, Decimal, SocketConsole, StdioConsole, ProcessDevice, BuildPath;
  }

  predicate IsHex(c: char) { '0' <= c <= '9' || 'a' <= c <= 'f' }

  lemma {:induction false} HexAllHex(bytes: seq<Byte>)
    ensures forall i :: 0 <= i < |HexAll(bytes)| ==> IsHex(HexAll(bytes)[i])
  {
    if bytes != [] {
      HexAllHex(bytes[..|bytes| - 1]);
      var b := bytes[|bytes| - 1] as int;
      assert IsHex(HEX[b / 16]) && IsHex(HEX[b % 16]);
    }
  }

  lemma UuidForeign(uuid: seq<Byte>)
    requires |uuid| == 16
    ensures Foreign(RfcText(uuid)) && Foreign(AfterLastHyphen(RfcText(uuid)))
  {
    RfcTextDecodes(uuid);
    NameIsLastTwelve(uuid);
    HexAllHex(uuid[10..16]);
    HexAllDigits(uuid[10..16]);
    hide HexAll, AfterLastHyphen, Decode;
    var s, last := RfcText(uuid), HexAll(uuid[10..16]);
    assert s[8] == '-';
    assert s[24..] == last by {
      assert |last| == 12 && |s| == 36;
    }
    assert !IsNameChar(last[0]);
  }

  lemma SlashForeign(path: string)
    requires '/' in path
    ensures Foreign(path)
  {
    var i :| 0 <= i < |path| && path[i] == '/';
    assert !IsNameChar(path[i]);
  }

  lemma SizeForeign(size: nat)
    ensures Foreign(Decimal(size))
  {
    var s := Decimal(size);
    assert IsDigit(s[0]);
    assert !IsNameChar(s[0]);
  }

  lemma DevicesForeign(path: string, console: string)
    ensures Foreign(ProcessDevice(path)) && Foreign(SocketConsole(console)) && Foreign(StdioConsole())
  {
    assert !IsNameChar(ProcessDevice(path)[0]) && !IsNameChar(SocketConsole(console)[0]);
    assert !IsNameChar(StdioConsole()[0]);
  }

  lemma LaunchValuesForeign(l: Launch, given: Option<string>, uuid: seq<Byte>)
    requires l.Launchable() && |uuid| == 16 && Resolved(l)
    ensures var values := ValuesOf(l, given, uuid);
      && (l.kernelParams.Some? ==> values[PARAMS] == l.kernelParams.value)
      && forall i :: 0 <= i < TAGS && i != PARAMS ==> Foreign(values[i])
  {
    hide Foreign, RfcText, AfterLastHyphen, Decimal, SocketConsole, StdioConsole, ProcessDevice, BuildPath;
    SlashForeign(l.rootPath);
    SlashForeign(l.kernelPath);
    SlashForeign(l.imagePath);
    SlashForeign(l.commsPath);
    SizeForeign(l.imageSize.value);
    DevicesForeign(l.procsockPath, BuildPath(l.runtimePath, CONSOLE_SOCKET));
    UuidForeign(uuid);
  }

  /** For every launch with resolved paths, and literals that are no bare tag names: an
      argument gets every tag's value at once if and only if no tag is repeated and the
      kernel parameters are not misread. */
  lemma LaunchExpands(l: Launch, given: Option<string>, uuid: seq<Byte>, t: Template)
    requires l.Launchable() && |uuid| == 16 && l.kernelParams.Some? && Resolved(l)
    requires WellFormed(t) && NoBareNames(t) && PlainValues(ValuesOf(l, given, uuid))
    ensures Expand(Render(t), l.Values(given, uuid)) == Subst(t, ValuesOf(l, given, uuid)) <==>
      Distinct(t.tags) && !ParamsMisread(t, l.kernelParams.value)
  {
    hide Render, Subst, Misread, ExpandFrom, Plain, Distinct, NoBareNames, Foreign, ParamsMisread;
    var values := ValuesOf(l, given, uuid);
    LaunchValuesForeign(l, given, uuid);
    AllGiven(l, given, uuid);
    ExpandIsSubst(t, values);
    if Distinct(t.tags) {
      ParamsMisreadExactly(t, values);
    }
  }

  // ----- inputs that are misread -----

  /** In @UUID@@KERNEL_PARAMS@@NAME@ kernel parameters IMAGE are taken for a tag, and so
      are empty ones between the literals IMA and GE; no literal is a tag name. */
  lemma ParamsNamedImage(values: seq<string>)
    requires PlainValues(values) && forall i :: 0 <= i < TAGS && i != PARAMS ==> Foreign(values[i])
    ensures var bare, split := Template(["", "", "", ""], [9, 2, 8]), Template(["", "IMA", "GE", ""], [9, 2, 8]);
      && WellFormed(bare) && NoBareNames(bare) && WellFormed(split) && NoBareNames(split)
      && (values[PARAMS] == "IMAGE" ==> Expand(Render(bare), Given(values)) != Subst(bare, values))
      && (values[PARAMS] == "" ==> Expand(Render(split), Given(values)) != Subst(split, values))
  {
    hide Render, Subst, ExpandFrom, Misread, Foreign;
    var bare, split := Template(["", "", "", ""], [9, 2, 8]), Template(["", "IMA", "GE", ""], [9, 2, 8]);
    ImageReadAs(bare, split);
    hide ParamsMisread, NoBareNames, TagName;
    ExpandIsSubst(bare, values);
    ExpandIsSubst(split, values);
    ParamsMisreadExactly(bare, values);
    ParamsMisreadExactly(split, values);
  }

  lemma ImageReadAs(bare: Template, split: Template)
    requires bare == Template(["", "", "", ""], [9, 2, 8]) && split == Template(["", "IMA", "GE", ""], [9, 2, 8])
    ensures WellFormed(bare) && NoBareNames(bare) && Distinct(bare.tags) && ParamsMisread(bare, "IMAGE")
    ensures WellFormed(split) && NoBareNames(split) && Distinct(split.tags) && ParamsMisread(split, "")
  {
    hide TagName, IsName, ParamsReadAs;
    ShortNoName("");
    ShortNoName("IMA");
    ShortNoName("GE");
    BareReadAs(bare);
    SplitReadAs(split);
  }

  lemma BareReadAs(bare: Template)
    requires bare == Template(["", "", "", ""], [9, 2, 8])
    ensures WellFormed(bare) && ParamsReadAs(bare, "IMAGE", 1, 3)
  {
    assert "" + "IMAGE" + "" == "IMAGE";
    assert TagName(3) == "IMAGE";
  }

  lemma SplitReadAs(split: Template)
    requires split == Template(["", "IMA", "GE", ""], [9, 2, 8])
    ensures WellFormed(split) && ParamsReadAs(split, "", 1, 3)
  {
    assert "IMA" + "" + "GE" == "IMAGE";
    assert TagName(3) == "IMAGE";
  }

  lemma ShortNoName(s: string)
    requires |s| < 4
    ensures !IsName(s)
  {
    forall j | 0 <= j < TAGS ensures s != TagName(j) {
      ShortNames(j);
    }
    hide TagName;
  }

  lemma ShortNames(j: nat)
    requires j < TAGS
    ensures |TagName(j)| >= 4
  {
  }
}
