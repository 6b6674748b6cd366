/** Whole arguments with their tags by name: what a launch makes of them. */
module NamedTags {
  import opened CLib
  import opened Uuid
  import opened CmdLine
  import opened Templates
  import opened Expansion
  import opened KernelParams
  import opened MissingParams
  import opened TagValues

  /** The names, in the order in which the tags are replaced. */
  const NAMES: seq<string> := [
    "WORKLOAD_DIR", "KERNEL", "KERNEL_PARAMS", "IMAGE", "SIZE",
    "COMMS_SOCKET", "PROCESS_SOCKET", "CONSOLE_DEVICE", "NAME", "UUID"]

  /** The place of a name in that order. */
  function Turn(name: string): (k: nat)
    ensures k <= |NAMES| && (k < |NAMES| <==> name in NAMES) && (k < |NAMES| ==> NAMES[k] == name)
  {
    if name == "WORKLOAD_DIR" then 0 else if name == "KERNEL" then 1 else if name == "KERNEL_PARAMS" then 2
    else if name == "IMAGE" then 3 else if name == "SIZE" then 4 else if name == "COMMS_SOCKET" then 5
    else if name == "PROCESS_SOCKET" then 6 else if name == "CONSOLE_DEVICE" then 7
    else if name == "NAME" then 8 else if name == "UUID" then 9 else 10
  }

  /** An argument: the literals, and the names of the tags between them. */
  datatype Argument = Argument(lits: seq<string>, names: seq<string>)

  predicate Proper(t: Argument) {
    && |t.lits| == |t.names| + 1
    && (forall i :: 0 <= i < |t.lits| ==> '@' !in t.lits[i])
    && (forall i :: 0 <= i < |t.names| ==> t.names[i] in NAMES)
    && forall i :: 1 <= i < |t.names| ==> t.lits[i] !in NAMES
  }

  /** The argument from its `i`th literal on, as it is written. */
  function WrittenFrom(t: Argument, i: nat): string
    requires |t.lits| == |t.names| + 1 && i < |t.lits|
    decreases |t.names| - i
  {
    if i == |t.names| then t.lits[i] else t.lits[i] + ("@" + t.names[i] + "@") + WrittenFrom(t, i + 1)
  }

  /** What a tag stands for; without kernel parameters their tag stands for itself. */
  function ValueOf(l: Launch, given: Option<string>, uuid: seq<Byte>, name: string): string
    requires l.Launchable() && |uuid| == 16
  {
    if name == "WORKLOAD_DIR" then l.rootPath
    else if name == "KERNEL" then l.kernelPath
    else if name == "KERNEL_PARAMS" then
      (match l.kernelParams case Some(params) => params case None => "@KERNEL_PARAMS@")
    else if name == "IMAGE" then l.imagePath
    else if name == "SIZE" then Decimal(l.imageSize.value)
    else if name == "COMMS_SOCKET" then l.commsPath
    else if name == "PROCESS_SOCKET" then "socket,id=procsock,path=" + l.procsockPath + ",server,nowait"
    else if name == "CONSOLE_DEVICE" then
      if given.Some? && given.value != "" then "stdio,id=charconsole0,signal=off"
      else "socket,path=" + BuildPath(l.runtimePath, "console.sock") + ",server,nowait,id=charconsole0,signal=off"
    else if name == "NAME" then (if |RfcText(uuid)| == 36 then RfcText(uuid)[24..] else "")
    else RfcText(uuid)
  }

  /** The argument with every tag replaced by what it stands for. */
  function ReplacedFrom(l: Launch, given: Option<string>, uuid: seq<Byte>, t: Argument, i: nat): string
    requires l.Launchable() && |uuid| == 16 && |t.lits| == |t.names| + 1 && i < |t.lits|
    decreases |t.names| - i
  {
    if i == |t.names| then t.lits[i]
    else t.lits[i] + ValueOf(l, given, uuid, t.names[i]) + ReplacedFrom(l, given, uuid, t, i + 1)
  }

  predicate NoMarks(l: Launch) {
    && '@' !in l.rootPath && '@' !in l.kernelPath && '@' !in l.imagePath && '@' !in l.commsPath
    && '@' !in l.procsockPath && '@' !in l.runtimePath && (l.kernelParams.Some? ==> '@' !in l.kernelParams.value)
  }

  predicate NamesOnce(names: seq<string>) { forall i, j :: 0 <= i < j < |names| ==> names[i] != names[j] }

  predicate OtherNamesOnce(names: seq<string>) {
    forall i, j :: 0 <= i < j < |names| ==> names[i] != names[j] || names[i] == "KERNEL_PARAMS"
  }

  /** The kernel parameters stand between two other tags and with the literals around them
      make the name of a tag: one replaced after them, but before the tag on their left and
      not after the one on their right, and that has not come up in the argument before. */
  predicate ReadAsName(t: Argument, params: string, i: nat)
    requires Proper(t)
  {
    && 1 <= i < |t.names| - 1 && t.names[i] == "KERNEL_PARAMS"
    && var name := t.lits[i] + params + t.lits[i + 1];
       && name in NAMES && Turn("KERNEL_PARAMS") < Turn(name)
       && Turn(t.names[i - 1]) > Turn(name) && Turn(t.names[i + 1]) >= Turn(name)
       && name !in t.names[..i]
  }

  // ----- as a template -----

  lemma NameTurns(k: nat)
    requires k < TAGS
    ensures |NAMES| == TAGS && NAMES[k] == TagName(k) && TagName(k) in NAMES && Turn(TagName(k)) == k
  {
    TagNames();
  }

  lemma TurnIs(name: string)
    requires name in NAMES
    ensures Turn(name) < TAGS && TagName(Turn(name)) == name
  {
    NameTurns(Turn(name));
    hide Turn, TagName, NAMES;
  }

  function Tags(t: Argument): (r: Template)
    ensures |r.tags| == |t.names| && r.lits == t.lits
    ensures forall i :: 0 <= i < |t.names| ==> r.tags[i] == Turn(t.names[i])
  {
    Template(t.lits, seq(|t.names|, i requires 0 <= i < |t.names| => Turn(t.names[i])))
  }

  lemma TagsProper(t: Argument)
    requires Proper(t)
    ensures WellFormed(Tags(t)) && NoBareNames(Tags(t))
  {
    hide Turn, TagName, NAMES;
    forall i | 0 <= i < |t.names| ensures Turn(t.names[i]) < TAGS {
      TurnIs(t.names[i]);
    }
    forall i | 1 <= i < |t.names| ensures !IsName(t.lits[i]) {
      if IsName(t.lits[i]) {
        var k := NameOf(t.lits[i]);
        NameTurns(k);
      }
    }
  }

  function Rest(t: Argument, i: nat): Argument
    requires i <= |t.names| && |t.lits| == |t.names| + 1
  {
    Argument(t.lits[i..], t.names[i..])
  }

  lemma RestTail(t: Argument, i: nat)
    requires Proper(t) && i < |t.names|
    ensures WellFormed(Tags(Rest(t, i))) && WellFormed(Tags(Rest(t, i + 1)))
    ensures Tail(Tags(Rest(t, i))) == Tags(Rest(t, i + 1))
    ensures Tags(Rest(t, i)).lits[0] == t.lits[i] && Tags(Rest(t, i)).tags[0] == Turn(t.names[i])
  {
    hide Turn, TagName, NAMES;
    TagsProper(t);
    assert Rest(t, i).lits[1..] == Rest(t, i + 1).lits;
    assert Tags(Rest(t, i)).tags == Tags(t).tags[i..];
    assert Tags(Rest(t, i + 1)).tags == Tags(t).tags[i + 1..];
  }

  lemma {:induction false} WrittenIs(t: Argument, i: nat)
    requires Proper(t) && i <= |t.names|
    ensures WellFormed(Tags(Rest(t, i))) && Render(Tags(Rest(t, i))) == WrittenFrom(t, i)
    decreases |t.names| - i
  {
    hide Turn, TagName, NAMES, Tags, WellFormed;
    if i < |t.names| {
      RestTail(t, i);
      TurnIs(t.names[i]);
      WrittenIs(t, i + 1);
      RenderOne(Tags(Rest(t, i)));
    } else {
      LastLiteral(t);
    }
  }

  lemma RenderOne(t: Template)
    requires WellFormed(t) && t.tags != []
    ensures t.tags[0] < TAGS && Render(t) == t.lits[0] + ("@" + TagName(t.tags[0]) + "@") + Render(Tail(t))
  {
    hide TagName;
  }

  lemma LastLiteral(t: Argument)
    requires Proper(t)
    ensures var u := Tags(Rest(t, |t.names|)); WellFormed(u) && u.tags == [] && Render(u) == t.lits[|t.names|]
  {
    hide Turn, NAMES;
  }

  // ----- the values by name -----

  lemma ValuesNamed(l: Launch, given: Option<string>, uuid: seq<Byte>, k: nat)
    requires l.Launchable() && |uuid| == 16 && k < TAGS
    ensures var v := l.Values(given, uuid)[k];
      && (v.Some? ==> v.value == ValueOf(l, given, uuid, TagName(k)))
      && (v.None? <==> k == PARAMS && l.kernelParams.None?)
    ensures l.kernelParams.None? ==> ValueOf(l, given, uuid, TagName(PARAMS)) == TagText(PARAMS)
  {
    hide RfcText, AfterLastHyphen, Decimal, BuildPath, TagName, TagText;
    TagNames();
    TagTexts();
    NameIsLastTwelve(uuid);
  }

  lemma ValuesPlain(l: Launch, given: Option<string>, uuid: seq<Byte>)
    requires l.Launchable() && |uuid| == 16 && NoMarks(l)
    ensures PlainValues(ValuesOf(l, given, uuid))
  {
    hide RfcText, AfterLastHyphen, Decimal, SocketConsole, StdioConsole, ProcessDevice, BuildPath, Plain;
    NotIn(l.rootPath);
    NotIn(l.kernelPath);
    NotIn(l.imagePath);
    NotIn(l.commsPath);
    if l.kernelParams.Some? {
      NotIn(l.kernelParams.value);
    }
    assert Plain("") by { EmptyPlain(); }
    NumbersPlain(l.imageSize.value, uuid);
    DevicesPlain(l.runtimePath, l.procsockPath);
    var values := l.Values(given, uuid);
    forall i | 0 <= i < TAGS && values[i].Some? ensures Plain(values[i].value) {
      assert i == 0 || i == 1 || i == 2 || i == 3 || i == 4 || i == 5 || i == 6 || i == 7 || i == 8 || i == 9;
    }
  }

  lemma NotIn(s: string)
    requires '@' !in s
    ensures Plain(s)
  {
  }

  lemma DevicesPlain(dir: string, path: string)
    requires '@' !in dir && '@' !in path
    ensures Plain(ProcessDevice(path)) && Plain(StdioConsole()) && Plain(SocketConsole(BuildPath(dir, CONSOLE_SOCKET)))
  {
    hide Plain, BuildPath;
    LiteralsPlain();
    NotIn(path);
    PlainAround("socket,id=procsock,path=", path, ",server,nowait");
    BuiltPlain(dir);
    PlainAround("socket,path=", BuildPath(dir, CONSOLE_SOCKET), ",server,nowait,id=charconsole0,signal=off");
  }

  lemma BuiltPlain(dir: string)
    requires '@' !in dir
    ensures Plain(BuildPath(dir, CONSOLE_SOCKET))
  {
    TrimmedPlain(dir);
  }

  lemma {:induction false} TrimmedPlain(s: string)
    requires '@' !in s
    ensures '@' !in TrimSlashes(s)
  {
    if s != "" && s[|s| - 1] == '/' {
      TrimmedPlain(s[..|s| - 1]);
    }
  }

  lemma {:induction false} ReplacedIs(l: Launch, given: Option<string>, uuid: seq<Byte>, t: Argument, i: nat)
    requires l.Launchable() && |uuid| == 16 && Proper(t) && i <= |t.names|
    requires PlainValues(ValuesOf(l, given, uuid))
    ensures WellFormed(Tags(Rest(t, i)))
    ensures var values := ValuesOf(l, given, uuid);
      ReplacedFrom(l, given, uuid, t, i)
      == if l.kernelParams.Some? then Subst(Tags(Rest(t, i)), values) else SubstRest(Tags(Rest(t, i)), values)
    decreases |t.names| - i
  {
    hide Turn, TagName, TagText, NAMES, Tags, WellFormed, PlainValues, ValueOf, Rest, Subst, SubstRest, ReplacedFrom,
      Proper, ValuesOf;
    WholeArgument(t);
    if i < |t.names| {
      ReplacedIs(l, given, uuid, t, i + 1);
      ReplacedNext(l, given, uuid, t, i);
    } else {
      LastReplaced(l, given, uuid, t);
    }
  }

  lemma ReplacedNext(l: Launch, given: Option<string>, uuid: seq<Byte>, t: Argument, i: nat)
    requires l.Launchable() && |uuid| == 16 && Proper(t) && i < |t.names|
    requires PlainValues(ValuesOf(l, given, uuid))
    requires WellFormed(Tags(Rest(t, i + 1)))
    requires var values := ValuesOf(l, given, uuid);
      ReplacedFrom(l, given, uuid, t, i + 1)
      == if l.kernelParams.Some? then Subst(Tags(Rest(t, i + 1)), values) else SubstRest(Tags(Rest(t, i + 1)), values)
    ensures WellFormed(Tags(Rest(t, i)))
    ensures var values := ValuesOf(l, given, uuid);
      ReplacedFrom(l, given, uuid, t, i)
      == if l.kernelParams.Some? then Subst(Tags(Rest(t, i)), values) else SubstRest(Tags(Rest(t, i)), values)
  {
    hide Turn, TagName, TagText, NAMES, Tags, WellFormed, PlainValues, ValueOf, Rest, Subst, SubstRest, ValuesOf;
    RestTail(t, i);
    var u, values := Tags(Rest(t, i)), ValuesOf(l, given, uuid);
    TurnIs(t.names[i]);
    OneValue(l, given, uuid, Turn(t.names[i]));
    HasTags(t, i);
    SubstOne(u, values);
    UnfoldRest(u, values);
  }

  lemma HasTags(t: Argument, i: nat)
    requires Proper(t) && i < |t.names|
    ensures Tags(Rest(t, i)).tags != []
  {
    hide Turn, NAMES;
  }

  lemma SubstOne(t: Template, values: seq<string>)
    requires WellFormed(t) && PlainValues(values) && t.tags != []
    ensures t.tags[0] < TAGS == |values|
    ensures Subst(t, values) == t.lits[0] + values[t.tags[0]] + Subst(Tail(t), values)
  {
  }

  lemma OneValue(l: Launch, given: Option<string>, uuid: seq<Byte>, k: nat)
    requires l.Launchable() && |uuid| == 16 && k < TAGS
    ensures var values := ValuesOf(l, given, uuid);
      ValueOf(l, given, uuid, TagName(k))
      == if k == PARAMS && l.kernelParams.None? then TagText(PARAMS) else values[k]
  {
    hide ValueOf, TagName, TagText, Launch.Values;
    ValuesNamed(l, given, uuid, k);
  }

  lemma LastReplaced(l: Launch, given: Option<string>, uuid: seq<Byte>, t: Argument)
    requires l.Launchable() && |uuid| == 16 && Proper(t) && PlainValues(ValuesOf(l, given, uuid))
    ensures var u := Tags(Rest(t, |t.names|)); var values := ValuesOf(l, given, uuid);
      && WellFormed(u) && u.tags == []
      && Subst(u, values) == t.lits[|t.names|] && SubstRest(u, values) == t.lits[|t.names|]
      && ReplacedFrom(l, given, uuid, t, |t.names|) == t.lits[|t.names|]
  {
    hide Turn, NAMES, PlainValues;
    LastLiteral(t);
  }

  // ----- the conditions by name -----

  lemma TurnsDiffer(a: string, b: string)
    requires a in NAMES && b in NAMES
    ensures Turn(a) == Turn(b) <==> a == b
  {
    hide NAMES, Turn;
    TurnIs(a);
    TurnIs(b);
  }

  lemma OnceIsDistinct(t: Argument)
    requires Proper(t)
    ensures Distinct(Tags(t).tags) <==> NamesOnce(t.names)
  {
    hide NAMES, Turn;
    var u := Tags(t);
    forall i, j | 0 <= i < j < |t.names| ensures u.tags[i] != u.tags[j] <==> t.names[i] != t.names[j] {
      TurnsDiffer(t.names[i], t.names[j]);
    }
  }

  lemma NotBefore(t: Argument, i: nat, name: string)
    requires Proper(t) && i <= |t.names| && name in NAMES
    ensures Turn(name) in Tags(t).tags[..i] <==> name in t.names[..i]
  {
    hide NAMES, Turn;
    var u := Tags(t);
    forall j | 0 <= j < i ensures u.tags[j] == Turn(name) <==> t.names[j] == name {
      TurnsDiffer(t.names[j], name);
    }
    if Turn(name) in u.tags[..i] {
      var j :| 0 <= j < i && u.tags[..i][j] == Turn(name);
      assert t.names[..i][j] == name;
    }
    if name in t.names[..i] {
      var j :| 0 <= j < i && t.names[..i][j] == name;
      assert u.tags[..i][j] == Turn(name);
    }
  }

  lemma ParamsTurn()
    ensures "KERNEL_PARAMS" in NAMES && Turn("KERNEL_PARAMS") == PARAMS
  {
    assert NAMES[2] == "KERNEL_PARAMS";
  }

  lemma ReadAsIs(t: Argument, params: string, i: nat)
    requires Proper(t)
    ensures WellFormed(Tags(t))
    ensures ReadAsName(t, params, i) <==> exists j: nat :: ParamsReadAs(Tags(t), params, i, j)
  {
    hide NAMES, Turn, TagName;
    TagsProper(t);
    ParamsTurn();
    var u := Tags(t);
    if 1 <= i < |t.names| - 1 {
      TurnsDiffer(t.names[i], "KERNEL_PARAMS");
      var name := t.lits[i] + params + t.lits[i + 1];
      if name in NAMES {
        TurnIs(name);
        NotBefore(t, i, name);
      }
      if ReadAsName(t, params, i) {
        assert ParamsReadAs(u, params, i, Turn(name));
      }
      if j: nat :| ParamsReadAs(u, params, i, j) {
        NameTurns(j);
      }
    }
  }

  ghost predicate AnyReadAsName(t: Argument, params: string)
    requires Proper(t)
  {
    exists i: nat :: ReadAsName(t, params, i)
  }

  lemma MisreadIs(t: Argument, params: string)
    requires Proper(t)
    ensures WellFormed(Tags(t)) && (ParamsMisread(Tags(t), params) <==> AnyReadAsName(t, params))
  {
    hide NAMES, Turn, TagName, ReadAsName, ParamsReadAs, Proper;
    TagsProper(t);
    var u := Tags(t);
    if ParamsMisread(u, params) {
      var i: nat, j: nat :| ParamsReadAs(u, params, i, j);
      ReadAsIs(t, params, i);
    }
    if AnyReadAsName(t, params) {
      var i: nat :| ReadAsName(t, params, i);
      ReadAsIs(t, params, i);
    }
  }

  // ----- the main results -----

  /** For every launch with kernel parameters, and every argument: each tag becomes what its
      name stands for, all at once, if and only if no name is repeated and the parameters
      are not read as a name. */
  lemma ArgumentExpands(l: Launch, given: Option<string>, uuid: seq<Byte>, t: Argument)
    requires l.Launchable() && |uuid| == 16 && Resolved(l) && NoMarks(l) && l.kernelParams.Some? && Proper(t)
    ensures Expand(WrittenFrom(t, 0), l.Values(given, uuid)) == ReplacedFrom(l, given, uuid, t, 0) <==>
      NamesOnce(t.names) && !AnyReadAsName(t, l.kernelParams.value)
  {
    hide Expand, WrittenFrom, ReplacedFrom, Tags, Render, Subst, NamesOnce, AnyReadAsName, ParamsMisread, Distinct,
      WellFormed, NoBareNames, Launch.Values, PlainValues, Resolved, ValuesOf, Proper, Turn, NAMES, Rest;
    TagsProper(t);
    ValuesPlain(l, given, uuid);
    WholeArgument(t);
    WrittenIs(t, 0);
    ReplacedIs(l, given, uuid, t, 0);
    OnceIsDistinct(t);
    MisreadIs(t, l.kernelParams.value);
    LaunchExpands(l, given, uuid, Tags(t));
  }

  lemma WholeArgument(t: Argument)
    requires Proper(t)
    ensures |t.lits| == |t.names| + 1 && Rest(t, 0) == t
  {
  }

  /** Without kernel parameters: so it is, with their tag left in place, if and only if no
      other name is repeated. */
  lemma ArgumentWithoutParams(l: Launch, given: Option<string>, uuid: seq<Byte>, t: Argument)
    requires l.Launchable() && |uuid| == 16 && Resolved(l) && NoMarks(l) && l.kernelParams.None? && Proper(t)
    ensures Expand(WrittenFrom(t, 0), l.Values(given, uuid)) == ReplacedFrom(l, given, uuid, t, 0) <==>
      OtherNamesOnce(t.names)
  {
    hide Expand, WrittenFrom, ReplacedFrom, Tags, Render, SubstRest, OtherNamesOnce, OthersOnce,
      WellFormed, NoBareNames, Launch.Values, PlainValues, Resolved, ValuesOf, Proper, Turn, NAMES, Rest;
    TagsProper(t);
    ValuesPlain(l, given, uuid);
    WholeArgument(t);
    WrittenIs(t, 0);
    ReplacedIs(l, given, uuid, t, 0);
    OthersOnceIs(t);
    LaunchWithoutParams(l, given, uuid, Tags(t));
  }

  lemma {:induction false} CountsTwice(tags: seq<nat>, k: nat)
    ensures multiset(tags)[k] >= 1 <==> exists i :: 0 <= i < |tags| && tags[i] == k
    ensures multiset(tags)[k] >= 2 <==> exists i, j :: 0 <= i < j < |tags| && tags[i] == k && tags[j] == k
  {
    if tags != [] {
      var n := |tags| - 1;
      var front := tags[..n];
      assert tags == front + [tags[n]];
      CountsTwice(front, k);
      if multiset(front)[k] >= 2 {
        var i, j :| 0 <= i < j < n && front[i] == k && front[j] == k;
        assert tags[i] == k && tags[j] == k;
      } else if multiset(front)[k] == 1 && tags[n] == k {
        var i :| 0 <= i < n && front[i] == k;
        assert tags[i] == k && tags[n] == k;
      }
      if i, j :| 0 <= i < j < |tags| && tags[i] == k && tags[j] == k {
        assert front[i] == k && (j < n ==> front[j] == k);
      }
    }
  }

  lemma OthersOnceIs(t: Argument)
    requires Proper(t)
    ensures OthersOnce(Tags(t).tags) <==> OtherNamesOnce(t.names)
  {
    hide NAMES, Turn;
    var tags := Tags(t).tags;
    ParamsTurn();
    if !OthersOnce(tags) {
      var k: nat :| k < TAGS && k != PARAMS && multiset(tags)[k] > 1;
      CountsTwice(tags, k);
      var i, j :| 0 <= i < j < |tags| && tags[i] == k && tags[j] == k;
      TurnsDiffer(t.names[i], t.names[j]);
      TurnsDiffer(t.names[i], "KERNEL_PARAMS");
    }
    if !OtherNamesOnce(t.names) {
      var i, j :| 0 <= i < j < |t.names| && t.names[i] == t.names[j] && t.names[i] != "KERNEL_PARAMS";
      TurnIs(t.names[i]);
      TurnsDiffer(t.names[i], "KERNEL_PARAMS");
      CountsTwice(tags, tags[i]);
      assert tags[j] == tags[i];
    }
  }
}
