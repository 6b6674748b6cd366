/** What holds over every sequence of lifecycle commands, on any ids, with any call
    failing: ids do not meet, a state file keeps what "create" wrote, and a creation
    is started at most once. */
module LifecycleRuns {
  import opened CLib
  import opened Json
  import opened StateFile
  import opened StateReader
  import opened StateRoundTrip
  import opened Rewrite
  import opened MountTable
  import opened Lifecycle

  datatype Command =
    | DoCreate(input: Input)
    | DoStart(detached: bool)
    | DoToggle(pause: bool)
    | DoKill
    | DoStop

  datatype Call = Call(id: string, command: Command, answers: Answers)

  /** An id that names an entry of the root directory. */
  predicate ValidId(id: string) {
    id != "" && id != "." && id != ".." && forall i :: 0 <= i < |id| ==> id[i] != '/'
  }

  /** What a parsed bundle and a spawned process guarantee. */
  predicate ValidCall(c: Call) {
    && ValidId(c.id)
    && (c.command.DoCreate? ==>
          && AllConfigured(c.command.input.mounts) && c.command.input.bundlePath != ""
          && DistinctAnnotations(c.command.input.annotations)
          && (c.answers.launched.Some? ==> IsPid(c.answers.launched.value)))
  }

  predicate AllValid(calls: seq<Call>) { forall i :: 0 <= i < |calls| ==> ValidCall(calls[i]) }

  function Run(root: string, h: Host, c: Call): (Host, bool)
    requires ValidCall(c)
  {
    var path := Below(root, c.id);
    match c.command
    case DoCreate(input) => Create(h, path, c.id, input, c.answers)
    case DoStart(detached) => Start(h, path, c.id, detached, c.answers)
    case DoToggle(pause) => Toggle(h, path, c.id, pause, c.answers)
    case DoKill => Kill(h, path, c.id, c.answers)
    case DoStop => Stop(h, path, c.id, c.answers)
  }

  function Exec(root: string, h: Host, calls: seq<Call>): Host
    requires AllValid(calls)
  {
    if calls == [] then h else Run(root, Exec(root, h, calls[..|calls| - 1]), calls[|calls| - 1]).0
  }

  function File(root: string, h: Host, id: string): Option<Json> { FileAt(h, StatePath(Below(root, id))) }

  predicate HasDir(root: string, h: Host, id: string) { Below(root, id) in h.dirs }

  // ----- ids do not meet -----

  lemma BelowInjective(root: string, a: string, b: string)
    ensures Below(root, a) == Below(root, b) <==> a == b
  {
    assert a == Below(root, a)[|root| + 1..] && b == Below(root, b)[|root| + 1..];
  }

  /** A path below one id's directory is no path of another id. */
  lemma UnderOther(root: string, a: string, b: string, rest: string)
    requires ValidId(a) && ValidId(b) && a != b && (rest == "" || rest[0] == '/')
    ensures !Under(Below(root, b), Below(root, a) + rest)
  {
    var path, p := Below(root, b), Below(root, a) + rest;
    var n := |root| + 1;
    if Under(path, p) {
      if |a| < |b| {
        UnderChar(path, p, n + |a|);
      } else if |a| == |b| {
        var i :| 0 <= i < |a| && a[i] != b[i];
        UnderChar(path, p, n + i);
      }
    }
  }

  lemma UnderChar(path: string, p: string, k: nat)
    requires Under(path, p) && k < |path|
    ensures k < |p| && p[k] == path[k]
  {
    if p != path {
      assert p[..|path|][k] == p[k];
    }
  }

  lemma UnderOwn(root: string, a: string)
    ensures Under(Below(root, a), Below(root, a)) && Under(Below(root, a), StatePath(Below(root, a)))
  {
  }

  lemma OtherPaths(root: string, a: string, b: string)
    requires ValidId(a) && ValidId(b) && a != b
    ensures !Under(Below(root, b), Below(root, a)) && !Under(Below(root, b), StatePath(Below(root, a)))
    ensures StatePath(Below(root, a)) != StatePath(Below(root, b))
  {
    UnderOther(root, a, b, "");
    assert Below(root, a) + "" == Below(root, a);
    UnderOther(root, a, b, "/" + STATE_FILE);
    assert Below(root, a) + ("/" + STATE_FILE) == StatePath(Below(root, a));
    UnderOwn(root, b);
  }

  /** Nothing but the files and directories of one id differs. */
  ghost predicate OnlyChanges(root: string, h: Host, h': Host, id: string) {
    forall b :: ValidId(b) && b != id ==>
      File(root, h', b) == File(root, h, b) && (HasDir(root, h', b) <==> HasDir(root, h, b))
  }

  lemma WriteChanges(root: string, h: Host, config: Config, created: Option<string>, written: bool, id: string)
    requires ValidId(id) && config.runtimePath == Below(root, id)
    ensures OnlyChanges(root, h, WriteState(h, config, created, written).0, id)
    ensures WriteState(h, config, created, written).0.dirs == h.dirs
  {
    hide Doc, StatePath, Below;
    forall b | ValidId(b) && b != id ensures StatePath(Below(root, b)) != StatePath(Below(root, id)) {
      OtherPaths(root, b, id);
    }
  }

  lemma CleanUpChanges(root: string, h: Host, config: Config, a: Answers, id: string)
    requires ValidId(id) && config.runtimePath == Below(root, id)
    ensures OnlyChanges(root, h, CleanUp(h, config, a).0, id)
  {
    hide UnmountAll, StatePath, Below, Under, ValidId, Recorded;
    forall b | ValidId(b) && b != id
      ensures StatePath(Below(root, b)) != StatePath(Below(root, id))
      ensures !Under(Below(root, id), Below(root, b)) && !Under(Below(root, id), StatePath(Below(root, b)))
    {
      OtherPaths(root, b, id);
    }
  }

  lemma OnlyChangesChain(root: string, h: Host, h': Host, h'': Host, id: string)
    requires OnlyChanges(root, h, h', id) && OnlyChanges(root, h', h'', id)
    ensures OnlyChanges(root, h, h'', id)
  {
    hide File, HasDir, ValidId;
  }

  lemma LoadedPath(h: Host, runtimePath: string, id: string, readable: bool)
    ensures var r := Loaded(h, runtimePath, id, readable);
      r.Some? ==>
        && r.value.0.runtimePath == runtimePath && r.value.0.containerId == Some(id)
        && ConfigUpdate(r.value.0, r.value.1).runtimePath == runtimePath
        && FileAt(h, StatePath(runtimePath)).Some?
  {
    hide Read;
  }

  lemma NothingChanges(root: string, h: Host, h': Host, id: string)
    requires h'.files == h.files && (h'.dirs == h.dirs || h'.dirs == h.dirs + {Below(root, id)})
    ensures OnlyChanges(root, h, h', id)
  {
    hide StatePath;
    forall b | ValidId(b) && b != id ensures Below(root, b) != Below(root, id) {
      BelowInjective(root, b, id);
    }
  }

  lemma CreateChanges(root: string, h: Host, id: string, input: Input, a: Answers)
    requires ValidId(id) && AllConfigured(input.mounts)
    ensures OnlyChanges(root, h, Create(h, Below(root, id), id, input, a).0, id)
  {
    hide TableAfter, HandledUpTo, FirstFailure, WriteState, OnlyChanges, AllConfigured, LaunchedConsole, Below;
    var path := Below(root, id);
    var handled := FirstFailure(input.mounts, 0, a.system, input.dryRun);
    var mounted := Host(h.dirs + {path}, h.files,
      TableAfter(h.table, input.mounts, handled, input.root, a.system, input.dryRun));
    NothingChanges(root, h, h, id);
    NothingChanges(root, h, mounted, id);
    if a.launched.Some? {
      var config := CreatedConfig(id, path, input, a.launched.value);
      var h' := WriteState(mounted, config, a.timestamp, a.written).0;
      WriteChanges(root, mounted, config, a.timestamp, a.written, id);
      OnlyChangesChain(root, h, mounted, h', id);
    }
  }

  lemma StartChanges(root: string, h: Host, id: string, detached: bool, a: Answers)
    requires ValidId(id)
    ensures OnlyChanges(root, h, Start(h, Below(root, id), id, detached, a).0, id)
  {
    hide WriteState, OnlyChanges, Below, Loaded, ConfigUpdate, CleanUp;
    var path := Below(root, id);
    NothingChanges(root, h, h, id);
    LoadedPath(h, path, id, a.readable);
    var loaded := Loaded(h, path, id, a.readable);
    if loaded.Some? {
      var config := ConfigUpdate(loaded.value.0, loaded.value.1);
      var running := config.(status := Running);
      var created := loaded.value.1.createTime;
      WriteChanges(root, h, running, created, a.written, id);
      var ran := WriteState(h, running, created, a.written).0;
      CleanUpChanges(root, ran, config, a, id);
      OnlyChangesChain(root, h, ran, CleanUp(ran, config, a).0, id);
    }
  }

  lemma ToggleChanges(root: string, h: Host, id: string, pause: bool, a: Answers)
    requires ValidId(id)
    ensures OnlyChanges(root, h, Toggle(h, Below(root, id), id, pause, a).0, id)
  {
    hide WriteState, OnlyChanges, Below, Loaded, ConfigUpdate;
    var path := Below(root, id);
    NothingChanges(root, h, h, id);
    LoadedPath(h, path, id, a.readable);
    var loaded := Loaded(h, path, id, a.readable);
    if loaded.Some? {
      var config := ConfigUpdate(loaded.value.0, loaded.value.1).(status := if pause then Paused else Running);
      WriteChanges(root, h, config, loaded.value.1.createTime, a.written, id);
    }
  }

  lemma KillChanges(root: string, h: Host, id: string, a: Answers)
    requires ValidId(id)
    ensures OnlyChanges(root, h, Kill(h, Below(root, id), id, a).0, id)
  {
    hide WriteState, OnlyChanges, Below, Loaded, ConfigUpdate;
    var path := Below(root, id);
    NothingChanges(root, h, h, id);
    LoadedPath(h, path, id, a.readable);
    var loaded := Loaded(h, path, id, a.readable);
    if loaded.Some? {
      var config, created := ConfigUpdate(loaded.value.0, loaded.value.1), loaded.value.1.createTime;
      WriteChanges(root, h, config.(status := Stopping), created, a.written, id);
      var marked := WriteState(h, config.(status := Stopping), created, a.written).0;
      var last := config.(status := if a.signalled then Stopped else config.status);
      WriteChanges(root, marked, last, created, a.rewritten, id);
      OnlyChangesChain(root, h, marked, WriteState(marked, last, created, a.rewritten).0, id);
    }
  }

  lemma StopChanges(root: string, h: Host, id: string, a: Answers)
    requires ValidId(id)
    ensures OnlyChanges(root, h, Stop(h, Below(root, id), id, a).0, id)
  {
    hide OnlyChanges, Below, Loaded, CleanUp, StatePath;
    var path := Below(root, id);
    NothingChanges(root, h, h, id);
    LoadedPath(h, path, id, a.readable);
    var loaded := Loaded(h, path, id, a.readable);
    if loaded.Some? {
      CleanUpChanges(root, h, loaded.value.0.(mounts := loaded.value.1.mounts), a, id);
    }
  }

  /** No command touches the state file or the directory of another id. */
  lemma OthersUntouched(root: string, h: Host, c: Call)
    requires ValidCall(c)
    ensures OnlyChanges(root, h, Run(root, h, c).0, c.id)
  {
    hide OnlyChanges, Create, Start, Toggle, Kill, Stop;
    match c.command
    case DoCreate(input) => CreateChanges(root, h, c.id, input, c.answers);
    case DoStart(detached) => StartChanges(root, h, c.id, detached, c.answers);
    case DoToggle(pause) => ToggleChanges(root, h, c.id, pause, c.answers);
    case DoKill => KillChanges(root, h, c.id, c.answers);
    case DoStop => StopChanges(root, h, c.id, c.answers);
  }
}
