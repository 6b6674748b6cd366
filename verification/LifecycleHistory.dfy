/** Runs of lifecycle commands with their history: which creation a state file comes
    from, and how often it was started. */
module LifecycleHistory {
  import opened CLib
  import opened Json
  import opened StateFile
  import opened StateReader
  import opened StateRoundTrip
  import opened Rewrite
  import opened MountTable
  import opened Lifecycle
  import opened LifecycleRuns
  import KillProtocol
  import StartRace

  /** What the last creation of an id wrote, and how many starts of it returned true. */
  datatype Origin = Origin(config: Config, created: string, starts: nat)

  datatype World = World(host: Host, origins: map<string, Origin>)

  function Next(root: string, w: World, c: Call): World
    requires ValidCall(c)
  {
    var (h, ret) := Run(root, w.host, c);
    var a := c.answers;
    World(h,
      if c.command.DoCreate? && ret && !c.command.input.dryRun && a.launched.Some? && a.timestamp.Some? then
        w.origins[c.id := Origin(
          CreatedConfig(c.id, Below(root, c.id), c.command.input, a.launched.value), a.timestamp.value, 0)]
      else if c.command.DoStart? && ret && c.id in w.origins then
        w.origins[c.id := w.origins[c.id].(starts := w.origins[c.id].starts + 1)]
      else w.origins)
  }

  /** The run of a list of commands on a host without containers. */
  function History(root: string, table: multiset<string>, calls: seq<Call>): World
    requires AllValid(calls)
  {
    if calls == [] then World(Host({}, map[], table), map[])
    else Next(root, History(root, table, calls[..|calls| - 1]), calls[|calls| - 1])
  }

  lemma {:induction false} HistoryIsExec(root: string, table: multiset<string>, calls: seq<Call>)
    requires AllValid(calls)
    ensures History(root, table, calls).host == Exec(root, Host({}, map[], table), calls)
  {
    hide Run;
    if calls != [] {
      HistoryIsExec(root, table, calls[..|calls| - 1]);
    }
  }

  // ----- what a state file shows -----

  /** The file of a creation with a status, its annotations kept or dropped. */
  function Shown(o: Origin, status: Status, annotated: bool): Option<Json> {
    Doc(Base(o, status, annotated), o.created)
  }

  function Base(o: Origin, status: Status, annotated: bool): Config {
    o.config.(status := status, annotations := if annotated then o.config.annotations else [])
  }

  predicate Sound(root: string, id: string, o: Origin) {
    Storable(o.config) && o.config.runtimePath == Below(root, id) && o.config.containerId == Some(id)
  }

  lemma BaseStorable(root: string, id: string, o: Origin, status: Status, annotated: bool)
    requires Sound(root, id, o) && !status.Invalid?
    ensures Storable(Base(o, status, annotated)) && Shown(o, status, annotated).Some?
  {
    hide DocMembers;
  }

  /** A command that reads the file works with the configuration it was written from. */
  lemma LoadShown(root: string, h: Host, id: string, o: Origin, status: Status, annotated: bool)
    requires Sound(root, id, o) && !status.Invalid? && File(root, h, id) == Shown(o, status, annotated)
    ensures var r := Loaded(h, Below(root, id), id, true);
      && r.Some? && r.value.1.status == status && r.value.0.status == status
      && r.value.1.createTime == Some(o.created) && r.value.0.runtimePath == Below(root, id)
      && r.value.1.mounts == MountsAt(Recorded(o.config.mounts))
      && ConfigUpdate(r.value.0, r.value.1) == Reloaded(Base(o, status, annotated))
  {
    BaseStorable(root, id, o, status, annotated);
    Reload(Base(o, status, annotated), o.created);
    hide Doc, Read, MountsAt, Recorded, ConfigUpdate, ReadVm, StatePath, Below;
    StatusKept(root, h, id, o, status, annotated);
  }

  lemma StatusKept(root: string, h: Host, id: string, o: Origin, status: Status, annotated: bool)
    ensures var r := Loaded(h, Below(root, id), id, true);
      r.Some? ==> r.value.0.status == r.value.1.status && r.value.0.runtimePath == Below(root, id)
  {
    hide Read, StatePath, Below;
  }

  /** What it writes shows the same creation, with the new status, without annotations. */
  lemma WriteShown(
    root: string, h: Host, id: string, o: Origin, status: Status, annotated: bool, next: Status, ok: bool)
    requires Sound(root, id, o) && !status.Invalid? && !next.Invalid? && HasDir(root, h, id)
    ensures Shown(o, next, false).Some?
    ensures WriteState(h, Reloaded(Base(o, status, annotated)).(status := next), Some(o.created), ok)
         == if ok then (h.(files := h.files[StatePath(Below(root, id)) := Shown(o, next, false).value]), true)
            else (h, false)
  {
    var base := Base(o, status, annotated);
    BaseStorable(root, id, o, status, annotated);
    BaseStorable(root, id, o, next, false);
    RewriteKeepsFields(base, o.created, next);
    assert base.(status := next, annotations := []) == Base(o, next, false);
    hide Doc, MountsAt, Recorded, ReadVm, StatePath, Below, Storable;
  }

  // ----- what every command keeps -----

  /** The file shows this creation; a creation that was started is not CREATED. */
  predicate Shows(root: string, h: Host, id: string, o: Origin, status: Status, annotated: bool) {
    && !status.Invalid? && HasDir(root, h, id) && File(root, h, id) == Shown(o, status, annotated)
    && (status.Created? ==> o.starts == 0)
  }

  ghost predicate ShowsSome(root: string, h: Host, id: string, o: Origin) {
    exists status: Status, annotated: bool :: Shows(root, h, id, o, status, annotated)
  }

  ghost predicate Kept(root: string, w: World, id: string) {
    && (id in w.origins ==> Sound(root, id, w.origins[id]) && w.origins[id].starts <= 1)
    && (File(root, w.host, id).Some? ==> id in w.origins && ShowsSome(root, w.host, id, w.origins[id]))
  }

  lemma FileWritten(root: string, h: Host, id: string, doc: Json)
    ensures var h' := h.(files := h.files[StatePath(Below(root, id)) := doc]);
      File(root, h', id) == Some(doc) && (HasDir(root, h', id) <==> HasDir(root, h, id))
  {
  }

  /** After a cleanup the file is gone, or everything it shows is as it was. */
  lemma CleanUpShows(root: string, h: Host, id: string, config: Config, a: Answers)
    requires ValidId(id) && config.runtimePath == Below(root, id)
    ensures var (h', ret) := CleanUp(h, config, a);
      && (File(root, h', id).None?
          || (File(root, h', id) == File(root, h, id) && (HasDir(root, h', id) <==> HasDir(root, h, id))))
      && (ret ==> File(root, h', id).None? && !HasDir(root, h', id))
  {
    hide UnmountAll, StatePath, Below, Under, Recorded;
    UnderOwn(root, id);
  }

  /** A pause or a resume returns true exactly if the container is already there, or the
      VM takes the command and the file is written; only then can anything change. */
  lemma ToggleShows(root: string, h: Host, id: string, pause: bool, a: Answers, o: Origin, s: Status, annotated: bool)
    returns (s': Status, annotated': bool)
    requires Sound(root, id, o) && Shows(root, h, id, o, s, annotated)
    ensures var (h', ret) := Toggle(h, Below(root, id), id, pause, a);
      && Shows(root, h', id, o, s', annotated')
      && (ret <==> a.readable && ((if pause then s.Paused? else s.Running?) || (a.qmp && a.written)))
      && s' == (if ret then (if pause then Paused else Running) else s)
      && (!ret || s' == s ==> h' == h)
  {
    hide WriteState, Loaded, ConfigUpdate, Below, StatePath, Shown, Reloaded, Base, Sound;
    s', annotated' := s, annotated;
    LoadShown(root, h, id, o, s, annotated);
    NotReadable(h, Below(root, id), id);
    var dest := if pause then Paused else Running;
    WriteShown(root, h, id, o, s, annotated, dest, a.written);
    if a.readable && s != dest && a.qmp && a.written {
      s', annotated' := dest, false;
      FileWritten(root, h, id, Shown(o, dest, false).value);
    }
  }

  lemma NotReadable(h: Host, runtimePath: string, id: string)
    ensures Loaded(h, runtimePath, id, false).None?
    ensures FileAt(h, StatePath(runtimePath)).None? ==> forall readable :: Loaded(h, runtimePath, id, readable).None?
  {
    hide Read;
  }

  /** What the kill records and returns is what it would record on its own. */
  lemma KillShows(root: string, h: Host, id: string, a: Answers, o: Origin, s: Status, annotated: bool)
    returns (s': Status, annotated': bool)
    requires Sound(root, id, o) && Shows(root, h, id, o, s, annotated)
    ensures var (h', ret) := Kill(h, Below(root, id), id, a);
      && Shows(root, h', id, o, s', annotated')
      && (a.readable ==> (s', ret) == KillProtocol.KillAlone(s, a.written, a.signalled, a.rewritten))
      && (!a.readable ==> h' == h && !ret)
      && (annotated' <==> annotated && !(a.readable && a.written))
  {
    hide WriteState, Loaded, ConfigUpdate, Below, StatePath, Shown, Reloaded, Base, Sound;
    s', annotated' := s, annotated;
    LoadShown(root, h, id, o, s, annotated);
    NotReadable(h, Below(root, id), id);
    WriteShown(root, h, id, o, s, annotated, Stopping, a.written);
    if a.readable && a.written {
      FileWritten(root, h, id, Shown(o, Stopping, false).value);
      var marked := h.(files := h.files[StatePath(Below(root, id)) := Shown(o, Stopping, false).value]);
      var last := if a.signalled then Stopped else s;
      ReloadedPath(root, id, o, s, annotated);
      ReloadedStatus(o, s, annotated);
      WriteShown(root, marked, id, o, s, annotated, last, a.rewritten);
      s', annotated' := Stopping, false;
      if a.rewritten {
        s' := last;
        FileWritten(root, marked, id, Shown(o, last, false).value);
      }
    }
  }

  lemma ReloadedStatus(o: Origin, s: Status, annotated: bool)
    requires Writable(Base(o, s, annotated))
    ensures Reloaded(Base(o, s, annotated)).status == s
    ensures forall t: Status, u: Status ::
      Reloaded(Base(o, s, annotated)).(status := t).(status := u) == Reloaded(Base(o, s, annotated)).(status := u)
  {
    hide MountsAt, Recorded, ReadVm;
  }

  /** A start that returns true found CREATED, and leaves no file or RUNNING; one that does
      not wait records and returns what it would on its own. */
  lemma StartShows(root: string, h: Host, id: string, detached: bool, a: Answers, o: Origin, s: Status, annotated: bool)
    returns (s': Status, annotated': bool)
    requires ValidId(id) && Sound(root, id, o) && Shows(root, h, id, o, s, annotated)
    ensures var (h', ret) := Start(h, Below(root, id), id, detached, a);
      && (File(root, h', id).None? || Shows(root, h', id, o, s', annotated'))
      && (ret ==> s.Created? && (File(root, h', id).None? || s'.Running?))
      && (a.readable && !(a.tty && !detached && !o.config.useSocketConsole) ==>
            File(root, h', id).Some? && (s', ret) == StartRace.StartAlone(s, a.signalled, a.written))
  {
    hide WriteState, Loaded, ConfigUpdate, Below, StatePath, Shown, Reloaded, Base, Sound, CleanUp, ValidId;
    var path := Below(root, id);
    s', annotated' := s, annotated;
    LoadShown(root, h, id, o, s, annotated);
    NotReadable(h, path, id);
    WriteShown(root, h, id, o, s, annotated, Running, a.written);
    if a.readable && s.Created? && a.signalled && a.written {
      ReloadedPath(root, id, o, s, annotated);
      var config := Reloaded(Base(o, s, annotated));
      var ran := h.(files := h.files[StatePath(path) := Shown(o, Running, false).value]);
      FileWritten(root, h, id, Shown(o, Running, false).value);
      LoadShown(root, ran, id, o, Running, false);
      NotReadable(ran, path, id);
      CleanUpShows(root, ran, id, config, a);
      var wait := a.tty && !detached && !config.useSocketConsole;
      if !(wait && !a.watched) {
        s', annotated' := Running, false;
      }
    }
  }

  lemma ReloadedPath(root: string, id: string, o: Origin, s: Status, annotated: bool)
    requires Sound(root, id, o) && !s.Invalid?
    ensures Writable(Base(o, s, annotated)) && Reloaded(Base(o, s, annotated)).runtimePath == Below(root, id)
    ensures Reloaded(Base(o, s, annotated)).useSocketConsole == o.config.useSocketConsole
  {
    hide MountsAt, Recorded, ReadVm, Below;
  }

  lemma StopShows(root: string, h: Host, id: string, a: Answers, o: Origin, s: Status, annotated: bool)
    requires ValidId(id) && Sound(root, id, o) && Shows(root, h, id, o, s, annotated)
    ensures var h' := Stop(h, Below(root, id), id, a).0;
      File(root, h', id).None? || Shows(root, h', id, o, s, annotated)
  {
    hide Loaded, ConfigUpdate, Below, StatePath, Shown, Sound, CleanUp, ValidId;
    LoadShown(root, h, id, o, s, annotated);
    NotReadable(h, Below(root, id), id);
    var loaded := Loaded(h, Below(root, id), id, true);
    CleanUpShows(root, h, id, loaded.value.0.(mounts := loaded.value.1.mounts), a);
  }

  /** A stop of a container with a state file that returns true leaves neither the file
      nor the directory if and only if config.json could be parsed; if it could not, the
      stop has done nothing at all. */
  lemma StopFrees(root: string, h: Host, c: Call)
    requires ValidCall(c) && c.command.DoStop? && File(root, h, c.id).Some?
    requires Run(root, h, c).1
    ensures File(root, Run(root, h, c).0, c.id).None? && !HasDir(root, Run(root, h, c).0, c.id) <==> c.answers.parsed
    ensures !c.answers.parsed ==> Run(root, h, c).0 == h
  {
    hide CleanUp, Below, StatePath, ValidId, Loaded;
    var path := Below(root, c.id);
    LoadedPath(h, path, c.id, c.answers.readable);
    var loaded := Loaded(h, path, c.id, c.answers.readable);
    if loaded.Some? {
      CleanUpShows(root, h, c.id, loaded.value.0.(mounts := loaded.value.1.mounts), c.answers);
    }
  }

  /** Without a state file, only a creation can do anything. */
  lemma NoFileNoEffect(root: string, h: Host, c: Call)
    requires ValidCall(c) && File(root, h, c.id).None? && !c.command.DoCreate?
    ensures Run(root, h, c) == (h, c.command.DoStop?)
  {
    NotReadable(h, Below(root, c.id), c.id);
    hide Loaded, StatePath, Below, CleanUp, WriteState, ConfigUpdate;
  }

  lemma CreatedStorable(root: string, id: string, input: Input, pid: int)
    requires ValidId(id) && AllConfigured(input.mounts) && input.bundlePath != "" && IsPid(pid)
    requires DistinctAnnotations(input.annotations)
    ensures Storable(CreatedConfig(id, Below(root, id), input, pid))
  {
    hide HandledUpTo, AllConfigured, DistinctAnnotations, CmdLine.BuildPath;
  }

  /** A creation that returns true writes a file that shows it; any other leaves the
      file as it was. */
  lemma CreateShows(root: string, h: Host, c: Call)
    requires ValidCall(c) && c.command.DoCreate? && (File(root, h, c.id).Some? ==> HasDir(root, h, c.id))
    ensures var (h', ret) := Run(root, h, c); var a := c.answers;
      if ret && !c.command.input.dryRun then
        && a.launched.Some? && a.timestamp.Some? && File(root, h, c.id).None?
        && (var o := Origin(
              CreatedConfig(c.id, Below(root, c.id), c.command.input, a.launched.value), a.timestamp.value, 0);
            Sound(root, c.id, o) && Shows(root, h', c.id, o, Created, true))
      else File(root, h', c.id) == File(root, h, c.id) && (HasDir(root, h, c.id) ==> h' == h && !ret)
  {
    var id, input, a, path := c.id, c.command.input, c.answers, Below(root, c.id);
    hide TableAfter, HandledUpTo, FirstFailure, AllConfigured, LaunchedConsole, Below, Doc, StatePath, ValidId,
      DistinctAnnotations;
    if a.launched.Some? && a.timestamp.Some? {
      var config := CreatedConfig(id, path, input, a.launched.value);
      CreatedStorable(root, id, input, a.launched.value);
      var o := Origin(config, a.timestamp.value, 0);
      assert Base(o, Created, true) == config;
    }
  }

  /** Every command keeps, for its own id, what a state file shows. */
  lemma StepKeepsOwn(root: string, w: World, c: Call)
    requires ValidCall(c) && Kept(root, w, c.id)
    ensures Kept(root, Next(root, w, c), c.id)
  {
    hide Create, Start, Toggle, Kill, Stop, Below, StatePath, Shown, Sound, Shows, ValidId, File, HasDir, CreatedConfig;
    var h, id, a := w.host, c.id, c.answers;
    ShownHasDir(root, w, id);
    if c.command.DoCreate? {
      CreateShows(root, h, c);
      CreateKeeps(root, w, c);
    } else if File(root, h, id).None? {
      NoFileNoEffect(root, h, c);
    } else {
      var o := w.origins[id];
      var s, annotated :| Shows(root, h, id, o, s, annotated);
      match c.command
      case DoStart(detached) =>
        var s', annotated' := StartShows(root, h, id, detached, a, o, s, annotated);
        StartKeeps(root, w, c, s, s', annotated, annotated');
      case DoToggle(pause) =>
        var s', annotated' := ToggleShows(root, h, id, pause, a, o, s, annotated);
      case DoKill =>
        var s', annotated' := KillShows(root, h, id, a, o, s, annotated);
      case DoStop =>
        StopShows(root, h, id, a, o, s, annotated);
    }
  }

  lemma ShownHasDir(root: string, w: World, id: string)
    requires Kept(root, w, id)
    ensures File(root, w.host, id).Some? ==> HasDir(root, w.host, id)
  {
    hide File, HasDir, Sound, Shown;
  }

  lemma CreateKeeps(root: string, w: World, c: Call)
    requires ValidCall(c) && c.command.DoCreate? && Kept(root, w, c.id)
    requires var (h', ret) := Run(root, w.host, c); var a := c.answers;
      if ret && !c.command.input.dryRun then
        && a.launched.Some? && a.timestamp.Some? && File(root, w.host, c.id).None?
        && (var o := Origin(
              CreatedConfig(c.id, Below(root, c.id), c.command.input, a.launched.value), a.timestamp.value, 0);
            Sound(root, c.id, o) && Shows(root, h', c.id, o, Created, true))
      else File(root, h', c.id) == File(root, w.host, c.id) && (HasDir(root, w.host, c.id) ==> h' == w.host && !ret)
    requires File(root, w.host, c.id).Some? ==> HasDir(root, w.host, c.id)
    ensures Kept(root, Next(root, w, c), c.id)
  {
    hide Run, File, HasDir, Sound, Shows, Below, CreatedConfig;
  }

  lemma StartKeeps(root: string, w: World, c: Call, s: Status, s': Status, annotated: bool, annotated': bool)
    requires ValidCall(c) && c.command.DoStart? && Kept(root, w, c.id) && c.id in w.origins
    requires var o := w.origins[c.id];
      && Shows(root, w.host, c.id, o, s, annotated)
      && (var (h', ret) := Run(root, w.host, c);
          && (File(root, h', c.id).None? || Shows(root, h', c.id, o, s', annotated'))
          && (ret ==> s.Created? && (File(root, h', c.id).None? || s'.Running?)))
    ensures Kept(root, Next(root, w, c), c.id)
  {
    hide Run, File, HasDir, Below;
    var o := w.origins[c.id];
    var (h', ret) := Run(root, w.host, c);
    var o' := if ret then o.(starts := o.starts + 1) else o;
    assert Shown(o', s', annotated') == Shown(o, s', annotated');
    hide Shown;
    assert !File(root, h', c.id).None? ==> Shows(root, h', c.id, o', s', annotated');
    hide Sound;
    assert Sound(root, c.id, o') by { SoundStarts(root, c.id, o, o'.starts); }
  }

  lemma SoundStarts(root: string, id: string, o: Origin, starts: nat)
    requires Sound(root, id, o)
    ensures Sound(root, id, o.(starts := starts))
  {
    hide Storable;
  }

  lemma StepKeepsOther(root: string, w: World, c: Call, id: string)
    requires ValidCall(c) && ValidId(id) && id != c.id && Kept(root, w, id)
    ensures Kept(root, Next(root, w, c), id)
  {
    hide Run, File, HasDir, Sound, Shown, Below, CreatedConfig, ValidId;
    OthersUntouched(root, w.host, c);
    var w' := Next(root, w, c);
    assert id in w'.origins <==> id in w.origins;
    if id in w.origins {
      assert w'.origins[id] == w.origins[id];
      ShowsSame(root, w.host, w'.host, id, w.origins[id]);
    }
  }

  lemma ShowsSame(root: string, h: Host, h': Host, id: string, o: Origin)
    requires File(root, h', id) == File(root, h, id) && (HasDir(root, h', id) <==> HasDir(root, h, id))
    ensures ShowsSome(root, h, id, o) ==> ShowsSome(root, h', id, o)
  {
    hide File, HasDir, Shown;
    if ShowsSome(root, h, id, o) {
      var s, annotated :| Shows(root, h, id, o, s, annotated);
      assert Shows(root, h', id, o, s, annotated);
    }
  }

  lemma {:induction false} HistoryKept(root: string, table: multiset<string>, calls: seq<Call>, id: string)
    requires AllValid(calls) && ValidId(id)
    ensures Kept(root, History(root, table, calls), id)
  {
    hide Next, Sound, ValidId;
    if calls != [] {
      var front, c := calls[..|calls| - 1], calls[|calls| - 1];
      var w := History(root, table, front);
      HistoryKept(root, table, front, id);
      hide Kept;
      if c.id == id {
        StepKeepsOwn(root, w, c);
      } else {
        StepKeepsOther(root, w, c, id);
      }
    }
  }

  // ----- the main results -----

  /** Whatever commands ran, every field of a state file but the status and the
      annotations is what the last creation wrote, and that creation was started at
      most once: not at all while the status is CREATED. */
  lemma FieldsStayAsCreated(root: string, table: multiset<string>, calls: seq<Call>, id: string)
    requires AllValid(calls) && ValidId(id) && File(root, History(root, table, calls).host, id).Some?
    ensures var w := History(root, table, calls);
      && id in w.origins && HasDir(root, w.host, id)
      && exists status: Status, annotated: bool :: Shows(root, w.host, id, w.origins[id], status, annotated)
  {
    hide History, File, HasDir, Sound, Shown;
    HistoryKept(root, table, calls, id);
    var w := History(root, table, calls);
    var s, annotated :| Shows(root, w.host, id, w.origins[id], s, annotated);
  }

  lemma StartedAtMostOnce(root: string, table: multiset<string>, calls: seq<Call>, id: string)
    requires AllValid(calls) && ValidId(id) && id in History(root, table, calls).origins
    ensures History(root, table, calls).origins[id].starts <= 1
  {
    hide History, Sound, ShowsSome;
    HistoryKept(root, table, calls, id);
  }

  /** Creating an id that has a state file fails and changes nothing at all. */
  lemma CreateOnExisting(root: string, table: multiset<string>, calls: seq<Call>, c: Call)
    requires AllValid(calls) && ValidCall(c) && c.command.DoCreate?
    requires File(root, History(root, table, calls).host, c.id).Some?
    ensures var h := History(root, table, calls).host; Run(root, h, c) == (h, false)
  {
    hide History, File, Shown, Below, TableAfter, FirstFailure;
    FieldsStayAsCreated(root, table, calls, c.id);
  }

  /** After any commands, a kill records and returns what it would on its own; when
      its signal is refused but its writes succeed, the status is as it was. */
  lemma KillAfterHistory(root: string, table: multiset<string>, calls: seq<Call>, id: string, a: Answers)
    returns (o: Origin, s: Status, s': Status, annotated: bool, annotated': bool)
    requires AllValid(calls) && ValidId(id) && File(root, History(root, table, calls).host, id).Some?
    ensures var h := History(root, table, calls).host; var (h', ret) := Kill(h, Below(root, id), id, a);
      && id in History(root, table, calls).origins && o == History(root, table, calls).origins[id]
      && Shows(root, h, id, o, s, annotated) && Shows(root, h', id, o, s', annotated')
      && (a.readable ==> (s', ret) == KillProtocol.KillAlone(s, a.written, a.signalled, a.rewritten))
      && (a.readable && a.written && a.rewritten && !a.signalled ==> s' == s && !ret)
      && (!a.readable ==> h' == h && !ret)
  {
    hide History, Kill, File, HasDir, Shown, Below;
    HistoryKept(root, table, calls, id);
    o := History(root, table, calls).origins[id];
    s, annotated :| Shows(root, History(root, table, calls).host, id, o, s, annotated);
    hide Shows, Sound;
    s', annotated' := KillShows(root, History(root, table, calls).host, id, a, o, s, annotated);
  }

  // ----- a failed creation -----

  /** A directory without a state file. */
  predicate Blocked(root: string, h: Host, id: string) { HasDir(root, h, id) && File(root, h, id).None? }

  /** The creation makes the directory and ends before, or in, the write of the file. */
  predicate StopsShort(input: Input, a: Answers)
    requires AllConfigured(input.mounts)
  {
    && a.parsed && a.checked && a.mkdir
    && (|| input.dryRun || FirstFailure(input.mounts, 0, a.system, input.dryRun) < |input.mounts| || !a.workload
        || a.timestamp.None? || a.launched.None? || !a.written)
  }

  /** A creation of a new id leaves a directory without a file exactly if it stops
      short; the mounts that it made stay too. */
  lemma CreateBlocksExactly(root: string, h: Host, c: Call)
    requires ValidCall(c) && c.command.DoCreate? && !HasDir(root, h, c.id) && File(root, h, c.id).None?
    ensures Blocked(root, Run(root, h, c).0, c.id) <==> StopsShort(c.command.input, c.answers)
    ensures var input := c.command.input; StopsShort(input, c.answers) ==>
      Run(root, h, c).0.table == TableAfter(h.table, input.mounts,
        FirstFailure(input.mounts, 0, c.answers.system, input.dryRun), input.root, c.answers.system, input.dryRun)
  {
    var id, input, a, path := c.id, c.command.input, c.answers, Below(root, c.id);
    hide TableAfter, HandledUpTo, FirstFailure, AllConfigured, LaunchedConsole, Below, DocMembers, StatePath, ValidId,
      DistinctAnnotations;
    if a.launched.Some? {
      CreatedStorable(root, id, input, a.launched.value);
    }
  }

  /** After any commands: a new id that a creation stops short of is never created by any
      commands that follow, and its directory stays. */
  lemma FailedCreateBlocks(
    root: string, table: multiset<string>, calls: seq<Call>, c: Call, later: seq<Call>)
    requires AllValid(calls) && ValidCall(c) && AllValid(later) && c.command.DoCreate?
    requires !HasDir(root, History(root, table, calls).host, c.id)
    ensures AllValid(calls + [c] + later)
    ensures Blocked(root, History(root, table, calls + [c]).host, c.id) <==> StopsShort(c.command.input, c.answers)
    ensures StopsShort(c.command.input, c.answers) ==>
      Blocked(root, History(root, table, calls + [c] + later).host, c.id)
  {
    hide Blocked, StopsShort, ValidCall, Run, File, HasDir;
    var w := History(root, table, calls);
    assert (calls + [c])[..|calls|] == calls;
    assert History(root, table, calls + [c]).host == Run(root, w.host, c).0;
    hide History;
    IdOfCall(c);
    HistoryKept(root, table, calls, c.id);
    NoDirNoFile(root, w, c.id);
    CreateBlocksExactly(root, w.host, c);
    var none := Host({}, map[], table);
    HistoryIsExec(root, table, calls + [c]);
    HistoryIsExec(root, table, calls + [c] + later);
    ExecAppend(root, none, calls + [c], later);
    if StopsShort(c.command.input, c.answers) {
      BlockedForEver(root, Exec(root, none, calls + [c]), later, c.id);
    }
  }

  lemma IdOfCall(c: Call)
    requires ValidCall(c)
    ensures ValidId(c.id) && (c.command.DoCreate? ==> AllConfigured(c.command.input.mounts))
  {
  }

  lemma {:induction false} ExecAppend(root: string, h: Host, calls: seq<Call>, later: seq<Call>)
    requires AllValid(calls) && AllValid(later)
    ensures AllValid(calls + later) && Exec(root, h, calls + later) == Exec(root, Exec(root, h, calls), later)
  {
    hide Run, ValidCall;
    if later == [] {
      assert calls + later == calls;
    } else {
      ExecAppend(root, h, calls, later[..|later| - 1]);
      assert (calls + later)[..|calls + later| - 1] == calls + later[..|later| - 1];
    }
  }

  lemma NoDirNoFile(root: string, w: World, id: string)
    requires Kept(root, w, id) && !HasDir(root, w.host, id)
    ensures File(root, w.host, id).None?
  {
    ShownHasDir(root, w, id);
  }

  lemma StepStaysBlocked(root: string, h: Host, c: Call, id: string)
    requires ValidCall(c) && ValidId(id) && Blocked(root, h, id)
    ensures Blocked(root, Run(root, h, c).0, id)
    ensures c.id == id ==> Run(root, h, c) == (h, c.command.DoStop?)
  {
    hide Start, Toggle, Kill, Stop, Below, StatePath, ValidId, TableAfter, FirstFailure, File;
    if c.id != id {
      OthersUntouched(root, h, c);
      hide Create, Run;
    } else if !c.command.DoCreate? {
      NoFileNoEffect(root, h, c);
    }
  }

  /** From then on no sequence of commands can ever create the id again, or remove the
      directory: every command on it fails and does nothing, but for the stop, which
      returns true and does nothing. */
  lemma {:induction false} BlockedForEver(root: string, h: Host, calls: seq<Call>, id: string)
    requires AllValid(calls) && ValidId(id) && Blocked(root, h, id)
    ensures Blocked(root, Exec(root, h, calls), id)
    ensures forall c: Call :: ValidCall(c) && c.id == id ==>
      Run(root, Exec(root, h, calls), c) == (Exec(root, h, calls), c.command.DoStop?)
  {
    hide Run, Blocked, ValidId;
    if calls != [] {
      BlockedForEver(root, h, calls[..|calls| - 1], id);
      StepStaysBlocked(root, Exec(root, h, calls[..|calls| - 1]), calls[|calls| - 1], id);
    }
    var v := Exec(root, h, calls);
    hide Exec;
    forall c: Call | ValidCall(c) && c.id == id ensures Run(root, v, c) == (v, c.command.DoStop?) {
      StepStaysBlocked(root, v, c, id);
    }
  }
}
