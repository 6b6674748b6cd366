/** Each lifecycle command on a container whose state file is there, from the status that
    the file shows and the answers of the system: what it returns, and the whole host that
    it leaves. */
module Outcomes {
  import opened CLib
  import opened Json
  import opened Sections
  import opened StateFile
  import opened StateReader
  import opened StateCodec
  import opened StateRoundTrip
  import opened Rewrite
  import opened MountTable
  import opened Destinations
  import opened Lifecycle
  import opened LifecycleRuns
  import opened LifecycleHistory
  import opened FileText
  import opened CleanUps

  /** What a container was created from: its bundle and options, its VM, and the time. */
  datatype Made = Made(input: Input, pid: int, created: string)

  predicate Sane(m: Made) {
    && AllConfigured(m.input.mounts) && m.input.bundlePath != "" && DistinctAnnotations(m.input.annotations)
    && IsPid(m.pid)
  }

  function PathOf(root: string, id: string): string { root + "/" + id }

  function TextOf(root: string, id: string, m: Made, status: Status, annotated: bool): Json
    requires Sane(m)
  {
    FileOf(id, PathOf(root, id), m.input, m.pid, m.created, status, annotated)
  }

  /** The container is there, with this status. */
  predicate Container(root: string, h: Host, id: string, m: Made, status: Status, annotated: bool)
    requires Sane(m)
  {
    && !status.Invalid? && PathOf(root, id) in h.dirs
    && var file := PathOf(root, id) + "/state.json";
       file in h.files && h.files[file] == TextOf(root, id, m, status, annotated)
  }

  /** The same host, but for the status in the state file, and its annotations. */
  function WithStatus(root: string, h: Host, id: string, m: Made, status: Status): Host
    requires Sane(m)
  {
    h.(files := h.files[PathOf(root, id) + "/state.json" := TextOf(root, id, m, status, false)])
  }

  // ----- the container as an origin of the history -----

  function OriginOf(root: string, id: string, m: Made): Origin
    requires Sane(m)
  {
    Origin(CreatedConfig(id, Below(root, id), m.input, m.pid), m.created, 0)
  }

  lemma PathIs(root: string, id: string)
    requires ValidId(id)
    ensures id != "" && Below(root, id) == PathOf(root, id) && DirectoryPath(PathOf(root, id))
  {
    assert PathOf(root, id)[|PathOf(root, id)| - 1] == id[|id| - 1];
  }

  lemma OriginShown(root: string, id: string, m: Made, status: Status, annotated: bool)
    requires ValidId(id) && Sane(m) && !status.Invalid?
    ensures Sound(root, id, OriginOf(root, id, m))
    ensures Shown(OriginOf(root, id, m), status, annotated) == Some(TextOf(root, id, m, status, annotated))
    ensures OriginOf(root, id, m).config.useSocketConsole == (m.input.useSocketConsole || NoConsole(m.input))
    ensures Recorded(OriginOf(root, id, m).config.mounts) == Places(m.input.mounts, m.input.root)
  {
    hide Doc, FileOf, HandledUpTo, Recorded, Places, AllConfigured, DistinctAnnotations, LaunchedConsole, Storable,
      PathOf, Below, ValidId;
    PathIs(root, id);
    CreatedStorable(root, id, m.input, m.pid);
    CreatedText(id, PathOf(root, id), m.input, m.pid, m.created, status, annotated);
    RecordedPlaces(m.input.mounts, m.input.root);
    WholeRun(multiset{}, m.input.mounts, m.input.root, System({}, {}, {}, {}));
    ConsoleTexts(m.input, PathOf(root, id));
  }

  lemma ContainerShows(root: string, h: Host, id: string, m: Made, status: Status, annotated: bool)
    requires ValidId(id) && Sane(m) && Container(root, h, id, m, status, annotated)
    ensures Sound(root, id, OriginOf(root, id, m)) && HasDir(root, h, id)
    ensures File(root, h, id) == Shown(OriginOf(root, id, m), status, annotated)
  {
    hide Shown, Sound, OriginOf, TextOf, Sane, ValidId, PathOf, Below, StatePath;
    OriginShown(root, id, m, status, annotated);
    PathIs(root, id);
    PathTexts(PathOf(root, id));
  }

  /** A command that can read the file has this configuration in hand. */
  lemma InHand(root: string, h: Host, id: string, m: Made, s: Status, annotated: bool) returns (config: Config)
    requires ValidId(id) && Sane(m) && Container(root, h, id, m, s, annotated)
    ensures var r := Loaded(h, PathOf(root, id), id, true);
      && r.Some? && r.value.1.status == s && r.value.1.createTime == Some(m.created)
      && config == ConfigUpdate(r.value.0, r.value.1) && config.status == s
    ensures Recorded(config.mounts) == Places(m.input.mounts, m.input.root)
    ensures config.runtimePath == PathOf(root, id)
    ensures config.useSocketConsole == (m.input.useSocketConsole || NoConsole(m.input))
    ensures config == Reloaded(Base(OriginOf(root, id, m), s, annotated))
    ensures Loaded(h, PathOf(root, id), id, false).None?
  {
    hide Shown, Sound, TextOf, Sane, ValidId, PathOf, Below, StatePath, Container, Reloaded, Base, OriginOf, Loaded,
      Recorded, Places, ConfigUpdate;
    var o := OriginOf(root, id, m);
    OriginCreated(root, id, m);
    PathIs(root, id);
    ContainerStatus(root, h, id, m, s, annotated);
    OriginShown(root, id, m, s, annotated);
    ContainerShows(root, h, id, m, s, annotated);
    LoadShown(root, h, id, o, s, annotated);
    NotReadable(h, PathOf(root, id), id);
    var r := Loaded(h, PathOf(root, id), id, true);
    config := ConfigUpdate(r.value.0, r.value.1);
    ReloadedPath(root, id, o, s, annotated);
    ReloadedStatus(o, s, annotated);
    ReloadedRecords(o, s, annotated);
  }

  lemma ContainerStatus(root: string, h: Host, id: string, m: Made, s: Status, annotated: bool)
    requires Sane(m) && Container(root, h, id, m, s, annotated)
    ensures !s.Invalid?
  {
  }

  lemma ReloadedRecords(o: Origin, s: Status, annotated: bool)
    requires Writable(Base(o, s, annotated))
    ensures Recorded(Reloaded(Base(o, s, annotated)).mounts) == Recorded(o.config.mounts)
  {
    hide MountsAt, Recorded;
    RecordedAgain(Recorded(o.config.mounts));
  }

  /** It can write any status, from what it has in hand. */
  lemma Writes(root: string, h: Host, id: string, m: Made, s: Status, annotated: bool, next: Status, ok: bool)
    requires ValidId(id) && Sane(m) && !s.Invalid? && !next.Invalid? && PathOf(root, id) in h.dirs
    ensures var config := Reloaded(Base(OriginOf(root, id, m), s, annotated)).(status := next);
      WriteState(h, config, Some(m.created), ok)
      == if ok then (WithStatus(root, h, id, m, next), true) else (h, false)
    ensures Writable(Base(OriginOf(root, id, m), s, annotated))
  {
    hide Shown, Sound, TextOf, Sane, ValidId, Below, PathOf, StatePath, Reloaded, Base, WriteState;
    var o := OriginOf(root, id, m);
    OriginCreated(root, id, m);
    hide OriginOf;
    PathIs(root, id);
    PathTexts(PathOf(root, id));
    OriginShown(root, id, m, s, annotated);
    OriginShown(root, id, m, next, false);
    ReloadedPath(root, id, o, s, annotated);
    WriteShown(root, h, id, o, s, annotated, next, ok);
  }

  lemma OriginCreated(root: string, id: string, m: Made)
    requires Sane(m)
    ensures OriginOf(root, id, m).created == m.created
  {
    hide CreatedConfig;
  }

  lemma WithStatusContainer(root: string, h: Host, id: string, m: Made, s: Status)
    requires Sane(m) && !s.Invalid? && PathOf(root, id) in h.dirs
    ensures Container(root, WithStatus(root, h, id, m, s), id, m, s, false)
    ensures WithStatus(root, h, id, m, s).dirs == h.dirs && WithStatus(root, h, id, m, s).table == h.table
    ensures forall t: Status ::
      WithStatus(root, WithStatus(root, h, id, m, s), id, m, t) == WithStatus(root, h, id, m, t)
  {
    hide TextOf, Sane, PathOf;
  }

  // ----- pause and resume -----

  /** A pause or a resume. */
  lemma ToggleDoes(root: string, h: Host, id: string, pause: bool, a: Answers, m: Made, s: Status, annotated: bool)
    requires ValidId(id) && Sane(m) && Container(root, h, id, m, s, annotated)
    ensures Toggle(h, PathOf(root, id), id, pause, a)
         == if !a.readable then (h, false)
            else if (pause && s.Paused?) || (!pause && s.Running?) then (h, true)
            else if !a.qmp || !a.written then (h, false)
            else (WithStatus(root, h, id, m, if pause then Paused else Running), true)
  {
    hide WriteState, Loaded, ConfigUpdate, PathOf, Reloaded, Base, Sane, ValidId, WithStatus, TextOf, OriginOf;
    ContainerStatus(root, h, id, m, s, annotated);
    var config := InHand(root, h, id, m, s, annotated);
    Writes(root, h, id, m, s, annotated, if pause then Paused else Running, a.written);
  }

  // ----- kill -----

  /** A kill: it returns true exactly if the file is read, marked, the signal delivered and
      the file written again; STOPPED is then recorded. A refused signal leaves the status
      as it was, unless the second write fails. */
  lemma KillDoes(root: string, h: Host, id: string, a: Answers, m: Made, s: Status, annotated: bool)
    requires ValidId(id) && Sane(m) && Container(root, h, id, m, s, annotated)
    ensures Kill(h, PathOf(root, id), id, a)
         == if !a.readable || !a.written then (h, false)
            else if !a.rewritten then (WithStatus(root, h, id, m, Stopping), false)
            else if !a.signalled then (WithStatus(root, h, id, m, s), false)
            else (WithStatus(root, h, id, m, Stopped), true)
  {
    hide WriteState, Loaded, ConfigUpdate, PathOf, Reloaded, Base, Sane, ValidId, WithStatus, TextOf, OriginOf;
    ContainerStatus(root, h, id, m, s, annotated);
    var config := InHand(root, h, id, m, s, annotated);
    Writes(root, h, id, m, s, annotated, Stopping, a.written);
    var last := if a.signalled then Stopped else s;
    WithStatusContainer(root, h, id, m, Stopping);
    ReloadedStatus(OriginOf(root, id, m), s, annotated);
    var marked := WithStatus(root, h, id, m, Stopping);
    ContainerHasDir(root, h, id, m, s, annotated);
    Writes(root, marked, id, m, s, annotated, last, a.rewritten);
  }

  lemma ContainerHasDir(root: string, h: Host, id: string, m: Made, s: Status, annotated: bool)
    requires Sane(m) && Container(root, h, id, m, s, annotated)
    ensures PathOf(root, id) in h.dirs
  {
  }

  // ----- start -----

  /** Whether "start" stays until the VM ends. */
  predicate Waits(input: Input, detached: bool, a: Answers) {
    a.tty && !detached && !input.useSocketConsole && !NoConsole(input)
  }

  /** The VM is resumed and RUNNING is recorded. */
  predicate Resumes(s: Status, input: Input, detached: bool, a: Answers) {
    a.readable && s.Created? && (Waits(input, detached, a) ==> a.watched) && a.signalled && a.written
  }

  /** A start that does not wait. */
  lemma StartDoes(root: string, h: Host, id: string, detached: bool, a: Answers, m: Made, s: Status, annotated: bool)
    requires ValidId(id) && Sane(m) && Container(root, h, id, m, s, annotated)
    requires !Waits(m.input, detached, a) || !Resumes(s, m.input, detached, a)
    ensures Start(h, PathOf(root, id), id, detached, a)
         == if Resumes(s, m.input, detached, a) then (WithStatus(root, h, id, m, Running), true) else (h, false)
  {
    hide WriteState, Loaded, ConfigUpdate, PathOf, Reloaded, Base, Sane, ValidId, WithStatus, TextOf, OriginOf,
      AfterWait, Recorded, Places, Container;
    ContainerStatus(root, h, id, m, s, annotated);
    ContainerHasDir(root, h, id, m, s, annotated);
    var config := InHand(root, h, id, m, s, annotated);
    Writes(root, h, id, m, s, annotated, Running, a.written);
  }

  /** A start that waits goes on, on the host as it is once its VM has ended, with the
      destinations it read from the file at its beginning. */
  lemma StartThenWaits(
    root: string, h: Host, id: string, detached: bool, a: Answers, m: Made, s: Status, annotated: bool)
    returns (config: Config)
    requires ValidId(id) && Sane(m) && Container(root, h, id, m, s, annotated)
    requires Waits(m.input, detached, a) && Resumes(s, m.input, detached, a)
    ensures Start(h, PathOf(root, id), id, detached, a)
         == AfterWait(WithStatus(root, h, id, m, Running), PathOf(root, id), id, config, a)
    ensures config.runtimePath == PathOf(root, id) && Recorded(config.mounts) == Places(m.input.mounts, m.input.root)
  {
    hide WriteState, Loaded, ConfigUpdate, PathOf, Reloaded, Base, Sane, ValidId, WithStatus, TextOf, OriginOf,
      AfterWait, Recorded, Places, Container;
    ContainerStatus(root, h, id, m, s, annotated);
    ContainerHasDir(root, h, id, m, s, annotated);
    config := InHand(root, h, id, m, s, annotated);
    Writes(root, h, id, m, s, annotated, Running, a.written);
  }

  lemma StateThere(root: string, h: Host, id: string, m: Made, s: Status, annotated: bool)
    requires ValidId(id) && Sane(m) && Container(root, h, id, m, s, annotated)
    ensures var state := StateAt(h, PathOf(root, id), true);
      state.Some? && state.value.status == s && state.value.pid == m.pid
    ensures StateAt(h, PathOf(root, id), false).None?
  {
    hide FileOf, PathOf, ValidId, AllConfigured, DistinctAnnotations, Read, AsMap, Places;
    PathIs(root, id);
    FileReads(id, PathOf(root, id), m.input, m.pid, m.created, s, annotated);
  }

  /** A start that waits, when no other command comes in between: the file still shows
      RUNNING, so it cleans up. */
  lemma WaitDoes(root: string, h: Host, id: string, detached: bool, a: Answers, m: Made, s: Status, annotated: bool)
    returns (n: nat)
    requires ValidId(id) && Sane(m) && Container(root, h, id, m, s, annotated)
    requires Waits(m.input, detached, a) && Resumes(s, m.input, detached, a)
    ensures var path := PathOf(root, id); var dests := Places(m.input.mounts, m.input.root);
      var ran, (h', ret) := WithStatus(root, h, id, m, Running), Start(h, path, id, detached, a);
      && (!a.readAgain ==> h' == ran && !ret)
      && (a.readAgain ==>
            Cleaned(ran, h', dests, path, a, n) && (ret <==> CallsSucceed(ran, dests, path, a) && a.connected))
  {
    hide PathOf, Sane, ValidId, WithStatus, TextOf, OriginOf, StateAt,
      AfterWait, Recorded, Places, Container, Cleaned, CallsSucceed, Start;
    ContainerHasDir(root, h, id, m, s, annotated);
    var config := StartThenWaits(root, h, id, detached, a, m, s, annotated);
    WithStatusContainer(root, h, id, m, Running);
    var ran := WithStatus(root, h, id, m, Running);
    StateThere(root, ran, id, m, Running, false);
    n := WaitEnds(ran, id, config, a);
  }

  // ----- stop -----

  lemma FileLists(root: string, id: string, m: Made, s: Status, annotated: bool) returns (members: seq<Member>)
    requires ValidId(id) && Sane(m) && !s.Invalid?
    ensures TextOf(root, id, m, s, annotated) == JObject(members) && DistinctKeys(members)
    ensures ListsInFile(members, Places(m.input.mounts, m.input.root))
    ensures NotArray(Lookup(members, "console")) && NotArray(Lookup(members, "vm"))
  {
    hide Places, PathOf, Recorded, HandledUpTo, AllConfigured, DistinctAnnotations, Notes, Strings, ValidId, DocMembers,
      DistinctKeys, Lookup, NotArray;
    members := TextOf(root, id, m, s, annotated).members;
    PathIs(root, id);
    TextDistinct(root, id, m, s, annotated);
    LookupAt(members, 8);
    LookupAt(members, 9);
    LookupAt(members, 10);
    ConsoleNoArray(members[9].value);
    VmNoArray(members[10].value);
  }

  lemma TextDistinct(root: string, id: string, m: Made, s: Status, annotated: bool)
    requires ValidId(id) && Sane(m) && !s.Invalid?
    ensures TextOf(root, id, m, s, annotated).JObject? && DistinctKeys(TextOf(root, id, m, s, annotated).members)
  {
    hide Places, PathOf, FileOf, Recorded, HandledUpTo, AllConfigured, DistinctAnnotations, ValidId, DocMembers,
      DistinctKeys, LaunchedConsole;
    PathIs(root, id);
    var path := PathOf(root, id);
    var config := CreatedConfig(id, path, m.input, m.pid).(
      status := s, annotations := if annotated then m.input.annotations else []);
    CreatedText(id, path, m.input, m.pid, m.created, s, annotated);
    DocDistinct(config, m.created);
  }

  lemma ConsoleNoArray(console: Json)
    requires console.JObject? && |console.members| == 2
    requires console.members[0].key == "socket" && console.members[1].key == "path"
    ensures NotArray(Some(console))
  {
  }

  lemma VmNoArray(vm: Json)
    requires vm.JObject? && |vm.members| == 5
    requires vm.members[0].key == "hypervisor_path" && vm.members[1].key == "image_path"
    requires vm.members[2].key == "kernel_path" && vm.members[3].key == "workload_path"
    requires vm.members[4].key == "kernel_params"
    ensures NotArray(Some(vm))
  {
    VmKeysDiffer();
  }

  /** A stop: it unmounts what "create" recorded. */
  lemma StopsContainer(root: string, h: Host, id: string, a: Answers, m: Made, s: Status, annotated: bool)
    returns (n: nat)
    requires ValidId(id) && Sane(m) && Container(root, h, id, m, s, annotated)
    ensures var path := PathOf(root, id); var dests := Places(m.input.mounts, m.input.root);
      var (h', ret) := Stop(h, path, id, a);
      if !a.readable then h' == h && !ret
      else if !a.parsed then h' == h && ret
      else if a.running && m.pid != 0 && !a.shutdown then h' == h && !ret
      else Cleaned(h, h', dests, path, a, n) && (ret <==> CallsSucceed(h, dests, path, a))
  {
    hide PathOf, ValidId, TextOf, StateAt, Recorded, Places, Cleaned, CallsSucceed, Stop, AllConfigured,
      DistinctKeys, ListsInFile, NotArray, Lookup;
    ContainerStatus(root, h, id, m, s, annotated);
    StateThere(root, h, id, m, s, annotated);
    var members := FileLists(root, id, m, s, annotated);
    n := StopDoes(h, PathOf(root, id), id, a, members, Places(m.input.mounts, m.input.root));
  }
}
