/** The lifecycle commands, each run to its end by one process, on the directories,
    state files and mounts that they share. What the system answers to each call is
    a parameter, so every call may fail. */
module Lifecycle {
  import opened CLib
  import opened Json
  import opened OciConfig
  import opened StateFile
  import opened StateReader
  import opened Rewrite
  import opened MountTable
  import CmdLine

  // ----- paths -----

  const STATE_FILE := "state.json"
  const HYPERVISOR_SOCKET := "hypervisor.sock"
  const PROCESS_SOCKET := "process.sock"

  function Below(dir: string, name: string): string { dir + "/" + name }

  function StatePath(runtimePath: string): string { Below(runtimePath, STATE_FILE) }

  /** What `rm -rf path` removes. */
  predicate Under(path: string, p: string) {
    p == path || (|p| > |path| && p[..|path|] == path && p[|path|] == '/')
  }

  // ----- what the commands share -----

  datatype Host = Host(dirs: set<string>, files: map<string, Json>, table: multiset<string>)

  function FileAt(h: Host, path: string): Option<Json> {
    if path in h.files then Some(h.files[path]) else None
  }

  function DirsLeft(dirs: set<string>, path: string): set<string> {
    set d | d in dirs && !Under(path, d)
  }

  function FilesLeft(files: map<string, Json>, path: string): map<string, Json> {
    map f | f in files && !Under(path, f) :: files[f]
  }

  function RmRf(h: Host, path: string): Host {
    Host(DirsLeft(h.dirs, path), FilesLeft(h.files, path), h.table)
  }

  /** The system's answers to the calls of one command. */
  datatype Answers = Answers(
    parsed: bool,  // the bundle's config.json
    checked: bool,  // the version in it
    mkdir: bool,
    system: System,
    workload: bool,
    timestamp: Option<string>,
    launched: Option<int>,  // the pid of the VM
    readable: bool,
    written: bool,
    rewritten: bool,
    signalled: bool,
    qmp: bool,  // pausing, resuming
    tty: bool,
    watched: bool,
    connected: bool,
    readAgain: bool,
    running: bool,
    shutdown: bool,
    unlinked: bool,
    removed: bool)

  /** What "create" takes from its bundle and its options. */
  datatype Input = Input(
    bundlePath: string,
    root: string,
    mounts: seq<Mount>,
    dryRun: bool,
    console: Option<string>,
    useSocketConsole: bool,
    vm: VmCfg,
    annotations: seq<Annotation>)

  // ----- the steps, as functions -----

  function Loaded(h: Host, runtimePath: string, id: string, readable: bool): Option<(Config, OciState)> {
    GetConfigAndState(id, runtimePath, if readable then FileAt(h, StatePath(runtimePath)) else None)
  }

  /** clr_oci_state_file_create: the file is replaced as a whole, or stays as it was. */
  function WriteState(h: Host, config: Config, created: Option<string>, written: bool): (Host, bool) {
    if created.None? || Doc(config, created.value).None? || !written || config.runtimePath !in h.dirs then (h, false)
    else (h.(files := h.files[StatePath(config.runtimePath) := Doc(config, created.value).value]), true)
  }

  function CleanUp(h: Host, config: Config, a: Answers): (Host, bool) {
    var (table, ok) := UnmountAll(h.table, Recorded(config.mounts), a.system.busy);
    var unmounted := h.(table := table);
    var path := StatePath(config.runtimePath);
    if !ok then (unmounted, false)
    else if path !in h.files || !a.unlinked then (unmounted, false)
    else
      var unlinked := unmounted.(files := unmounted.files - {path});
      if config.runtimePath == "" || config.runtimePath[0] != '/' || !a.removed then (unlinked, false)
      else (RmRf(unlinked, config.runtimePath), true)
  }

  /** The console of a VM that is launched: a socket of its own unless one was given. */
  function LaunchedConsole(input: Input, runtimePath: string): Option<string> {
    if input.console.None? || input.console.value == "" then
      Some(CmdLine.BuildPath(runtimePath, CmdLine.CONSOLE_SOCKET))
    else input.console
  }

  predicate NeedsSocket(input: Input) { input.console.None? || input.console.value == "" }

  function CreatedConfig(id: string, runtimePath: string, input: Input, pid: int): Config
    requires AllConfigured(input.mounts)
  {
    Config(Some(id), Some(input.bundlePath), runtimePath, Below(runtimePath, HYPERVISOR_SOCKET),
           Below(runtimePath, PROCESS_SOCKET), pid, Created, HandledUpTo(input.mounts, |input.mounts|, input.root),
           LaunchedConsole(input, runtimePath), input.useSocketConsole || NeedsSocket(input),
           Some(input.vm), input.annotations)
  }

  function Create(h: Host, runtimePath: string, id: string, input: Input, a: Answers): (Host, bool)
    requires AllConfigured(input.mounts)
  {
    if !a.parsed || !a.checked then (h, false)
    else if !a.mkdir || runtimePath in h.dirs then (h, false)
    else
      var made := h.(dirs := h.dirs + {runtimePath});
      var handled := FirstFailure(input.mounts, 0, a.system, input.dryRun);
      var mounted := made.(table := TableAfter(h.table, input.mounts, handled, input.root, a.system, input.dryRun));
      if handled < |input.mounts| then (mounted, false)
      else if !a.workload then (mounted, false)
      else if input.dryRun then (mounted, true)
      else if a.timestamp.None? || a.launched.None? then (mounted, false)
      else WriteState(mounted, CreatedConfig(id, runtimePath, input, a.launched.value), a.timestamp, a.written)
  }

  /** What a start that waited does when its VM has ended, on the host as it then is;
      `config` is what it had loaded before. */
  function AfterWait(h: Host, runtimePath: string, id: string, config: Config, a: Answers): (Host, bool) {
    match Loaded(h, runtimePath, id, a.readAgain)
    case None => (h, false)
    case Some((again, _)) =>
      if again.status.Stopped? || again.status.Stopping? then (h, true)
      else var (cleaned, ret) := CleanUp(h, config, a); (cleaned, ret && a.connected)
  }

  function Start(h: Host, runtimePath: string, id: string, detached: bool, a: Answers): (Host, bool) {
    match Loaded(h, runtimePath, id, a.readable)
    case None => (h, false)
    case Some((config, state)) =>
      var config := ConfigUpdate(config, state);
      var wait := a.tty && !detached && !config.useSocketConsole;
      if !state.status.Created? then (h, false)
      else if wait && !a.watched then (h, false)
      else if !a.signalled then (h, false)
      else
        var (ran, ok) := WriteState(h, config.(status := Running), state.createTime, a.written);
        if !ok || !wait then (ran, ok) else AfterWait(ran, runtimePath, id, config, a)
  }

  function Toggle(h: Host, runtimePath: string, id: string, pause: bool, a: Answers): (Host, bool) {
    match Loaded(h, runtimePath, id, a.readable)
    case None => (h, false)
    case Some((config, state)) =>
      var dest := if pause then Paused else Running;
      if state.status == dest then (h, true)
      else if !a.qmp then (h, false)
      else WriteState(h, ConfigUpdate(config, state).(status := dest), state.createTime, a.written)
  }

  function Kill(h: Host, runtimePath: string, id: string, a: Answers): (Host, bool) {
    match Loaded(h, runtimePath, id, a.readable)
    case None => (h, false)
    case Some((config, state)) =>
      var config := ConfigUpdate(config, state);
      var (marked, ok) := WriteState(h, config.(status := Stopping), state.createTime, a.written);
      if !ok then (marked, false)
      else
        var status := if a.signalled then Stopped else config.status;
        var (after, ret) := WriteState(marked, config.(status := status), state.createTime, a.rewritten);
        (after, ret && a.signalled)
  }

  /** A container whose state file is gone, or whose config.json cannot be parsed,
      counts as stopped. */
  function Stop(h: Host, runtimePath: string, id: string, a: Answers): (Host, bool) {
    if StatePath(runtimePath) !in h.files then (h, true)
    else match Loaded(h, runtimePath, id, a.readable)
      case None => (h, false)
      case Some((config, state)) =>
        if !a.parsed then (h, true)
        else if a.running && state.pid != 0 && !a.shutdown then (h, false)
        else CleanUp(h, config.(mounts := state.mounts), a)
  }

  // ----- the commands, step by step -----

  class Runtime {
    var dirs: set<string>
    var files: map<string, Json>
    var table: multiset<string>

    ghost function Shared(): Host
      reads this
    {
      Host(dirs, files, table)
    }

    method StateFileCreate(config: Config, created: Option<string>, written: bool) returns (ret: bool)
      modifies this
      ensures (Shared(), ret) == WriteState(old(Shared()), config, created, written)
      ensures ret <==>
        && written && config.runtimePath in old(dirs) && created.Some?
        && config.containerId.Some? && config.containerId.value != "" && config.bundlePath.Some?
        && config.runtimePath != "" && config.commsPath != "" && config.procsockPath != ""
        && config.vm.Some? && !config.status.Invalid?
    {
      if created.None? {
        return false;
      }
      var doc := Doc(config, created.value);
      if doc.None? {
        return false;
      }
      if !written || config.runtimePath !in dirs {
        return false;
      }
      files := files[StatePath(config.runtimePath) := doc.value];
      return true;
    }

    method HandleUnmounts(mounts: seq<Mount>, busy: set<string>) returns (ret: bool)
      modifies `table
      ensures (table, ret) == UnmountAll(old(table), Recorded(mounts), busy)
    {
      var run := new MountRun("", false, mounts, table);
      ret := run.HandleUnmounts(busy);
      table := run.table;
    }

    method HandleMounts(input: Input, system: System) returns (ret: bool, mounts: seq<Mount>)
      requires AllConfigured(input.mounts)
      modifies `table
      ensures var n := FirstFailure(input.mounts, 0, system, input.dryRun);
        && (ret <==> n == |input.mounts|)
        && table == TableAfter(old(table), input.mounts, n, input.root, system, input.dryRun)
        && (ret ==> mounts == HandledUpTo(input.mounts, n, input.root))
    {
      hide TableAfter, HandledUpTo, FirstFailure;
      var run := new MountRun(input.root, input.dryRun, input.mounts, table);
      var done;
      ret, done := run.HandleMounts(system);
      mounts, table := run.mounts, run.table;
    }

    method Cleanup(config: Config, a: Answers) returns (ret: bool)
      modifies this
      ensures (Shared(), ret) == CleanUp(old(Shared()), config, a)
    {
      ret := HandleUnmounts(config.mounts, a.system.busy);
      if !ret {
        return false;
      }
      var path := StatePath(config.runtimePath);
      if path !in files || !a.unlinked {
        return false;
      }
      files := files - {path};
      if config.runtimePath == "" || config.runtimePath[0] != '/' || !a.removed {
        return false;
      }
      dirs, files := DirsLeft(dirs, config.runtimePath), FilesLeft(files, config.runtimePath);
      return true;
    }

    method GetConfigAndState(runtimePath: string, id: string, readable: bool) returns (r: Option<(Config, OciState)>)
      ensures r == Loaded(Shared(), runtimePath, id, readable)
    {
      var path := StatePath(runtimePath);
      if !readable || path !in files {
        return None;
      }
      var state := Read(files[path]);
      if state.None? {
        return None;
      }
      var config := NEW_CONFIG.(containerId := Some(id), runtimePath := runtimePath);
      config := config.(bundlePath := state.value.bundlePath);
      config := config.(workloadPid := state.value.pid);
      config := config.(status := state.value.status);
      config := config.(commsPath := OrEmpty(state.value.commsPath));
      if OrEmpty(state.value.bundlePath) == "" {
        return None;
      }
      return Some((config, state.value));
    }

    method ClrOciCreate(runtimePath: string, id: string, input: Input, a: Answers) returns (ret: bool)
      requires AllConfigured(input.mounts)
      modifies this
      ensures (Shared(), ret) == Create(old(Shared()), runtimePath, id, input, a)
    {
      hide TableAfter, WriteState, HandledUpTo, FirstFailure;
      if !a.parsed {
        return false;
      }
      if !a.checked {
        return false;
      }
      if !a.mkdir || runtimePath in dirs {
        return false;
      }
      dirs := dirs + {runtimePath};
      var mounted, mounts := HandleMounts(input, a.system);
      if !mounted {
        return false;
      }
      if !a.workload {
        return false;
      }
      if input.dryRun {
        return true;
      }
      if a.timestamp.None? {
        return false;
      }
      if a.launched.None? {
        return false;
      }
      var config := Config(Some(id), Some(input.bundlePath), runtimePath, Below(runtimePath, HYPERVISOR_SOCKET),
        Below(runtimePath, PROCESS_SOCKET), a.launched.value, Created, mounts,
        LaunchedConsole(input, runtimePath), input.useSocketConsole || NeedsSocket(input),
        Some(input.vm), input.annotations);
      ret := StateFileCreate(config, a.timestamp, a.written);
    }

    method ClrOciStart(runtimePath: string, id: string, detached: bool, a: Answers) returns (ret: bool)
      modifies this
      ensures (Shared(), ret) == Start(old(Shared()), runtimePath, id, detached, a)
    {
      hide WriteState, Loaded, ConfigUpdate, AfterWait;
      var loaded := GetConfigAndState(runtimePath, id, a.readable);
      if loaded.None? {
        return false;
      }
      var config, state := ConfigUpdate(loaded.value.0, loaded.value.1), loaded.value.1;
      if state.status.Running? {
        return false;
      } else if !state.status.Created? {
        return false;
      }
      var wait := a.tty && !detached && !config.useSocketConsole;
      if wait {
        if !a.watched {
          return false;
        }
      }
      if !a.signalled {
        return false;
      }
      config := config.(status := Running);
      ret := StateFileCreate(config, state.createTime, a.written);
      if !ret {
        return false;
      }
      if wait {
        SameWait(Shared(), runtimePath, id, config, ConfigUpdate(loaded.value.0, loaded.value.1), a);
        ret := FinishWait(runtimePath, id, config, a);
      }
    }

    /** The end of "start", once the main loop has been left. */
    method FinishWait(runtimePath: string, id: string, before: Config, a: Answers) returns (ret: bool)
      modifies this
      ensures (Shared(), ret) == AfterWait(old(Shared()), runtimePath, id, before, a)
    {
      hide Loaded, CleanUp;
      var again := GetConfigAndState(runtimePath, id, a.readAgain);
      if again.None? {
        return false;
      }
      var config := before.(status := again.value.0.status);
      if config.status.Stopped? || config.status.Stopping? {
        return true;
      }
      SameCleanUp(Shared(), config, before, a);
      ret := Cleanup(config, a);
      if !a.connected {
        ret := false;
      }
    }

    method ClrOciToggle(runtimePath: string, id: string, pause: bool, a: Answers) returns (ret: bool)
      modifies this
      ensures (Shared(), ret) == Toggle(old(Shared()), runtimePath, id, pause, a)
    {
      hide WriteState, Loaded, ConfigUpdate;
      var loaded := GetConfigAndState(runtimePath, id, a.readable);
      if loaded.None? {
        return false;
      }
      var config, state := ConfigUpdate(loaded.value.0, loaded.value.1), loaded.value.1;
      var destStatus := if pause then Paused else Running;
      if state.status == destStatus {
        return true;
      }
      if !a.qmp {
        return false;
      }
      config := config.(status := destStatus);
      ret := StateFileCreate(config, state.createTime, a.written);
    }

    method ClrOciKill(runtimePath: string, id: string, a: Answers) returns (ret: bool)
      modifies this
      ensures (Shared(), ret) == Kill(old(Shared()), runtimePath, id, a)
    {
      hide WriteState, Loaded, ConfigUpdate;
      var loaded := GetConfigAndState(runtimePath, id, a.readable);
      if loaded.None? {
        return false;
      }
      var config, state := ConfigUpdate(loaded.value.0, loaded.value.1), loaded.value.1;
      var lastStatus := config.status;
      config := config.(status := Stopping);
      ret := StateFileCreate(config, state.createTime, a.written);
      if !ret {
        return false;
      }
      if !a.signalled {
        config := config.(status := lastStatus);
        ret := StateFileCreate(config, state.createTime, a.rewritten);
        return false;
      }
      config := config.(status := Stopped);
      ret := StateFileCreate(config, state.createTime, a.rewritten);
    }

    method HandleCommandStop(runtimePath: string, id: string, a: Answers) returns (ret: bool)
      modifies this
      ensures (Shared(), ret) == Stop(old(Shared()), runtimePath, id, a)
    {
      hide Loaded, CleanUp;
      if StatePath(runtimePath) !in files {
        return true;
      }
      var loaded := GetConfigAndState(runtimePath, id, a.readable);
      if loaded.None? {
        return false;
      }
      if !a.parsed {
        return true;
      }
      var config, state := loaded.value.0, loaded.value.1;
      config := config.(mounts := state.mounts);
      if state.pid != 0 && a.running {
        if !a.shutdown {
          return false;
        }
      }
      ret := Cleanup(config, a);
    }
  }

  /** A cleanup looks at the mounts and the runtime path of its configuration only. */
  lemma SameCleanUp(h: Host, config: Config, other: Config, a: Answers)
    requires config.mounts == other.mounts && config.runtimePath == other.runtimePath
    ensures CleanUp(h, config, a) == CleanUp(h, other, a)
  {
  }

  lemma SameWait(h: Host, runtimePath: string, id: string, config: Config, other: Config, a: Answers)
    requires config.mounts == other.mounts && config.runtimePath == other.runtimePath
    ensures AfterWait(h, runtimePath, id, config, a) == AfterWait(h, runtimePath, id, other, a)
  {
    hide CleanUp, Loaded;
    SameCleanUp(h, config, other, a);
  }
}
