/** The state file of a created container, member by member, and what reading it gives. */
module FileText {
  import opened CLib
  import opened Json
  import opened OciConfig
  import opened StateFile
  import opened StateReader
  import opened StateRoundTrip
  import opened MountTable
  import opened Destinations
  import opened Lifecycle
  import CmdLine

  function StatusText(status: Status): string {
    match status
    case Created => "created"
    case Running => "running"
    case Paused => "paused"
    case Stopped => "stopped"
    case Stopping => "stopping"
    case Invalid => ""
  }

  predicate NoConsole(input: Input) { input.console.None? || input.console.value == "" }

  function ConsoleText(input: Input, path: string): string {
    if NoConsole(input) then path + "/console.sock" else input.console.value
  }

  function Strings(texts: seq<string>): seq<Json> {
    seq(|texts|, i requires 0 <= i < |texts| => JString(texts[i]))
  }

  function Notes(annotations: seq<Annotation>): seq<Member> {
    seq(|annotations|, i requires 0 <= i < |annotations| =>
      Member(annotations[i].key,
             match annotations[i].value case Some(text) => JString(text) case None => JNull))
  }

  /** The file of a container in the directory `path`, created from `input` with the VM
      `pid` at the time `created`; annotations are lost when the file is first rewritten. */
  function FileOf(
    id: string, path: string, input: Input, pid: int, created: string, status: Status, annotated: bool): Json
    requires AllConfigured(input.mounts)
  {
    JObject([
      Member("ociVersion", JString("1.0.0-rc1")),
      Member("id", JString(id)),
      Member("pid", JInt(if pid < 0 then pid + 0x1_0000_0000 else pid)),
      Member("bundlePath", JString(input.bundlePath)),
      Member("commsPath", JString(path + "/hypervisor.sock")),
      Member("processPath", JString(path + "/process.sock")),
      Member("status", JString(StatusText(status))),
      Member("created", JString(created)),
      Member("mounts", JArray(Strings(Places(input.mounts, input.root)))),
      Member("console", JObject([
        Member("socket", JBool(input.useSocketConsole || NoConsole(input))),
        Member("path", JString(ConsoleText(input, path)))])),
      Member("vm", JObject([
        Member("hypervisor_path", JString(input.vm.hypervisorPath)),
        Member("image_path", JString(input.vm.imagePath)),
        Member("kernel_path", JString(input.vm.kernelPath)),
        Member("workload_path", JString(input.vm.workloadPath)),
        Member("kernel_params",
          JString(match input.vm.kernelParams case Some(params) => params case None => ""))]))]
      + if annotated && input.annotations != [] then [Member("annotations", JObject(Notes(input.annotations)))] else [])
  }

  // ----- what "create" writes is that file -----

  predicate DirectoryPath(path: string) { path != "" && path[|path| - 1] != '/' }

  lemma StatusTexts(status: Status)
    ensures !status.Invalid? ==> StatusToStr(status) == Some(StatusText(status))
  {
  }

  lemma ConsoleTexts(input: Input, path: string)
    requires DirectoryPath(path)
    ensures LaunchedConsole(input, path) == Some(ConsoleText(input, path))
    ensures NeedsSocket(input) <==> NoConsole(input)
  {
    assert CmdLine.BuildPath(path, "console.sock") == path + "/console.sock" by {
      assert path + "/" + "console.sock" == path + "/console.sock";
    }
  }

  lemma NotesAre(annotations: seq<Annotation>)
    requires DistinctAnnotations(annotations)
    ensures AnnotationMembers(annotations) == Notes(annotations)
  {
    hide DistinctAnnotations, AnnotationMembers;
    AnnotationMembersAt(annotations);
  }

  lemma PathTexts(path: string)
    ensures Below(path, HYPERVISOR_SOCKET) == path + "/hypervisor.sock"
    ensures Below(path, PROCESS_SOCKET) == path + "/process.sock"
    ensures StatePath(path) == path + "/state.json"
  {
    assert path + "/" + "hypervisor.sock" == path + "/hypervisor.sock";
    assert path + "/" + "process.sock" == path + "/process.sock";
    assert path + "/" + "state.json" == path + "/state.json";
  }

  /** The configuration that is written, with any status, gives that file. */
  lemma CreatedText(
    id: string, path: string, input: Input, pid: int, created: string, status: Status, annotated: bool)
    requires AllConfigured(input.mounts) && DistinctAnnotations(input.annotations) && IsPid(pid)
    requires id != "" && DirectoryPath(path) && !status.Invalid?
    ensures var config := CreatedConfig(id, path, input, pid).(
        status := status, annotations := if annotated then input.annotations else []);
      Doc(config, created) == Some(FileOf(id, path, input, pid, created, status, annotated))
  {
    hide Recorded, Places, HandledUpTo, Below, LaunchedConsole, ConsoleText, AnnotationMembers, Notes, StatusToStr,
      StatusText, DistinctAnnotations, AllConfigured, NoConsole, NeedsSocket, JStrings, Strings, ToUint32;
    StatusTexts(status);
    ConsoleTexts(input, path);
    PathTexts(path);
    NotesAre(input.annotations);
    RecordedPlaces(input.mounts, input.root);
    WholeRun(multiset{}, input.mounts, input.root, System({}, {}, {}, {}));
    StringsAre(Places(input.mounts, input.root));
    PidText(pid);
  }

  lemma StringsAre(texts: seq<string>)
    ensures JStrings(texts) == Strings(texts)
  {
  }

  lemma PidText(pid: int)
    requires IsPid(pid)
    ensures ToUint32(pid) == if pid < 0 then pid + 0x1_0000_0000 else pid
  {
  }

  // ----- what reading gives -----

  /** A file of a created container is read back in full: its pid, its paths, its mounts in
      order, its console, its VM and, as a map, its annotations. */
  lemma FileReads(
    id: string, path: string, input: Input, pid: int, created: string, status: Status, annotated: bool)
    requires AllConfigured(input.mounts) && DistinctAnnotations(input.annotations) && IsPid(pid)
    requires id != "" && DirectoryPath(path) && input.bundlePath != "" && !status.Invalid?
    ensures var r := Read(FileOf(id, path, input, pid, created, status, annotated));
      && r.Some?
      && r.value.ociVersion == Some("1.0.0-rc1") && r.value.id == Some(id) && r.value.pid == pid
      && r.value.bundlePath == Some(input.bundlePath)
      && r.value.commsPath == Some(path + "/hypervisor.sock") && r.value.procsockPath == Some(path + "/process.sock")
      && r.value.status == status && r.value.createTime == Some(created)
      && Lists(r.value.mounts, Places(input.mounts, input.root))
      && r.value.console == Some(if NoConsole(input) then path + "/console.sock" else input.console.value)
      && r.value.useSocketConsole == (input.useSocketConsole || NoConsole(input))
      && r.value.vm == input.vm.(kernelParams := Some(
           if input.vm.kernelParams.Some? then input.vm.kernelParams.value else ""))
      && AsMap(r.value.annotations) == if annotated then AsMap(input.annotations) else map[]
  {
    hide Recorded, Places, HandledUpTo, Below, LaunchedConsole, AsMap, ReadAnnotations,
      DistinctAnnotations, AllConfigured, FileOf, Read, Doc, NeedsSocket;
    var config := CreatedConfig(id, path, input, pid).(
      status := status, annotations := if annotated then input.annotations else []);
    CreatedText(id, path, input, pid, created, status, annotated);
    ConsoleTexts(input, path);
    PathTexts(path);
    RecordedPlaces(input.mounts, input.root);
    WholeRun(multiset{}, input.mounts, input.root, System({}, {}, {}, {}));
    NoAnnotations();
    SameAnnotations(config.annotations);
    assert Writable(config) by { SocketsSet(path); }
    RoundTrip(config, created);
    ListsAt(Places(input.mounts, input.root));
  }

  lemma SocketsSet(path: string)
    ensures path + "/hypervisor.sock" != "" && path + "/process.sock" != ""
  {
  }

  lemma NoAnnotations()
    ensures AsMap([]) == map[] && DistinctAnnotations([])
  {
  }

  /** Exactly these destinations, in this order, and none of them flagged. */
  predicate Lists(mounts: seq<Mount>, dests: seq<string>) {
    |mounts| == |dests| && forall i :: 0 <= i < |mounts| ==> mounts[i].dest == dests[i] && !mounts[i].ignoreMount
  }

  lemma ListsAt(dests: seq<string>)
    ensures Lists(MountsAt(dests), dests)
  {
  }
}
