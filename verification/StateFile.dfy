/** The state file: the values it is written from, and the JSON that is written. */
module StateFile {
  import opened CLib
  import opened Json
  import opened OciConfig

  const SUPPORTED_SPEC_VERSION := "1.0.0-rc1"

  datatype Status = Created | Running | Paused | Stopped | Stopping | Invalid

  const STATUS_MAP: seq<(Status, string)> := [
    (Created, "created"), (Running, "running"), (Paused, "paused"),
    (Stopped, "stopped"), (Stopping, "stopping")]

  function StatusToStr(status: Status, from: nat := 0): Option<string>
    decreases |STATUS_MAP| - from
  {
    if from >= |STATUS_MAP| then None
    else if STATUS_MAP[from].0 == status then Some(STATUS_MAP[from].1)
    else StatusToStr(status, from + 1)
  }

  function StrToStatus(str: string, from: nat := 0): Status
    decreases |STATUS_MAP| - from
  {
    if from >= |STATUS_MAP| then Invalid
    else if STATUS_MAP[from].1 == str then STATUS_MAP[from].0
    else StrToStatus(str, from + 1)
  }

  /** Every status but the invalid one has a name, which reads back. */
  lemma StatusRoundTrip(status: Status)
    ensures StatusToStr(status).None? <==> status.Invalid?
    ensures !status.Invalid? ==> StrToStatus(StatusToStr(status).value) == status
  {
  }

  datatype VmCfg = VmCfg(
    hypervisorPath: string,
    imagePath: string,
    kernelPath: string,
    workloadPath: string,
    kernelParams: Option<string>)

  datatype Annotation = Annotation(key: string, value: Option<string>)

  /** The fields of the configuration that the state file is written from.
      Fixed-size paths are strings, of which an unset one is empty. */
  datatype Config = Config(
    containerId: Option<string>,
    bundlePath: Option<string>,
    runtimePath: string,
    commsPath: string,
    procsockPath: string,
    workloadPid: int,
    status: Status,
    mounts: seq<Mount>,
    console: Option<string>,
    useSocketConsole: bool,
    vm: Option<VmCfg>,
    annotations: seq<Annotation>)

  const NEW_CONFIG := Config(None, None, "", "", "", 0, Created, [], None, false, None, [])

  /** The destinations recorded for unmounting: those not flagged ignored. */
  function Recorded(mounts: seq<Mount>): seq<string> {
    if mounts == [] then []
    else
      var last := mounts[|mounts| - 1];
      Recorded(mounts[..|mounts| - 1]) + if last.ignoreMount then [] else [last.dest]
  }

  function JStrings(texts: seq<string>): (r: seq<Json>)
    ensures |r| == |texts| && forall i :: 0 <= i < |r| ==> r[i] == JString(texts[i])
  {
    seq(|texts|, i requires 0 <= i < |texts| => JString(texts[i]))
  }

  /** json_object_set_string_member: NULL becomes null, an old value is replaced. */
  function StringOrNull(text: Option<string>): Json {
    match text case Some(s) => JString(s) case None => JNull
  }

  function SetMember(members: seq<Member>, key: string, value: Json): seq<Member> {
    if members == [] then [Member(key, value)]
    else if members[0].key == key then [Member(key, value)] + members[1..]
    else [members[0]] + SetMember(members[1..], key, value)
  }

  function AnnotationMembers(annotations: seq<Annotation>): seq<Member> {
    if annotations == [] then []
    else
      var last := annotations[|annotations| - 1];
      SetMember(AnnotationMembers(annotations[..|annotations| - 1]), last.key, StringOrNull(last.value))
  }

  const OCI_VERSION := "ociVersion"
  const ID := "id"
  const PID := "pid"
  const BUNDLE_PATH := "bundlePath"
  const COMMS_PATH := "commsPath"
  const PROCESS_PATH := "processPath"
  const STATUS := "status"
  const CREATED := "created"
  const MOUNTS := "mounts"
  const CONSOLE := "console"
  const VM := "vm"
  const ANNOTATIONS := "annotations"
  const SOCKET := "socket"
  const PATH := "path"
  const HYPERVISOR_PATH := "hypervisor_path"
  const IMAGE_PATH := "image_path"
  const KERNEL_PATH := "kernel_path"
  const WORKLOAD_PATH := "workload_path"
  const KERNEL_PARAMS := "kernel_params"

  function ConsoleMembers(config: Config): seq<Member> {
    [Member(SOCKET, JBool(config.useSocketConsole)), Member(PATH, StringOrNull(config.console))]
  }

  function VmMembers(vm: VmCfg): seq<Member> {
    [Member(HYPERVISOR_PATH, JString(vm.hypervisorPath)),
     Member(IMAGE_PATH, JString(vm.imagePath)),
     Member(KERNEL_PATH, JString(vm.kernelPath)),
     Member(WORKLOAD_PATH, JString(vm.workloadPath)),
     Member(KERNEL_PARAMS, JString(if vm.kernelParams.Some? then vm.kernelParams.value else ""))]
  }

  /** What has to be set before a state file can be written. */
  predicate Writable(config: Config) {
    && config.containerId.Some? && config.containerId.value != ""
    && config.bundlePath.Some?
    && config.runtimePath != "" && config.commsPath != "" && config.procsockPath != ""
    && config.vm.Some?
    && !config.status.Invalid?
  }

  /** The values of a GPid, which is a signed 32-bit number. */
  predicate IsPid(n: int) { -0x8000_0000 <= n < 0x8000_0000 }

  function ToUint32(n: int): int { n % 0x1_0000_0000 }

  function DocMembers(config: Config, created: string): seq<Member>
    requires Writable(config)
  {
    StatusRoundTrip(config.status);
    [Member(OCI_VERSION, JString(SUPPORTED_SPEC_VERSION)),
     Member(ID, JString(config.containerId.value)),
     Member(PID, JInt(ToUint32(config.workloadPid))),
     Member(BUNDLE_PATH, JString(config.bundlePath.value)),
     Member(COMMS_PATH, JString(config.commsPath)),
     Member(PROCESS_PATH, JString(config.procsockPath)),
     Member(STATUS, JString(StatusToStr(config.status).value)),
     Member(CREATED, JString(created)),
     Member(MOUNTS, JArray(JStrings(Recorded(config.mounts)))),
     Member(CONSOLE, JObject(ConsoleMembers(config))),
     Member(VM, JObject(VmMembers(config.vm.value)))]
    + if config.annotations == [] then []
      else [Member(ANNOTATIONS, JObject(AnnotationMembers(config.annotations)))]
  }

  /** What clr_oci_state_file_create puts into the file, if it gets that far. */
  function Doc(config: Config, created: string): Option<Json> {
    if Writable(config) then Some(JObject(DocMembers(config, created))) else None
  }
}
