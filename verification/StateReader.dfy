/** Reading the state file. Each top-level key has a handler, run once for every
    child below the key; it fills fields of the state and bumps a global counter.
    The file is accepted when every counter has reached its handler's needs. */
module StateReader {
  import opened CLib
  import opened Json
  import opened OciConfig
  import opened StateFile

  datatype Section =
    | OciVersion | Id | Pid | BundlePath | CommsPath | ProcessPath
    | StatusName | CreateTime | Mounts | Console | Vm | Annotations

  datatype OciState = OciState(
    ociVersion: Option<string>,
    id: Option<string>,
    pid: int,
    bundlePath: Option<string>,
    commsPath: Option<string>,
    procsockPath: Option<string>,
    status: Status,
    createTime: Option<string>,
    mounts: seq<Mount>,
    annotations: seq<Annotation>,
    console: Option<string>,
    useSocketConsole: bool,
    vm: VmCfg)

  const NEW_STATE := OciState(None, None, 0, None, None, None, Created, None, [], [], None, false,
                              VmCfg("", "", "", "", None))

  datatype Handling = Handling(name: string, section: Section, needed: nat)

  const HANDLERS: seq<Handling> := [
    Handling(OCI_VERSION, OciVersion, 1), Handling(ID, Id, 1), Handling(PID, Pid, 1),
    Handling(BUNDLE_PATH, BundlePath, 1), Handling(COMMS_PATH, CommsPath, 1),
    Handling(PROCESS_PATH, ProcessPath, 1), Handling(STATUS, StatusName, 1),
    Handling(CREATED, CreateTime, 1), Handling(MOUNTS, Mounts, 0),
    Handling(CONSOLE, Console, 2), Handling(VM, Vm, 5), Handling(ANNOTATIONS, Annotations, 0)]

  function SectionFrom(name: string, from: nat): Option<Section>
    decreases |HANDLERS| - from
  {
    if from >= |HANDLERS| then None
    else if HANDLERS[from].name == name then Some(HANDLERS[from].section)
    else SectionFrom(name, from + 1)
  }

  function SectionOf(name: string): Option<Section> { SectionFrom(name, 0) }

  function HandlerOf(s: Section): (k: nat)
    ensures k < |HANDLERS| && HANDLERS[k].section == s
  {
    match s
    case OciVersion => 0 case Id => 1 case Pid => 2 case BundlePath => 3
    case CommsPath => 4 case ProcessPath => 5 case StatusName => 6 case CreateTime => 7
    case Mounts => 8 case Console => 9 case Vm => 10 case Annotations => 11
  }

  lemma HandlerIndex(i: nat)
    requires i < |HANDLERS|
    ensures HandlerOf(HANDLERS[i].section) == i
  {
  }

  function Needed(s: Section): nat { HANDLERS[HandlerOf(s)].needed }

  /** The state being filled, and how often each handler has found something. */
  datatype Reading = Reading(state: OciState, counts: multiset<Section>)

  function MountAt(dest: string): Mount { NEW_MOUNT.(dest := dest) }

  /** The text of the value below a key: the data of its first child. */
  function Lead(node: Tree): Option<string> {
    if node.children == [] then None else node.children[0].data
  }

  function TakeVm(vm: VmCfg, key: string, text: string): Option<VmCfg> {
    if key == WORKLOAD_PATH then Some(vm.(workloadPath := text))
    else if key == HYPERVISOR_PATH then Some(vm.(hypervisorPath := text))
    else if key == KERNEL_PATH then Some(vm.(kernelPath := text))
    else if key == IMAGE_PATH then Some(vm.(imagePath := text))
    else if key == KERNEL_PARAMS then Some(vm.(kernelParams := Some(text)))
    else None
  }

  /** One handler on one child of its key: the new state, and whether it counts. */
  function Take(s: OciState, section: Section, node: Tree): (OciState, bool) {
    if node.data.None? then (s, false)
    else
      var text := node.data.value;
      match section
      case OciVersion => (s.(ociVersion := Some(text)), true)
      case Id => (s.(id := Some(text)), true)
      case Pid => (s.(pid := Atoi(text)), StrToLL(text).Some?)
      case BundlePath => (s.(bundlePath := Some(text)), true)
      case CommsPath => (s.(commsPath := Some(text)), true)
      case ProcessPath => (s.(procsockPath := Some(text)), true)
      case StatusName => (s.(status := StrToStatus(text)), true)
      case CreateTime => (s.(createTime := Some(text)), true)
      case Mounts => (s.(mounts := s.mounts + [MountAt(text)]), false)
      case Console =>
        if Lead(node).None? then (s, false)
        else if text == SOCKET then (s.(useSocketConsole := Lead(node).value == "true"), true)
        else if text == PATH then (s.(console := Lead(node)), true)
        else (s, false)
      case Vm =>
        if Lead(node).None? then (s, false)
        else
          (match TakeVm(s.vm, text, Lead(node).value)
           case Some(vm) => (s.(vm := vm), true)
           case None => (s, false))
      case Annotations =>
        if Lead(node).None? then (s, false)
        else (s.(annotations := [Annotation(text, Lead(node))] + s.annotations), false)
  }

  function TakeNode(r: Reading, section: Section, node: Tree): Reading {
    var (state, counted) := Take(r.state, section, node);
    Reading(state, if counted then r.counts + multiset{section} else r.counts)
  }

  function TakeAll(r: Reading, section: Section, nodes: seq<Tree>): Reading {
    if nodes == [] then r
    else TakeNode(TakeAll(r, section, nodes[..|nodes| - 1]), section, nodes[|nodes| - 1])
  }

  /** One top-level key; keys without a handler are skipped. */
  function TopNode(r: Reading, node: Tree): Reading {
    if node.data.None? || SectionOf(node.data.value).None? then r
    else TakeAll(r, SectionOf(node.data.value).value, node.children)
  }

  function TopFold(r: Reading, nodes: seq<Tree>): Reading {
    if nodes == [] then r else TopNode(TopFold(r, nodes[..|nodes| - 1]), nodes[|nodes| - 1])
  }

  predicate Enough(counts: multiset<Section>) {
    forall s :: counts[s] >= Needed(s)
  }

  /** The answer for a file with these top-level nodes: a function of the file alone. */
  function ReadNodes(nodes: seq<Tree>): Option<OciState> {
    var r := TopFold(Reading(NEW_STATE, multiset{}), nodes);
    if Enough(r.counts) then Some(r.state) else None
  }

  function Read(file: Json): Option<OciState> { ReadNodes(Flatten(file, false)) }

  // ----- the reader, as the code runs it -----

  class Reader {
    var counts: multiset<Section>  // global: survives from one file to the next
    var state: OciState

    ghost function Snapshot(): Reading
      reads this
    {
      Reading(state, counts)
    }

    constructor ()
    {
      counts := multiset{};
      state := NEW_STATE;
    }

    method HandleSection(section: Section, node: Tree)
      modifies this
      ensures Snapshot() == TakeNode(old(Snapshot()), section, node)
    {
      if node.data.None? {
        return;
      }
      var text := node.data.value;
      var counted := true;
      match section {
        case OciVersion => state := state.(ociVersion := Some(text));
        case Id => state := state.(id := Some(text));
        case Pid =>
          state := state.(pid := Atoi(text));
          counted := StrToLL(text).Some?;
        case BundlePath => state := state.(bundlePath := Some(text));
        case CommsPath => state := state.(commsPath := Some(text));
        case ProcessPath => state := state.(procsockPath := Some(text));
        case StatusName => state := state.(status := StrToStatus(text));
        case CreateTime => state := state.(createTime := Some(text));
        case Mounts =>
          state := state.(mounts := state.mounts + [MountAt(text)]);
          counted := false;
        case Console => counted := HandleConsole(text, Lead(node));
        case Vm => counted := HandleVm(text, Lead(node));
        case Annotations =>
          if Lead(node).Some? {
            state := state.(annotations := [Annotation(text, Lead(node))] + state.annotations);
          }
          counted := false;
      }
      if counted {
        counts := counts + multiset{section};
      }
    }

    method HandleConsole(key: string, value: Option<string>) returns (counted: bool)
      modifies this`state
      ensures (state, counted)
           == if value.None? then (old(state), false)
              else if key == SOCKET then (old(state).(useSocketConsole := value.value == "true"), true)
              else if key == PATH then (old(state).(console := value), true)
              else (old(state), false)
    {
      counted := false;
      if value.Some? {
        if key == SOCKET {
          counted := true;
          state := state.(useSocketConsole := value.value == "true");
        } else if key == PATH {
          counted := true;
          state := state.(console := value);
        }
      }
    }

    method HandleVm(key: string, value: Option<string>) returns (counted: bool)
      modifies this`state
      ensures counted <==> value.Some? && TakeVm(old(state).vm, key, value.value).Some?
      ensures state == if counted then old(state).(vm := TakeVm(old(state).vm, key, value.value).value)
                       else old(state)
    {
      counted := value.Some?;
      if value.Some? {
        if key == WORKLOAD_PATH {
          state := state.(vm := state.vm.(workloadPath := value.value));
        } else if key == HYPERVISOR_PATH {
          state := state.(vm := state.vm.(hypervisorPath := value.value));
        } else if key == KERNEL_PATH {
          state := state.(vm := state.vm.(kernelPath := value.value));
        } else if key == IMAGE_PATH {
          state := state.(vm := state.vm.(imagePath := value.value));
        } else if key == KERNEL_PARAMS {
          state := state.(vm := state.vm.(kernelParams := value));
        } else {
          counted := false;
        }
      }
    }

    method HandleSections(node: Tree)
      modifies this
      ensures Snapshot() == TopNode(old(Snapshot()), node)
    {
      if node.data.None? {
        return;
      }
      var handler := 0;
      while handler < |HANDLERS|
        invariant 0 <= handler <= |HANDLERS|
        invariant Snapshot() == old(Snapshot())
        invariant SectionFrom(node.data.value, handler) == SectionOf(node.data.value)
      {
        if HANDLERS[handler].name == node.data.value {
          HandleChildren(HANDLERS[handler].section, node.children);
          return;
        }
        handler := handler + 1;
      }
    }

    method HandleChildren(section: Section, nodes: seq<Tree>)
      modifies this
      ensures Snapshot() == TakeAll(old(Snapshot()), section, nodes)
    {
      var i := 0;
      while i < |nodes|
        invariant 0 <= i <= |nodes|
        invariant Snapshot() == TakeAll(old(Snapshot()), section, nodes[..i])
      {
        HandleSection(section, nodes[i]);
        assert nodes[..i + 1][..i] == nodes[..i];
        i := i + 1;
      }
      assert nodes[..i] == nodes;
    }

    method ResetCounts()
      modifies this`counts
      ensures counts == multiset{}
    {
      var h := 0;
      while h < |HANDLERS|
        invariant 0 <= h <= |HANDLERS|
        invariant forall k :: 0 <= k < h ==> counts[HANDLERS[k].section] == 0
      {
        counts := counts[HANDLERS[h].section := 0];
        h := h + 1;
      }
      forall s: Section ensures s !in counts {
        assert counts[HANDLERS[HandlerOf(s)].section] == 0;
      }
    }

    method CheckCounts() returns (ok: bool)
      ensures ok == Enough(counts)
    {
      var h := 0;
      while h < |HANDLERS|
        invariant 0 <= h <= |HANDLERS|
        invariant forall k :: 0 <= k < h ==> counts[HANDLERS[k].section] >= HANDLERS[k].needed
      {
        if counts[HANDLERS[h].section] < HANDLERS[h].needed {
          HandlerIndex(h);
          return false;
        }
        h := h + 1;
      }
      forall s ensures counts[s] >= Needed(s) {
      }
      return true;
    }

    /** The counters are reset first, so files read earlier do not matter. */
    method StateFileRead(nodes: seq<Tree>) returns (r: Option<OciState>)
      modifies this
      ensures r == ReadNodes(nodes)
    {
      state := NEW_STATE;
      ResetCounts();
      ghost var start := Snapshot();
      var i := 0;
      while i < |nodes|
        invariant 0 <= i <= |nodes|
        invariant Snapshot() == TopFold(start, nodes[..i])
      {
        HandleSections(nodes[i]);
        assert nodes[..i + 1][..i] == nodes[..i];
        i := i + 1;
      }
      assert nodes[..i] == nodes;
      var ok := CheckCounts();
      return if ok then Some(state) else None;
    }
  }
}
