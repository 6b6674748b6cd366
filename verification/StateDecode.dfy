/** What the reader takes out of an accepted state file: every field of the
    state, in terms of the members of the JSON object. */
module StateDecode {
  import opened CLib
  import opened Json
  import opened OciConfig
  import opened Sections
  import opened StateFile
  import opened StateReader
  import opened StateCodec

  /** The value below a handler's key. */
  function Entry(members: seq<Member>, s: Section): Option<Json> { Lookup(members, NameOf(s)) }

  function Below(v: Option<Json>): seq<Tree> {
    match v case Some(j) => Flatten(j, false) case None => []
  }

  /** The last text among the children: a scalar's own text. */
  function LastText(nodes: seq<Tree>): Option<string> {
    if nodes == [] then None
    else if nodes[|nodes| - 1].data.Some? then nodes[|nodes| - 1].data
    else LastText(nodes[..|nodes| - 1])
  }

  function MountsIn(nodes: seq<Tree>): seq<Mount> {
    if nodes == [] then []
    else
      var data := nodes[|nodes| - 1].data;
      MountsIn(nodes[..|nodes| - 1]) + if data.Some? then [MountAt(data.value)] else []
  }

  function AnnotationsIn(nodes: seq<Tree>): seq<Annotation> {
    if nodes == [] then []
    else
      var last := nodes[|nodes| - 1];
      (if last.data.Some? && Lead(last).Some? then [Annotation(last.data.value, Lead(last))] else [])
      + AnnotationsIn(nodes[..|nodes| - 1])
  }

  /** The text that leads the value of a sub-member. */
  function SubLead(v: Option<Json>, key: string): Option<string> {
    var sub := SubMember(v, key);
    if Leads(sub) then Flatten(sub.value, false)[0].data else None
  }

  function VmIn(v: Option<Json>): VmCfg {
    VmCfg(OrEmpty(SubLead(v, HYPERVISOR_PATH)), OrEmpty(SubLead(v, IMAGE_PATH)),
          OrEmpty(SubLead(v, KERNEL_PATH)), OrEmpty(SubLead(v, WORKLOAD_PATH)), SubLead(v, KERNEL_PARAMS))
  }

  function PidIn(text: Option<string>): int { match text case Some(t) => Atoi(t) case None => 0 }

  function StatusIn(text: Option<string>): Status {
    match text case Some(t) => StrToStatus(t) case None => Created
  }

  function StateOf(members: seq<Member>): OciState {
    OciState(
      LastText(Below(Entry(members, OciVersion))),
      LastText(Below(Entry(members, Id))),
      PidIn(LastText(Below(Entry(members, Pid)))),
      LastText(Below(Entry(members, BundlePath))),
      LastText(Below(Entry(members, CommsPath))),
      LastText(Below(Entry(members, ProcessPath))),
      StatusIn(LastText(Below(Entry(members, StatusName)))),
      LastText(Below(Entry(members, CreateTime))),
      MountsIn(Below(Entry(members, Mounts))),
      AnnotationsIn(Below(Entry(members, Annotations))),
      SubLead(Entry(members, Console), PATH),
      SubLead(Entry(members, Console), SOCKET) == Some("true"),
      VmIn(Entry(members, Vm)))
  }

  /** Sets the one field that a section speaks about. */
  function SetField(s: OciState, section: Section, v: Option<Json>): OciState {
    match section
    case OciVersion => s.(ociVersion := LastText(Below(v)))
    case Id => s.(id := LastText(Below(v)))
    case Pid => s.(pid := PidIn(LastText(Below(v))))
    case BundlePath => s.(bundlePath := LastText(Below(v)))
    case CommsPath => s.(commsPath := LastText(Below(v)))
    case ProcessPath => s.(procsockPath := LastText(Below(v)))
    case StatusName => s.(status := StatusIn(LastText(Below(v))))
    case CreateTime => s.(createTime := LastText(Below(v)))
    case Mounts => s.(mounts := MountsIn(Below(v)))
    case Annotations => s.(annotations := AnnotationsIn(Below(v)))
    case Console => s.(console := SubLead(v, PATH), useSocketConsole := SubLead(v, SOCKET) == Some("true"))
    case Vm => s.(vm := VmIn(v))
  }

  // ----- the effect of one section on the state -----

  predicate IsText(s: Section) {
    s in {OciVersion, Id, Pid, BundlePath, CommsPath, ProcessPath, StatusName, CreateTime}
  }

  function SetText(s: OciState, section: Section, text: string): OciState
    requires IsText(section)
  {
    match section
    case OciVersion => s.(ociVersion := Some(text))
    case Id => s.(id := Some(text))
    case Pid => s.(pid := Atoi(text))
    case BundlePath => s.(bundlePath := Some(text))
    case CommsPath => s.(commsPath := Some(text))
    case ProcessPath => s.(procsockPath := Some(text))
    case StatusName => s.(status := StrToStatus(text))
    case CreateTime => s.(createTime := Some(text))
  }

  lemma SetTextAgain(s: OciState, section: Section, a: string, b: string)
    requires IsText(section)
    ensures SetText(SetText(s, section, a), section, b) == SetText(s, section, b)
  {
  }

  lemma TakeText(r: Reading, section: Section, node: Tree)
    requires IsText(section)
    ensures TakeNode(r, section, node).state
         == if node.data.Some? then SetText(r.state, section, node.data.value) else r.state
  {
  }

  lemma {:induction false} TakeTexts(r: Reading, section: Section, nodes: seq<Tree>)
    requires IsText(section)
    ensures TakeAll(r, section, nodes).state
         == if LastText(nodes).Some? then SetText(r.state, section, LastText(nodes).value) else r.state
  {
    if nodes != [] {
      hide SetText, TakeNode, IsText;
      var front, last := nodes[..|nodes| - 1], nodes[|nodes| - 1];
      TakeTexts(r, section, front);
      TakeText(TakeAll(r, section, front), section, last);
      if last.data.Some? && LastText(front).Some? {
        SetTextAgain(r.state, section, LastText(front).value, last.data.value);
      }
    }
  }

  lemma {:induction false} TakeMounts(r: Reading, nodes: seq<Tree>)
    ensures TakeAll(r, Mounts, nodes).state == r.state.(mounts := r.state.mounts + MountsIn(nodes))
  {
    if nodes == [] {
      assert r.state.mounts + [] == r.state.mounts;
    } else {
      TakeMounts(r, nodes[..|nodes| - 1]);
      var data := nodes[|nodes| - 1].data;
      var before := MountsIn(nodes[..|nodes| - 1]);
      if data.Some? {
        assert r.state.mounts + (before + [MountAt(data.value)]) == (r.state.mounts + before) + [MountAt(data.value)];
      }
      assert r.state.mounts + (before + []) == r.state.mounts + before;
    }
  }

  lemma {:induction false} TakeAnnotations(r: Reading, nodes: seq<Tree>)
    ensures TakeAll(r, Annotations, nodes).state
         == r.state.(annotations := AnnotationsIn(nodes) + r.state.annotations)
  {
    if nodes == [] {
      assert [] + r.state.annotations == r.state.annotations;
    } else {
      var last := nodes[|nodes| - 1];
      TakeAnnotations(r, nodes[..|nodes| - 1]);
      var before := AnnotationsIn(nodes[..|nodes| - 1]);
      var head := if last.data.Some? && Lead(last).Some? then [Annotation(last.data.value, Lead(last))] else [];
      assert head + before + r.state.annotations == head + (before + r.state.annotations);
      assert [] + (before + r.state.annotations) == before + r.state.annotations;
    }
  }

  /** The nodes of an object begin with a separator, which no handler reacts to. */
  lemma {:induction false} TakeAfterSeparator(r: Reading, section: Section, nodes: seq<Tree>)
    ensures TakeAll(r, section, [SEPARATOR] + nodes) == TakeAll(r, section, nodes)
  {
    var all := [SEPARATOR] + nodes;
    if nodes == [] {
      assert all[..0] == [];
      assert TakeAll(r, section, all) == TakeNode(TakeAll(r, section, all[..0]), section, SEPARATOR);
    } else {
      TakeAfterSeparator(r, section, nodes[..|nodes| - 1]);
      assert all[..|all| - 1] == [SEPARATOR] + nodes[..|nodes| - 1];
    }
  }

  lemma SubSnoc(members: seq<Member>, key: string)
    requires members != [] && DistinctKeys(members)
    ensures var n := |members| - 1; var last := members[n];
      SubLead(Some(JObject(members)), key)
        == if last.key == key then Lead(FlattenMember(last)) else SubLead(Some(JObject(members[..n])), key)
    ensures SubLead(Some(JObject(members[..|members| - 1])), members[|members| - 1].key) == None
  {
    LookupLast(members);
  }

  lemma {:induction false} TakeConsoleMembers(r: Reading, members: seq<Member>)
    requires DistinctKeys(members) && r.state.console.None? && !r.state.useSocketConsole
    ensures TakeAll(r, Console, FlattenMembers(members)).state
         == SetField(r.state, Console, Some(JObject(members)))
  {
    if members != [] {
      var n := |members| - 1;
      var last := members[n];
      TakeConsoleMembers(r, members[..n]);
      SubSnoc(members, PATH);
      SubSnoc(members, SOCKET);
      assert FlattenMembers(members)[..n] == FlattenMembers(members[..n]);
      hide SubLead, FlattenMember;
      TakeConsoleMember(TakeAll(r, Console, FlattenMembers(members[..n])), last);
    }
  }

  lemma TakeConsoleMember(r: Reading, m: Member)
    ensures var lead := Lead(FlattenMember(m));
      TakeNode(r, Console, FlattenMember(m)).state
        == if lead.None? then r.state
           else if m.key == SOCKET then r.state.(useSocketConsole := lead == Some("true"))
           else if m.key == PATH then r.state.(console := lead)
           else r.state
  {
  }

  lemma {:induction false} TakeVmMembers(r: Reading, members: seq<Member>)
    requires DistinctKeys(members) && r.state.vm == NEW_STATE.vm
    ensures TakeAll(r, Vm, FlattenMembers(members)).state == SetField(r.state, Vm, Some(JObject(members)))
  {
    if members != [] {
      var n := |members| - 1;
      var last := members[n];
      TakeVmMembers(r, members[..n]);
      assert FlattenMembers(members)[..n] == FlattenMembers(members[..n]);
      hide VmIn, FillVm, FlattenMember, TakeNode, DistinctKeys;
      TakeVmMember(TakeAll(r, Vm, FlattenMembers(members[..n])), last);
      VmSnoc(members);
    }
  }

  lemma TakeVmMember(r: Reading, m: Member)
    ensures TakeNode(r, Vm, FlattenMember(m)).state
         == r.state.(vm := FillVm(r.state.vm, m))
  {
  }

  function FillVm(vm: VmCfg, m: Member): VmCfg {
    var lead := Lead(FlattenMember(m));
    if lead.Some? && TakeVm(vm, m.key, lead.value).Some? then TakeVm(vm, m.key, lead.value).value else vm
  }

  lemma VmSnoc(members: seq<Member>)
    requires members != [] && DistinctKeys(members)
    ensures var n := |members| - 1;
      VmIn(Some(JObject(members))) == FillVm(VmIn(Some(JObject(members[..n]))), members[n])
  {
    SubSnoc(members, HYPERVISOR_PATH);
    SubSnoc(members, IMAGE_PATH);
    SubSnoc(members, KERNEL_PATH);
    SubSnoc(members, WORKLOAD_PATH);
    SubSnoc(members, KERNEL_PARAMS);
    VmKeysDiffer();
    hide SubLead, FlattenMember;
  }

  // ----- the whole object -----

  /** The fields a section speaks about still hold what they were created with. */
  predicate Untouched(s: OciState, section: Section) { SetField(s, section, None) == s }

  lemma TakeSection(r: Reading, section: Section, v: Json)
    requires Untouched(r.state, section)
    requires section.Console? || section.Vm? ==> NotArray(Some(v))
    ensures TakeAll(r, section, Flatten(v, false)).state == SetField(r.state, section, Some(v))
  {
    hide TakeAll, FlattenMembers, Lookup;
    var nodes := Flatten(v, false);
    if IsText(section) {
      TakeTexts(r, section, nodes);
    } else if section.Mounts? {
      TakeMounts(r, nodes);
      assert [] + MountsIn(nodes) == MountsIn(nodes);
    } else if section.Annotations? {
      TakeAnnotations(r, nodes);
      assert AnnotationsIn(nodes) + [] == AnnotationsIn(nodes);
    } else if v.JObject? {
      FlattenObject(v.members, false);
      TakeAfterSeparator(r, section, FlattenMembers(v.members));
      if section.Console? {
        TakeConsoleMembers(r, v.members);
      } else {
        TakeVmMembers(r, v.members);
      }
    } else {
      TakeLeaf(r, section, v);
    }
  }

  lemma TakeLeaf(r: Reading, section: Section, v: Json)
    requires section.Console? || section.Vm?
    requires !v.JObject? && !v.JArray? && Untouched(r.state, section)
    ensures TakeAll(r, section, Flatten(v, false)).state == SetField(r.state, section, Some(v))
  {
    var nodes := Flatten(v, false);
    if nodes != [] {
      assert nodes[..0] == [];
      assert TakeAll(r, section, nodes) == TakeNode(TakeAll(r, section, nodes[..0]), section, nodes[0]);
    }
  }

  lemma EntrySnoc(members: seq<Member>, s: Section)
    requires members != [] && DistinctKeys(members)
    ensures var last := members[|members| - 1]; var front := members[..|members| - 1];
      && (SectionOf(last.key) == Some(s) ==> Entry(members, s) == Some(last.value) && Entry(front, s) == None)
      && (SectionOf(last.key) != Some(s) ==> Entry(members, s) == Entry(front, s))
  {
    LookupLast(members);
    NamesAreDistinct(s);
    SectionFromName(members[|members| - 1].key, 0);
  }

  lemma StateOfSkip(members: seq<Member>)
    requires members != [] && DistinctKeys(members) && SectionOf(members[|members| - 1].key).None?
    ensures StateOf(members) == StateOf(members[..|members| - 1])
  {
    hide *;
    forall s: Section ensures Entry(members, s) == Entry(members[..|members| - 1], s) {
      EntrySnoc(members, s);
    }
    SameEntries(members, members[..|members| - 1]);
  }

  lemma SameEntries(a: seq<Member>, b: seq<Member>)
    requires forall s: Section :: Entry(a, s) == Entry(b, s)
    ensures StateOf(a) == StateOf(b)
  {
    hide Entry, LastText, Below, SubLead, MountsIn, AnnotationsIn, PidIn, StatusIn, VmIn;
  }

  lemma StateOfSet(members: seq<Member>, section: Section)
    requires members != [] && DistinctKeys(members) && SectionOf(members[|members| - 1].key) == Some(section)
    ensures var before := StateOf(members[..|members| - 1]);
      && Untouched(before, section)
      && StateOf(members) == SetField(before, section, Some(members[|members| - 1].value))
  {
    hide Entry, SectionOf, LastText, Below, SubLead, MountsIn, AnnotationsIn, PidIn, StatusIn, VmIn, DistinctKeys;
    forall s: Section {
      EntrySnoc(members, s);
    }
    EmptyFields();
    match section {
      case OciVersion => case Id => case Pid => case BundlePath => case CommsPath => case ProcessPath =>
      case StatusName => case CreateTime => case Mounts => case Annotations => case Console => case Vm =>
    }
  }

  lemma EmptyFields()
    ensures LastText(Below(None)) == None && PidIn(None) == 0 && StatusIn(None) == Created
    ensures MountsIn(Below(None)) == [] && AnnotationsIn(Below(None)) == []
    ensures SubLead(None, PATH) == None && SubLead(None, SOCKET) == None
    ensures VmIn(None) == NEW_STATE.vm
  {
  }

  /** Every field comes from its own member, whatever order the members are in. */
  lemma {:induction false} DecodeObject(members: seq<Member>)
    requires DistinctKeys(members)
    requires NotArray(Lookup(members, CONSOLE)) && NotArray(Lookup(members, VM))
    ensures ReadMembers(members).state == StateOf(members)
  {
    if members == [] {
      ReadMembersEmpty();
    } else {
      var front, last := members[..|members| - 1], members[|members| - 1];
      LookupLast(members);
      ConsoleAndVm(members);
      DecodeObject(front);
      ReadMembersSnoc(members);
      hide StateOf, SetField, ReadMembers, Untouched, NotArray, DistinctKeys;
      var section := SectionOf(last.key);
      if section.None? {
        StateOfSkip(members);
      } else {
        StateOfSet(members, section.value);
        TakeSection(ReadMembers(front), section.value, last.value);
      }
    }
  }

  lemma ConsoleAndVm(members: seq<Member>)
    requires members != [] && DistinctKeys(members)
    requires NotArray(Lookup(members, CONSOLE)) && NotArray(Lookup(members, VM))
    ensures var last := members[|members| - 1]; var front := members[..|members| - 1];
      && NotArray(Lookup(front, CONSOLE)) && NotArray(Lookup(front, VM))
      && (SectionOf(last.key) in {Some(Console), Some(Vm)} ==> NotArray(Some(last.value)))
  {
    EntrySnoc(members, Console);
    EntrySnoc(members, Vm);
  }
}
