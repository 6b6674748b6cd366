/** Reading back a file that the runtime wrote, and writing it again. */
module StateRoundTrip {
  import opened CLib
  import opened Json
  import opened OciConfig
  import opened Sections
  import opened StateFile
  import opened StateReader
  import opened StateCodec
  import opened StateDecode

  // ----- what comes back -----

  function MountsAt(dests: seq<string>): seq<Mount> {
    seq(|dests|, i requires 0 <= i < |dests| => MountAt(dests[i]))
  }

  /** The annotations come back in reverse order, without those that have no value. */
  function ReadAnnotations(annotations: seq<Annotation>): seq<Annotation> {
    if annotations == [] then []
    else
      var last := annotations[|annotations| - 1];
      (if last.value.Some? then [last] else []) + ReadAnnotations(annotations[..|annotations| - 1])
  }

  predicate DistinctAnnotations(annotations: seq<Annotation>) {
    forall i, j :: 0 <= i < j < |annotations| ==> annotations[i].key != annotations[j].key
  }

  /** Only the kernel parameters change: unset ones are written as blank. */
  function ReadVm(vm: VmCfg): VmCfg {
    vm.(kernelParams := Some(if vm.kernelParams.Some? then vm.kernelParams.value else ""))
  }

  function Written(config: Config, created: string): OciState
    requires Writable(config)
  {
    OciState(Some(SUPPORTED_SPEC_VERSION), config.containerId, config.workloadPid, config.bundlePath,
             Some(config.commsPath), Some(config.procsockPath), config.status, Some(created),
             MountsAt(Recorded(config.mounts)), ReadAnnotations(config.annotations),
             config.console, config.useSocketConsole, ReadVm(config.vm.value))
  }

  // ----- the members of a written file -----

  lemma HandlerNames(i: nat, j: nat)
    requires i < j < |HANDLERS|
    ensures HANDLERS[i].name != HANDLERS[j].name
  {
    hide SectionOf, HandlerOf;
    HandlerIndex(i);
    HandlerIndex(j);
    NamesAreDistinct(HANDLERS[i].section);
    NamesAreDistinct(HANDLERS[j].section);
  }

  /** The file lists its members in the order of the handler table. */
  lemma DocKeys(config: Config, created: string, k: nat)
    requires Writable(config) && k < |DocMembers(config, created)|
    ensures 11 <= |DocMembers(config, created)| <= |HANDLERS|
    ensures DocMembers(config, created)[k].key == HANDLERS[k].name
  {
  }

  lemma DocDistinct(config: Config, created: string)
    requires Writable(config)
    ensures DistinctKeys(DocMembers(config, created))
    ensures |DocMembers(config, created)| == if config.annotations == [] then 11 else 12
  {
    var m := DocMembers(config, created);
    forall i, j | 0 <= i < j < |m| ensures m[i].key != m[j].key {
      DocKeys(config, created, i);
      DocKeys(config, created, j);
      HandlerNames(i, j);
    }
  }

  lemma DocEntry(config: Config, created: string, s: Section)
    requires Writable(config)
    ensures var m := DocMembers(config, created); var k := HandlerOf(s);
      Entry(m, s) == if k < |m| then Some(m[k].value) else None
  {
    var m := DocMembers(config, created);
    DocDistinct(config, created);
    var k := HandlerOf(s);
    if k < |m| {
      DocKeys(config, created, k);
      LookupAt(m, k);
    } else {
      forall i | 0 <= i < |m| ensures m[i].key != NameOf(s) {
        DocKeys(config, created, i);
        HandlerNames(i, k);
      }
      LookupAbsent(m, NameOf(s));
    }
  }

  /** The member that each section finds in a written file. */
  function Expected(config: Config, created: string, s: Section): Option<Json>
    requires Writable(config) && StatusToStr(config.status).Some?
  {
    match s
    case OciVersion => Some(JString(SUPPORTED_SPEC_VERSION))
    case Id => Some(JString(config.containerId.value))
    case Pid => Some(JInt(ToUint32(config.workloadPid)))
    case BundlePath => Some(JString(config.bundlePath.value))
    case CommsPath => Some(JString(config.commsPath))
    case ProcessPath => Some(JString(config.procsockPath))
    case StatusName => Some(JString(StatusToStr(config.status).value))
    case CreateTime => Some(JString(created))
    case Mounts => Some(JArray(JStrings(Recorded(config.mounts))))
    case Console => Some(JObject(ConsoleMembers(config)))
    case Vm => Some(JObject(VmMembers(config.vm.value)))
    case Annotations =>
      if config.annotations == [] then None else Some(JObject(AnnotationMembers(config.annotations)))
  }

  lemma DocEntryIs(config: Config, created: string, s: Section)
    requires Writable(config)
    ensures StatusToStr(config.status).Some?
    ensures Entry(DocMembers(config, created), s) == Expected(config, created, s)
  {
    hide Entry, StatusToStr, StrToStatus, Recorded, JStrings, ConsoleMembers, VmMembers, AnnotationMembers,
         DistinctKeys;
    StatusRoundTrip(config.status);
    DocDistinct(config, created);
    DocEntry(config, created, s);
  }

  /** All the entries at once. */
  lemma DocEntries(config: Config, created: string)
    requires Writable(config)
    ensures var m := DocMembers(config, created);
      && Entry(m, OciVersion) == Some(JString(SUPPORTED_SPEC_VERSION))
      && Entry(m, Id) == Some(JString(config.containerId.value))
      && Entry(m, Pid) == Some(JInt(ToUint32(config.workloadPid)))
      && Entry(m, BundlePath) == Some(JString(config.bundlePath.value))
      && Entry(m, CommsPath) == Some(JString(config.commsPath))
      && Entry(m, ProcessPath) == Some(JString(config.procsockPath))
      && StatusToStr(config.status).Some?
      && Entry(m, StatusName) == Some(JString(StatusToStr(config.status).value))
      && Entry(m, CreateTime) == Some(JString(created))
      && Entry(m, Mounts) == Some(JArray(JStrings(Recorded(config.mounts))))
      && Entry(m, Console) == Some(JObject(ConsoleMembers(config)))
      && Entry(m, Vm) == Some(JObject(VmMembers(config.vm.value)))
      && Entry(m, Annotations) == (if config.annotations == [] then None
                                   else Some(JObject(AnnotationMembers(config.annotations))))
  {
    hide Entry, StatusToStr, Recorded, JStrings, ConsoleMembers, VmMembers, AnnotationMembers, DocMembers,
         Writable, ToUint32;
    DocEntryIs(config, created, OciVersion);
    forall s: Section ensures Entry(DocMembers(config, created), s) == Expected(config, created, s) {
      DocEntryIs(config, created, s);
    }
  }

  // ----- what is read from them -----

  lemma ScalarRead(v: Json)
    requires IsScalar(v)
    ensures LastText(Below(Some(v))) == Some(ScalarText(v))
    ensures HasText(Some(v)) && Leads(Some(v)) && Flatten(v, false)[0].data == Some(ScalarText(v))
    ensures HasNumber(Some(v)) <==> StrToLL(ScalarText(v)).Some?
  {
    assert Flatten(v, false) == [Tree(Some(ScalarText(v)), [])];
    ScalarPresence(Some(v));
  }

  lemma {:induction false} MountsRead(dests: seq<string>)
    ensures MountsIn(FlattenElements(JStrings(dests))) == MountsAt(dests)
  {
    if dests != [] {
      var n := |dests| - 1;
      MountsRead(dests[..n]);
      var all := JStrings(dests);
      assert all[..n] == JStrings(dests[..n]);
      var leaf := Tree(Some(dests[n]), [SEPARATOR]);
      assert Flatten(all[n], true) == [leaf];
      var nodes := FlattenElements(all);
      assert nodes == FlattenElements(all[..n]) + [leaf];
      assert nodes[..|nodes| - 1] == FlattenElements(all[..n]);
      assert MountsAt(dests) == MountsAt(dests[..n]) + [MountAt(dests[n])];
    }
  }

  lemma ConsoleRead(config: Config)
    ensures var v := Some(JObject(ConsoleMembers(config)));
      && SubLead(v, PATH) == config.console
      && SubLead(v, SOCKET) == Some(if config.useSocketConsole then "true" else "false")
      && NotArray(v)
  {
    var m := ConsoleMembers(config);
    assert DistinctKeys(m);
    LookupAt(m, 0);
    LookupAt(m, 1);
    ScalarRead(JBool(config.useSocketConsole));
    if config.console.Some? {
      ScalarRead(JString(config.console.value));
    }
  }

  lemma VmRead(vm: VmCfg)
    ensures VmIn(Some(JObject(VmMembers(vm)))) == ReadVm(vm)
    ensures NotArray(Some(JObject(VmMembers(vm))))
    ensures forall key :: VmKey(key) ==> SubLead(Some(JObject(VmMembers(vm))), key).Some?
  {
    var m := VmMembers(vm);
    VmKeysDiffer();
    assert DistinctKeys(m);
    VmMemberRead(m, 0);
    VmMemberRead(m, 1);
    VmMemberRead(m, 2);
    VmMemberRead(m, 3);
    VmMemberRead(m, 4);
    hide SubLead;
  }

  lemma VmMemberRead(m: seq<Member>, k: nat)
    requires DistinctKeys(m) && k < |m| && m[k].value.JString?
    ensures SubLead(Some(JObject(m)), m[k].key) == Some(m[k].value.text)
  {
    LookupAt(m, k);
    ScalarRead(m[k].value);
  }

  lemma {:induction false} SetAbsent(members: seq<Member>, key: string, value: Json)
    requires forall i :: 0 <= i < |members| ==> members[i].key != key
    ensures SetMember(members, key, value) == members + [Member(key, value)]
  {
    if members != [] {
      SetAbsent(members[1..], key, value);
    }
  }

  lemma {:induction false} AnnotationMembersAt(annotations: seq<Annotation>)
    requires DistinctAnnotations(annotations)
    ensures |AnnotationMembers(annotations)| == |annotations|
    ensures forall i :: 0 <= i < |annotations| ==>
      AnnotationMembers(annotations)[i] == Member(annotations[i].key, StringOrNull(annotations[i].value))
  {
    if annotations != [] {
      var n := |annotations| - 1;
      AnnotationMembersAt(annotations[..n]);
      SetAbsent(AnnotationMembers(annotations[..n]), annotations[n].key, StringOrNull(annotations[n].value));
    }
  }

  lemma {:induction false} AnnotationsRead(annotations: seq<Annotation>)
    requires DistinctAnnotations(annotations)
    ensures AnnotationsIn(Flatten(JObject(AnnotationMembers(annotations)), false)) == ReadAnnotations(annotations)
  {
    if annotations == [] {
      assert Flatten(JObject([]), false) == [SEPARATOR];
      assert [SEPARATOR][..0] == [];
      assert AnnotationsIn([SEPARATOR]) == [] + AnnotationsIn([]);
    } else {
      var n := |annotations| - 1;
      AnnotationsRead(annotations[..n]);
      AnnotationMembersAt(annotations);
      AnnotationMembersAt(annotations[..n]);
      var members := AnnotationMembers(annotations);
      assert members[..n] == AnnotationMembers(annotations[..n]);
      FlattenObjectSnoc(members);
      AnnotationLead(annotations[n]);
      var nodes := Flatten(JObject(members), false);
      hide Flatten, AnnotationMembers, FlattenMember, StringOrNull, Lead, DistinctAnnotations;
      assert nodes[..|nodes| - 1] == Flatten(JObject(members[..n]), false);
    }
  }

  lemma AnnotationLead(a: Annotation)
    ensures Lead(FlattenMember(Member(a.key, StringOrNull(a.value)))) == a.value
  {
  }

  /** The pid is printed as an unsigned number and read back as a signed one. */
  lemma PidRead(pid: int)
    requires IsPid(pid)
    ensures Atoi(SignedDecimal(ToUint32(pid))) == pid && StrToLL(SignedDecimal(ToUint32(pid))).Some?
  {
    hide Atoi, StrToLL, SignedDecimal, ToInt32, ToUint32;
    Unsigned(pid);
    AtoiPrinted(ToUint32(pid));
  }

  lemma Unsigned(pid: int)
    requires IsPid(pid)
    ensures 0 <= ToUint32(pid) < 0x1_0000_0000 && ToInt32(ToUint32(pid)) == pid
  {
    assert ToUint32(pid) == if pid < 0 then pid + 0x1_0000_0000 else pid;
  }

  lemma StateOfDoc(config: Config, created: string)
    requires Writable(config) && IsPid(config.workloadPid)
    requires DistinctAnnotations(config.annotations)
    ensures StateOf(DocMembers(config, created)) == Written(config, created)
  {
    DocEntries(config, created);
    StatusRoundTrip(config.status);
    ConsoleRead(config);
    VmRead(config.vm.value);
    MountsRead(Recorded(config.mounts));
    AnnotationsRead(config.annotations);
    PidRead(config.workloadPid);
    assert Flatten(JArray(JStrings(Recorded(config.mounts))), false)
        == FlattenElements(JStrings(Recorded(config.mounts)));
    hide Entry, SubLead, VmIn, AnnotationsIn, MountsIn, DocMembers, LastText, Atoi, ToUint32, SignedDecimal, StrToLL,
         StatusToStr, StrToStatus, ReadAnnotations, Recorded, ConsoleMembers, VmMembers, Flatten;
    ScalarRead(JString(SUPPORTED_SPEC_VERSION));
    ScalarRead(JString(config.containerId.value));
    ScalarRead(JInt(ToUint32(config.workloadPid)));
    ScalarRead(JString(config.bundlePath.value));
    ScalarRead(JString(config.commsPath));
    ScalarRead(JString(config.procsockPath));
    ScalarRead(JString(StatusToStr(config.status).value));
    ScalarRead(JString(created));
  }

  lemma DocReadable(config: Config, created: string)
    requires Writable(config) && IsPid(config.workloadPid)
    ensures Readable(DocMembers(config, created)) <==> config.console.Some?
  {
    DocEntries(config, created);
    ConsoleRead(config);
    VmRead(config.vm.value);
    PidRead(config.workloadPid);
    EntryNames(DocMembers(config, created));
    hide Entry, SubLead, VmIn, DocMembers, LastText, Atoi, ToUint32, SignedDecimal, StrToLL,
         StatusToStr, StrToStatus, Recorded, ConsoleMembers, VmMembers, Flatten, HasText, HasNumber, SubMember,
         Lookup, Leads;
    ScalarRead(JString(SUPPORTED_SPEC_VERSION));
    ScalarRead(JString(config.containerId.value));
    ScalarRead(JInt(ToUint32(config.workloadPid)));
    ScalarRead(JString(config.bundlePath.value));
    ScalarRead(JString(config.commsPath));
    ScalarRead(JString(config.procsockPath));
    ScalarRead(JString(StatusToStr(config.status).value));
    ScalarRead(JString(created));
    var m := DocMembers(config, created);
    var console, vm := Entry(m, Console), Entry(m, Vm);
    SubLeadLeads(console, SOCKET);
    SubLeadLeads(console, PATH);
    SubLeadLeads(vm, HYPERVISOR_PATH);
    SubLeadLeads(vm, IMAGE_PATH);
    SubLeadLeads(vm, KERNEL_PATH);
    SubLeadLeads(vm, WORKLOAD_PATH);
    SubLeadLeads(vm, KERNEL_PARAMS);
  }

  lemma SubLeadLeads(v: Option<Json>, key: string)
    ensures Leads(SubMember(v, key)) <==> SubLead(v, key).Some?
  {
  }

  lemma EntryNames(m: seq<Member>)
    ensures Entry(m, OciVersion) == Lookup(m, OCI_VERSION) && Entry(m, Id) == Lookup(m, ID)
    ensures Entry(m, Pid) == Lookup(m, PID) && Entry(m, BundlePath) == Lookup(m, BUNDLE_PATH)
    ensures Entry(m, CommsPath) == Lookup(m, COMMS_PATH) && Entry(m, ProcessPath) == Lookup(m, PROCESS_PATH)
    ensures Entry(m, StatusName) == Lookup(m, STATUS) && Entry(m, CreateTime) == Lookup(m, CREATED)
    ensures Entry(m, Console) == Lookup(m, CONSOLE) && Entry(m, Vm) == Lookup(m, VM)
  {
    hide Lookup;
  }

  /** For every configuration that can be written: the file is accepted exactly
      when a console was set, and gives back everything it was written from. */
  lemma RoundTrip(config: Config, created: string)
    requires Writable(config) && IsPid(config.workloadPid)
    requires DistinctAnnotations(config.annotations)
    ensures Read(Doc(config, created).value)
         == if config.console.Some? then Some(Written(config, created)) else None
  {
    var m := DocMembers(config, created);
    DocDistinct(config, created);
    DocEntries(config, created);
    EntryNames(m);
    ConsoleRead(config);
    VmRead(config.vm.value);
    hide DocMembers, Lookup, Entry, Written, Readable, StateOf, DistinctKeys, NotArray, SubLead;
    Acceptance(m);
    DocReadable(config, created);
    DecodeObject(m);
    StateOfDoc(config, created);
  }

  // ----- annotations as a map -----

  function AsMap(annotations: seq<Annotation>): map<string, string> {
    if annotations == [] then map[]
    else
      var last := annotations[|annotations| - 1];
      var rest := AsMap(annotations[..|annotations| - 1]);
      if last.value.Some? then rest[last.key := last.value.value] else rest
  }

  lemma {:induction false} AsMapCons(a: Annotation, rest: seq<Annotation>)
    requires a.value.Some?
    requires forall i :: 0 <= i < |rest| ==> rest[i].key != a.key
    ensures AsMap([a] + rest) == AsMap(rest)[a.key := a.value.value]
  {
    var all := [a] + rest;
    if rest == [] {
      assert all[..0] == [];
      assert AsMap(all[..0]) == map[];
    } else {
      AsMapCons(a, rest[..|rest| - 1]);
      assert all[..|all| - 1] == [a] + rest[..|rest| - 1];
    }
  }

  lemma {:induction false} ReadAnnotationsFrom(annotations: seq<Annotation>)
    ensures forall a :: a in ReadAnnotations(annotations) ==> a in annotations
  {
    if annotations != [] {
      ReadAnnotationsFrom(annotations[..|annotations| - 1]);
    }
  }

  /** The order is reversed, but the annotations are the same as a map. */
  lemma {:induction false} SameAnnotations(annotations: seq<Annotation>)
    requires DistinctAnnotations(annotations)
    ensures AsMap(ReadAnnotations(annotations)) == AsMap(annotations)
  {
    if annotations != [] {
      var n := |annotations| - 1;
      SameAnnotations(annotations[..n]);
      var rest := ReadAnnotations(annotations[..n]);
      ReadAnnotationsFrom(annotations[..n]);
      if annotations[n].value.Some? {
        forall i | 0 <= i < |rest| ensures rest[i].key != annotations[n].key {
          assert rest[i] in rest;
        }
        AsMapCons(annotations[n], rest);
      } else {
        assert [] + rest == rest;
      }
    }
  }
}
