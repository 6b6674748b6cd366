/** What reading makes of a state file: exactly when it is accepted, and what
    comes back from a file that the runtime wrote. */
module StateCodec {
  import opened CLib
  import opened Json
  import opened Sections
  import opened StateFile
  import opened StateReader

  function NameOf(s: Section): string { HANDLERS[HandlerOf(s)].name }

  lemma NamesAreDistinct(s: Section)
    ensures SectionOf(NameOf(s)) == Some(s)
  {
    var name := NameOf(s);
    var h := HandlerOf(s);
    var k := 0;
    while k < h
      invariant 0 <= k <= h
      invariant SectionFrom(name, k) == SectionOf(name)
    {
      assert HANDLERS[k].name != name;
      k := k + 1;
    }
  }

  lemma {:induction false} SectionFromName(name: string, from: nat)
    ensures var s := SectionFrom(name, from); s.Some? ==> NameOf(s.value) == name
    decreases |HANDLERS| - from
  {
    if from < |HANDLERS| && HANDLERS[from].name != name {
      SectionFromName(name, from + 1);
    }
  }

  // ----- the counters -----

  /** Whether a handler counts a node does not depend on the state being filled. */
  predicate Counts(section: Section, node: Tree) { Take(NEW_STATE, section, node).1 }

  function Hits(section: Section, nodes: seq<Tree>): nat {
    if nodes == [] then 0
    else Hits(section, nodes[..|nodes| - 1]) + if Counts(section, nodes[|nodes| - 1]) then 1 else 0
  }

  lemma CountsAnywhere(s: OciState, section: Section, node: Tree)
    ensures Take(s, section, node).1 == Counts(section, node)
  {
  }

  lemma {:induction false} TakeAllCounts(r: Reading, section: Section, nodes: seq<Tree>)
    ensures TakeAll(r, section, nodes).counts
         == r.counts[section := r.counts[section] + Hits(section, nodes)]
  {
    if nodes != [] {
      hide Take, Counts;
      var front, last := nodes[..|nodes| - 1], nodes[|nodes| - 1];
      TakeAllCounts(r, section, front);
      CountsAnywhere(TakeAll(r, section, front).state, section, last);
    }
  }

  function HitsOf(section: Section, v: Option<Json>): nat {
    match v case Some(j) => Hits(section, Flatten(j, false)) case None => 0
  }

  function ReadMembers(members: seq<Member>): Reading {
    TopFold(Reading(NEW_STATE, multiset{}), Flatten(JObject(members), false))
  }

  lemma ReadMembersSnoc(members: seq<Member>)
    requires members != []
    ensures ReadMembers(members)
         == TopNode(ReadMembers(members[..|members| - 1]), FlattenMember(members[|members| - 1]))
  {
    FlattenObjectSnoc(members);
    var nodes := Flatten(JObject(members), false);
    assert nodes[..|nodes| - 1] == Flatten(JObject(members[..|members| - 1]), false);
  }

  lemma ReadMembersEmpty()
    ensures ReadMembers([]) == Reading(NEW_STATE, multiset{})
  {
    var r := Reading(NEW_STATE, multiset{});
    var nodes := Flatten(JObject([]), false);
    assert nodes == [SEPARATOR] && nodes[..0] == [];
    assert TopFold(r, nodes) == TopNode(TopFold(r, nodes[..0]), SEPARATOR);
  }

  /** Each counter holds what its handler found below its own key. */
  lemma {:induction false} CountersOfObject(members: seq<Member>, s: Section)
    requires DistinctKeys(members)
    ensures ReadMembers(members).counts[s] == HitsOf(s, Lookup(members, NameOf(s)))
  {
    if members == [] {
      ReadMembersEmpty();
    } else {
      var n := |members| - 1;
      var last := members[n];
      LookupLast(members);
      CountersOfObject(members[..n], s);
      ReadMembersSnoc(members);
      SectionFromName(last.key, 0);
      NamesAreDistinct(s);
      var section := SectionOf(last.key);
      if section.Some? {
        TakeAllCounts(ReadMembers(members[..n]), section.value, Flatten(last.value, false));
      }
    }
  }

  // ----- when a file is accepted -----

  /** Some child of the value carries text; so every string, number and boolean. */
  predicate HasText(v: Option<Json>) {
    v.Some? && exists i :: 0 <= i < |Flatten(v.value, false)| && Flatten(v.value, false)[i].data.Some?
  }

  predicate IsNumber(node: Tree) { node.data.Some? && StrToLL(node.data.value).Some? }

  predicate HasNumber(v: Option<Json>) {
    v.Some? && exists i :: 0 <= i < |Flatten(v.value, false)| && IsNumber(Flatten(v.value, false)[i])
  }

  /** The first child of the value carries text. */
  predicate Leads(v: Option<Json>) {
    v.Some? && Flatten(v.value, false) != [] && Flatten(v.value, false)[0].data.Some?
  }

  /** For scalars all of this says: present and not null. */
  lemma ScalarPresence(v: Option<Json>)
    requires v.Some? ==> IsScalar(v.value) || v.value.JNull?
    ensures HasText(v) <==> v.Some? && !v.value.JNull?
    ensures Leads(v) <==> v.Some? && !v.value.JNull?
    ensures HasNumber(v) <==> v.Some? && !v.value.JNull? && StrToLL(ScalarText(v.value)).Some?
  {
    if v.Some? && IsScalar(v.value) {
      assert Flatten(v.value, false) == [Tree(Some(ScalarText(v.value)), [])];
      assert Flatten(v.value, false)[0].data.Some?;
      assert IsNumber(Flatten(v.value, false)[0]) <==> StrToLL(ScalarText(v.value)).Some?;
    }
  }

  function One(members: seq<Member>, key: string): nat {
    if Leads(Lookup(members, key)) then 1 else 0
  }

  lemma {:induction false} ConsoleHits(members: seq<Member>)
    requires DistinctKeys(members)
    ensures Hits(Console, FlattenMembers(members)) == One(members, SOCKET) + One(members, PATH)
  {
    if members != [] {
      var n := |members| - 1;
      LookupLast(members);
      ConsoleHits(members[..n]);
      assert FlattenMembers(members)[..n] == FlattenMembers(members[..n]);
    }
  }

  lemma OneSnoc(members: seq<Member>, key: string)
    requires members != [] && DistinctKeys(members)
    ensures var last := members[|members| - 1]; var front := members[..|members| - 1];
      && One(members, key) == One(front, key) + (if last.key == key && Leads(Some(last.value)) then 1 else 0)
  {
    LookupLast(members);
  }

  predicate VmKey(key: string) {
    || key == WORKLOAD_PATH || key == HYPERVISOR_PATH || key == KERNEL_PATH
    || key == IMAGE_PATH || key == KERNEL_PARAMS
  }

  lemma VmCounts(m: Member)
    ensures Counts(Vm, FlattenMember(m)) <==> VmKey(m.key) && Leads(Some(m.value))
  {
  }

  lemma VmKeysDiffer()
    ensures WORKLOAD_PATH != HYPERVISOR_PATH && WORKLOAD_PATH != KERNEL_PATH && WORKLOAD_PATH != IMAGE_PATH
    ensures WORKLOAD_PATH != KERNEL_PARAMS && HYPERVISOR_PATH != KERNEL_PATH && HYPERVISOR_PATH != IMAGE_PATH
    ensures HYPERVISOR_PATH != KERNEL_PARAMS && KERNEL_PATH != IMAGE_PATH && KERNEL_PATH != KERNEL_PARAMS
    ensures IMAGE_PATH != KERNEL_PARAMS
  {
  }

  lemma {:induction false} VmHits(members: seq<Member>)
    requires DistinctKeys(members)
    ensures Hits(Vm, FlattenMembers(members))
         == One(members, WORKLOAD_PATH) + One(members, HYPERVISOR_PATH) + One(members, KERNEL_PATH)
            + One(members, IMAGE_PATH) + One(members, KERNEL_PARAMS)
  {
    if members != [] {
      hide One, Counts, Leads;
      var n := |members| - 1;
      VmHits(members[..n]);
      OneSnoc(members, WORKLOAD_PATH);
      OneSnoc(members, HYPERVISOR_PATH);
      OneSnoc(members, KERNEL_PATH);
      OneSnoc(members, IMAGE_PATH);
      OneSnoc(members, KERNEL_PARAMS);
      VmKeysDiffer();
      VmCounts(members[n]);
      assert FlattenMembers(members)[..n] == FlattenMembers(members[..n]);
    }
  }

  lemma {:induction false} HitsAny(section: Section, nodes: seq<Tree>)
    ensures Hits(section, nodes) >= 1 <==> exists i :: 0 <= i < |nodes| && Counts(section, nodes[i])
  {
    if nodes != [] {
      var n := |nodes| - 1;
      HitsAny(section, nodes[..n]);
      if i :| 0 <= i < n && Counts(section, nodes[..n][i]) {
        assert Counts(section, nodes[i]);
      }
      if i :| 0 <= i < |nodes| && Counts(section, nodes[i]) {
        assert i < n ==> Counts(section, nodes[..n][i]);
      }
    }
  }

  /** Not an array, in which one key could be met twice. */
  predicate NotArray(v: Option<Json>) {
    v.Some? ==> !v.value.JArray? && (v.value.JObject? ==> DistinctKeys(v.value.members))
  }

  function SubMember(v: Option<Json>, key: string): Option<Json> {
    if v.Some? && v.value.JObject? then Lookup(v.value.members, key) else None
  }

  /** Every required member and sub-member is there, and the pid starts with a number. */
  predicate Readable(members: seq<Member>) {
    var console, vm := Lookup(members, CONSOLE), Lookup(members, VM);
    && HasText(Lookup(members, OCI_VERSION)) && HasText(Lookup(members, ID))
    && HasNumber(Lookup(members, PID))
    && HasText(Lookup(members, BUNDLE_PATH)) && HasText(Lookup(members, COMMS_PATH))
    && HasText(Lookup(members, PROCESS_PATH)) && HasText(Lookup(members, STATUS))
    && HasText(Lookup(members, CREATED))
    && Leads(SubMember(console, SOCKET)) && Leads(SubMember(console, PATH))
    && Leads(SubMember(vm, HYPERVISOR_PATH)) && Leads(SubMember(vm, IMAGE_PATH))
    && Leads(SubMember(vm, KERNEL_PATH)) && Leads(SubMember(vm, WORKLOAD_PATH))
    && Leads(SubMember(vm, KERNEL_PARAMS))
  }

  predicate Satisfied(members: seq<Member>, s: Section) {
    HitsOf(s, Lookup(members, NameOf(s))) >= Needed(s)
  }

  lemma TextSatisfied(members: seq<Member>, s: Section)
    requires s in {OciVersion, Id, BundlePath, CommsPath, ProcessPath, StatusName, CreateTime}
    ensures Satisfied(members, s) <==> HasText(Lookup(members, NameOf(s)))
  {
    hide Lookup, Flatten, NameOf, Hits, Counts;
    TextNeeds(s);
    var v := Lookup(members, NameOf(s));
    if v.Some? {
      var nodes := Flatten(v.value, false);
      HitsAny(s, nodes);
      forall i | 0 <= i < |nodes| ensures Counts(s, nodes[i]) <==> nodes[i].data.Some? {
        TextCounts(s, nodes[i]);
      }
    }
  }

  lemma TextNeeds(s: Section)
    requires s in {OciVersion, Id, BundlePath, CommsPath, ProcessPath, StatusName, CreateTime}
    ensures Needed(s) == 1
  {
  }

  lemma TextCounts(s: Section, node: Tree)
    requires s in {OciVersion, Id, BundlePath, CommsPath, ProcessPath, StatusName, CreateTime}
    ensures Counts(s, node) <==> node.data.Some?
  {
  }

  lemma PidSatisfied(members: seq<Member>)
    ensures Satisfied(members, Pid) <==> HasNumber(Lookup(members, PID))
  {
    assert NameOf(Pid) == PID;
    hide NameOf, Lookup, Flatten, Hits, IsNumber;
    var v := Lookup(members, PID);
    if v.Some? {
      PidHits(Flatten(v.value, false));
    }
  }

  lemma PidHits(nodes: seq<Tree>)
    ensures Hits(Pid, nodes) >= 1 <==> exists i :: 0 <= i < |nodes| && IsNumber(nodes[i])
  {
    hide *;
    HitsAny(Pid, nodes);
    forall i | 0 <= i < |nodes| ensures Counts(Pid, nodes[i]) <==> IsNumber(nodes[i]) {
      PidCounts(nodes[i]);
    }
  }

  lemma PidCounts(node: Tree)
    ensures Counts(Pid, node) <==> IsNumber(node)
  {
  }

  lemma {:induction false} HitsAfterSeparator(section: Section, nodes: seq<Tree>)
    ensures Hits(section, [SEPARATOR] + nodes) == Hits(section, nodes)
  {
    var all := [SEPARATOR] + nodes;
    if nodes == [] {
      assert all[..0] == [];
      assert Hits(section, all) == Hits(section, all[..0]);
    } else {
      HitsAfterSeparator(section, nodes[..|nodes| - 1]);
      assert all[..|all| - 1] == [SEPARATOR] + nodes[..|nodes| - 1];
    }
  }

  /** What the console and vm handlers count below a value that is no array. */
  lemma ObjectHits(section: Section, v: Option<Json>)
    requires section.Console? || section.Vm?
    requires NotArray(v)
    ensures HitsOf(section, v)
         == if v.Some? && v.value.JObject? then Hits(section, FlattenMembers(v.value.members)) else 0
  {
    if v.Some? && v.value.JObject? {
      HitsAfterSeparator(section, FlattenMembers(v.value.members));
    } else if v.Some? && IsScalar(v.value) {
      var nodes := Flatten(v.value, false);
      assert nodes[..0] == [];
      assert Hits(section, nodes) == Hits(section, nodes[..0]);
    }
  }

  lemma ConsoleSatisfied(members: seq<Member>)
    requires NotArray(Lookup(members, CONSOLE))
    ensures Satisfied(members, Console) <==>
      var v := Lookup(members, CONSOLE); Leads(SubMember(v, SOCKET)) && Leads(SubMember(v, PATH))
  {
    var v := Lookup(members, CONSOLE);
    ObjectHits(Console, v);
    if v.Some? && v.value.JObject? {
      ConsoleHits(v.value.members);
    }
  }

  lemma VmSatisfied(members: seq<Member>)
    requires NotArray(Lookup(members, VM))
    ensures Satisfied(members, Vm) <==>
      var v := Lookup(members, VM);
      && Leads(SubMember(v, HYPERVISOR_PATH)) && Leads(SubMember(v, IMAGE_PATH))
      && Leads(SubMember(v, KERNEL_PATH)) && Leads(SubMember(v, WORKLOAD_PATH))
      && Leads(SubMember(v, KERNEL_PARAMS))
  {
    var v := Lookup(members, VM);
    ObjectHits(Vm, v);
    if v.Some? && v.value.JObject? {
      VmHits(v.value.members);
    }
  }

  lemma EnoughIsSatisfied(members: seq<Member>)
    requires DistinctKeys(members)
    ensures Read(JObject(members)).Some? <==> forall s :: Satisfied(members, s)
  {
    var counts := ReadMembers(members).counts;
    forall s ensures counts[s] >= Needed(s) <==> Satisfied(members, s) {
      CountersOfObject(members, s);
    }
  }

  /** A file is read successfully exactly when everything required is there. */
  lemma Acceptance(members: seq<Member>)
    requires DistinctKeys(members)
    requires NotArray(Lookup(members, CONSOLE)) && NotArray(Lookup(members, VM))
    ensures Read(JObject(members)).Some? <==> Readable(members)
  {
    hide Read, Satisfied, HasText, Leads, HasNumber, SubMember, Lookup;
    EnoughIsSatisfied(members);
    TextSatisfied(members, OciVersion);
    TextSatisfied(members, Id);
    PidSatisfied(members);
    TextSatisfied(members, BundlePath);
    TextSatisfied(members, CommsPath);
    TextSatisfied(members, ProcessPath);
    TextSatisfied(members, StatusName);
    TextSatisfied(members, CreateTime);
    ConsoleSatisfied(members);
    VmSatisfied(members);
    AllSections(members);
    SectionNames();
  }

  lemma SectionNames()
    ensures NameOf(OciVersion) == OCI_VERSION && NameOf(Id) == ID && NameOf(BundlePath) == BUNDLE_PATH
    ensures NameOf(CommsPath) == COMMS_PATH && NameOf(ProcessPath) == PROCESS_PATH
    ensures NameOf(StatusName) == STATUS && NameOf(CreateTime) == CREATED
  {
  }

  lemma AllSections(members: seq<Member>)
    ensures (forall s :: Satisfied(members, s)) <==>
      && Satisfied(members, OciVersion) && Satisfied(members, Id) && Satisfied(members, Pid)
      && Satisfied(members, BundlePath) && Satisfied(members, CommsPath) && Satisfied(members, ProcessPath)
      && Satisfied(members, StatusName) && Satisfied(members, CreateTime)
      && Satisfied(members, Console) && Satisfied(members, Vm)
  {
    assert Satisfied(members, Mounts) && Satisfied(members, Annotations);
    hide Satisfied;
    forall s | s !in {OciVersion, Id, Pid, BundlePath, CommsPath, ProcessPath, StatusName, CreateTime, Console, Vm}
      ensures Satisfied(members, s)
    {
      assert s.Mounts? || s.Annotations?;
    }
  }
}
