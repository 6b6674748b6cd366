/** The "linux" section handler, of which only the namespaces are kept. */
module LinuxSection {
  import opened CLib
  import opened Json
  import opened OciConfig
  import opened Regroup
  import opened Sections

  const NAMESPACES := "namespaces"
  const TYPE := "type"
  const PATH := "path"

  const NS_MAP: seq<(NsType, string)> := [
    (NsCgroup, "cgroup"), (NsIpc, "ipc"), (NsMount, "mount"), (NsNet, "network"),
    (NsPid, "pid"), (NsUser, "user"), (NsUts, "uts")]

  function NsFrom(name: string, from: nat): NsType
    decreases |NS_MAP| - from
  {
    if from >= |NS_MAP| then NsInvalid
    else if NS_MAP[from].1 == name then NS_MAP[from].0
    else NsFrom(name, from + 1)
  }

  function NsOf(name: string): NsType { NsFrom(name, 0) }

  method StrToNs(str: string) returns (ns: NsType)
    ensures ns == NsOf(str)
  {
    if str == "" {
      EmptyIsInvalid();
      return NsInvalid;
    }
    var p := 0;
    while p < |NS_MAP|
      invariant 0 <= p <= |NS_MAP|
      invariant NsFrom(str, p) == NsOf(str)
    {
      if NS_MAP[p].1 == str {
        return NS_MAP[p].0;
      }
      p := p + 1;
    }
    ns := NsInvalid;
  }

  lemma EmptyIsInvalid()
    ensures NsOf("") == NsInvalid
  {
  }

  function Fill(ns: Namespace, node: Tree): Option<Namespace> {
    if node.data.None? || node.children == [] then None
    else
      var key, text := node.data.value, node.children[0].data;
      if key == TYPE then
        if text.None? || NsOf(text.value) == NsInvalid then None else Some(ns.(ntype := NsOf(text.value)))
      else if key == PATH && text.Some? && text.value != "" then Some(ns.(path := text))
      else Some(ns)
  }

  const SPACES: Kind<Namespace> := Kind(NEW_NAMESPACE, ns => true, (ns, node) => Fill(ns, node))

  /** The "namespaces" children of the section, folded in turn. */
  function SectionStep(acc: Acc<Namespace>, node: Tree): Acc<Namespace> {
    if node.data == Some(NAMESPACES) then Fold(SPACES, acc, node.children) else acc
  }

  function SectionFold(acc: Acc<Namespace>, nodes: seq<Tree>): Acc<Namespace> {
    if nodes == [] then acc
    else SectionStep(SectionFold(acc, nodes[..|nodes| - 1]), nodes[|nodes| - 1])
  }

  // ----- the handler, as the code runs it -----

  class Handler {
    var currentNs: Option<Namespace>
    var errorDetected: bool

    ghost function Snapshot(config: OciCfg): Acc<Namespace>
      reads this, config
    {
      Acc(currentNs, errorDetected, config.namespaces)
    }

    constructor ()
      ensures currentNs.None? && !errorDetected
    {
      currentNs := None;
      errorDetected := false;
    }

    method SaveCurrentNs(config: OciCfg)
      modifies this, config`namespaces
      ensures Snapshot(config) == Save(SPACES, old(Snapshot(config)))
    {
      if currentNs.None? {
        return;
      }
      config.namespaces := config.namespaces + [currentNs.value];
      currentNs := None;
    }

    method HandleNamespacesSection(root: Tree, config: OciCfg)
      modifies this, config`namespaces
      ensures Snapshot(config) == Step(SPACES, old(Snapshot(config)), root)
    {
      if errorDetected {
        return;
      }
      if root.data.None? {
        SaveCurrentNs(config);
      } else if root.children != [] {
        if currentNs.None? {
          currentNs := Some(NEW_NAMESPACE);
        }
        if root.data.value == TYPE {
          var text := root.children[0].data;
          var ns := NsInvalid;
          if text.Some? {
            ns := StrToNs(text.value);
          }
          if ns.NsInvalid? {
            errorDetected := true;
            currentNs := None;
          } else {
            currentNs := Some(currentNs.value.(ntype := ns));
          }
        } else if root.data.value == PATH {
          var path := root.children[0].data;
          if path.Some? && path.value != "" {
            currentNs := Some(currentNs.value.(path := path));
          }
        }
      }
    }

    method HandleLinuxSection(root: Tree, config: OciCfg)
      modifies this, config`namespaces
      ensures Snapshot(config) == SectionStep(old(Snapshot(config)), root)
    {
      if root.children == [] || root.data != Some(NAMESPACES) {
        return;
      }
      ghost var start := Snapshot(config);
      var i := 0;
      while i < |root.children|
        invariant 0 <= i <= |root.children|
        invariant Snapshot(config) == Fold(SPACES, start, root.children[..i])
      {
        HandleNamespacesSection(root.children[i], config);
        FoldSnoc(SPACES, start, root.children, i);
        i := i + 1;
      }
      assert root.children[..i] == root.children;
    }

    /** `root` is the "linux" node, None when there is none. */
    method HandleSection(root: Option<Tree>, config: OciCfg) returns (ok: bool)
      modifies this, config`namespaces
      ensures root.None? ==> !ok && Snapshot(config) == old(Snapshot(config)).(failed := false)
      ensures root.Some? ==>
        var end := SectionFold(old(Snapshot(config)).(failed := false), root.value.children);
        Snapshot(config) == (if end.failed then end else Save(SPACES, end)) && ok == !end.failed
    {
      errorDetected := false;
      if root.None? {
        return false;
      }
      ghost var start := Snapshot(config);
      var nodes := root.value.children;
      var i := 0;
      while i < |nodes|
        invariant 0 <= i <= |nodes|
        invariant Snapshot(config) == SectionFold(start, nodes[..i])
      {
        HandleLinuxSection(nodes[i], config);
        assert nodes[..i + 1][..i] == nodes[..i];
        i := i + 1;
      }
      assert nodes[..i] == nodes;
      if !errorDetected {
        SaveCurrentNs(config);
      }
      return !errorDetected;
    }
  }

  // ----- what the handler decodes, in terms of the JSON it came from -----

  predicate WellTyped(members: seq<Member>) {
    && DistinctKeys(members)
    && StringOrAbsent(Lookup(members, TYPE))
    && StringOrAbsent(Lookup(members, PATH))
  }

  /** The type is given, and is not the name of a namespace. */
  predicate UnknownType(members: seq<Member>) {
    var t := Text(Lookup(members, TYPE)); t.Some? && NsOf(t.value) == NsInvalid
  }

  /** The path is absent exactly when it was empty or missing. */
  function NamespaceOf(members: seq<Member>): Option<Namespace> {
    var t, path := Text(Lookup(members, TYPE)), Text(Lookup(members, PATH));
    if UnknownType(members) then None
    else Some(Namespace(if t.Some? then NsOf(t.value) else NsInvalid, if path == Some("") then None else path))
  }

  const SPACE_ITEM := (members: seq<Member>) => NamespaceOf(members)

  lemma NamespaceFits(members: seq<Member>)
    requires members != [] && WellTyped(members)
    ensures FitsLast(SPACES, WellTyped, SPACE_ITEM, members)
  {
    LookupLast(members);
  }

  lemma NamespacesFit()
    ensures Fits(SPACES, WellTyped, SPACE_ITEM)
  {
    forall ms: seq<Member> | WellTyped(ms) && ms != []
      ensures FitsLast(SPACES, WellTyped, SPACE_ITEM, ms)
    {
      NamespaceFits(ms);
    }
  }

  function FirstUnknown(objects: seq<seq<Member>>): (k: nat)
    ensures k <= |objects| && (k < |objects| ==> UnknownType(objects[k]))
    ensures forall i :: 0 <= i < k ==> !UnknownType(objects[i])
  {
    if objects == [] || UnknownType(objects[0]) then 0 else 1 + FirstUnknown(objects[1..])
  }

  lemma UnknownIsBad(objects: seq<seq<Member>>)
    ensures FirstBad(SPACES, SPACE_ITEM, objects) == FirstUnknown(objects)
  {
    var k, n := FirstBad(SPACES, SPACE_ITEM, objects), FirstUnknown(objects);
    assert k < |objects| ==> (Bad(SPACES, SPACE_ITEM, objects[k]) <==> UnknownType(objects[k]));
    assert n < |objects| ==> (Bad(SPACES, SPACE_ITEM, objects[n]) <==> UnknownType(objects[n]));
  }

  /** For every array of objects: an error exactly if some type is unknown, the
      namespaces before the first such object, in order, and none left in the
      static variable. */
  lemma DecodeNamespaces(saved: seq<Namespace>, objects: seq<seq<Member>>)
    requires AllTyped(WellTyped, objects)
    ensures var k := FirstUnknown(objects);
      Run(SPACES, saved, objects) == Acc(None, k < |objects|, saved + Items(SPACE_ITEM, objects[..k]))
  {
    hide *;
    NamespacesFit();
    UnknownIsBad(objects);
    Decode(SPACES, WellTyped, SPACE_ITEM, saved, objects);
  }

  /** Other members of the section leave the namespaces alone. */
  lemma {:induction false} OnlyNamespaces(acc: Acc<Namespace>, sections: seq<Member>)
    requires DistinctKeys(sections)
    ensures SectionFold(acc, Flatten(JObject(sections), false))
         == match Lookup(sections, NAMESPACES)
            case Some(v) => Fold(SPACES, acc, Flatten(v, false))
            case None => acc
  {
    var nodes := Flatten(JObject(sections), false);
    if sections == [] {
      assert nodes[..0] == [] && nodes[0] == SEPARATOR;
      assert SectionFold(acc, nodes) == SectionStep(SectionFold(acc, nodes[..0]), nodes[0]);
    } else {
      var n := |sections| - 1;
      LookupLast(sections);
      OnlyNamespaces(acc, sections[..n]);
      FlattenObjectSnoc(sections);
      assert nodes[..|nodes| - 1] == Flatten(JObject(sections[..n]), false);
    }
  }
}
