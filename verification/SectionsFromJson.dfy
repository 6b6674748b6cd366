/** From a JSON array to the configuration: the tree is built on the heap, and the
    section handler walks it. */
module SectionsFromJson {
  import opened CLib
  import opened Json
  import opened GNodes
  import opened OciConfig
  import opened Sections
  import opened Regroup
  import MountsSection
  import HooksSection
  import LinuxSection

  /** The tree that a valid node stands for. */
  method Walk(node: GNode) returns (tree: Tree)
    requires node.Valid()
    ensures tree == node.Value
    decreases node.Repr
  {
    var trees: seq<Tree> := [];
    var i := 0;
    while i < |node.children|
      invariant 0 <= i <= |node.children| && trees == node.Value.children[..i]
    {
      assert node.ChildValid(node.children[i]);
      var child := Walk(node.children[i]);
      trees := trees + [child];
      i := i + 1;
    }
    tree := Tree(node.data, trees);
  }

  /** A section: the node of its name, with what its value flattens to below it. */
  method Parse(name: string, value: Json) returns (root: Tree)
    ensures root == Tree(Some(name), Flatten(value, false))
  {
    var node := new GNode(Some(name));
    ParseAux(value, node, false);
    root := Walk(node);
  }

  const MOUNTS := "mounts"
  const HOOKS := "hooks"
  const LINUX := "linux"

  /** For every array of objects: the section is accepted exactly if no object with a
      non-empty member lacks destination, type or source; the configuration then has one
      mount per such object, and otherwise the mounts before the first bad object. */
  method MountsFromJson(handler: MountsSection.Handler, config: OciCfg, objects: seq<seq<Member>>) returns (ok: bool)
    requires AllTyped(MountsSection.WellTyped, objects)
    requires config.mounts == [] && handler.currentMount.None?
    modifies handler, config`mounts
    ensures var k := MountsSection.FirstIncomplete(objects);
      && (ok <==> k == |objects|)
      && config.mounts == Items(MountsSection.MOUNT_ITEM, objects[..k])
      && handler.currentMount.None?
  {
    hide *;
    var root := Parse(MOUNTS, JArray(ObjectArray(objects)));
    ok := handler.HandleSection(Some(root), config);
    MountsSection.DecodeMounts(objects);
    RunIs(MountsSection.MOUNTS, [], objects);
    StateOfMounts(handler, config);
  }

  lemma StateOfMounts(handler: MountsSection.Handler, config: OciCfg)
    ensures handler.State(config) == Acc(handler.currentMount, handler.errorDetected, config.mounts)
  {
  }

  lemma RunIs<T>(kind: Kind<T>, saved: seq<T>, objects: seq<seq<Member>>)
    ensures Run(kind, saved, objects)
         == Save(kind, Fold(kind, Acc(None, false, saved), Flatten(JArray(ObjectArray(objects)), false)))
  {
  }

  /** For every hooks object: accepted exactly if every hook of the three known lists that
      says something has a path; the lists gain the hooks up to the first that has none. */
  method HooksFromJson(handler: HooksSection.Handler, config: OciCfg, sections: seq<Member>) returns (ok: bool)
    requires HooksSection.SectionsTyped(sections) && handler.currentHook.None?
    modifies handler, config`prestart, config`poststart, config`poststop
    ensures ok <==> !HooksSection.AnyPathless(sections)
    ensures handler.currentHook.None?
    ensures HooksSection.Lists(config.prestart, config.poststart, config.poststop)
         == HooksSection.Gained(
              old(HooksSection.Lists(config.prestart, config.poststart, config.poststop)), sections)
  {
    hide *;
    ghost var lists := HooksSection.Lists(config.prestart, config.poststart, config.poststop);
    var root := Parse(HOOKS, JObject(sections));
    StateOfHooks(handler, config);
    ok := handler.HandleSection(Some(root), config);
    HooksSection.DecodeHooks(lists, sections);
    StateOfHooks(handler, config);
  }

  lemma StateOfHooks(handler: HooksSection.Handler, config: OciCfg)
    ensures handler.Snapshot(config) == HooksSection.State(handler.currentHook, handler.errorDetected,
      HooksSection.Lists(config.prestart, config.poststart, config.poststop))
  {
  }

  /** For every linux object whose "namespaces" is an array of objects: accepted exactly
      if no type is unknown; the configuration gains the namespaces before the first that
      is, whatever other members there are. */
  method NamespacesFromJson(
    handler: LinuxSection.Handler, config: OciCfg, sections: seq<Member>, objects: seq<seq<Member>>
  ) returns (ok: bool)
    requires DistinctKeys(sections) && AllTyped(LinuxSection.WellTyped, objects)
    requires Lookup(sections, LinuxSection.NAMESPACES) == Some(JArray(ObjectArray(objects)))
    requires handler.currentNs.None?
    modifies handler, config`namespaces
    ensures var k := LinuxSection.FirstUnknown(objects);
      && (ok <==> k == |objects|)
      && config.namespaces == old(config.namespaces) + Items(LinuxSection.SPACE_ITEM, objects[..k])
      && handler.currentNs.None?
  {
    hide *;
    ghost var saved := config.namespaces;
    var root := Parse(LINUX, JObject(sections));
    StateOfNamespaces(handler, config);
    ok := handler.HandleSection(Some(root), config);
    StateOfNamespaces(handler, config);
    LinuxSection.OnlyNamespaces(Acc(None, false, saved), sections);
    LinuxSection.DecodeNamespaces(saved, objects);
    NamespacesRun(saved, objects);
  }

  lemma StateOfNamespaces(handler: LinuxSection.Handler, config: OciCfg)
    ensures handler.Snapshot(config) == Acc(handler.currentNs, handler.errorDetected, config.namespaces)
  {
  }

  /** A fold that failed has nothing to save, and a save never fails. */
  lemma NamespacesRun(saved: seq<Namespace>, objects: seq<seq<Member>>)
    ensures var end := Fold(LinuxSection.SPACES, Acc(None, false, saved), Flatten(JArray(ObjectArray(objects)), false));
      && Run(LinuxSection.SPACES, saved, objects) == (if end.failed then end else Save(LinuxSection.SPACES, end))
      && Run(LinuxSection.SPACES, saved, objects).failed == end.failed
  {
    FailureClears(LinuxSection.SPACES, Acc(None, false, saved), Flatten(JArray(ObjectArray(objects)), false));
    hide Fold, Flatten;
  }
}
