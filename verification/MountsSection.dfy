/** The "mounts" section handler: regroups the flat child list of an array of
    objects into mounts, through two static variables. */
module MountsSection {
  import opened CLib
  import opened Json
  import opened OciConfig
  import opened Regroup
  import opened Sections

  /** Each flag name with the bits of its value; MS_REC is bit 14. */
  const FLAG_MAP: seq<(string, set<nat>)> := [
    ("bind", {12}), ("dirsync", {7}), ("mandlock", {6}), ("move", {13}), ("noatime", {10}),
    ("nodev", {2}), ("nodiratime", {11}), ("noexec", {3}), ("nosuid", {1}), ("ro", {0}),
    ("relatime", {21}), ("remount", {5}), ("silent", {15}), ("strictatime", {24}),
    ("sync", {4}), ("rbind", {12, 14}), ("rprivate", {18, 14}), ("private", {18}),
    ("rslave", {19, 14}), ("slave", {19}), ("rshared", {20, 14}), ("shared", {20})]

  function FlagFrom(name: string, from: nat): set<nat>
    decreases |FLAG_MAP| - from
  {
    if from >= |FLAG_MAP| then {}
    else if FLAG_MAP[from].0 == name then FLAG_MAP[from].1
    else FlagFrom(name, from + 1)
  }

  /** No bits when the name is not a mount flag. */
  function FlagValue(name: string): set<nat> { FlagFrom(name, 0) }

  method GetFlagValue(flag: string) returns (value: set<nat>)
    ensures value == FlagValue(flag)
  {
    var m := 0;
    while m < |FLAG_MAP|
      invariant 0 <= m <= |FLAG_MAP|
      invariant FlagFrom(flag, m) == FlagValue(flag)
    {
      if FLAG_MAP[m].0 == flag {
        return FLAG_MAP[m].1;
      }
      m := m + 1;
    }
    value := {};
  }

  // ----- options: flags are OR-ed, everything else is kept as text -----

  function FlagsOf(options: seq<string>): set<nat> {
    if options == [] then {}
    else FlagsOf(options[..|options| - 1]) + FlagValue(options[|options| - 1])
  }

  function Others(options: seq<string>): seq<string> {
    if options == [] then []
    else
      var last := options[|options| - 1];
      Others(options[..|options| - 1]) + if FlagValue(last) == {} then [last] else []
  }

  function Terminated(fields: seq<string>): string {
    if fields == [] then "" else Terminated(fields[..|fields| - 1]) + fields[|fields| - 1] + ","
  }

  /** Dropping the last comma leaves the comma-joined options. */
  lemma {:induction false} TerminatedIsJoin(fields: seq<string>)
    ensures fields == [] ==> Terminated(fields) == ""
    ensures fields != [] ==> Terminated(fields) == Join(fields, ',') + ","
  {
    if |fields| == 1 {
      assert Terminated(fields[..0]) == "";
    } else if fields != [] {
      TerminatedIsJoin(fields[..|fields| - 1]);
      JoinSnoc(fields[..|fields| - 1], fields[|fields| - 1]);
      assert fields[..|fields| - 1] + [fields[|fields| - 1]] == fields;
    }
  }

  lemma {:induction false} JoinSnoc(fields: seq<string>, last: string)
    requires fields != []
    ensures Join(fields + [last], ',') == Join(fields, ',') + "," + last
  {
    if |fields| > 1 {
      JoinSnoc(fields[1..], last);
      assert (fields + [last])[1..] == fields[1..] + [last];
    } else {
      assert (fields + [last])[1..] == [last];
    }
  }

  lemma OptionsSnoc(base: set<nat>, options: seq<string>, i: nat)
    requires i < |options|
    ensures base + FlagsOf(options[..i + 1]) == (base + FlagsOf(options[..i])) + FlagValue(options[i])
    ensures Terminated(Others(options[..i + 1]))
         == Terminated(Others(options[..i])) + if FlagValue(options[i]) == {} then options[i] + "," else ""
  {
    var o := options[..i + 1];
    assert o[..|o| - 1] == options[..i];
    var others := Others(o);
    if FlagValue(options[i]) == {} {
      assert others[..|others| - 1] == Others(options[..i]);
    } else {
      assert others == Others(options[..i]);
    }
  }

  function OptionTexts(nodes: seq<Tree>): seq<string> {
    seq(|nodes|, i requires 0 <= i < |nodes| => Printed(nodes[i].data))
  }

  function MntOpts(options: seq<string>, previous: Option<string>): Option<string> {
    if Others(options) == [] then previous else Some(Join(Others(options), ','))
  }

  // ----- the handler, as a function of the nodes -----

  const DESTINATION := "destination"
  const TYPE := "type"
  const SOURCE := "source"
  const OPTIONS := "options"

  function AddOptions(m: Mount, options: seq<string>): Mount {
    m.(flags := m.flags + FlagsOf(options), opts := MntOpts(options, m.opts))
  }

  function Fill(m: Mount, node: Tree): Option<Mount> {
    if node.data.None? || node.children == [] then None
    else
      var key, text := node.data.value, node.children[0].data;
      if key == DESTINATION then Some(m.(dir := text))
      else if key == TYPE then Some(m.(mtype := text))
      else if key == SOURCE then Some(m.(fsname := text))
      else if key == OPTIONS then Some(AddOptions(m, OptionTexts(node.children)))
      else Some(m)
  }

  function Complete(m: Mount): bool { m.dir.Some? && m.mtype.Some? && m.fsname.Some? }

  const MOUNTS: Kind<Mount> := Kind(NEW_MOUNT, m => Complete(m), (m, node) => Fill(m, node))

  // ----- the handler, as the code runs it -----

  class Handler {
    var currentMount: Option<Mount>
    var errorDetected: bool

    ghost function State(config: OciCfg): Acc<Mount>
      reads this, config
    {
      Acc(currentMount, errorDetected, config.mounts)
    }

    constructor ()
      ensures currentMount.None? && !errorDetected
    {
      currentMount := None;
      errorDetected := false;
    }

    method SaveCurrentMount(config: OciCfg)
      modifies this, config`mounts
      ensures State(config) == Save(MOUNTS, old(State(config)))
    {
      if currentMount.None? {
        return;
      }
      var m := currentMount.value;
      if m.dir.Some? && m.mtype.Some? && m.fsname.Some? {
        config.mounts := config.mounts + [m];
      } else {
        errorDetected := true;
      }
      currentMount := None;
    }

    /** One option of the current mount: a flag, or text to keep. */
    method HandleOption(root: Tree, mountFlags: string) returns (kept: string)
      requires currentMount.Some?
      modifies this`currentMount
      ensures var text := Printed(root.data);
        && currentMount == Some(old(currentMount).value.(flags := old(currentMount).value.flags + FlagValue(text)))
        && kept == if FlagValue(text) == {} then mountFlags + text + "," else mountFlags
    {
      var text := Printed(root.data);
      kept := mountFlags;
      var flag := GetFlagValue(text);
      if flag != {} {
        currentMount := Some(currentMount.value.(flags := currentMount.value.flags + flag));
      } else {
        kept := kept + text + ",";
        assert currentMount.value.flags + {} == currentMount.value.flags;
      }
    }

    method HandleOptions(root: Tree)
      requires currentMount.Some?
      modifies this`currentMount
      ensures currentMount == Some(AddOptions(old(currentMount).value, OptionTexts(root.children)))
    {
      ghost var options := OptionTexts(root.children);
      ghost var was := currentMount.value;
      var mountFlags := "";
      var i := 0;
      assert was.flags + {} == was.flags;
      while i < |root.children|
        invariant 0 <= i <= |root.children|
        invariant mountFlags == Terminated(Others(options[..i]))
        invariant currentMount == Some(was.(flags := was.flags + FlagsOf(options[..i])))
      {
        mountFlags := HandleOption(root.children[i], mountFlags);
        OptionsSnoc(was.flags, options, i);
        i := i + 1;
      }
      assert options[..i] == options;
      TerminatedIsJoin(Others(options));
      if |mountFlags| > 0 {
        mountFlags := mountFlags[..|mountFlags| - 1];
        currentMount := Some(currentMount.value.(opts := Some(mountFlags)));
      }
    }

    method HandleNode(root: Tree, config: OciCfg)
      modifies this, config`mounts
      ensures State(config) == Step(MOUNTS, old(State(config)), root)
    {
      if errorDetected {
        return;
      }
      if root.data.None? {
        SaveCurrentMount(config);
      } else if root.children != [] {
        if currentMount.None? {
          currentMount := Some(NEW_MOUNT);
        }
        var text := root.children[0].data;
        if root.data.value == DESTINATION {
          currentMount := Some(currentMount.value.(dir := text));
        } else if root.data.value == TYPE {
          currentMount := Some(currentMount.value.(mtype := text));
        } else if root.data.value == SOURCE {
          currentMount := Some(currentMount.value.(fsname := text));
        } else if root.data.value == OPTIONS {
          HandleOptions(root);
        }
      }
    }

    /** `root` is the "mounts" node, None when there is none. */
    method HandleSection(root: Option<Tree>, config: OciCfg) returns (ok: bool)
      modifies this, config`mounts
      ensures root.None? || old(config.mounts) != [] ==>
        ok == root.Some? && config.mounts == old(config.mounts) && currentMount == old(currentMount)
      ensures root.Some? && old(config.mounts) == [] ==>
        var end := Save(MOUNTS, Fold(MOUNTS, Acc(old(currentMount), false, []), root.value.children));
        State(config) == end && ok == !end.failed
    {
      errorDetected := false;
      if root.None? {
        return false;
      }
      if config.mounts != [] {
        return true;
      }
      var nodes := root.value.children;
      ghost var start := Acc(currentMount, false, []);
      FailureClears(MOUNTS, start, nodes);
      var i := 0;
      while i < |nodes|
        invariant 0 <= i <= |nodes|
        invariant State(config) == Fold(MOUNTS, start, nodes[..i])
      {
        HandleNode(nodes[i], config);
        FoldSnoc(MOUNTS, start, nodes, i);
        i := i + 1;
      }
      assert nodes[..i] == nodes;
      if !errorDetected {
        SaveCurrentMount(config);
      }
      return !errorDetected;
    }
  }

  // ----- what the handler decodes, in terms of the JSON it came from -----

  predicate WellTyped(members: seq<Member>) {
    && DistinctKeys(members)
    && StringOrAbsent(Lookup(members, DESTINATION))
    && StringOrAbsent(Lookup(members, TYPE))
    && StringOrAbsent(Lookup(members, SOURCE))
    && StringsOrAbsent(Lookup(members, OPTIONS))
  }

  function Options(members: seq<Member>): seq<string> {
    var v := Lookup(members, OPTIONS);
    if v.Some? && StringsOrAbsent(v) then Texts(v.value.elements) else []
  }

  function MountOf(members: seq<Member>): Mount {
    Mount(FlagsOf(Options(members)),
          Text(Lookup(members, SOURCE)), Text(Lookup(members, DESTINATION)),
          Text(Lookup(members, TYPE)), MntOpts(Options(members), None), "", false)
  }

  const MOUNT_ITEM := (members: seq<Member>) => Some(MountOf(members))

  /** Something is there, but not all of destination, type and source. */
  predicate Incomplete(members: seq<Member>) {
    HasNonEmpty(members) &&
    (Lookup(members, DESTINATION).None? || Lookup(members, TYPE).None? || Lookup(members, SOURCE).None?)
  }

  /** A member with a new key changes one field of the mount. */
  lemma MountFits(members: seq<Member>)
    requires members != [] && WellTyped(members)
    ensures FitsLast(MOUNTS, WellTyped, MOUNT_ITEM, members)
  {
    LookupLast(members);
    var last := members[|members| - 1];
    if last.key == OPTIONS {
      FlattenStrings(last.value.elements);
      if NonEmpty(last) {
        assert OptionTexts(FlattenMember(last).children) == Texts(last.value.elements);
        assert {} + FlagsOf(Texts(last.value.elements)) == FlagsOf(Texts(last.value.elements));
      }
    }
  }

  /** For every array of objects: the mounts before the first incomplete object,
      in order, an error exactly if there is one, and no mount left in the
      static variable. */
  lemma DecodeMounts(objects: seq<seq<Member>>)
    requires AllTyped(WellTyped, objects)
    ensures var k := FirstIncomplete(objects);
      Run(MOUNTS, [], objects) == Acc(None, k < |objects|, Items(MOUNT_ITEM, objects[..k]))
  {
    hide *;
    FirstBadIsIncomplete(objects);
    var mounts := Items(MOUNT_ITEM, objects[..FirstIncomplete(objects)]);
    assert [] + mounts == mounts;
    MountsFit();
    Decode(MOUNTS, WellTyped, MOUNT_ITEM, [], objects);
  }

  function FirstIncomplete(objects: seq<seq<Member>>): (k: nat)
    ensures k <= |objects| && (k < |objects| ==> Incomplete(objects[k]))
    ensures forall i :: 0 <= i < k ==> !Incomplete(objects[i])
  {
    if objects == [] || Incomplete(objects[0]) then 0 else 1 + FirstIncomplete(objects[1..])
  }

  lemma FirstBadIsIncomplete(objects: seq<seq<Member>>)
    requires AllTyped(WellTyped, objects)
    ensures FirstBad(MOUNTS, MOUNT_ITEM, objects) == FirstIncomplete(objects)
  {
    var k, n := FirstBad(MOUNTS, MOUNT_ITEM, objects), FirstIncomplete(objects);
    if k < |objects| {
      IncompleteIsBad(objects[k]);
    }
    if n < |objects| {
      IncompleteIsBad(objects[n]);
    }
  }

  lemma MountsFit()
    ensures Fits(MOUNTS, WellTyped, MOUNT_ITEM)
  {
    forall ms: seq<Member> | WellTyped(ms) && ms != []
      ensures FitsLast(MOUNTS, WellTyped, MOUNT_ITEM, ms)
    {
      MountFits(ms);
    }
  }

  lemma IncompleteIsBad(members: seq<Member>)
    requires WellTyped(members)
    ensures Bad(MOUNTS, MOUNT_ITEM, members) <==> Incomplete(members)
  {
  }
}
