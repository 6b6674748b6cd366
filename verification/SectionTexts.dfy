/** The objects of config.json's sections, by the texts that stand in them: the mount, the
    hook and the namespace that each is decoded to. */
module SectionTexts {
  import opened CLib
  import opened Json
  import opened OciConfig
  import opened Sections
  import MountsSection
  import HooksSection
  import LinuxSection

  // ----- mount flags -----

  /** The bits of a mount flag, as <sys/mount.h> numbers them; none for any other text. */
  function Bits(option: string): set<nat> {
    match option
    case "ro" => {0}
    case "nosuid" => {1}
    case "nodev" => {2}
    case "noexec" => {3}
    case "sync" => {4}
    case "remount" => {5}
    case "mandlock" => {6}
    case "dirsync" => {7}
    case "noatime" => {10}
    case "nodiratime" => {11}
    case "bind" => {12}
    case "rbind" => {12, 14}
    case "move" => {13}
    case "silent" => {15}
    case "private" => {18}
    case "rprivate" => {14, 18}
    case "slave" => {19}
    case "rslave" => {14, 19}
    case "shared" => {20}
    case "rshared" => {14, 20}
    case "relatime" => {21}
    case "strictatime" => {24}
    case _ => {}
  }

  lemma FlagStep(name: string, k: nat)
    requires k < |MountsSection.FLAG_MAP|
    ensures MountsSection.FlagFrom(name, k)
         == if MountsSection.FLAG_MAP[k].0 == name then MountsSection.FLAG_MAP[k].1
            else MountsSection.FlagFrom(name, k + 1)
  {
  }

  /** The search of the table finds these bits for every text. */
  lemma FlagIsBits(name: string)
    ensures MountsSection.FlagValue(name) == Bits(name)
  {
    FirstFlags(name);
    LastFlags(name);
    hide MountsSection.FlagFrom;
  }

  function FirstBits(name: string, other: set<nat>): set<nat> {
    match name
    case "bind" => {12}
    case "dirsync" => {7}
    case "mandlock" => {6}
    case "move" => {13}
    case "noatime" => {10}
    case "nodev" => {2}
    case "nodiratime" => {11}
    case "noexec" => {3}
    case "nosuid" => {1}
    case "ro" => {0}
    case "relatime" => {21}
    case _ => other
  }

  lemma FirstFlags(name: string)
    ensures MountsSection.FlagFrom(name, 0) == FirstBits(name, MountsSection.FlagFrom(name, 11))
  {
    hide MountsSection.FlagFrom;
    FlagStep(name, 0);
    FlagStep(name, 1);
    FlagStep(name, 2);
    FlagStep(name, 3);
    FlagStep(name, 4);
    FlagStep(name, 5);
    FlagStep(name, 6);
    FlagStep(name, 7);
    FlagStep(name, 8);
    FlagStep(name, 9);
    FlagStep(name, 10);
  }

  function LastBits(name: string): set<nat> {
    match name
    case "remount" => {5}
    case "silent" => {15}
    case "strictatime" => {24}
    case "sync" => {4}
    case "rbind" => {12, 14}
    case "rprivate" => {14, 18}
    case "private" => {18}
    case "rslave" => {14, 19}
    case "slave" => {19}
    case "rshared" => {14, 20}
    case "shared" => {20}
    case _ => {}
  }

  lemma LastFlags(name: string)
    ensures MountsSection.FlagFrom(name, 11) == LastBits(name)
  {
    hide MountsSection.FlagFrom;
    FlagStep(name, 11);
    FlagStep(name, 12);
    FlagStep(name, 13);
    FlagStep(name, 14);
    FlagStep(name, 15);
    FlagStep(name, 16);
    FlagStep(name, 17);
    FlagStep(name, 18);
    FlagStep(name, 19);
    FlagStep(name, 20);
    FlagStep(name, 21);
    assert MountsSection.FlagFrom(name, 22) == {} by { FlagsEnd(name); }
  }

  lemma FlagsEnd(name: string)
    ensures |MountsSection.FLAG_MAP| == 22 && MountsSection.FlagFrom(name, 22) == {}
  {
  }

  // ----- a mount -----

  /** The options that are no flags, in order. */
  function Kept(options: seq<string>): seq<string> {
    if options == [] then []
    else (if Bits(options[0]) == {} then [options[0]] else []) + Kept(options[1..])
  }

  lemma {:induction false} KeptSnoc(options: seq<string>, last: string)
    ensures Kept(options + [last]) == Kept(options) + if Bits(last) == {} then [last] else []
  {
    hide Bits;
    if options != [] {
      assert (options + [last])[1..] == options[1..] + [last];
      KeptSnoc(options[1..], last);
    }
  }

  lemma {:induction false} OptionsAre(options: seq<string>)
    ensures MountsSection.Others(options) == Kept(options)
    ensures forall bit: nat :: bit in MountsSection.FlagsOf(options) <==>
      exists i :: 0 <= i < |options| && bit in Bits(options[i])
  {
    hide Bits, MountsSection.FlagValue;
    if options != [] {
      var front, last := options[..|options| - 1], options[|options| - 1];
      assert front + [last] == options;
      OptionsAre(front);
      FlagIsBits(last);
      KeptSnoc(front, last);
      forall bit: nat | bit in MountsSection.FlagsOf(options)
        ensures exists i :: 0 <= i < |options| && bit in Bits(options[i])
      {
        if bit in MountsSection.FlagsOf(front) {
          var i :| 0 <= i < |front| && bit in Bits(front[i]);
          assert bit in Bits(options[i]);
        } else {
          assert bit in Bits(options[|options| - 1]);
        }
      }
      forall bit: nat, i | 0 <= i < |options| && bit in Bits(options[i])
        ensures bit in MountsSection.FlagsOf(options)
      {
        assert i < |front| ==> bit in Bits(front[i]);
      }
    }
  }

  /** The texts of an array of strings, or none if there is no such member. */
  function TextsBelow(v: Option<Json>): seq<string> {
    match v
    case Some(JArray(elements)) => if AllStrings(elements) then Texts(elements) else []
    case _ => []
  }

  /** The mount of an object, whatever else is in it and in whatever order. */
  lemma MountTexts(members: seq<Member>)
    ensures var m, options := MountsSection.MountOf(members), TextsBelow(Lookup(members, "options"));
      && m.dir == Text(Lookup(members, "destination"))
      && m.mtype == Text(Lookup(members, "type"))
      && m.fsname == Text(Lookup(members, "source"))
      && (forall bit: nat :: bit in m.flags <==> exists i :: 0 <= i < |options| && bit in Bits(options[i]))
      && m.opts == (if Kept(options) == [] then None else Some(Join(Kept(options), ',')))
      && m.dest == "" && !m.ignoreMount
    ensures MountsSection.Incomplete(members) <==>
      && HasNonEmpty(members)
      && (Lookup(members, "destination").None? || Lookup(members, "type").None? || Lookup(members, "source").None?)
  {
    hide Lookup, Bits, Kept, Join, MountsSection.FlagsOf, MountsSection.Others;
    OptionsAre(TextsBelow(Lookup(members, "options")));
  }

  // ----- a hook -----

  /** A vector is there only if the array has elements. */
  lemma HookTexts(members: seq<Member>)
    requires HooksSection.WellTyped(members)
    ensures var h, path, timeout := HooksSection.HookOf(members), Lookup(members, "path"), Lookup(members, "timeout");
      && h.path == (if path.Some? then path.value.text else "")
      && h.args == (var args := TextsBelow(Lookup(members, "args")); if args == [] then None else Some(args))
      && h.env == (var env := TextsBelow(Lookup(members, "env")); if env == [] then None else Some(env))
      && h.timeout == (if timeout.Some? then ToInt32(timeout.value.number) else 0)
  {
    hide Lookup, ToInt32, DistinctKeys;
  }

  lemma HookLists(lists: HooksSection.Lists)
    ensures lists.Get("prestart") == lists.prestart && lists.Get("poststart") == lists.poststart
    ensures lists.Get("poststop") == lists.poststop
    ensures forall name :: HooksSection.Known(name) <==> name == "prestart" || name == "poststart" || name == "poststop"
  {
  }

  // ----- a namespace -----

  function Space(name: string): NsType {
    match name
    case "cgroup" => NsCgroup
    case "ipc" => NsIpc
    case "mount" => NsMount
    case "network" => NsNet
    case "pid" => NsPid
    case "user" => NsUser
    case "uts" => NsUts
    case _ => NsInvalid
  }

  lemma NsStep(name: string, k: nat)
    requires k < |LinuxSection.NS_MAP|
    ensures LinuxSection.NsFrom(name, k)
         == if LinuxSection.NS_MAP[k].1 == name then LinuxSection.NS_MAP[k].0 else LinuxSection.NsFrom(name, k + 1)
  {
  }

  lemma NsIsSpace(name: string)
    ensures LinuxSection.NsOf(name) == Space(name)
  {
    NsEnd(name);
    hide LinuxSection.NsFrom;
    NsStep(name, 0);
    NsStep(name, 1);
    NsStep(name, 2);
    NsStep(name, 3);
    NsStep(name, 4);
    NsStep(name, 5);
    NsStep(name, 6);
  }

  lemma NsEnd(name: string)
    ensures |LinuxSection.NS_MAP| == 7 && LinuxSection.NsFrom(name, 7) == NsInvalid
  {
  }

  /** An object has no namespace exactly if its type is not the name of one; an empty path
      counts as none. */
  lemma NamespaceTexts(members: seq<Member>)
    ensures var ns, t, path := LinuxSection.NamespaceOf(members), Text(Lookup(members, "type")),
        Text(Lookup(members, "path"));
      && (ns.None? <==> t.Some? && Space(t.value) == NsInvalid)
      && (ns.Some? ==>
            && ns.value.ntype == (if t.Some? then Space(t.value) else NsInvalid)
            && ns.value.path == (if path.Some? && path.value != "" then path else None))
  {
    hide Lookup, Space, LinuxSection.NsOf;
    var t := Text(Lookup(members, "type"));
    if t.Some? {
      NsIsSpace(t.value);
    }
  }
}
