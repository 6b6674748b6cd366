/** What each tag of the command line stands for, by the text of the tag. */
module TagValues {
  import opened CLib
  import opened Uuid
  import opened CmdLine
  import opened Templates
  import opened Expansion

  // ----- an argument that is one tag -----

  lemma TagPieces(k: nat)
    requires k < TAGS
    ensures TagText(k) == Join(["", TagName(k), ""], '@')
  {
    hide TagName;
    JoinTwo("", TagName(k), [""]);
    assert ["", TagName(k)] + [""] == ["", TagName(k), ""];
  }

  /** The replacement of one tag does nothing to another, and fills its own. */
  lemma ReplaceTag(k: nat, j: nat, value: Option<string>)
    requires k < TAGS && j < TAGS
    ensures Replace(TagText(k), TagText(j), value)
         == if j == k && value.Some? then value.value else TagText(k)
  {
    hide TagName, Join, Replace, Plain;
    NoneReplaced(TagText(k), TagText(j));
    if value.Some? {
      TagNamePlain(k);
      TagNamePlain(j);
      TagPieces(k);
      assert Plain("") by { EmptyPlain(); }
      ReplacePieces(["", TagName(k), ""], TagName(j), value.value);
      if j != k {
        NamesDiffer(j, k);
      }
      MergeOne(TagName(k), TagName(j), value.value);
    }
  }

  lemma NoneReplaced(s: string, needle: string)
    ensures Replace(s, needle, None) == s
  {
  }

  lemma EmptyPlain()
    ensures Plain("")
  {
  }

  lemma MergeOne(name: string, other: string, value: string)
    ensures Join(Merge(["", name, ""], other, value), '@')
         == if name == other then value else Join(["", name, ""], '@')
  {
    if name == other {
      assert "" + value + "" == value;
      assert Merge(["", name, ""], other, value) == [value];
    } else {
      assert ["", name, ""][1..] == [name, ""];
      assert Merge([name, ""], other, value) == [name, ""];
      assert Merge(["", name, ""], other, value) == ["", name, ""];
    }
  }

  lemma {:induction false} PlainStays(s: string, values: seq<Option<string>>, k: nat)
    requires Plain(s) && |values| == TAGS && k <= TAGS
    ensures ExpandFrom(s, values, k) == s
    decreases TAGS - k
  {
    hide TagName, Replace;
    if k < TAGS {
      PlainReplaced(s, k, values[k]);
      PlainStays(s, values, k + 1);
    }
  }

  lemma PlainReplaced(s: string, k: nat, value: Option<string>)
    requires Plain(s) && k < TAGS
    ensures Replace(s, TagText(k), value) == s
  {
    hide TagName, Find;
    var needle := TagText(k);
    forall i ensures !MatchAt(s, needle, i) {
      if MatchAt(s, needle, i) {
        MatchChar(s, needle, i, 0);
      }
    }
    if value.Some? {
      NoReplace(s, needle, value.value);
    } else {
      NoneReplaced(s, needle);
    }
  }

  /** An argument that is a tag becomes the tag's value, which later replacements leave
      alone if it holds no '@'; a tag without a value stays. */
  lemma {:induction false} TagAlone(k: nat, values: seq<Option<string>>, from: nat)
    requires |values| == TAGS && from <= k < TAGS && (values[k].Some? ==> Plain(values[k].value))
    ensures ExpandFrom(TagText(k), values, from) == if values[k].Some? then values[k].value else TagText(k)
    decreases k - from
  {
    hide Replace, TagText, Plain;
    ReplaceTag(k, from, values[from]);
    if from < k {
      TagAlone(k, values, from + 1);
    } else if values[k].Some? {
      PlainStays(values[k].value, values, k + 1);
    } else {
      TagLeft(k, values, k + 1);
    }
  }

  lemma {:induction false} TagLeft(k: nat, values: seq<Option<string>>, from: nat)
    requires |values| == TAGS && k < from <= TAGS
    ensures ExpandFrom(TagText(k), values, from) == TagText(k)
    decreases TAGS - from
  {
    hide Replace, TagText;
    if from < TAGS {
      ReplaceTag(k, from, values[from]);
      TagLeft(k, values, from + 1);
    }
  }

  // ----- the ten tags -----

  lemma TagTexts()
    ensures TagText(0) == "@WORKLOAD_DIR@" && TagText(1) == "@KERNEL@" && TagText(2) == "@KERNEL_PARAMS@"
    ensures TagText(3) == "@IMAGE@" && TagText(4) == "@SIZE@" && TagText(5) == "@COMMS_SOCKET@"
    ensures TagText(6) == "@PROCESS_SOCKET@" && TagText(7) == "@CONSOLE_DEVICE@"
    ensures TagText(8) == "@NAME@" && TagText(9) == "@UUID@"
  {
    hide TagText, TagName;
    FirstTexts();
    LastTexts();
  }

  lemma FirstTexts()
    ensures TagText(0) == "@WORKLOAD_DIR@" && TagText(1) == "@KERNEL@" && TagText(2) == "@KERNEL_PARAMS@"
    ensures TagText(3) == "@IMAGE@" && TagText(4) == "@SIZE@"
  {
    hide TagName;
    TagNames();
    assert "@" + "WORKLOAD_DIR" + "@" == "@WORKLOAD_DIR@";
    assert "@" + "KERNEL" + "@" == "@KERNEL@";
    assert "@" + "KERNEL_PARAMS" + "@" == "@KERNEL_PARAMS@";
  }

  lemma LastTexts()
    ensures TagText(5) == "@COMMS_SOCKET@" && TagText(6) == "@PROCESS_SOCKET@" && TagText(7) == "@CONSOLE_DEVICE@"
    ensures TagText(8) == "@NAME@" && TagText(9) == "@UUID@"
  {
    hide TagName;
    TagNames();
    assert "@" + "COMMS_SOCKET" + "@" == "@COMMS_SOCKET@";
    assert "@" + "PROCESS_SOCKET" + "@" == "@PROCESS_SOCKET@";
    assert "@" + "CONSOLE_DEVICE" + "@" == "@CONSOLE_DEVICE@";
  }

  lemma TagNames()
    ensures TagName(0) == "WORKLOAD_DIR" && TagName(1) == "KERNEL" && TagName(2) == "KERNEL_PARAMS"
    ensures TagName(3) == "IMAGE" && TagName(4) == "SIZE" && TagName(5) == "COMMS_SOCKET"
    ensures TagName(6) == "PROCESS_SOCKET" && TagName(7) == "CONSOLE_DEVICE"
    ensures TagName(8) == "NAME" && TagName(9) == "UUID"
  {
  }

  /** The paths, as expansion alone gives them, when they hold no '@'. */
  lemma PathTags(l: Launch, given: Option<string>, uuid: seq<Byte>)
    requires l.Launchable() && |uuid| == 16
    ensures var values := l.Values(given, uuid);
      && (Plain(l.rootPath) ==> Expand("@WORKLOAD_DIR@", values) == l.rootPath)
      && (Plain(l.kernelPath) ==> Expand("@KERNEL@", values) == l.kernelPath)
      && (Plain(l.imagePath) ==> Expand("@IMAGE@", values) == l.imagePath)
      && (Plain(l.commsPath) ==> Expand("@COMMS_SOCKET@", values) == l.commsPath)
      && (l.kernelParams.None? ==> Expand("@KERNEL_PARAMS@", values) == "@KERNEL_PARAMS@")
      && (l.kernelParams.Some? && Plain(l.kernelParams.value) ==>
            Expand("@KERNEL_PARAMS@", values) == l.kernelParams.value)
  {
    hide ExpandFrom, RfcText, AfterLastHyphen, Decimal, SocketConsole, StdioConsole, ProcessDevice, BuildPath, Plain,
      TagText;
    var values := l.Values(given, uuid);
    TagTexts();
    if Plain(l.rootPath) { TagAlone(0, values, 0); }
    if Plain(l.kernelPath) { TagAlone(1, values, 0); }
    if l.kernelParams.None? || Plain(l.kernelParams.value) { TagAlone(2, values, 0); }
    if Plain(l.imagePath) { TagAlone(3, values, 0); }
    if Plain(l.commsPath) { TagAlone(5, values, 0); }
  }

  /** The size, and the text of the UUID with its last twelve digits. */
  lemma NumberTags(l: Launch, given: Option<string>, uuid: seq<Byte>)
    requires l.Launchable() && |uuid| == 16
    ensures var values := l.Values(given, uuid);
      && Expand("@SIZE@", values) == Decimal(l.imageSize.value)
      && Expand("@UUID@", values) == RfcText(uuid) && |RfcText(uuid)| == 36
      && Expand("@NAME@", values) == RfcText(uuid)[24..]
  {
    hide ExpandFrom, RfcText, AfterLastHyphen, Decimal, SocketConsole, StdioConsole, ProcessDevice, BuildPath, Plain,
      TagText;
    var values := l.Values(given, uuid);
    TagTexts();
    NumbersPlain(l.imageSize.value, uuid);
    NameIsLastTwelve(uuid);
    TagAlone(4, values, 0);
    TagAlone(8, values, 0);
    TagAlone(9, values, 0);
  }

  lemma NumbersPlain(size: nat, uuid: seq<Byte>)
    requires |uuid| == 16
    ensures Plain(Decimal(size)) && Plain(RfcText(uuid)) && Plain(AfterLastHyphen(RfcText(uuid)))
  {
    NameIsLastTwelve(uuid);
    RfcPlain(uuid);
    assert Plain(RfcText(uuid)[24..]);
  }

  lemma RfcPlain(uuid: seq<Byte>)
    requires |uuid| == 16
    ensures Plain(RfcText(uuid))
  {
    HexPlain(uuid[0..4]);
    HexPlain(uuid[4..6]);
    HexPlain(uuid[6..8]);
    HexPlain(uuid[8..10]);
    HexPlain(uuid[10..16]);
    hide HexAll;
  }

  lemma {:induction false} HexPlain(bytes: seq<Byte>)
    ensures Plain(HexAll(bytes))
  {
    if bytes != [] {
      HexPlain(bytes[..|bytes| - 1]);
      var b := bytes[|bytes| - 1] as int;
      DigitPlain(b / 16);
      DigitPlain(b % 16);
    }
  }

  lemma DigitPlain(d: nat)
    requires d < 16
    ensures d < |HEX| && HEX[d] != '@'
  {
  }

  /** The devices: the socket of the process, and for the console a socket in the runtime
      directory, or the standard streams when a console was given. */
  lemma DeviceTags(l: Launch, given: Option<string>, uuid: seq<Byte>)
    requires l.Launchable() && |uuid| == 16
    ensures var values := l.Values(given, uuid);
      && (Plain(l.procsockPath) ==>
            Expand("@PROCESS_SOCKET@", values) == "socket,id=procsock,path=" + l.procsockPath + ",server,nowait")
      && (given.Some? && given.value != "" ==>
            Expand("@CONSOLE_DEVICE@", values) == "stdio,id=charconsole0,signal=off")
      && ((given.None? || given.value == "") && Plain(l.runtimePath)
          && l.runtimePath != "" && l.runtimePath[|l.runtimePath| - 1] != '/' ==>
            Expand("@CONSOLE_DEVICE@", values)
            == "socket,path=" + l.runtimePath + "/console.sock" + ",server,nowait,id=charconsole0,signal=off")
  {
    hide ExpandFrom, RfcText, AfterLastHyphen, Decimal, SocketConsole, StdioConsole, ProcessDevice, BuildPath, Plain,
      TagText;
    var values := l.Values(given, uuid);
    TagTexts();
    DeviceTexts(l.runtimePath, l.procsockPath);
    if Plain(l.procsockPath) { TagAlone(6, values, 0); }
    if given.Some? && given.value != "" {
      TagAlone(7, values, 0);
    } else if Plain(l.runtimePath) && l.runtimePath != "" && l.runtimePath[|l.runtimePath| - 1] != '/' {
      TagAlone(7, values, 0);
    }
  }

  lemma DeviceTexts(dir: string, path: string)
    ensures ProcessDevice(path) == "socket,id=procsock,path=" + path + ",server,nowait"
    ensures Plain(path) ==> Plain(ProcessDevice(path))
    ensures StdioConsole() == "stdio,id=charconsole0,signal=off" && Plain(StdioConsole())
    ensures dir != "" && dir[|dir| - 1] != '/' ==>
      SocketConsole(BuildPath(dir, CONSOLE_SOCKET))
      == "socket,path=" + dir + "/console.sock" + ",server,nowait,id=charconsole0,signal=off"
    ensures dir != "" && dir[|dir| - 1] != '/' && Plain(dir) ==>
      Plain(SocketConsole(BuildPath(dir, CONSOLE_SOCKET)))
  {
    hide BuildPath, SocketConsole, Plain;
    if dir != "" && dir[|dir| - 1] != '/' {
      ConsoleText(dir);
      if Plain(dir) {
        LiteralsPlain();
        assert Plain("") by { EmptyPlain(); }
        PlainAround("socket,path=", dir, "/console.sock");
        PlainAround("socket,path=" + dir + "/console.sock", ",server,nowait,id=charconsole0,signal=off", "");
        var text := "socket,path=" + dir + "/console.sock" + ",server,nowait,id=charconsole0,signal=off";
        assert text + "" == text;
      }
    }
    LiteralsPlain();
    assert Plain("") by { EmptyPlain(); }
    if Plain(path) {
      PlainAround("socket,id=procsock,path=", path, ",server,nowait");
    }
  }

  lemma LiteralsPlain()
    ensures Plain("socket,path=") && Plain("/console.sock") && Plain(",server,nowait,id=charconsole0,signal=off")
    ensures Plain("socket,id=procsock,path=") && Plain(",server,nowait") && Plain("stdio,id=charconsole0,signal=off")
  {
  }

  lemma PlainAround(a: string, b: string, c: string)
    requires Plain(a) && Plain(b) && Plain(c)
    ensures Plain(a + b + c)
  {
  }

  lemma ConsoleText(dir: string)
    requires dir != "" && dir[|dir| - 1] != '/'
    ensures SocketConsole(BuildPath(dir, CONSOLE_SOCKET))
         == "socket,path=" + dir + "/console.sock" + ",server,nowait,id=charconsole0,signal=off"
  {
    assert BuildPath(dir, CONSOLE_SOCKET) == dir + "/" + CONSOLE_SOCKET;
    hide BuildPath;
    Inside("socket,path=", dir, CONSOLE_SOCKET, ",server,nowait,id=charconsole0,signal=off");
    assert "/" + CONSOLE_SOCKET == "/console.sock";
  }

  lemma Inside(a: string, b: string, c: string, d: string)
    ensures a + (b + "/" + c) + d == a + b + ("/" + c) + d
  {
  }
}
