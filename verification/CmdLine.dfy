/** Expanding the `@TAG@`s of the hypervisor's command line: the code's ten
    replacements, one after another, in every argument. */
module CmdLine {
  import opened CLib
  import opened Uuid

  // ----- one replacement -----

  /** Replaces the first `needle`; nothing changes when `needle` is empty, `to` is
      NULL or there is no match. */
  function Replace(s: string, needle: string, to: Option<string>): string {
    if needle == "" || to.None? then s
    else match Find(s, needle)
      case None => s
      case Some(p) => s[..p] + to.value + s[p + |needle|..]
  }

  method ReplaceString(args: array<string>, at: nat, needle: string, to: Option<string>) returns (ret: bool)
    requires at < args.Length
    modifies args
    ensures ret && args[at] == Replace(old(args[at]), needle, to)
    ensures forall i :: 0 <= i < args.Length && i != at ==> args[i] == old(args[i])
  {
    if needle == "" || to.None? {
      return true;
    }
    var p := Find(args[at], needle);
    if p.None? {
      return true;
    }
    var pre, post := p.value, args[at][p.value + |needle|..];
    args[at] := args[at][..pre] + to.value + post;
    return true;
  }

  // ----- the tags, in the order of their replacement -----

  const TAGS := 10

  function TagName(k: nat): string
    requires k < TAGS
  {
    match k
    case 0 => "WORKLOAD_DIR"
    case 1 => "KERNEL"
    case 2 => "KERNEL_PARAMS"
    case 3 => "IMAGE"
    case 4 => "SIZE"
    case 5 => "COMMS_SOCKET"
    case 6 => "PROCESS_SOCKET"
    case 7 => "CONSOLE_DEVICE"
    case 8 => "NAME"
    case _ => "UUID"
  }

  function TagText(k: nat): string
    requires k < TAGS
  {
    "@" + TagName(k) + "@"
  }

  /** The replacements from the `k`th tag on. */
  function ExpandFrom(s: string, values: seq<Option<string>>, k: nat): string
    requires |values| == TAGS && k <= TAGS
    decreases TAGS - k
  {
    if k == TAGS then s else ExpandFrom(Replace(s, TagText(k), values[k]), values, k + 1)
  }

  function Expand(s: string, values: seq<Option<string>>): string
    requires |values| == TAGS
  {
    ExpandFrom(s, values, 0)
  }

  // ----- the whole command line -----

  const CONSOLE_SOCKET := "console.sock"

  function TrimSlashes(s: string): string {
    if s != "" && s[|s| - 1] == '/' then TrimSlashes(s[..|s| - 1]) else s
  }

  /** g_build_path with a slash, for a directory and a plain name; a directory that is
      nothing but slashes stays as it is. */
  function BuildPath(dir: string, name: string): string {
    if TrimSlashes(dir) == "" then dir + name else TrimSlashes(dir) + "/" + name
  }

  /** g_find_program_in_path for a command that is no absolute path. */
  function Command(arg: string, program: string -> Option<string>): string {
    if arg != "" && arg[0] == '/' then arg
    else match program(arg) case Some(cmd) => cmd case None => arg
  }

  /** A character device that is a socket, and one on the standard streams. */
  function SocketConsole(path: string): string {
    "socket,path=" + path + ",server,nowait,id=charconsole0,signal=off"
  }

  function StdioConsole(): string { "stdio,id=charconsole0,signal=off" }

  function ProcessDevice(path: string): string { "socket,id=procsock,path=" + path + ",server,nowait" }

  /** What a launch knows of its container. The file system answers for the
      paths: the size of the image, whether the kernel and the root exist. */
  class Launch {
    const hasVm: bool
    const imagePath: string
    const imageSize: Option<nat>
    const kernelPath: string
    const kernelExists: bool
    const kernelParams: Option<string>
    const rootPath: string
    const rootIsDir: bool
    const runtimePath: string
    const commsPath: string
    const procsockPath: string
    var console: Option<string>
    var useSocketConsole: bool

    predicate Launchable() {
      && hasVm && imagePath != "" && imageSize.Some? && kernelPath != "" && kernelExists
      && rootPath != "" && rootIsDir
    }

    /** The socket of the console, or the standard streams when one was given. */
    function ConsoleDevice(given: Option<string>): string {
      if given.None? || given.value == "" then
        SocketConsole(BuildPath(runtimePath, CONSOLE_SOCKET))
      else StdioConsole()
    }

    function Values(given: Option<string>, uuid: seq<Byte>): (r: seq<Option<string>>)
      requires Launchable() && |uuid| == 16
      ensures |r| == TAGS
    {
      [ Some(rootPath), Some(kernelPath), kernelParams, Some(imagePath), Some(Decimal(imageSize.value)),
        Some(commsPath), Some(ProcessDevice(procsockPath)),
        Some(ConsoleDevice(given)), Some(AfterLastHyphen(RfcText(uuid))), Some(RfcText(uuid)) ]
    }

    method ExpandCmdline(args: array<string>, uuid: seq<Byte>, program: string -> Option<string>)
      returns (ret: bool)
      requires |uuid| == 16
      modifies this, args
      ensures ret <==> hasVm && imagePath != "" && imageSize.Some? && kernelPath != "" && kernelExists
                       && rootPath != "" && rootIsDir
      ensures !ret ==> unchanged(this) && unchanged(args)
      ensures ret ==> forall i :: 0 <= i < args.Length ==>
        var absolute := old(args[i]) != "" && old(args[i])[0] == '/';
        var arg := if i == 0 && !absolute && program(old(args[0])).Some? then program(old(args[0])).value
                   else old(args[i]);
        args[i] == Expand(arg, Values(old(console), uuid))
      ensures ret ==> if old(console).None? || old(console).value == ""
        then console == Some(BuildPath(runtimePath, CONSOLE_SOCKET)) && useSocketConsole
        else unchanged(this)
    {
      hide BuildPath, SocketConsole, StdioConsole, ProcessDevice, RfcText, AfterLastHyphen, Decimal, Expand;
      if !hasVm {
        return false;
      }
      if imagePath == "" || imageSize.None? {
        return false;
      }
      if kernelPath == "" || !kernelExists {
        return false;
      }
      if rootPath == "" || !rootIsDir {
        return false;
      }
      var buffer, length := Format(uuid);
      var uuidStr := buffer[..length];
      var bytes := Decimal(imageSize.value);
      var consoleDevice;
      if console.None? || console.value == "" {
        console := Some(BuildPath(runtimePath, CONSOLE_SOCKET));
        useSocketConsole := true;
        consoleDevice := SocketConsole(console.value);
      } else {
        consoleDevice := StdioConsole();
      }
      var procsockDevice := ProcessDevice(procsockPath);
      var values := [ Some(rootPath), Some(kernelPath), kernelParams, Some(imagePath), Some(bytes),
        Some(commsPath), Some(procsockDevice), Some(consoleDevice), Some(AfterLastHyphen(uuidStr)), Some(uuidStr) ];
      ghost var first := old(args[..]);
      assert values == Values(old(console), uuid);
      var count := 0;
      while count < args.Length
        invariant 0 <= count <= args.Length
        invariant forall i :: count <= i < args.Length ==> args[i] == first[i]
        invariant forall i :: 0 <= i < count ==>
          args[i] == Expand(if i == 0 then Command(first[0], program) else first[i], values)
        modifies args
      {
        if count == 0 && !(args[count] != "" && args[count][0] == '/') {
          var cmd := program(args[count]);
          if cmd.Some? {
            args[count] := cmd.value;
          }
        }
        ExpandArg(args, count, values);
        count := count + 1;
      }
      ret := true;
    }
  }

  method ExpandArg(args: array<string>, at: nat, values: seq<Option<string>>)
    requires at < args.Length && |values| == TAGS
    modifies args
    ensures args[at] == Expand(old(args[at]), values)
    ensures forall i :: 0 <= i < args.Length && i != at ==> args[i] == old(args[i])
  {
    var k := 0;
    while k < TAGS
      invariant 0 <= k <= TAGS
      invariant ExpandFrom(args[at], values, k) == Expand(old(args[at]), values)
      invariant forall i :: 0 <= i < args.Length && i != at ==> args[i] == old(args[i])
    {
      var _ := ReplaceString(args, at, TagText(k), values[k]);
      k := k + 1;
    }
  }
}
