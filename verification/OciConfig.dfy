/** The parts of the runtime's configuration object that the section handlers fill. */
module OciConfig {
  import opened CLib

  datatype Mount = Mount(
    flags: set<nat>,  // the bits set in the flag word
    fsname: Option<string>,
    dir: Option<string>,
    mtype: Option<string>,
    opts: Option<string>,
    dest: string,
    ignoreMount: bool)

  /** What g_new0 allocates. */
  const NEW_MOUNT := Mount({}, None, None, None, None, "", false)

  datatype Hook = Hook(path: string, args: Option<seq<string>>, env: Option<seq<string>>, timeout: int)

  const NEW_HOOK := Hook("", None, None, 0)

  datatype NsType = NsInvalid | NsCgroup | NsIpc | NsMount | NsNet | NsPid | NsUser | NsUts

  datatype Namespace = Namespace(ntype: NsType, path: Option<string>)

  const NEW_NAMESPACE := Namespace(NsInvalid, None)

  class OciCfg {
    var mounts: seq<Mount>
    var prestart: seq<Hook>
    var poststart: seq<Hook>
    var poststop: seq<Hook>
    var namespaces: seq<Namespace>
  }
}
