/** How commands other than "create" rewrite the state file: they read it, move
    what they need into a fresh configuration, and write that. */
module Rewrite {
  import opened CLib
  import opened Json
  import opened StateFile
  import opened StateReader
  import opened StateRoundTrip

  /** clr_oci_get_config_and_state: fails when the file cannot be read, or names no bundle. */
  function GetConfigAndState(id: string, runtimePath: string, file: Option<Json>): Option<(Config, OciState)> {
    if file.None? || Read(file.value).None? then None
    else
      var state := Read(file.value).value;
      if OrEmpty(state.bundlePath) == "" then None
      else
        Some((NEW_CONFIG.(containerId := Some(id), runtimePath := runtimePath, bundlePath := state.bundlePath,
                          workloadPid := state.pid, status := state.status, commsPath := OrEmpty(state.commsPath)),
              state))
  }

  /** clr_oci_config_update: annotations are not among what is moved. */
  function ConfigUpdate(config: Config, state: OciState): Config {
    config.(
      mounts := if state.mounts != [] then state.mounts else config.mounts,
      console := if state.console.Some? then state.console else config.console,
      useSocketConsole := state.useSocketConsole,
      vm := Some(state.vm),
      procsockPath := if state.procsockPath.Some? then state.procsockPath.value else config.procsockPath)
  }

  /** What "create" leaves behind, if it succeeds: enough to be read back. */
  predicate Storable(config: Config) {
    && Writable(config) && config.console.Some?
    && config.bundlePath.value != ""
    && IsPid(config.workloadPid)
    && DistinctAnnotations(config.annotations)
  }

  /** The configuration that a command works with, from the one that was written. */
  function Reloaded(config: Config): Config
    requires Writable(config)
  {
    config.(mounts := MountsAt(Recorded(config.mounts)), vm := Some(ReadVm(config.vm.value)), annotations := [])
  }

  lemma {:induction false} RecordedAgain(dests: seq<string>)
    ensures Recorded(MountsAt(dests)) == dests
  {
    if dests == [] {
      assert MountsAt(dests) == [];
    } else {
      var n := |dests| - 1;
      RecordedAgain(dests[..n]);
      var all := MountsAt(dests);
      assert all[..|all| - 1] == MountsAt(dests[..n]);
      assert dests[..n] + [dests[n]] == dests;
    }
  }

  /** Reading and transferring gives back the configuration that was written. */
  lemma Reload(config: Config, created: string)
    requires Storable(config)
    ensures var r := GetConfigAndState(config.containerId.value, config.runtimePath, Doc(config, created));
      && r.Some?
      && r.value.1 == Written(config, created)
      && ConfigUpdate(r.value.0, r.value.1) == Reloaded(config)
  {
    RoundTrip(config, created);
    hide Read;
    assert MountsAt([]) == [];
  }

  /** For every new status, what is written again differs from the first file in
      the status and the annotations, and in nothing else. */
  lemma RewriteKeepsFields(config: Config, created: string, status: Status)
    requires Storable(config) && !status.Invalid?
    ensures Storable(Reloaded(config).(status := status))
    ensures Doc(Reloaded(config).(status := status), created)
         == Doc(config.(status := status, annotations := []), created)
  {
    RecordedAgain(Recorded(config.mounts));
    var a, b := Reloaded(config).(status := status), config.(status := status, annotations := []);
    assert ConsoleMembers(a) == ConsoleMembers(b);
    assert VmMembers(a.vm.value) == VmMembers(b.vm.value);
    hide ConsoleMembers, VmMembers, Recorded;
  }
}
