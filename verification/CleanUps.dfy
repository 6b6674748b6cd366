/** What a cleanup leaves, call by call: of "stop", and of a start that waited for its
    VM, on any host. */
module CleanUps {
  import opened CLib
  import opened Json
  import opened Sections
  import opened StateFile
  import opened StateReader
  import opened StateCodec
  import opened StateDecode
  import opened StateRoundTrip
  import opened MountTable
  import opened OciConfig
  import opened Lifecycle
  import opened FileText

  // ----- unmounting -----

  /** The first `n` destinations are unmounted, and the next one is busy or is not mounted. */
  predicate StopsAfter(table: multiset<string>, dests: seq<string>, busy: set<string>, n: nat) {
    && n <= |dests| && multiset(dests[..n]) <= table && (forall i :: 0 <= i < n ==> dests[i] !in busy)
    && (n < |dests| ==> dests[n] in busy || dests[n] !in table - multiset(dests[..n]))
  }

  predicate Unmounts(table: multiset<string>, dests: seq<string>, busy: set<string>, n: nat) {
    && StopsAfter(table, dests, busy, n)
    && UnmountAll(table, dests, busy) == (table - multiset(dests[..n]), n == |dests|)
  }

  lemma {:induction false} UnmountStops(table: multiset<string>, dests: seq<string>, busy: set<string>)
    returns (n: nat)
    ensures Unmounts(table, dests, busy, n)
  {
    hide Unmounts;
    if dests == [] {
      n := 0;
      UnmountNothing(table, dests, busy);
    } else {
      var front, dest := dests[..|dests| - 1], dests[|dests| - 1];
      var before := UnmountStops(table, front, busy);
      n := UnmountNext(table, front, dest, busy, before);
      assert dests == front + [dest];
    }
  }

  lemma UnmountNext(table: multiset<string>, front: seq<string>, dest: string, busy: set<string>, before: nat)
    returns (n: nat)
    requires Unmounts(table, front, busy, before)
    ensures Unmounts(table, front + [dest], busy, n)
  {
    hide UnmountAll, StopsAfter;
    UnmountOneMore(table, front, dest, busy);
    StopsWithin(table, front, busy, before);
    if before == |front| && dest in table - multiset(front) && dest !in busy {
      StopsLater(table, front, dest, busy);
      n := before + 1;
      assert (front + [dest])[..n] == front + [dest];
    } else {
      n := before;
      StopsSame(table, front, dest, busy, n);
      assert (front + [dest])[..n] == front[..n];
    }
  }

  lemma UnmountNothing(table: multiset<string>, dests: seq<string>, busy: set<string>)
    requires dests == []
    ensures Unmounts(table, dests, busy, 0)
  {
    assert table - multiset{} == table;
  }

  lemma StopsWithin(table: multiset<string>, dests: seq<string>, busy: set<string>, n: nat)
    requires StopsAfter(table, dests, busy, n)
    ensures n <= |dests| && (n == |dests| ==> dests[..n] == dests)
  {
  }

  lemma StopsLater(table: multiset<string>, front: seq<string>, dest: string, busy: set<string>)
    requires StopsAfter(table, front, busy, |front|) && dest in table - multiset(front) && dest !in busy
    ensures StopsAfter(table, front + [dest], busy, |front| + 1)
    ensures (table - multiset(front)) - multiset{dest} == table - multiset(front + [dest])
  {
    assert front[..|front|] == front && (front + [dest])[..|front| + 1] == front + [dest];
    OneMore(table, front, dest);
  }

  lemma StopsSame(table: multiset<string>, front: seq<string>, dest: string, busy: set<string>, n: nat)
    requires StopsAfter(table, front, busy, n)
    requires n == |front| ==> dest !in table - multiset(front) || dest in busy
    ensures StopsAfter(table, front + [dest], busy, n)
  {
    assert (front + [dest])[..n] == front[..n];
    if n == |front| {
      assert front[..n] == front;
    }
  }

  lemma OneMore(table: multiset<string>, front: seq<string>, dest: string)
    requires multiset(front) <= table && dest in table - multiset(front)
    ensures multiset(front + [dest]) <= table
    ensures (table - multiset(front)) - multiset{dest} == table - multiset(front + [dest])
  {
    assert multiset(front + [dest]) == multiset(front) + multiset{dest};
  }

  /** All of them can be unmounted. */
  predicate Unmountable(table: multiset<string>, dests: seq<string>, busy: set<string>) {
    multiset(dests) <= table && forall i :: 0 <= i < |dests| ==> dests[i] !in busy
  }

  lemma StopsAtTheEnd(table: multiset<string>, dests: seq<string>, busy: set<string>, n: nat)
    requires StopsAfter(table, dests, busy, n)
    ensures n == |dests| <==> Unmountable(table, dests, busy)
  {
    if n == |dests| {
      assert dests[..n] == dests;
    } else {
      OneMoreThere(dests, n);
    }
  }

  lemma OneMoreThere(dests: seq<string>, n: nat)
    requires n < |dests|
    ensures multiset(dests)[dests[n]] > multiset(dests[..n])[dests[n]]
  {
    assert dests == dests[..n] + [dests[n]] + dests[n + 1..];
    assert multiset(dests) == multiset(dests[..n]) + multiset{dests[n]} + multiset(dests[n + 1..]);
  }

  // ----- the whole cleanup -----

  /** The directory is gone with everything in it, and nothing else is. */
  ghost predicate Emptied(h: Host, h': Host, path: string) {
    && (forall d :: d in h'.dirs <==> d in h.dirs && d != path && !(path + "/" <= d))
    && (forall f :: f in h'.files <==> f in h.files && f != path && !(path + "/" <= f))
    && (forall f :: f in h'.files ==> h'.files[f] == h.files[f])
  }

  /** Unmounting, the unlink of the state file and the removal of the directory, in this
      order and up to the first call that fails: `n` destinations are unmounted. */
  ghost predicate Cleaned(h: Host, h': Host, dests: seq<string>, path: string, a: Answers, n: nat) {
    var file := path + "/state.json";
    && StopsAfter(h.table, dests, a.system.busy, n)
    && h'.table == h.table - multiset(dests[..n])
    && (if !CallsSucceed(h, dests, path, a) then
          && h'.dirs == h.dirs
          && h'.files == if n == |dests| && a.unlinked then h.files - {file} else h.files
        else h'.table == h.table - multiset(dests) && Emptied(h, h', path))
  }

  predicate CallsSucceed(h: Host, dests: seq<string>, path: string, a: Answers) {
    && Unmountable(h.table, dests, a.system.busy)
    && path + "/state.json" in h.files && a.unlinked
    && path != "" && path[0] == '/' && a.removed
  }

  lemma UnderIs(path: string, p: string)
    ensures Under(path, p) <==> p == path || path + "/" <= p
  {
    if path + "/" <= p {
      assert p[..|path|] == (path + "/")[..|path|] && p[|path|] == (path + "/")[|path|];
    }
  }

  lemma EmptiedByRemoval(h: Host, path: string)
    ensures var file := path + "/state.json"; Emptied(h, RmRf(h.(files := h.files - {file}), path), path)
  {
    var file := path + "/state.json";
    assert path + "/" <= file;
    forall p ensures Under(path, p) <==> p == path || path + "/" <= p {
      UnderIs(path, p);
    }
    hide Under;
  }

  lemma CleanUpDoes(h: Host, config: Config, a: Answers) returns (n: nat)
    ensures var dests, path := Recorded(config.mounts), config.runtimePath; var (h', ret) := CleanUp(h, config, a);
      Cleaned(h, h', dests, path, a, n) && (ret <==> CallsSucceed(h, dests, path, a))
  {
    hide UnmountAll, Recorded, Emptied, Unmountable, StopsAfter, RmRf, CallsSucceed, Cleaned, CleanUp;
    var dests, path := Recorded(config.mounts), config.runtimePath;
    n := UnmountStops(h.table, dests, a.system.busy);
    StopsWithin(h.table, dests, a.system.busy, n);
    StopsAtTheEnd(h.table, dests, a.system.busy, n);
    if n == |dests| {
      AfterUnmounting(h, config, a);
    } else {
      UnmountingFails(h, config, a, n);
    }
  }

  lemma UnmountingFails(h: Host, config: Config, a: Answers, n: nat)
    requires var dests := Recorded(config.mounts);
      && StopsAfter(h.table, dests, a.system.busy, n) && !Unmountable(h.table, dests, a.system.busy)
      && n < |dests| && UnmountAll(h.table, dests, a.system.busy) == (h.table - multiset(dests[..n]), false)
    ensures var dests, path := Recorded(config.mounts), config.runtimePath; var (h', ret) := CleanUp(h, config, a);
      Cleaned(h, h', dests, path, a, n) && !ret && !CallsSucceed(h, dests, path, a)
  {
    hide UnmountAll, Recorded, Emptied, Unmountable, StopsAfter, RmRf, StatePath;
  }

  lemma AfterUnmounting(h: Host, config: Config, a: Answers)
    requires var dests := Recorded(config.mounts);
      && StopsAfter(h.table, dests, a.system.busy, |dests|) && Unmountable(h.table, dests, a.system.busy)
      && UnmountAll(h.table, dests, a.system.busy) == (h.table - multiset(dests), true)
    ensures var dests, path := Recorded(config.mounts), config.runtimePath; var (h', ret) := CleanUp(h, config, a);
      Cleaned(h, h', dests, path, a, |dests|) && (ret <==> CallsSucceed(h, dests, path, a))
  {
    hide UnmountAll, Recorded, Emptied, Unmountable, StopsAfter, RmRf, StatePath;
    var dests, path := Recorded(config.mounts), config.runtimePath;
    assert dests[..|dests|] == dests;
    PathTexts(path);
    EmptiedByRemoval(h.(table := h.table - multiset(dests)), path);
    EmptiedAnyTable(h, h.table - multiset(dests), path);
    RemovalKeepsTable(h.(table := h.table - multiset(dests)), path);
    if path + "/state.json" !in h.files {
      NoFileToUnlink(h.files, path + "/state.json");
    }
  }

  lemma RemovalKeepsTable(h: Host, path: string)
    ensures var file := path + "/state.json"; RmRf(h.(files := h.files - {file}), path).table == h.table
  {
  }

  lemma NoFileToUnlink(files: map<string, Json>, file: string)
    requires file !in files
    ensures files - {file} == files
  {
  }

  lemma EmptiedAnyTable(h: Host, table: multiset<string>, path: string)
    ensures forall h': Host :: Emptied(h.(table := table), h', path) ==> Emptied(h, h', path)
  {
  }

  // ----- the end of a start that waited -----

  /** What a command can use of the state file, if the file can be read at all. */
  function StateAt(h: Host, path: string, readable: bool): Option<OciState> {
    var file := path + "/state.json";
    if !readable || file !in h.files then None
    else match Read(h.files[file])
      case None => None
      case Some(state) =>
        if state.bundlePath.None? || state.bundlePath.value == "" then None else Some(state)
  }

  lemma LoadedIs(h: Host, path: string, id: string, readable: bool)
    ensures var r, s := Loaded(h, path, id, readable), StateAt(h, path, readable);
      && (r.Some? <==> s.Some?)
      && (r.Some? ==>
            && r.value.1 == s.value && r.value.0.runtimePath == path && r.value.0.containerId == Some(id)
            && r.value.0.status == s.value.status && r.value.0.workloadPid == s.value.pid
            && r.value.0.bundlePath == s.value.bundlePath && r.value.0.mounts == [])
  {
    hide Read;
    PathTexts(path);
    hide StatePath;
  }

  /** On any host: if the file then shows STOPPED or STOPPING, the start returns true and
      leaves everything as it is; if it shows any other status, the mounts recorded when the
      start began are unmounted, and the file and the directory removed, and it returns true
      exactly if all of that succeeds and the connection was made. */
  lemma WaitEnds(h: Host, id: string, config: Config, a: Answers) returns (n: nat)
    ensures var dests, path := Recorded(config.mounts), config.runtimePath;
      var (h', ret) := AfterWait(h, path, id, config, a); var again := StateAt(h, path, a.readAgain);
      && (again.None? ==> h' == h && !ret)
      && (again.Some? && (again.value.status.Stopped? || again.value.status.Stopping?) ==> h' == h && ret)
      && (again.Some? && !again.value.status.Stopped? && !again.value.status.Stopping? ==>
            && Cleaned(h, h', dests, path, a, n)
            && (ret <==> CallsSucceed(h, dests, path, a) && a.connected))
  {
    hide Recorded, Loaded, CleanUp, CallsSucceed, Cleaned, StateAt;
    LoadedIs(h, config.runtimePath, id, a.readAgain);
    n := CleanUpDoes(h, config, a);
  }

  // ----- "stop" -----

  /** The texts of the file's "mounts" array. */
  predicate ListsInFile(members: seq<Member>, dests: seq<string>) {
    Lookup(members, "mounts") == Some(JArray(Strings(dests)))
  }

  /** Of a file that can be read, the mounts are the ones listed, in order. */
  lemma ListedRead(members: seq<Member>, dests: seq<string>)
    requires DistinctKeys(members) && ListsInFile(members, dests) && Read(JObject(members)).Some?
    requires NotArray(Lookup(members, "console")) && NotArray(Lookup(members, "vm"))
    ensures Lists(Read(JObject(members)).value.mounts, dests)
  {
    hide Read, MountsIn, Lists, JStrings, Strings, MountsAt, StateOf, DistinctKeys, NotArray, Flatten, Lookup;
    DecodeObject(members);
    StringsAre(dests);
    MountsRead(dests);
    ListsAt(dests);
    ArrayFlat(JStrings(dests));
    MountsEntry(members);
    BelowSome(JArray(JStrings(dests)));
    ReadIsMembers(members);
  }

  lemma ReadIsMembers(members: seq<Member>)
    ensures var r := Read(JObject(members)); r.Some? ==> r.value == ReadMembers(members).state
  {
    hide TopFold, Flatten, Enough;
  }

  lemma BelowSome(j: Json)
    ensures StateDecode.Below(Some(j)) == Flatten(j, false)
  {
  }

  lemma ArrayFlat(elements: seq<Json>)
    ensures Flatten(JArray(elements), false) == FlattenElements(elements)
  {
  }

  lemma MountsEntry(members: seq<Member>)
    ensures StateOf(members).mounts == MountsIn(StateDecode.Below(Lookup(members, "mounts")))
  {
    assert NameOf(Mounts) == "mounts";
    hide Lookup, Flatten, MountsIn, LastText, AnnotationsIn, SubLead, VmIn;
  }

  lemma {:induction false} RecordedLists(mounts: seq<Mount>, dests: seq<string>)
    requires Lists(mounts, dests)
    ensures Recorded(mounts) == dests
  {
    if mounts != [] {
      RecordedLists(mounts[..|mounts| - 1], dests[..|dests| - 1]);
      assert dests == dests[..|dests| - 1] + [dests[|dests| - 1]];
    }
  }

  /** Shutting down is tried only while the VM runs, and its pid is known. */
  predicate ShutdownFails(state: OciState, a: Answers) { a.running && state.pid != 0 && !a.shutdown }

  /** A stop, on any host with a state file: a file that cannot be used, and a VM that cannot
      be shut down, make it fail with nothing changed; without a config.json it returns true
      with nothing changed; otherwise it unmounts the destinations that the file lists, and
      removes the file and the directory, and returns true exactly if all of that succeeds. */
  lemma StopDoes(h: Host, path: string, id: string, a: Answers, members: seq<Member>, dests: seq<string>)
    returns (n: nat)
    requires path + "/state.json" in h.files && h.files[path + "/state.json"] == JObject(members)
    requires DistinctKeys(members) && ListsInFile(members, dests)
    requires NotArray(Lookup(members, "console")) && NotArray(Lookup(members, "vm"))
    ensures var (h', ret) := Stop(h, path, id, a); var state := StateAt(h, path, a.readable);
      && (state.None? ==> h' == h && !ret)
      && (state.Some? && !a.parsed ==> h' == h && ret)
      && (state.Some? && a.parsed && ShutdownFails(state.value, a) ==> h' == h && !ret)
      && (state.Some? && a.parsed && !ShutdownFails(state.value, a) ==>
            Cleaned(h, h', dests, path, a, n) && (ret <==> CallsSucceed(h, dests, path, a)))
  {
    hide Recorded, Loaded, CleanUp, CallsSucceed, Cleaned, Read, ListsInFile, DistinctKeys, NotArray, Lookup, StatePath;
    LoadedIs(h, path, id, a.readable);
    PathTexts(path);
    n := 0;
    var state := StateAt(h, path, a.readable);
    if state.Some? {
      ListedRead(members, dests);
      RecordedLists(state.value.mounts, dests);
      var loaded := Loaded(h, path, id, a.readable).value;
      n := CleanUpDoes(h, loaded.0.(mounts := loaded.1.mounts), a);
    }
  }

  lemma StopWithoutFile(h: Host, path: string, id: string, a: Answers)
    requires path + "/state.json" !in h.files
    ensures Stop(h, path, id, a) == (h, true)
  {
    PathTexts(path);
    hide Loaded, CleanUp, StatePath;
  }
}
