/** Where the mounts of a container go, by the directories in its configuration: a mount
    is left to the VM, passed over, or mounted at the root followed by its directory. */
module Destinations {
  import opened OciConfig
  import opened StateFile
  import opened MountTable

  /** The directories that the VM has mounts of its own for. */
  predicate ForVm(dir: string) {
    || dir == "/proc" || dir == "/dev" || dir == "/dev/pts" || dir == "/dev/shm" || dir == "/dev/mqueue"
    || dir == "/sys" || dir == "/sys/fs/cgroup"
  }

  /** The source is a path that does not exist; a relative one is never looked up. */
  predicate Absent(source: string, exist: set<string>) { |source| > 0 && source[0] == '/' && source !in exist }

  /** The root followed by the directory, for all mounts but those that are the VM's own. */
  function Places(mounts: seq<Mount>, root: string): seq<string>
    requires AllConfigured(mounts)
  {
    if mounts == [] then []
    else if ForVm(mounts[0].dir.value) then Places(mounts[1..], root)
    else [root + mounts[0].dir.value] + Places(mounts[1..], root)
  }

  /** The mounts whose source is absent, or is not. */
  function BySource(mounts: seq<Mount>, exist: set<string>, absent: bool): (r: seq<Mount>)
    requires AllConfigured(mounts)
    ensures AllConfigured(r)
  {
    if mounts == [] then []
    else if Absent(mounts[0].fsname.value, exist) == absent then
      [mounts[0]] + BySource(mounts[1..], exist, absent)
    else BySource(mounts[1..], exist, absent)
  }

  // ----- one mount -----

  lemma IgnoredExactly(m: Mount)
    requires Configured(m)
    ensures Ignored(m) <==> ForVm(m.dir.value)
  {
    var d := m.dir.value;
    assert d in IGNORED_DIRS <==> exists i :: 0 <= i < 7 && IGNORED_DIRS[i] == d;
    assert IGNORED_DIRS[0] == "/proc" && IGNORED_DIRS[1] == "/dev" && IGNORED_DIRS[2] == "/dev/pts";
    assert IGNORED_DIRS[3] == "/dev/shm" && IGNORED_DIRS[4] == "/dev/mqueue" && IGNORED_DIRS[5] == "/sys";
    assert IGNORED_DIRS[6] == "/sys/fs/cgroup";
  }

  /** One turn of the loop: the mount is flagged exactly if it is the VM's own, and has the
      root followed by its directory as destination otherwise; nothing else changes. */
  lemma OneHandled(m: Mount, root: string)
    requires Configured(m)
    ensures Handled(m, root)
         == if ForVm(m.dir.value) then m.(ignoreMount := true) else m.(dest := root + m.dir.value)
  {
    hide ForVm, Ignored;
    IgnoredExactly(m);
  }

  lemma OnePassed(m: Mount, exist: set<string>)
    requires Configured(m)
    ensures Passed(m, exist) <==> ForVm(m.dir.value) || Absent(m.fsname.value, exist)
  {
    hide ForVm, Ignored;
    IgnoredExactly(m);
  }

  // ----- the loop -----

  predicate Goes(m: Mount, i: nat, system: System, dryRun: bool)
    requires Configured(m)
  {
    || ForVm(m.dir.value) || Absent(m.fsname.value, system.exist)
    || (i in system.made && (dryRun || i in system.mountable))
  }

  /** The loop stops at the first mount that is neither the VM's own nor passed over, and
      whose directory cannot be made, or which cannot be mounted. */
  lemma {:induction false} StopsAt(mounts: seq<Mount>, from: nat, system: System, dryRun: bool)
    requires AllConfigured(mounts) && from <= |mounts|
    ensures var n := FirstFailure(mounts, from, system, dryRun);
      && from <= n <= |mounts|
      && (forall i :: from <= i < n ==> Goes(mounts[i], i, system, dryRun))
      && (n < |mounts| ==> !Goes(mounts[n], n, system, dryRun))
    decreases |mounts| - from
  {
    hide ForVm, Absent, Passed;
    if from < |mounts| {
      OnePassed(mounts[from], system.exist);
      if !Fails(mounts[from], from, system, dryRun) {
        StopsAt(mounts, from + 1, system, dryRun);
      }
    }
  }

  /** After the loop, each mount it has handled. */
  lemma HandledPlaces(mounts: seq<Mount>, n: nat, root: string)
    requires AllConfigured(mounts) && n <= |mounts|
    ensures var after := HandledUpTo(mounts, n, root);
      && |after| == |mounts|
      && (forall i :: 0 <= i < n && ForVm(mounts[i].dir.value) ==> after[i] == mounts[i].(ignoreMount := true))
      && (forall i :: 0 <= i < n && !ForVm(mounts[i].dir.value) ==>
            after[i] == mounts[i].(dest := root + mounts[i].dir.value))
      && (forall i :: n <= i < |mounts| ==> after[i] == mounts[i])
  {
    hide ForVm, Handled, Ignored;
    forall i | 0 <= i < n
      ensures HandledUpTo(mounts, n, root)[i]
           == if ForVm(mounts[i].dir.value) then mounts[i].(ignoreMount := true)
              else mounts[i].(dest := root + mounts[i].dir.value)
    {
      OneHandled(mounts[i], root);
    }
  }

  // ----- the lists of destinations -----

  lemma {:induction false} PlacesSnoc(mounts: seq<Mount>, last: Mount, root: string)
    requires AllConfigured(mounts) && Configured(last)
    ensures AllConfigured(mounts + [last])
    ensures Places(mounts + [last], root)
         == Places(mounts, root) + if ForVm(last.dir.value) then [] else [root + last.dir.value]
  {
    hide ForVm, Configured;
    if mounts != [] {
      assert (mounts + [last])[1..] == mounts[1..] + [last];
      PlacesSnoc(mounts[1..], last, root);
    } else {
      assert (mounts + [last])[1..] == [];
    }
  }

  lemma {:induction false} BySourceSnoc(mounts: seq<Mount>, last: Mount, exist: set<string>, absent: bool)
    requires AllConfigured(mounts) && Configured(last)
    ensures AllConfigured(mounts + [last])
    ensures BySource(mounts + [last], exist, absent)
         == BySource(mounts, exist, absent) + if Absent(last.fsname.value, exist) == absent then [last] else []
  {
    hide Absent, Configured;
    if mounts != [] {
      assert (mounts + [last])[1..] == mounts[1..] + [last];
      BySourceSnoc(mounts[1..], last, exist, absent);
    } else {
      assert (mounts + [last])[1..] == [];
    }
  }

  /** What is recorded for unmounting: all places, in order. */
  lemma {:induction false} RecordedPlaces(mounts: seq<Mount>, root: string)
    requires AllConfigured(mounts)
    ensures Recorded(HandledAll(mounts, root)) == Places(mounts, root)
  {
    hide ForVm, Ignored, HandledAll, Recorded, Places;
    if mounts == [] {
      RecordedNothing(mounts, root);
      NoPlaces(mounts, root);
    } else {
      var front, last := mounts[..|mounts| - 1], mounts[|mounts| - 1];
      RecordedPlaces(front, root);
      RecordedNext(mounts, root);
      IgnoredExactly(last);
      PlacesSnoc(front, last, root);
      assert front + [last] == mounts;
    }
  }

  lemma NoPlaces(mounts: seq<Mount>, root: string)
    requires mounts == []
    ensures Places(mounts, root) == []
  {
  }

  /** What is mounted, and what is passed over: the places of the mounts whose source
      exists, or is no path; and of those whose source is absent. */
  lemma {:induction false} MountedPlaces(mounts: seq<Mount>, root: string, exist: set<string>)
    requires AllConfigured(mounts)
    ensures Mounted(mounts, root, exist) == Places(BySource(mounts, exist, false), root)
    ensures Skipped(mounts, root, exist) == Places(BySource(mounts, exist, true), root)
  {
    hide ForVm, Ignored, Absent, Places, BySource, Passed;
    if mounts == [] {
      NothingBySource(mounts, root, exist);
    } else {
      var front, last := mounts[..|mounts| - 1], mounts[|mounts| - 1];
      MountedPlaces(front, root, exist);
      IgnoredExactly(last);
      OnePassed(last, exist);
      BySourceSnoc(front, last, exist, false);
      BySourceSnoc(front, last, exist, true);
      PlacesSnoc(BySource(front, exist, false), last, root);
      PlacesSnoc(BySource(front, exist, true), last, root);
      assert front + [last] == mounts;
      assert BySource(front, exist, false) + [] == BySource(front, exist, false);
      assert BySource(front, exist, true) + [] == BySource(front, exist, true);
    }
  }

  lemma NothingBySource(mounts: seq<Mount>, root: string, exist: set<string>)
    requires mounts == []
    ensures Places(BySource(mounts, exist, false), root) == [] && Places(BySource(mounts, exist, true), root) == []
  {
  }

  /** The table once the loop has handled the first `n` mounts. */
  lemma TablePlaces(
    table: multiset<string>, mounts: seq<Mount>, n: nat, root: string, system: System, dryRun: bool)
    requires AllConfigured(mounts) && n <= |mounts|
    ensures TableAfter(table, mounts, n, root, system, dryRun)
         == if dryRun then table
            else table + multiset(Places(BySource(mounts[..n], system.exist, false), root))
  {
    hide Places, BySource, Mounted, Skipped;
    MountedPlaces(mounts[..n], root, system.exist);
  }

  // ----- the root and the directories -----

  lemma {:induction false} PlacesUnderRoot(mounts: seq<Mount>, root: string)
    requires AllConfigured(mounts)
    ensures forall d :: d in Places(mounts, root) ==> root <= d
    ensures forall d :: d in Places(mounts, root) ==>
      exists i :: 0 <= i < |mounts| && d == root + mounts[i].dir.value && !ForVm(mounts[i].dir.value)
  {
    hide ForVm;
    if mounts != [] {
      PlacesUnderRoot(mounts[1..], root);
      forall d | d in Places(mounts[1..], root)
        ensures exists i :: 0 <= i < |mounts| && d == root + mounts[i].dir.value && !ForVm(mounts[i].dir.value)
      {
        var i :| 0 <= i < |mounts[1..]| && d == root + mounts[1..][i].dir.value && !ForVm(mounts[1..][i].dir.value);
        assert mounts[1..][i] == mounts[i + 1];
      }
    }
  }

  /** Everything that is mounted, passed over or recorded is the root followed by the
      directory of some mount. */
  lemma AllBelowRoot(mounts: seq<Mount>, root: string, exist: set<string>)
    requires AllConfigured(mounts)
    ensures forall d :: d in Mounted(mounts, root, exist) ==> root <= d
    ensures forall d :: d in Skipped(mounts, root, exist) ==> root <= d
    ensures forall d :: d in Recorded(HandledAll(mounts, root)) ==> root <= d
  {
    hide Places, BySource, Mounted, Skipped, Recorded, HandledAll;
    MountedPlaces(mounts, root, exist);
    RecordedPlaces(mounts, root);
    PlacesUnderRoot(mounts, root);
    PlacesUnderRoot(BySource(mounts, exist, false), root);
    PlacesUnderRoot(BySource(mounts, exist, true), root);
  }

  predicate DistinctDirs(mounts: seq<Mount>) {
    forall i, j :: 0 <= i < j < |mounts| ==> mounts[i].dir != mounts[j].dir
  }

  lemma SamePlace(root: string, a: string, b: string)
    ensures root + a == root + b <==> a == b
  {
    assert (root + a)[|root|..] == a && (root + b)[|root|..] == b;
  }

  /** Mounts on different directories never have the same destination. */
  lemma {:induction false} DistinctPlaces(mounts: seq<Mount>, root: string)
    requires AllConfigured(mounts) && DistinctDirs(mounts)
    ensures forall d :: multiset(Places(mounts, root))[d] <= 1
  {
    hide ForVm;
    if mounts != [] {
      var rest, first := mounts[1..], root + mounts[0].dir.value;
      assert DistinctDirs(rest) by {
        assert forall i :: 0 <= i < |rest| ==> rest[i] == mounts[i + 1];
      }
      DistinctPlaces(rest, root);
      PlacesUnderRoot(rest, root);
      if first in Places(rest, root) {
        var i :| 0 <= i < |rest| && first == root + rest[i].dir.value;
        assert rest[i] == mounts[i + 1] && mounts[0].dir != mounts[i + 1].dir;
        SamePlace(root, mounts[0].dir.value, rest[i].dir.value);
      }
      assert first !in multiset(Places(rest, root));
    }
  }
}
