/** Mounting what a container needs, recording it, and unmounting what was recorded,
    against a table of the mounted destinations. */
module MountTable {
  import opened CLib
  import opened OciConfig
  import opened StateFile
  import opened StateRoundTrip
  import opened Rewrite

  const IGNORED_DIRS := ["/proc", "/dev", "/dev/pts", "/dev/shm", "/dev/mqueue", "/sys", "/sys/fs/cgroup"]

  /** What the system answers: which sources exist, whether directories can be made
      and mounts performed (by place in the list), and which destinations are busy. */
  datatype System = System(exist: set<string>, made: set<nat>, mountable: set<nat>, busy: set<string>)

  // ----- one mount -----

  /** A mount from a configuration, as the section handler leaves it. */
  predicate Configured(m: Mount) { m.dir.Some? && m.fsname.Some? && !m.ignoreMount }

  predicate AllConfigured(mounts: seq<Mount>) {
    forall i :: 0 <= i < |mounts| ==> Configured(mounts[i])
  }

  predicate Ignored(m: Mount) { m.dir.Some? && m.dir.value in IGNORED_DIRS }

  /** An absolute source that does not exist. */
  predicate Missing(source: string, exist: set<string>) {
    source != "" && source[0] == '/' && source !in exist
  }

  function Destination(m: Mount, root: string): string
    requires m.dir.Some?
  {
    root + m.dir.value
  }

  function Handled(m: Mount, root: string): Mount
    requires Configured(m)
  {
    if Ignored(m) then m.(ignoreMount := true) else m.(dest := Destination(m, root))
  }

  predicate Passed(m: Mount, exist: set<string>)
    requires Configured(m)
  {
    Ignored(m) || Missing(m.fsname.value, exist)
  }

  /** Whether the mount at place `i` stops the loop. */
  predicate Fails(m: Mount, i: nat, system: System, dryRun: bool)
    requires Configured(m)
  {
    !Passed(m, system.exist) && !(i in system.made && (dryRun || i in system.mountable))
  }

  /** The first place, from `i` on, at which the loop stops. */
  function FirstFailure(mounts: seq<Mount>, i: nat, system: System, dryRun: bool): (n: nat)
    requires AllConfigured(mounts) && i <= |mounts|
    ensures i <= n <= |mounts|
    decreases |mounts| - i
  {
    if i == |mounts| || Fails(mounts[i], i, system, dryRun) then i
    else FirstFailure(mounts, i + 1, system, dryRun)
  }

  // ----- the lists that matter -----

  /** The destinations a run over these mounts mounts, in order. */
  function Mounted(mounts: seq<Mount>, root: string, exist: set<string>): seq<string>
    requires AllConfigured(mounts)
  {
    if mounts == [] then []
    else
      var front, last := mounts[..|mounts| - 1], mounts[|mounts| - 1];
      Mounted(front, root, exist)
      + if Passed(last, exist) then [] else [Destination(last, root)]
  }

  /** The destinations it passes over because their source is missing. */
  function Skipped(mounts: seq<Mount>, root: string, exist: set<string>): seq<string>
    requires AllConfigured(mounts)
  {
    if mounts == [] then []
    else
      var front, last := mounts[..|mounts| - 1], mounts[|mounts| - 1];
      Skipped(front, root, exist)
      + if !Ignored(last) && Passed(last, exist) then [Destination(last, root)] else []
  }

  /** The table once the first `n` mounts are mounted. */
  function TableAfter(
    table: multiset<string>, mounts: seq<Mount>, n: nat, root: string, system: System, dryRun: bool
  ): multiset<string>
    requires AllConfigured(mounts) && n <= |mounts|
  {
    if dryRun then table else table + multiset(Mounted(mounts[..n], root, system.exist))
  }

  function AddedBy(m: Mount, root: string, system: System, dryRun: bool): multiset<string>
    requires Configured(m)
  {
    if dryRun || Passed(m, system.exist) then multiset{} else multiset{Destination(m, root)}
  }

  lemma TableNext(
    table: multiset<string>, mounts: seq<Mount>, i: nat, root: string, system: System, dryRun: bool)
    requires AllConfigured(mounts) && i < |mounts|
    ensures TableAfter(table, mounts, i + 1, root, system, dryRun)
         == TableAfter(table, mounts, i, root, system, dryRun) + AddedBy(mounts[i], root, system, dryRun)
  {
    hide Passed, Destination;
    assert mounts[..i + 1][..i] == mounts[..i];
  }

  function HandledAll(mounts: seq<Mount>, root: string): (r: seq<Mount>)
    requires AllConfigured(mounts)
    ensures |r| == |mounts|
  {
    seq(|mounts|, i requires 0 <= i < |mounts| => Handled(mounts[i], root))
  }

  /** The first `n` mounts handled, the others as they were. */
  function HandledUpTo(mounts: seq<Mount>, n: nat, root: string): (r: seq<Mount>)
    requires AllConfigured(mounts) && n <= |mounts|
    ensures |r| == |mounts|
  {
    HandledAll(mounts[..n], root) + mounts[n..]
  }

  lemma HandledNext(mounts: seq<Mount>, n: nat, root: string, system: System, dryRun: bool)
    requires AllConfigured(mounts) && n < |mounts|
    ensures Configured(mounts[n])
    ensures FirstFailure(mounts, n, system, dryRun)
         == if Fails(mounts[n], n, system, dryRun) then n else FirstFailure(mounts, n + 1, system, dryRun)
    ensures HandledUpTo(mounts, n, root)[n] == mounts[n]
    ensures HandledUpTo(mounts, n, root)[n := Handled(mounts[n], root)] == HandledUpTo(mounts, n + 1, root)
  {
    hide Handled, Fails;
  }

  lemma HandledDests(mounts: seq<Mount>, n: nat, root: string)
    requires AllConfigured(mounts) && n <= |mounts|
    ensures var after := HandledUpTo(mounts, n, root);
      forall i :: 0 <= i < n ==>
        mounts[i].dir.Some? && (after[i].ignoreMount || after[i].dest == root + mounts[i].dir.value)
  {
    hide Ignored;
  }

  lemma StartOfRun(table: multiset<string>, mounts: seq<Mount>, root: string, system: System, dryRun: bool)
    requires AllConfigured(mounts)
    ensures TableAfter(table, mounts, 0, root, system, dryRun) == table
    ensures HandledUpTo(mounts, 0, root) == mounts
  {
  }

  lemma EndOfRun(mounts: seq<Mount>, system: System, dryRun: bool)
    requires AllConfigured(mounts)
    ensures FirstFailure(mounts, |mounts|, system, dryRun) == |mounts|
  {
  }

  // ----- the loops -----

  class MountRun {
    const root: string
    const dryRun: bool
    var mounts: seq<Mount>
    /** How many times each destination is mounted. */
    var table: multiset<string>

    constructor (root: string, dryRun: bool, mounts: seq<Mount>, table: multiset<string>)
      ensures this.root == root && this.dryRun == dryRun && this.mounts == mounts && this.table == table
    {
      this.root, this.dryRun, this.mounts, this.table := root, dryRun, mounts, table;
    }

    method MountIgnore(i: nat) returns (ignore: bool)
      requires i < |mounts|
      modifies `mounts
      ensures ignore == Ignored(old(mounts[i]))
      ensures mounts == if ignore then old(mounts)[i := old(mounts[i]).(ignoreMount := true)] else old(mounts)
    {
      var k := 0;
      while k < |IGNORED_DIRS|
        invariant 0 <= k <= |IGNORED_DIRS|
        invariant forall j :: 0 <= j < k ==> mounts[i].dir != Some(IGNORED_DIRS[j])
        invariant mounts == old(mounts)
      {
        if mounts[i].dir == Some(IGNORED_DIRS[k]) {
          mounts := mounts[i := mounts[i].(ignoreMount := true)];
          return true;
        }
        k := k + 1;
      }
      return false;
    }

    /** One turn of the loop. */
    method HandleMount(i: nat, system: System) returns (go: bool)
      requires i < |mounts| && Configured(mounts[i])
      modifies this
      ensures mounts == old(mounts)[i := Handled(old(mounts[i]), root)]
      ensures !mounts[i].ignoreMount ==> mounts[i].dest == root + old(mounts[i]).dir.value
      ensures go <==> !Fails(old(mounts[i]), i, system, dryRun)
      ensures table == old(table) + if go then AddedBy(old(mounts[i]), root, system, dryRun) else multiset{}
    {
      var ignore := MountIgnore(i);
      hide Ignored;
      if ignore {
        return true;
      }
      mounts := mounts[i := mounts[i].(dest := root + mounts[i].dir.value)];
      if mounts[i].fsname.value != "" && mounts[i].fsname.value[0] == '/' {
        if mounts[i].fsname.value !in system.exist {
          return true;
        }
      }
      if i !in system.made {
        return false;
      }
      if !dryRun {
        if i !in system.mountable {
          return false;
        }
        table := table + multiset{mounts[i].dest};
      }
      return true;
    }

    /** The loop stops at the first mount that fails; the ones before it are mounted. */
    method HandleMounts(system: System) returns (ret: bool, done: nat)
      requires AllConfigured(mounts)
      modifies this
      ensures done == FirstFailure(old(mounts), 0, system, dryRun)
      ensures ret <==> done == |old(mounts)|
      ensures mounts == HandledUpTo(old(mounts), if ret then done else done + 1, root)
      ensures |mounts| == |old(mounts)| && forall i :: 0 <= i < |mounts| && (ret || i <= done) ==>
        mounts[i].ignoreMount || mounts[i].dest == root + old(mounts[i]).dir.value
      ensures table == TableAfter(old(table), old(mounts), done, root, system, dryRun)
    {
      hide *;
      ghost var before := mounts;
      done := 0;
      StartOfRun(table, before, root, system, dryRun);
      while done < |mounts|
        invariant 0 <= done <= |mounts| == |before|
        invariant mounts == HandledUpTo(before, done, root)
        invariant FirstFailure(before, done, system, dryRun) == FirstFailure(before, 0, system, dryRun)
        invariant table == TableAfter(old(table), before, done, root, system, dryRun)
      {
        TableNext(old(table), before, done, root, system, dryRun);
        HandledNext(before, done, root, system, dryRun);
        var go := HandleMount(done, system);
        if !go {
          HandledDests(before, done + 1, root);
          return false, done;
        }
        done := done + 1;
      }
      EndOfRun(before, system, dryRun);
      HandledDests(before, done, root);
      ret := true;
    }

    /** Unmounting stops at the first destination that is not mounted or is busy. */
    method HandleUnmounts(busy: set<string>) returns (ret: bool)
      modifies `table
      ensures (table, ret) == UnmountAll(old(table), Recorded(mounts), busy)
    {
      assert mounts[..0] == [];
      var i := 0;
      while i < |mounts|
        invariant 0 <= i <= |mounts|
        invariant UnmountAll(old(table), Recorded(mounts[..i]), busy) == (table, true)
      {
        assert mounts[..i + 1][..i] == mounts[..i];
        if mounts[i].ignoreMount {
          assert Recorded(mounts[..i + 1]) == Recorded(mounts[..i]);
          i := i + 1;
          continue;
        }
        var dest := mounts[i].dest;
        UnmountOneMore(old(table), Recorded(mounts[..i]), dest, busy);
        if dest !in table || dest in busy {
          assert mounts == mounts[..i + 1] + mounts[i + 1..];
          UnmountStopped(old(table), mounts, i + 1, busy);
          return false;
        }
        table := table - multiset{dest};
        i := i + 1;
      }
      assert mounts[..|mounts|] == mounts;
      ret := true;
    }

    method MountsToJson() returns (texts: seq<string>)
      ensures texts == Recorded(mounts)
    {
      texts := [];
      assert mounts[..0] == [];
      var i := 0;
      while i < |mounts|
        invariant 0 <= i <= |mounts|
        invariant texts == Recorded(mounts[..i])
      {
        assert mounts[..i + 1][..i] == mounts[..i];
        if !mounts[i].ignoreMount {
          texts := texts + [mounts[i].dest];
        }
        i := i + 1;
      }
      assert mounts[..|mounts|] == mounts;
    }
  }

  // ----- unmounting a list -----

  /** The table after unmounting, and whether every unmount succeeded. */
  function UnmountAll(table: multiset<string>, dests: seq<string>, busy: set<string>): (multiset<string>, bool) {
    if dests == [] then (table, true)
    else
      var (after, ok) := UnmountAll(table, dests[..|dests| - 1], busy);
      var dest := dests[|dests| - 1];
      if !ok || dest !in after || dest in busy then (after, false) else (after - multiset{dest}, true)
  }

  lemma UnmountOneMore(table: multiset<string>, dests: seq<string>, dest: string, busy: set<string>)
    ensures UnmountAll(table, dests + [dest], busy)
         == (var (after, ok) := UnmountAll(table, dests, busy);
             if !ok || dest !in after || dest in busy then (after, false) else (after - multiset{dest}, true))
  {
    assert (dests + [dest])[..|dests|] == dests;
  }

  lemma {:induction false} UnmountStopped(table: multiset<string>, mounts: seq<Mount>, n: nat, busy: set<string>)
    requires n <= |mounts| && !UnmountAll(table, Recorded(mounts[..n]), busy).1
    ensures UnmountAll(table, Recorded(mounts), busy) == UnmountAll(table, Recorded(mounts[..n]), busy)
  {
    if n == |mounts| {
      assert mounts[..n] == mounts;
    } else {
      var front := mounts[..|mounts| - 1];
      assert front[..n] == mounts[..n];
      UnmountStopped(table, front, n, busy);
      if !mounts[|mounts| - 1].ignoreMount {
        UnmountOneMore(table, Recorded(front), mounts[|mounts| - 1].dest, busy);
      } else {
        assert Recorded(mounts) == Recorded(front);
      }
    }
  }

  /** Nothing being busy, a list can be unmounted exactly when the table holds it,
      and it is then what leaves the table. */
  lemma {:induction false} UnmountsWhatIsThere(table: multiset<string>, dests: seq<string>)
    ensures UnmountAll(table, dests, {}).1 <==> multiset(dests) <= table
    ensures multiset(dests) <= table ==> UnmountAll(table, dests, {}).0 == table - multiset(dests)
  {
    if dests != [] {
      var front, dest := dests[..|dests| - 1], dests[|dests| - 1];
      assert dests == front + [dest];
      assert multiset(dests) == multiset(front) + multiset{dest};
      UnmountsWhatIsThere(table, front);
      if multiset(front) <= table {
        assert dest in table - multiset(front) <==> multiset(dests) <= table by {
          if multiset(dests) <= table {
            assert multiset(dests)[dest] <= table[dest];
          }
        }
      }
    }
  }

  // ----- the main results -----

  lemma RecordedNothing(mounts: seq<Mount>, root: string)
    requires mounts == []
    ensures Recorded(HandledAll(mounts, root)) == []
  {
  }

  /** What is recorded is what was mounted together with what was passed over. */
  lemma {:induction false} RecordedIsBoth(mounts: seq<Mount>, root: string, exist: set<string>)
    requires AllConfigured(mounts)
    ensures multiset(Recorded(HandledAll(mounts, root)))
         == multiset(Mounted(mounts, root, exist)) + multiset(Skipped(mounts, root, exist))
    ensures |Recorded(HandledAll(mounts, root))|
         == |Mounted(mounts, root, exist)| + |Skipped(mounts, root, exist)|
    ensures Skipped(mounts, root, exist) == [] ==>
      Recorded(HandledAll(mounts, root)) == Mounted(mounts, root, exist)
  {
    hide Missing, Ignored, Recorded, HandledAll, Handled;
    if mounts != [] {
      var front, last := mounts[..|mounts| - 1], mounts[|mounts| - 1];
      RecordedIsBoth(front, root, exist);
      RecordedNext(mounts, root);
      if !Ignored(last) && Passed(last, exist) {
        AppendBoth(Recorded(HandledAll(front, root)), Mounted(front, root, exist), Skipped(front, root, exist),
                   Destination(last, root));
      } else if !Ignored(last) {
        AppendOne(Recorded(HandledAll(front, root)), Mounted(front, root, exist), Skipped(front, root, exist),
                  Destination(last, root));
      }
    } else {
      RecordedNothing(mounts, root);
    }
  }

  lemma RecordedNext(mounts: seq<Mount>, root: string)
    requires AllConfigured(mounts) && mounts != []
    ensures var front, last := mounts[..|mounts| - 1], mounts[|mounts| - 1];
      Recorded(HandledAll(mounts, root))
      == Recorded(HandledAll(front, root)) + if Ignored(last) then [] else [Destination(last, root)]
  {
    hide Ignored;
    assert HandledAll(mounts, root)[..|mounts| - 1] == HandledAll(mounts[..|mounts| - 1], root);
  }

  lemma AppendBoth(recorded: seq<string>, mounted: seq<string>, skipped: seq<string>, dest: string)
    requires multiset(recorded) == multiset(mounted) + multiset(skipped)
    ensures multiset(recorded + [dest]) == multiset(mounted) + multiset(skipped + [dest])
  {
  }

  lemma AppendOne(recorded: seq<string>, mounted: seq<string>, skipped: seq<string>, dest: string)
    requires multiset(recorded) == multiset(mounted) + multiset(skipped)
    ensures multiset(recorded + [dest]) == multiset(mounted + [dest]) + multiset(skipped)
  {
  }

  /** The recorded destinations are those mounted, in order, if and only if no mount
      was passed over for a missing source. */
  lemma RecordedIsMounted(mounts: seq<Mount>, root: string, exist: set<string>)
    requires AllConfigured(mounts)
    ensures Recorded(HandledAll(mounts, root)) == Mounted(mounts, root, exist) <==>
      Skipped(mounts, root, exist) == []
  {
    RecordedIsBoth(mounts, root, exist);
  }

  lemma {:induction false} SkippedNothing(mounts: seq<Mount>, root: string, exist: set<string>)
    requires AllConfigured(mounts)
    ensures Skipped(mounts, root, exist) == [] <==>
      forall i :: 0 <= i < |mounts| ==> Ignored(mounts[i]) || !Missing(mounts[i].fsname.value, exist)
  {
    if mounts != [] {
      var front := mounts[..|mounts| - 1];
      SkippedNothing(front, root, exist);
      assert forall i :: 0 <= i < |front| ==> front[i] == mounts[i];
      hide Missing, Ignored;
    }
  }

  /** After a run that mounted everything, unmounting the list read back succeeds if
      and only if the earlier table held what was passed over, and leaves the earlier
      table without it: the table itself when nothing was passed over. */
  lemma MountBalance(table: multiset<string>, mounts: seq<Mount>, root: string, system: System)
    requires AllConfigured(mounts)
    ensures var skipped := Skipped(mounts, root, system.exist);
      var after := TableAfter(table, mounts, |mounts|, root, system, false);
      var recorded := Recorded(HandledUpTo(mounts, |mounts|, root));
      var r := UnmountAll(after, Recorded(MountsAt(recorded)), {});
      && (r.1 <==> multiset(skipped) <= table)
      && (r.1 ==> r.0 == table - multiset(skipped))
      && (skipped == [] ==> r == (table, true))
  {
    WholeRun(table, mounts, root, system);
    hide Mounted, Skipped, Recorded, HandledAll, HandledUpTo, TableAfter, MountsAt, UnmountAll, AllConfigured;
    var mounted, skipped := Mounted(mounts, root, system.exist), Skipped(mounts, root, system.exist);
    var recorded := Recorded(HandledAll(mounts, root));
    RecordedIsBoth(mounts, root, system.exist);
    RecordedAgain(recorded);
    UnmountsWhatIsThere(table + multiset(mounted), recorded);
    SumBelow(table, multiset(mounted), multiset(skipped));
    assert skipped == [] ==> multiset(skipped) == multiset{};
    assert table - multiset{} == table;
  }

  lemma WholeRun(table: multiset<string>, mounts: seq<Mount>, root: string, system: System)
    requires AllConfigured(mounts)
    ensures HandledUpTo(mounts, |mounts|, root) == HandledAll(mounts, root)
    ensures TableAfter(table, mounts, |mounts|, root, system, false)
         == table + multiset(Mounted(mounts, root, system.exist))
  {
    hide Handled, Mounted;
    assert mounts[..|mounts|] == mounts;
  }

  lemma SumBelow(a: multiset<string>, b: multiset<string>, c: multiset<string>)
    ensures b + c <= a + b <==> c <= a
    ensures c <= a ==> (a + b) - (b + c) == a - c
  {
    if b + c <= a + b {
      forall x ensures c[x] <= a[x] {
        assert (b + c)[x] <= (a + b)[x];
      }
    }
  }
}
