/** The end of a waiting start as one call, against its steps: reading the state file
    again, and the calls of its cleanup one after another. */
module WaitSteps {
  import opened CLib
  import opened StateFile
  import opened Lifecycle
  import opened CleanUps
  import opened KillProtocol

  /** The state file and the directory, as the steps see them. */
  predicate SameFile(w: World, h: Host, path: string) {
    && (w.recorded.Some? <==> path + "/state.json" in h.files)
    && (StateAt(h, path, true).Some? ==> w.recorded == Some(StateAt(h, path, true).value.status))
    && (w.dir <==> path in h.dirs)
  }

  /** `mounts` calls, of which the first `n` succeed. */
  function UnmountCalls(mounts: nat, n: nat): (r: seq<Event>)
    ensures |r| == mounts
  {
    seq(mounts, i requires 0 <= i < mounts => CleanupCall(i < n))
  }

  lemma {:induction false} ExecAppend(w: World, mounts: nat, first: seq<Event>, second: seq<Event>)
    ensures Exec(w, mounts, first + second) == Exec(Exec(w, mounts, first), mounts, second)
  {
    hide Step;
    if second == [] {
      assert first + second == first;
    } else {
      var all, front := first + second, second[..|second| - 1];
      assert all[..|all| - 1] == first + front;
      ExecAppend(w, mounts, first, front);
    }
  }

  lemma ExecOne(w: World, mounts: nat, e: Event)
    ensures Exec(w, mounts, [e]) == Step(w, mounts, e)
  {
    assert [e][..0] == [];
    assert Exec(w, mounts, [e][..0]) == w;
    hide Step;
  }

  lemma {:induction false} Unmounting(w: World, mounts: nat, n: nat, j: nat)
    requires w.waiter == Cleaning(0) && n <= mounts && j <= mounts
    ensures Exec(w, mounts, UnmountCalls(mounts, n)[..j])
         == w.(waiter := if j <= n then Cleaning(j) else Returned(false))
  {
    if j > 0 {
      Unmounting(w, mounts, n, j - 1);
      var calls := UnmountCalls(mounts, n);
      assert calls[..j][..j - 1] == calls[..j - 1] && calls[..j][j - 1] == CleanupCall(j - 1 < n);
    }
  }

  /** The three parts of a cleanup, `n` of whose unmounts succeed. */
  function CleanupCalls(mounts: nat, n: nat, unlinked: bool, removed: bool): seq<Event> {
    UnmountCalls(mounts, n) + [CleanupCall(unlinked)] + [CleanupCall(removed)]
  }

  lemma CleanupSteps(w: World, mounts: nat, n: nat, unlinked: bool, removed: bool)
    requires w.waiter == Cleaning(0) && w.recorded.Some? && n <= mounts
    ensures Exec(w, mounts, CleanupCalls(mounts, n, unlinked, removed))
         == if n < mounts || !unlinked then w.(waiter := Returned(false))
            else if !removed then w.(recorded := None, waiter := Returned(false))
            else w.(recorded := None, dir := false, waiter := Returned(true))
  {
    hide Exec;
    var calls := UnmountCalls(mounts, n);
    Unmounting(w, mounts, n, mounts);
    assert calls[..mounts] == calls;
    ExecAppend(w, mounts, calls, [CleanupCall(unlinked)]);
    ExecAppend(w, mounts, calls + [CleanupCall(unlinked)], [CleanupCall(removed)]);
    var u := Exec(w, mounts, calls);
    ExecOne(u, mounts, CleanupCall(unlinked));
    ExecOne(Step(u, mounts, CleanupCall(unlinked)), mounts, CleanupCall(removed));
  }

  /** The events of a waiter that has woken: it reads the file again, and its cleanup calls
      have the answers that the host gives. */
  function WaitEvents(again: bool, mounts: nat, n: nat, path: string, a: Answers): seq<Event> {
    [Reread(again)] + CleanupCalls(mounts, n, a.unlinked, path != "" && path[0] == '/' && a.removed)
  }

  /** For every host, and every world of the protocol that agrees with it: the woken
      waiter's steps, run without interruption, end in the host that the call leaves, and
      return what it returns, but for a connection that was never made. */
  lemma StepsAreAfterWait(w: World, h: Host, id: string, config: Config, a: Answers) returns (n: nat)
    requires w.waiter.Woken? && SameFile(w, h, config.runtimePath)
    ensures var path, mounts := config.runtimePath, |Recorded(config.mounts)|;
      var again := StateAt(h, path, a.readAgain).Some?;
      var v, (h', ret) := Exec(w, mounts, WaitEvents(again, mounts, n, path, a)), AfterWait(h, path, id, config, a);
      && SameFile(v, h', path) && v.kills == w.kills && v.alive == w.alive && v.delivered == w.delivered
      && v.waiter.Returned?
      && (ret <==> v.waiter.ret && (Step(w, mounts, Reread(again)).waiter.Cleaning? ==> a.connected))
  {
    hide Exec, Recorded, AfterWait, Cleaned, CallsSucceed, SameFile, StateAt, CleanupCalls;
    var path, mounts := config.runtimePath, |Recorded(config.mounts)|;
    var again := StateAt(h, path, a.readAgain);
    n := WaitEnds(h, id, config, a);
    var absolute := path != "" && path[0] == '/' && a.removed;
    var u := Step(w, mounts, Reread(again.Some?));
    RereadStep(w, h, path, a.readAgain, mounts);
    if !u.waiter.Cleaning? {
      n := 0;
    }
    ExecOne(w, mounts, Reread(again.Some?));
    ExecAppend(w, mounts, [Reread(again.Some?)], CleanupCalls(mounts, n, a.unlinked, absolute));
    hide Step;
    if u.waiter.Cleaning? {
      CleaningSteps(w, u, h, AfterWait(h, path, id, config, a).0, Recorded(config.mounts), path, a, n);
    } else {
      OnlyCleanupCalls(mounts, n, a.unlinked, absolute);
      OverSteps(u, mounts, CleanupCalls(mounts, n, a.unlinked, absolute));
    }
  }

  /** Reading the file again, on a host that agrees with the world. */
  lemma RereadStep(w: World, h: Host, path: string, readable: bool, mounts: nat)
    requires w.waiter.Woken? && SameFile(w, h, path)
    ensures var again := StateAt(h, path, readable); var u := Step(w, mounts, Reread(again.Some?));
      && SameFile(u, h, path) && u == w.(waiter := u.waiter)
      && (again.None? ==> u.waiter == Returned(false))
      && (again.Some? && (again.value.status.Stopped? || again.value.status.Stopping?) ==> u.waiter == Returned(true))
      && (again.Some? && !again.value.status.Stopped? && !again.value.status.Stopping? ==>
            u.waiter == Cleaning(0) && path + "/state.json" in h.files && w.recorded.Some?)
  {
    SameState(h, path, readable);
    hide StateAt;
  }

  lemma SameState(h: Host, path: string, readable: bool)
    ensures StateAt(h, path, readable) == if readable then StateAt(h, path, true) else None
    ensures StateAt(h, path, readable).Some? ==> path + "/state.json" in h.files
  {
  }

  lemma OnlyCleanupCalls(mounts: nat, n: nat, unlinked: bool, removed: bool)
    ensures var calls := CleanupCalls(mounts, n, unlinked, removed);
      forall i :: 0 <= i < |calls| ==> calls[i].CleanupCall?
  {
  }

  lemma CleaningSteps(
    w: World, u: World, h: Host, h': Host, dests: seq<string>, path: string, a: Answers, n: nat)
    requires u == w.(waiter := Cleaning(0)) && w.recorded.Some? && SameFile(w, h, path)
    requires Cleaned(h, h', dests, path, a, n) && path + "/state.json" in h.files
    ensures var v := Exec(u, |dests|,
        CleanupCalls(|dests|, n, a.unlinked, path != "" && path[0] == '/' && a.removed));
      && SameFile(v, h', path) && v.kills == w.kills && v.alive == w.alive && v.delivered == w.delivered
      && v.waiter == Returned(CallsSucceed(h, dests, path, a))
  {
    hide Exec, Cleaned, CallsSucceed, CleanupCalls, StateAt;
    CleanedCalls(h, h', dests, path, a, n);
    CleanupSteps(u, |dests|, n, a.unlinked, path != "" && path[0] == '/' && a.removed);
    SameStateAt(h, h', path);
  }

  lemma SameStateAt(h: Host, h': Host, path: string)
    ensures var file := path + "/state.json";
      && (h'.files == h.files ==> StateAt(h', path, true) == StateAt(h, path, true))
      && (file !in h'.files ==> StateAt(h', path, true).None?)
  {
  }

  lemma {:induction false} OverSteps(w: World, mounts: nat, calls: seq<Event>)
    requires w.waiter.Returned? && forall i :: 0 <= i < |calls| ==> calls[i].CleanupCall?
    ensures Exec(w, mounts, calls) == w
  {
    if calls != [] {
      OverSteps(w, mounts, calls[..|calls| - 1]);
    }
  }

  /** What a cleanup has left, in terms of the calls that succeeded. */
  lemma CleanedCalls(h: Host, h': Host, dests: seq<string>, path: string, a: Answers, n: nat)
    requires Cleaned(h, h', dests, path, a, n) && path + "/state.json" in h.files
    ensures var file := path + "/state.json"; var absolute := path != "" && path[0] == '/' && a.removed;
      && n <= |dests|
      && (CallsSucceed(h, dests, path, a) <==> n == |dests| && a.unlinked && absolute)
      && (n < |dests| || !a.unlinked ==> h'.files == h.files && h'.dirs == h.dirs)
      && (n == |dests| && a.unlinked && !absolute ==> h'.files == h.files - {file} && h'.dirs == h.dirs)
      && (n == |dests| && a.unlinked && absolute ==> file !in h'.files && path !in h'.dirs)
  {
    StopsAtTheEnd(h.table, dests, a.system.busy, n);
    StopsWithin(h.table, dests, a.system.busy, n);
    hide Unmountable, StopsAfter;
    assert path + "/" <= path + "/state.json";
  }
}
