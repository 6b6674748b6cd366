/** A creation, any commands that neither create nor clean up, and a stop: what the stop
    gives back of the mount table. */
module CreateStop {
  import opened OciConfig
  import opened StateFile
  import opened Rewrite
  import opened MountTable
  import opened Destinations
  import opened Lifecycle
  import opened LifecycleRuns
  import opened CleanUps
  import opened Outcomes
  import opened Containers

  /** A command that mounts and unmounts nothing: no creation, no stop, and no start that
      could wait. */
  predicate Quiet(c: Call) {
    match c.command
    case DoCreate(_) => false
    case DoStart(detached) => detached || !c.answers.tty
    case DoToggle(_) => true
    case DoKill => true
    case DoStop => false
  }

  lemma QuietTable(root: string, h: Host, c: Call)
    requires ValidCall(c) && Quiet(c)
    ensures Run(root, h, c).0.table == h.table
  {
    hide Loaded, ConfigUpdate, Doc, StatePath, Below, ValidCall, AfterWait;
  }

  /** It leaves every container in place, with some status. */
  lemma QuietContainer(root: string, h: Host, c: Call, id: string, m: Made, s: Status, annotated: bool)
    returns (s': Status, annotated': bool)
    requires ValidCall(c) && Quiet(c) && ValidId(id) && Sane(m) && Container(root, h, id, m, s, annotated)
    ensures Container(root, Run(root, h, c).0, id, m, s', annotated')
  {
    hide PathOf, TextOf, Sane, ValidId, Start, Toggle, Kill;
    s', annotated' := s, annotated;
    if c.id != id {
      OthersUntouched(root, h, c);
      hide Run;
      OtherContainer(root, h, Run(root, h, c).0, c.id, id, m, s, annotated);
    } else {
      PathIs(root, id);
      hide WithStatus, Container, ValidCall;
      ContainerStatus(root, h, id, m, s, annotated);
      ContainerHasDir(root, h, id, m, s, annotated);
      WithStatusContainer(root, h, id, m, Running);
      WithStatusContainer(root, h, id, m, Paused);
      WithStatusContainer(root, h, id, m, Stopping);
      WithStatusContainer(root, h, id, m, Stopped);
      WithStatusContainer(root, h, id, m, s);
      match c.command
      case DoStart(detached) =>
        StartDoes(root, h, id, detached, c.answers, m, s, annotated);
        s', annotated' := if Resumes(s, m.input, detached, c.answers) then Running else s,
          annotated && !Resumes(s, m.input, detached, c.answers);
      case DoToggle(pause) =>
        ToggleDoes(root, h, id, pause, c.answers, m, s, annotated);
        var writes := c.answers.readable && !(if pause then s.Paused? else s.Running?)
          && c.answers.qmp && c.answers.written;
        s', annotated' := if !writes then s else if pause then Paused else Running, annotated && !writes;
      case DoKill =>
        var a := c.answers;
        KillDoes(root, h, id, a, m, s, annotated);
        s', annotated' := if !a.readable || !a.written then s else if !a.rewritten then Stopping
          else if !a.signalled then s else Stopped, annotated && !(a.readable && a.written);
    }
  }

  lemma OtherContainer(
    root: string, h: Host, h': Host, other: string, id: string, m: Made, s: Status, annotated: bool)
    requires ValidId(id) && id != other && Sane(m) && Container(root, h, id, m, s, annotated)
    requires OnlyChanges(root, h, h', other)
    ensures Container(root, h', id, m, s, annotated)
  {
    hide TextOf, Sane, PathOf, ValidId;
    PathIs(root, id);
    FileText.PathTexts(PathOf(root, id));
    assert File(root, h', id) == File(root, h, id) && (HasDir(root, h', id) <==> HasDir(root, h, id));
  }

  predicate AllQuiet(calls: seq<Call>) { forall i :: 0 <= i < |calls| ==> Quiet(calls[i]) }

  lemma {:induction false} QuietRun(
    root: string, h: Host, calls: seq<Call>, id: string, m: Made, s: Status, annotated: bool)
    returns (s': Status, annotated': bool)
    requires AllValid(calls) && AllQuiet(calls) && ValidId(id) && Sane(m) && Container(root, h, id, m, s, annotated)
    ensures Container(root, Exec(root, h, calls), id, m, s', annotated')
    ensures Exec(root, h, calls).table == h.table
  {
    hide Container, Run, Sane, ValidId, ValidCall, Quiet;
    if calls == [] {
      s', annotated' := s, annotated;
    } else {
      var front, c := calls[..|calls| - 1], calls[|calls| - 1];
      s', annotated' := QuietRun(root, h, front, id, m, s, annotated);
      QuietTable(root, Exec(root, h, front), c);
      s', annotated' := QuietContainer(root, Exec(root, h, front), c, id, m, s', annotated');
    }
  }

  // ----- the mounts of a creation, and those that a stop unmounts -----

  predicate NothingPassedOver(mounts: seq<Mount>, exist: set<string>)
    requires AllConfigured(mounts)
  {
    forall i :: 0 <= i < |mounts| ==> ForVm(mounts[i].dir.value) || !Absent(mounts[i].fsname.value, exist)
  }

  lemma {:induction false} PassedOverNothing(mounts: seq<Mount>, root: string, exist: set<string>)
    requires AllConfigured(mounts)
    ensures Places(BySource(mounts, exist, true), root) == [] <==> NothingPassedOver(mounts, exist)
  {
    hide ForVm, Absent;
    if mounts != [] {
      PassedOverNothing(mounts[1..], root, exist);
      assert NothingPassedOver(mounts, exist) <==>
        (ForVm(mounts[0].dir.value) || !Absent(mounts[0].fsname.value, exist))
        && NothingPassedOver(mounts[1..], exist) by {
        assert forall i :: 1 <= i < |mounts| ==> mounts[i] == mounts[1..][i - 1];
      }
    }
  }

  lemma AllPlaces(mounts: seq<Mount>, root: string, exist: set<string>)
    requires AllConfigured(mounts)
    ensures multiset(Places(mounts, root))
         == multiset(Places(BySource(mounts, exist, false), root))
            + multiset(Places(BySource(mounts, exist, true), root))
  {
    hide Places, BySource, Mounted, Skipped, Recorded, HandledAll;
    RecordedIsBoth(mounts, root, exist);
    RecordedPlaces(mounts, root);
    MountedPlaces(mounts, root, exist);
  }

  lemma NothingLess(table: multiset<string>, some: multiset<string>)
    requires some <= table
    ensures table - some == table <==> some == multiset{}
  {
    if x :| x in some {
      assert (table - some)[x] < table[x];
    }
  }

  /** The answers to a stop that refuse nothing. */
  predicate NothingRefused(a: Answers, pid: int) {
    && a.readable && a.parsed && (a.running && pid != 0 ==> a.shutdown)
    && a.system.busy == {} && a.unlinked && a.removed
  }

  /** On any host: a container is created, commands follow that mount and unmount nothing,
      and a stop is refused nothing. It returns true exactly if the table from before the
      creation held the destinations that the creation passed over, and takes exactly those
      from it; so it gives that table back if and only if nothing was passed over. */
  lemma CreateThenStop(root: string, h: Host, c: Call, calls: seq<Call>, stop: Call)
    requires ValidCall(c) && Creates(root, h, c) && AllValid(calls) && AllQuiet(calls)
    requires ValidCall(stop) && stop.command.DoStop? && stop.id == c.id
    requires c.answers.launched.Some? && NothingRefused(stop.answers, c.answers.launched.value)
    requires PathOf(root, c.id)[0] == '/'
    ensures AllConfigured(c.command.input.mounts)
    ensures var input, exist := c.command.input, c.answers.system.exist;
      var (h', ret) := Run(root, Exec(root, Run(root, h, c).0, calls), stop);
      var passedOver := multiset(Places(BySource(input.mounts, exist, true), input.root));
      && (ret <==> passedOver <= h.table)
      && (ret ==> h'.table == h.table - passedOver && PathOf(root, c.id) !in h'.dirs
                  && PathOf(root, c.id) + "/state.json" !in h'.files)
      && (ret && h'.table == h.table <==> NothingPassedOver(input.mounts, exist))
  {
    hide Run, Places, BySource, Container, Sane, ValidCall, Creates, Cleaned, CallsSucceed, NothingPassedOver, PathOf;
    CreatesIs(root, h, c);
    CreatesContainer(root, h, c);
    MadeSane(c);
    var m, h1 := MadeBy(c), Run(root, h, c).0;
    var s, annotated := QuietRun(root, h1, calls, c.id, m, Created, true);
    var h2 := Exec(root, h1, calls);
    var n := StopsContainer(root, h2, c.id, stop.answers, m, s, annotated);
    StopRun(root, h2, stop);
    var mounts, exist, place := m.input.mounts, c.answers.system.exist, m.input.root;
    AllPlaces(mounts, place, exist);
    var made, passedOver := multiset(Places(BySource(mounts, exist, false), place)),
      multiset(Places(BySource(mounts, exist, true), place));
    SumBelow(h.table, made, passedOver);
    PassedOverNothing(mounts, place, exist);
    NoneIsEmpty(Places(BySource(mounts, exist, true), place));
    if passedOver <= h.table {
      NothingLess(h.table, passedOver);
    }
    AllRemoved(root, h2, Run(root, h2, stop).0, Places(mounts, place), stop, m, s, annotated, n);
  }

  lemma NoneIsEmpty(dests: seq<string>)
    ensures multiset(dests) == multiset{} <==> dests == []
  {
    if dests != [] {
      assert dests[0] in multiset(dests);
    }
  }

  lemma StopRun(root: string, h: Host, stop: Call)
    requires ValidCall(stop) && stop.command.DoStop?
    ensures Run(root, h, stop) == Stop(h, PathOf(root, stop.id), stop.id, stop.answers)
  {
    hide Stop;
    PathIs(root, stop.id);
  }

  lemma AllRemoved(
    root: string, h: Host, h': Host, dests: seq<string>, stop: Call, m: Made, s: Status, annotated: bool, n: nat)
    requires Sane(m) && Container(root, h, stop.id, m, s, annotated) && PathOf(root, stop.id)[0] == '/'
    requires NothingRefused(stop.answers, m.pid)
    requires Cleaned(h, h', dests, PathOf(root, stop.id), stop.answers, n)
    ensures var path := PathOf(root, stop.id);
      && (CallsSucceed(h, dests, path, stop.answers) <==> multiset(dests) <= h.table)
      && (multiset(dests) <= h.table ==>
            h'.table == h.table - multiset(dests) && path !in h'.dirs && path + "/state.json" !in h'.files)
  {
    hide TextOf, StopsAfter;
    var path := PathOf(root, stop.id);
    assert path + "/" <= path + "/state.json";
  }
}
