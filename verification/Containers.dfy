/** Containers over whole runs: every state file is that of the last creation, and a stop
    takes back the mounts that the creation made. */
module Containers {
  import opened CLib
  import opened StateFile
  import opened StateRoundTrip
  import opened MountTable
  import opened Destinations
  import opened Lifecycle
  import opened LifecycleRuns
  import opened LifecycleHistory
  import opened FileText
  import opened Outcomes

  // ----- create -----

  function MadeBy(c: Call): Made
    requires c.command.DoCreate? && c.answers.launched.Some? && c.answers.timestamp.Some?
  {
    Made(c.command.input, c.answers.launched.value, c.answers.timestamp.value)
  }

  lemma MadeSane(c: Call)
    requires ValidCall(c) && c.command.DoCreate? && c.answers.launched.Some? && c.answers.timestamp.Some?
    ensures Sane(MadeBy(c)) && ValidId(c.id) && AllConfigured(c.command.input.mounts)
  {
  }

  /** The loop over the mounts stops at the `n`th. */
  predicate MountsStopAt(input: Input, system: System, n: nat)
    requires AllConfigured(input.mounts)
  {
    && n <= |input.mounts| && (forall i :: 0 <= i < n ==> Goes(input.mounts[i], i, system, input.dryRun))
    && (n < |input.mounts| ==> !Goes(input.mounts[n], n, system, input.dryRun))
  }

  lemma WritesCreated(root: string, h: Host, c: Call, ok: bool)
    requires ValidCall(c) && c.command.DoCreate? && c.answers.launched.Some? && c.answers.timestamp.Some?
    requires Below(root, c.id) in h.dirs
    ensures Sane(MadeBy(c))
    ensures var m := MadeBy(c);
      WriteState(h, CreatedConfig(c.id, Below(root, c.id), m.input, m.pid), Some(m.created), ok)
      == if !ok then (h, false) else
           (h.(files := h.files[PathOf(root, c.id) + "/state.json" := TextOf(root, c.id, m, Created, true)]), true)
  {
    hide FileOf, PathOf, Below, HandledUpTo, LaunchedConsole, AllConfigured, DistinctAnnotations, Doc, ValidId,
      StatePath, NeedsSocket;
    var m, path := MadeBy(c), PathOf(root, c.id);
    MadeSane(c);
    PathIs(root, c.id);
    PathTexts(path);
    CreatedText(c.id, path, m.input, m.pid, m.created, Created, true);
  }

  /** A creation, on any host: what it returns, and everything that it leaves. */
  lemma CreateDoes(root: string, h: Host, c: Call) returns (n: nat)
    requires ValidCall(c) && c.command.DoCreate?
    ensures var input, a, path := c.command.input, c.answers, PathOf(root, c.id);
      var (h', ret) := Run(root, h, c);
      && MountsStopAt(input, a.system, n)
      && (!a.parsed || !a.checked || !a.mkdir || path in h.dirs ==> h' == h && !ret)
      && (a.parsed && a.checked && a.mkdir && path !in h.dirs ==>
            && h'.dirs == h.dirs + {path}
            && h'.table == (if input.dryRun then h.table else
                 h.table + multiset(Places(BySource(input.mounts[..n], a.system.exist, false), input.root)))
            && (ret <==> n == |input.mounts| && a.workload
                         && (input.dryRun || (a.timestamp.Some? && a.launched.Some? && a.written)))
            && (!ret || input.dryRun ==> h'.files == h.files)
            && (ret && !input.dryRun ==>
                  Sane(MadeBy(c))
                  && h'.files == h.files[path + "/state.json" := TextOf(root, c.id, MadeBy(c), Created, true)]))
  {
    hide TableAfter, WriteState, FirstFailure, Places, BySource, Goes, Below, PathOf, TextOf, Sane, CreatedConfig,
      ValidId, AllConfigured, DistinctAnnotations;
    var input, a := c.command.input, c.answers;
    InputConfigured(c);
    n := FirstFailure(input.mounts, 0, a.system, input.dryRun);
    StopsAt(input.mounts, 0, a.system, input.dryRun);
    TablePlaces(h.table, input.mounts, n, input.root, a.system, input.dryRun);
    PathIs(root, c.id);
    if a.launched.Some? && a.timestamp.Some? {
      var made := h.(dirs := h.dirs + {Below(root, c.id)});
      var mounted := made.(table := TableAfter(h.table, input.mounts, n, input.root, a.system, input.dryRun));
      WritesCreated(root, mounted, c, a.written);
    }
  }

  lemma InputConfigured(c: Call)
    requires ValidCall(c) && c.command.DoCreate?
    ensures AllConfigured(c.command.input.mounts) && ValidId(c.id)
  {
  }

  predicate Creates(root: string, h: Host, c: Call)
    requires ValidCall(c)
  {
    c.command.DoCreate? && !c.command.input.dryRun && Run(root, h, c).1
  }

  /** The container that a true creation leaves, and the mounts that it made. */
  lemma CreatesContainer(root: string, h: Host, c: Call)
    requires ValidCall(c) && Creates(root, h, c)
    ensures c.answers.launched.Some? && c.answers.timestamp.Some? && Sane(MadeBy(c))
    ensures var h' := Run(root, h, c).0; var m := MadeBy(c);
      && Container(root, h', c.id, m, Created, true)
      && h'.table == h.table + multiset(Places(BySource(m.input.mounts, c.answers.system.exist, false), m.input.root))
  {
    hide Run, Places, BySource, Goes, PathOf, TextOf, Sane, ValidId, AllConfigured;
    var n := CreateDoes(root, h, c);
    assert n == |c.command.input.mounts| ==> c.command.input.mounts[..n] == c.command.input.mounts;
  }

  // ----- every state file comes from a creation -----

  /** The `k`th command is the last one that creates this id. */
  predicate LastCreation(root: string, h: Host, calls: seq<Call>, id: string, k: nat)
    requires AllValid(calls) && k < |calls|
  {
    && calls[k].id == id && Creates(root, Exec(root, h, calls[..k]), calls[k])
    && forall j :: k < j < |calls| && calls[j].id == id ==> !Creates(root, Exec(root, h, calls[..j]), calls[j])
  }

  function NoContainers(table: multiset<string>): Host { Host({}, map[], table) }

  lemma Prefixes(calls: seq<Call>, j: nat)
    requires calls != [] && j < |calls|
    ensures calls[..|calls| - 1][..j] == calls[..j]
    ensures j < |calls| - 1 ==> calls[..|calls| - 1][j] == calls[j]
  {
  }

  lemma {:induction false} OriginFrom(root: string, table: multiset<string>, calls: seq<Call>, id: string)
    returns (k: nat)
    requires AllValid(calls) && id in History(root, table, calls).origins
    ensures k < |calls| && LastCreation(root, NoContainers(table), calls, id, k)
    ensures calls[k].command.DoCreate? && calls[k].answers.launched.Some? && calls[k].answers.timestamp.Some?
    ensures Sane(MadeBy(calls[k]))
    ensures var o, m := History(root, table, calls).origins[id], MadeBy(calls[k]);
      o.config == CreatedConfig(id, Below(root, id), m.input, m.pid) && o.created == m.created
  {
    hide Run, Sane, ValidCall, CreatedConfig, Below, Exec, Creates;
    assert calls != [];
    var n := |calls| - 1;
    var front, c := calls[..n], calls[n];
    var w := History(root, table, front);
    HistoryIsExec(root, table, front);
    CreatesIs(root, w.host, c);
    if Creates(root, w.host, c) && c.id == id {
      k := n;
      CreatesContainer(root, w.host, c);
      NextOrigin(root, w, c, id);
    } else {
      if Creates(root, w.host, c) {
        CreatesContainer(root, w.host, c);
      }
      NextOrigin(root, w, c, id);
      k := OriginFrom(root, table, front, id);
      LastStays(root, NoContainers(table), calls, id, k);
    }
  }

  lemma CreatesIs(root: string, h: Host, c: Call)
    requires ValidCall(c)
    ensures Creates(root, h, c) <==> c.command.DoCreate? && !c.command.input.dryRun && Run(root, h, c).1
  {
  }

  lemma NextOrigin(root: string, w: World, c: Call, id: string)
    requires ValidCall(c)
    requires Creates(root, w.host, c) ==>
      c.answers.launched.Some? && c.answers.timestamp.Some? && Sane(MadeBy(c))
    ensures var w' := Next(root, w, c);
      if Creates(root, w.host, c) && c.id == id then
        var m := MadeBy(c);
        id in w'.origins && w'.origins[id] == Origin(CreatedConfig(id, Below(root, id), m.input, m.pid), m.created, 0)
      else
        && (id in w'.origins <==> id in w.origins)
        && (id in w.origins ==>
              && w'.origins[id].config == w.origins[id].config && w'.origins[id].created == w.origins[id].created
              && w'.origins[id].starts == w.origins[id].starts
                   + if c.id == id && c.command.DoStart? && Run(root, w.host, c).1 then 1 else 0)
  {
    hide Run, CreatedConfig, Below, ValidCall;
  }

  lemma LastStays(root: string, h: Host, calls: seq<Call>, id: string, k: nat)
    requires AllValid(calls) && calls != [] && k < |calls| - 1
    requires LastCreation(root, h, calls[..|calls| - 1], id, k)
    requires var c := calls[|calls| - 1];
      c.id == id ==> !Creates(root, Exec(root, h, calls[..|calls| - 1]), c)
    ensures LastCreation(root, h, calls, id, k)
  {
    hide Creates, Exec, ValidCall;
    Prefixes(calls, k);
    forall j | k < j < |calls| && calls[j].id == id ensures !Creates(root, Exec(root, h, calls[..j]), calls[j]) {
      Prefixes(calls, j);
    }
  }

  /** After any commands on any ids, with any calls failing: a state file is, text for text,
      that of the last creation of its id that returned true, with some status, and with
      its annotations or without. */
  lemma EveryFile(root: string, table: multiset<string>, calls: seq<Call>, id: string)
    returns (k: nat, s: Status, annotated: bool)
    requires AllValid(calls) && ValidId(id)
    requires PathOf(root, id) + "/state.json" in Exec(root, NoContainers(table), calls).files
    ensures k < |calls| && LastCreation(root, NoContainers(table), calls, id, k)
    ensures calls[k].command.DoCreate? && calls[k].answers.launched.Some? && calls[k].answers.timestamp.Some?
    ensures Sane(MadeBy(calls[k]))
    ensures Container(root, Exec(root, NoContainers(table), calls), id, MadeBy(calls[k]), s, annotated)
  {
    hide Exec, History, LastCreation, TextOf, Sane, ValidCall, Below, StatePath, Shown, Sound;
    HistoryIsExec(root, table, calls);
    PathIs(root, id);
    PathTexts(PathOf(root, id));
    FieldsStayAsCreated(root, table, calls, id);
    var w := History(root, table, calls);
    k := OriginFrom(root, table, calls, id);
    var status: Status, notes: bool :| Shows(root, w.host, id, w.origins[id], status, notes);
    s, annotated := status, notes;
    SameShown(root, id, w.origins[id], MadeBy(calls[k]), s, annotated);
  }

  lemma SameShown(root: string, id: string, o: Origin, m: Made, s: Status, annotated: bool)
    requires ValidId(id) && Sane(m) && !s.Invalid?
    requires o.config == CreatedConfig(id, Below(root, id), m.input, m.pid) && o.created == m.created
    ensures Shown(o, s, annotated) == Some(TextOf(root, id, m, s, annotated))
  {
    hide CreatedConfig, Doc, TextOf, Sane, ValidId;
    OriginShown(root, id, m, s, annotated);
    assert Base(o, s, annotated) == Base(OriginOf(root, id, m), s, annotated);
  }

  // ----- two starts need two creations -----

  lemma {:induction false} StartsCounted(root: string, table: multiset<string>, calls: seq<Call>, id: string, j: nat)
    requires AllValid(calls) && ValidId(id) && j < |calls|
    requires calls[j].id == id && calls[j].command.DoStart?
    requires Run(root, Exec(root, NoContainers(table), calls[..j]), calls[j]).1
    requires forall k :: j < k < |calls| && calls[k].id == id ==>
      !Creates(root, Exec(root, NoContainers(table), calls[..k]), calls[k])
    ensures id in History(root, table, calls).origins && History(root, table, calls).origins[id].starts >= 1
  {
    hide Run, Sane, ValidCall, CreatedConfig, Below, Exec, Creates, ValidId, Next;
    var n := |calls| - 1;
    var front, c := calls[..n], calls[n];
    var w := History(root, table, front);
    HistoryIsExec(root, table, front);
    if Creates(root, w.host, c) {
      CreatesContainer(root, w.host, c);
    }
    NextOrigin(root, w, c, id);
    CreatesIs(root, w.host, c);
    if j == n {
      StartNeedsOrigin(root, table, front, c);
    } else {
      Prefixes(calls, j);
      forall k | j < k < |front| && front[k].id == id
        ensures !Creates(root, Exec(root, NoContainers(table), front[..k]), front[k])
      {
        Prefixes(calls, k);
      }
      StartsCounted(root, table, front, id, j);
    }
  }

  lemma StartNeedsOrigin(root: string, table: multiset<string>, calls: seq<Call>, c: Call)
    requires AllValid(calls) && ValidCall(c) && c.command.DoStart? && Run(root, History(root, table, calls).host, c).1
    ensures c.id in History(root, table, calls).origins
  {
    hide Run, History, Sound, ShowsSome;
    var w := History(root, table, calls);
    IdOfCall(c);
    HistoryKept(root, table, calls, c.id);
    if File(root, w.host, c.id).None? {
      NoFileNoEffect(root, w.host, c);
    }
  }

  /** Between two starts of an id that return true, a creation of it has returned true. */
  lemma CreatedBetweenStarts(root: string, table: multiset<string>, calls: seq<Call>, id: string, i: nat, j: nat)
    returns (k: nat)
    requires AllValid(calls) && ValidId(id) && i < j < |calls|
    requires calls[i].id == id && calls[i].command.DoStart? && calls[j].id == id && calls[j].command.DoStart?
    requires Run(root, Exec(root, NoContainers(table), calls[..i]), calls[i]).1
    requires Run(root, Exec(root, NoContainers(table), calls[..j]), calls[j]).1
    ensures i < k < j && calls[k].id == id && Creates(root, Exec(root, NoContainers(table), calls[..k]), calls[k])
  {
    hide Run, Sane, ValidCall, CreatedConfig, Below, Exec, Creates, ValidId, Next, History;
    k := i + 1;
    while k < j && !(calls[k].id == id && Creates(root, Exec(root, NoContainers(table), calls[..k]), calls[k]))
      invariant i < k <= j
      invariant forall l :: i < l < k && calls[l].id == id ==>
        !Creates(root, Exec(root, NoContainers(table), calls[..l]), calls[l])
    {
      k := k + 1;
    }
    if k == j {
      NoSecondStart(root, table, calls, id, i, j);
    }
  }

  lemma NoSecondStart(root: string, table: multiset<string>, calls: seq<Call>, id: string, i: nat, j: nat)
    requires AllValid(calls) && ValidId(id) && i < j < |calls|
    requires calls[i].id == id && calls[i].command.DoStart? && calls[j].id == id && calls[j].command.DoStart?
    requires Run(root, Exec(root, NoContainers(table), calls[..i]), calls[i]).1
    requires forall k :: i < k < j && calls[k].id == id ==>
      !Creates(root, Exec(root, NoContainers(table), calls[..k]), calls[k])
    ensures !Run(root, Exec(root, NoContainers(table), calls[..j]), calls[j]).1
  {
    hide Run, Sane, ValidCall, CreatedConfig, Below, Exec, Creates, ValidId, Next, History;
    var front, all := calls[..j], calls[..j + 1];
    assert front[..i] == calls[..i];
    forall k | i < k < |front| && front[k].id == id
      ensures !Creates(root, Exec(root, NoContainers(table), front[..k]), front[k])
    {
      assert front[..k] == calls[..k];
    }
    StartsCounted(root, table, front, id, i);
    HistoryIsExec(root, table, front);
    assert all[..j] == front && all[j] == calls[j];
    HistoryStep(root, table, all);
    var w := History(root, table, front);
    CreatesIs(root, w.host, calls[j]);
    NextOrigin(root, w, calls[j], id);
    StartedAtMostOnce(root, table, all, id);
  }

  lemma HistoryStep(root: string, table: multiset<string>, calls: seq<Call>)
    requires AllValid(calls) && calls != []
    ensures History(root, table, calls)
         == Next(root, History(root, table, calls[..|calls| - 1]), calls[|calls| - 1])
  {
    hide Next;
  }
}
