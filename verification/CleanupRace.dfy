/** Several cleanups of one container at once: each unmounts the recorded
    destinations in order, unlinks the state file and removes the runtime directory,
    and gives up at the first call that fails. Their calls interleave freely. */
module CleanupRace {
  import opened CLib
  import opened StateFile
  import opened MountTable
  import Lifecycle

  /** How many calls succeeded, and what the cleanup returned once it has. */
  datatype Cleaner = Cleaner(at: nat, outcome: Option<bool>)

  datatype World = World(table: multiset<string>, file: bool, dir: bool, cleaners: seq<Cleaner>)

  /** A call of one cleaner; `ok` is false when the system refuses a call although
      the thing is there, because it is busy, say. */
  datatype Event = Event(who: nat, ok: bool)

  const START := Cleaner(0, None)

  function Calls(dests: seq<string>): nat { |dests| + 2 }

  /** Whether the `at`th call finds what it removes; the last one, `rm -rf`, does not
      mind if there is nothing. */
  predicate Present(w: World, dests: seq<string>, at: nat) {
    if at < |dests| then dests[at] in w.table else if at == |dests| then w.file else true
  }

  function Remove(w: World, dests: seq<string>, at: nat): World {
    if at < |dests| then w.(table := w.table - multiset{dests[at]})
    else if at == |dests| then w.(file := false)
    else w.(dir := false)
  }

  function Step(w: World, dests: seq<string>, e: Event): World {
    if e.who >= |w.cleaners| || w.cleaners[e.who].outcome.Some? then w
    else
      var at := w.cleaners[e.who].at;
      if e.ok && Present(w, dests, at) then
        Remove(w, dests, at).(cleaners := w.cleaners[e.who :=
          Cleaner(at + 1, if at + 1 == Calls(dests) then Some(true) else None)])
      else w.(cleaners := w.cleaners[e.who := Cleaner(at, Some(false))])
  }

  function Exec(w: World, dests: seq<string>, events: seq<Event>): World {
    if events == [] then w
    else Step(Exec(w, dests, events[..|events| - 1]), dests, events[|events| - 1])
  }

  predicate Distinct(dests: seq<string>) { forall i, j :: 0 <= i < j < |dests| ==> dests[i] != dests[j] }

  /** Every destination is mounted once, the file and the directory exist, and no
      cleaner has begun. */
  predicate Initial(w: World, dests: seq<string>) {
    && Distinct(dests) && (forall i :: 0 <= i < |dests| ==> w.table[dests[i]] == 1)
    && w.file && w.dir && forall p :: 0 <= p < |w.cleaners| ==> w.cleaners[p] == START
  }

  // ----- what every step keeps -----

  /** Nobody has got past the `at`th call. */
  predicate NonePast(w: World, at: nat) { forall p :: 0 <= p < |w.cleaners| ==> w.cleaners[p].at <= at }

  predicate OneLeader(w: World) {
    forall p, q :: 0 <= p < |w.cleaners| && 0 <= q < |w.cleaners| && w.cleaners[p].at > 0 && w.cleaners[q].at > 0
      ==> p == q
  }

  predicate Finishes(w: World, dests: seq<string>) {
    forall p :: 0 <= p < |w.cleaners| ==>
      && w.cleaners[p].at <= Calls(dests)
      && (w.cleaners[p].outcome == Some(true) <==> w.cleaners[p].at == Calls(dests))
  }

  /** A thing is there exactly while nobody has got past its removal. */
  predicate Accounted(w: World, dests: seq<string>) {
    && (forall i :: 0 <= i < |dests| ==> w.table[dests[i]] == if NonePast(w, i) then 1 else 0)
    && w.file == NonePast(w, |dests|) && w.dir == NonePast(w, |dests| + 1)
  }

  predicate Safe(w: World, dests: seq<string>) { OneLeader(w) && Finishes(w, dests) && Accounted(w, dests) }

  lemma InitialSafe(w: World, dests: seq<string>)
    requires Initial(w, dests)
    ensures Safe(w, dests)
  {
  }

  lemma PresentWhenNonePast(w: World, dests: seq<string>, who: nat)
    requires Safe(w, dests) && who < |w.cleaners| && w.cleaners[who].at < Calls(dests)
    ensures Present(w, dests, w.cleaners[who].at) <==> NonePast(w, w.cleaners[who].at)
  {
  }

  lemma StepSafe(w: World, dests: seq<string>, e: Event)
    requires Distinct(dests) && Safe(w, dests)
    ensures Safe(Step(w, dests, e), dests)
  {
    var w' := Step(w, dests, e);
    if e.who < |w.cleaners| && w.cleaners[e.who].outcome.None? {
      var at := w.cleaners[e.who].at;
      PresentWhenNonePast(w, dests, e.who);
      if e.ok && Present(w, dests, at) {
        assert w'.cleaners[e.who].at == at + 1;
        forall j ensures NonePast(w', j) <==> NonePast(w, j) && j != at {
          PastAfter(w, w', e.who, j);
        }
        hide NonePast;
        assert OneLeader(w') by {
          LeaderMoves(w, w', e.who);
        }
      } else {
        forall j ensures NonePast(w', j) <==> NonePast(w, j) {
          SamePast(w, w', e.who, j);
        }
        hide NonePast;
      }
    }
  }

  lemma PastAfter(w: World, w': World, who: nat, j: nat)
    requires who < |w.cleaners| && NonePast(w, w.cleaners[who].at)
    requires |w'.cleaners| == |w.cleaners| && w'.cleaners[who].at == w.cleaners[who].at + 1
    requires forall p :: 0 <= p < |w.cleaners| && p != who ==> w'.cleaners[p] == w.cleaners[p]
    ensures NonePast(w', j) <==> NonePast(w, j) && j != w.cleaners[who].at
  {
  }

  lemma SamePast(w: World, w': World, who: nat, j: nat)
    requires who < |w.cleaners|
    requires |w'.cleaners| == |w.cleaners|
    requires forall p :: 0 <= p < |w.cleaners| ==> w'.cleaners[p].at == w.cleaners[p].at
    ensures NonePast(w', j) <==> NonePast(w, j)
  {
  }

  lemma LeaderMoves(w: World, w': World, who: nat)
    requires who < |w.cleaners| && NonePast(w, w.cleaners[who].at) && OneLeader(w)
    requires |w'.cleaners| == |w.cleaners|
    requires forall p :: 0 <= p < |w.cleaners| && p != who ==> w'.cleaners[p] == w.cleaners[p]
    ensures OneLeader(w')
  {
  }

  lemma {:induction false} ExecSafe(w: World, dests: seq<string>, events: seq<Event>)
    requires Initial(w, dests)
    ensures Safe(Exec(w, dests, events), dests)
  {
    if events == [] {
      InitialSafe(w, dests);
    } else {
      ExecSafe(w, dests, events[..|events| - 1]);
      StepSafe(Exec(w, dests, events[..|events| - 1]), dests, events[|events| - 1]);
    }
  }

  // ----- the main results -----

  /** Of any number of interleaved cleanups, at most one returns true. */
  lemma AtMostOneTrue(w: World, dests: seq<string>, events: seq<Event>, p: nat, q: nat)
    requires Initial(w, dests)
    requires var v := Exec(w, dests, events);
      && p < |v.cleaners| && q < |v.cleaners|
      && v.cleaners[p].outcome == Some(true) && v.cleaners[q].outcome == Some(true)
    ensures p == q
  {
    ExecSafe(w, dests, events);
  }

  /** The call that removes the directory is the last one of the cleanup that returns
      true, and comes when every listed mount and the state file are gone. */
  lemma DirectoryGoesLast(w: World, dests: seq<string>, events: seq<Event>, e: Event)
    requires Initial(w, dests)
    requires Exec(w, dests, events).dir && !Step(Exec(w, dests, events), dests, e).dir
    ensures var v := Step(Exec(w, dests, events), dests, e);
      && e.who < |v.cleaners| && v.cleaners[e.who].outcome == Some(true)
      && !v.file && forall i :: 0 <= i < |dests| ==> dests[i] !in v.table
  {
    ExecSafe(w, dests, events);
    var u := Exec(w, dests, events);
    StepSafe(u, dests, e);
    var v := Step(u, dests, e);
    hide Exec;
    assert v.cleaners[e.who].at == Calls(dests);
    forall i | 0 <= i <= |dests| ensures !NonePast(v, i) {
      assert v.cleaners[e.who].at > i;
    }
  }

  predicate AllOk(events: seq<Event>) { forall i :: 0 <= i < |events| ==> events[i].ok }

  /** Who failed was overtaken. */
  predicate FailedBehind(w: World) {
    forall p :: 0 <= p < |w.cleaners| && w.cleaners[p].outcome == Some(false) ==> !NonePast(w, w.cleaners[p].at)
  }

  lemma StepBehind(w: World, dests: seq<string>, e: Event)
    requires Safe(w, dests) && FailedBehind(w) && e.ok
    ensures FailedBehind(Step(w, dests, e))
  {
    var w' := Step(w, dests, e);
    if e.who < |w.cleaners| && w.cleaners[e.who].outcome.None? {
      var at := w.cleaners[e.who].at;
      PresentWhenNonePast(w, dests, e.who);
      forall p | 0 <= p < |w'.cleaners| && w'.cleaners[p].outcome == Some(false)
        ensures !NonePast(w', w'.cleaners[p].at)
      {
        var j := w'.cleaners[p].at;
        var q :| 0 <= q < |w.cleaners| && w.cleaners[q].at > j;
        assert w'.cleaners[q].at > j;
      }
    }
  }

  lemma {:induction false} ExecBehind(w: World, dests: seq<string>, events: seq<Event>)
    requires Initial(w, dests) && AllOk(events)
    ensures FailedBehind(Exec(w, dests, events))
  {
    if events != [] {
      var front := events[..|events| - 1];
      ExecBehind(w, dests, front);
      ExecSafe(w, dests, front);
      StepBehind(Exec(w, dests, front), dests, events[|events| - 1]);
    }
  }

  lemma {:induction false} SameCleaners(w: World, dests: seq<string>, events: seq<Event>)
    ensures |Exec(w, dests, events).cleaners| == |w.cleaners|
  {
    if events != [] {
      SameCleaners(w, dests, events[..|events| - 1]);
    }
  }

  /** When calls fail only because the thing is already gone, exactly one of the
      cleanups returns true once all have finished, and everything is gone. */
  lemma ExactlyOneTrue(w: World, dests: seq<string>, events: seq<Event>) returns (winner: nat)
    requires Initial(w, dests) && AllOk(events) && w.cleaners != []
    requires forall p :: 0 <= p < |Exec(w, dests, events).cleaners| ==> Exec(w, dests, events).cleaners[p].outcome.Some?
    ensures var v := Exec(w, dests, events);
      && winner < |v.cleaners|
      && (forall p :: 0 <= p < |v.cleaners| ==> (v.cleaners[p].outcome == Some(true) <==> p == winner))
      && !v.dir && !v.file && forall i :: 0 <= i < |dests| ==> dests[i] !in v.table
  {
    ExecSafe(w, dests, events);
    ExecBehind(w, dests, events);
    SameCleaners(w, dests, events);
    winner := Winner(Exec(w, dests, events), dests);
  }

  lemma Winner(v: World, dests: seq<string>) returns (winner: nat)
    requires Safe(v, dests) && FailedBehind(v) && v.cleaners != []
    requires forall p :: 0 <= p < |v.cleaners| ==> v.cleaners[p].outcome.Some?
    ensures winner < |v.cleaners|
    ensures forall p :: 0 <= p < |v.cleaners| ==> (v.cleaners[p].outcome == Some(true) <==> p == winner)
    ensures !v.dir && !v.file && forall i :: 0 <= i < |dests| ==> dests[i] !in v.table
  {
    winner := 0;
    TrueOrFalse(v.cleaners[0].outcome);
    if v.cleaners[0].outcome == Some(false) {
      winner := Overtaker(v, v.cleaners[0].at);
      TrueOrFalse(v.cleaners[winner].outcome);
      if v.cleaners[winner].outcome == Some(false) {
        var r := Overtaker(v, v.cleaners[winner].at);
      }
    }
    forall i | 0 <= i <= |dests| + 1 ensures !NonePast(v, i) {
      assert v.cleaners[winner].at > i;
    }
  }

  lemma TrueOrFalse(outcome: Option<bool>)
    requires outcome.Some?
    ensures outcome == Some(true) || outcome == Some(false)
  {
    if outcome.value {
      assert outcome == Some(true);
    }
  }

  lemma Overtaker(v: World, at: nat) returns (q: nat)
    requires !NonePast(v, at)
    ensures q < |v.cleaners| && v.cleaners[q].at > at
  {
    q :| 0 <= q < |v.cleaners| && v.cleaners[q].at > at;
  }

  // ----- one cleanup on its own -----

  /** How the system answers the `at`th call of a cleanup. */
  predicate Granted(dests: seq<string>, path: string, a: Lifecycle.Answers, at: nat) {
    if at < |dests| then dests[at] !in a.system.busy
    else if at == |dests| then a.unlinked
    else path != "" && path[0] == '/' && a.removed
  }

  /** The first `n` calls of the only cleaner. */
  function Alone(dests: seq<string>, path: string, a: Lifecycle.Answers, n: nat): (r: seq<Event>)
    ensures |r| == n
  {
    seq(n, i requires 0 <= i < n => Event(0, Granted(dests, path, a, i)))
  }

  lemma AloneNext(w: World, dests: seq<string>, path: string, a: Lifecycle.Answers, n: nat)
    ensures Exec(w, dests, Alone(dests, path, a, n + 1))
         == Step(Exec(w, dests, Alone(dests, path, a, n)), dests, Event(0, Granted(dests, path, a, n)))
  {
    hide Granted;
    assert Alone(dests, path, a, n + 1)[..n] == Alone(dests, path, a, n);
  }

  lemma {:induction false} AloneUnmounts(w: World, dests: seq<string>, path: string, a: Lifecycle.Answers, n: nat)
    requires w.cleaners == [START] && n <= |dests|
    ensures var v, r := Exec(w, dests, Alone(dests, path, a, n)), UnmountAll(w.table, dests[..n], a.system.busy);
      && v.table == r.0 && v.file == w.file && v.dir == w.dir && |v.cleaners| == 1
      && (r.1 ==> v.cleaners[0] == Cleaner(n, None))
      && (!r.1 ==> v.cleaners[0].outcome == Some(false))
  {
    hide Exec, UnmountAll, Alone, Step;
    if n == 0 {
      AloneNothing(w, dests, path, a);
    } else {
      AloneUnmounts(w, dests, path, a, n - 1);
      AloneNext(w, dests, path, a, n - 1);
      assert dests[..n] == dests[..n - 1] + [dests[n - 1]];
      UnmountOneMore(w.table, dests[..n - 1], dests[n - 1], a.system.busy);
      OneUnmount(Exec(w, dests, Alone(dests, path, a, n - 1)), dests, n - 1, dests[n - 1] !in a.system.busy);
    }
  }

  lemma OneUnmount(u: World, dests: seq<string>, at: nat, ok: bool)
    requires |u.cleaners| == 1 && at < |dests|
    requires u.cleaners[0] == Cleaner(at, None) || u.cleaners[0].outcome == Some(false)
    ensures var v := Step(u, dests, Event(0, ok));
      && v.file == u.file && v.dir == u.dir && |v.cleaners| == 1
      && (u.cleaners[0].outcome.Some? ==> v == u)
      && (u.cleaners[0].outcome.None? && ok && dests[at] in u.table ==>
            v.table == u.table - multiset{dests[at]} && v.cleaners[0] == Cleaner(at + 1, None))
      && (u.cleaners[0].outcome.None? && !(ok && dests[at] in u.table) ==>
            v.table == u.table && v.cleaners[0].outcome == Some(false))
  {
  }

  lemma AloneNothing(w: World, dests: seq<string>, path: string, a: Lifecycle.Answers)
    ensures Exec(w, dests, Alone(dests, path, a, 0)) == w
    ensures UnmountAll(w.table, dests[..0], a.system.busy) == (w.table, true)
  {
  }

  /** The host that a cleanup works on, as the steps see it. */
  predicate SameThings(w: World, h: Lifecycle.Host, runtimePath: string) {
    && w.table == h.table && (w.file <==> Lifecycle.StatePath(runtimePath) in h.files)
    && (w.dir <==> runtimePath in h.dirs)
  }

  /** Run without interruption, the steps are the sequential cleanup, whichever calls the
      system refuses. */
  lemma AloneIsCleanup(w: World, h: Lifecycle.Host, config: Config, a: Lifecycle.Answers)
    requires w.cleaners == [START] && SameThings(w, h, config.runtimePath)
    ensures var dests, path := Recorded(config.mounts), config.runtimePath;
      var v, (h', ret) := Exec(w, dests, Alone(dests, path, a, Calls(dests))), Lifecycle.CleanUp(h, config, a);
      |v.cleaners| == 1 && v.cleaners[0].outcome == Some(ret) && SameThings(v, h', path)
  {
    hide Exec, UnmountAll, Alone, Recorded, Lifecycle.StatePath;
    var dests, path := Recorded(config.mounts), config.runtimePath;
    AloneUnmounts(w, dests, path, a, |dests|);
    AloneNext(w, dests, path, a, |dests|);
    AloneNext(w, dests, path, a, |dests| + 1);
    assert dests[..|dests|] == dests;
    NothingLeft(h, path);
  }

  lemma NothingLeft(h: Lifecycle.Host, path: string)
    ensures var left := Lifecycle.RmRf(h, path); path !in left.dirs && Lifecycle.StatePath(path) !in left.files
  {
    assert Lifecycle.Under(path, Lifecycle.StatePath(path));
  }
}
