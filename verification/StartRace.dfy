/** Several starts of one container at once: each reads the state file, gives up unless
    the status is CREATED, resumes the VM and writes RUNNING. Their calls interleave
    freely. */
module StartRace {
  import opened StateFile

  /** Where a start is; one that does not wait is over with its write. */
  datatype Start = Fresh | Ready | Resumed | Over(ret: bool)

  datatype World = World(recorded: Status, starts: seq<Start>)

  datatype Event = Load(k: nat, ok: bool) | Resume(k: nat, ok: bool) | Write(k: nat, ok: bool)

  function SetStart(w: World, k: nat, start: Start): World
    requires k < |w.starts|
  {
    w.(starts := w.starts[k := start])
  }

  /** An event whose process is elsewhere changes nothing. */
  function Step(w: World, e: Event): World {
    match e
    case Load(k, ok) =>
      if k >= |w.starts| || !w.starts[k].Fresh? then w
      else SetStart(w, k, if ok && w.recorded.Created? then Ready else Over(false))
    case Resume(k, ok) =>
      if k >= |w.starts| || !w.starts[k].Ready? then w
      else SetStart(w, k, if ok then Resumed else Over(false))
    case Write(k, ok) =>
      if k >= |w.starts| || !w.starts[k].Resumed? then w
      else if ok then SetStart(w.(recorded := Running), k, Over(true))
      else SetStart(w, k, Over(false))
  }

  function Exec(w: World, events: seq<Event>): World {
    if events == [] then w else Step(Exec(w, events[..|events| - 1]), events[|events| - 1])
  }

  predicate Initial(w: World) {
    w.recorded.Created? && forall k :: 0 <= k < |w.starts| ==> w.starts[k] == Fresh
  }

  predicate AtMostOneTrue(w: World) {
    forall j, k :: 0 <= j < |w.starts| && 0 <= k < |w.starts| && w.starts[j] == Over(true) && w.starts[k] == Over(true)
      ==> j == k
  }

  // ----- what every step keeps -----

  /** RUNNING is recorded exactly once a start has returned true. */
  predicate Recorded(w: World) {
    && (w.recorded.Created? || w.recorded.Running?)
    && (w.recorded.Running? <==> exists k :: 0 <= k < |w.starts| && w.starts[k] == Over(true))
  }

  lemma StepRecorded(w: World, e: Event)
    requires Recorded(w)
    ensures Recorded(Step(w, e))
  {
    var v := Step(w, e);
    if w.recorded.Running? {
      var k :| 0 <= k < |w.starts| && w.starts[k] == Over(true);
      assert v.starts[k] == Over(true);
    } else if e.k < |w.starts| && v.starts[e.k] != Over(true) {
      assert forall k :: 0 <= k < |v.starts| && k != e.k ==> v.starts[k] == w.starts[k];
    }
  }

  lemma {:induction false} ExecRecorded(w: World, events: seq<Event>)
    requires Initial(w)
    ensures Recorded(Exec(w, events))
  {
    hide Step;
    if events != [] {
      ExecRecorded(w, events[..|events| - 1]);
      StepRecorded(Exec(w, events[..|events| - 1]), events[|events| - 1]);
    }
  }

  // ----- the main results -----

  /** A start that read CREATED writes RUNNING over another one's RUNNING. */
  predicate WritesAgain(w: World, e: Event) {
    e.Write? && e.ok && e.k < |w.starts| && w.starts[e.k].Resumed? && w.recorded.Running?
  }

  predicate NeverWritesAgain(w: World, events: seq<Event>) {
    events == [] ||
    (var front, e := events[..|events| - 1], events[|events| - 1];
     NeverWritesAgain(w, front) && !WritesAgain(Exec(w, front), e))
  }

  lemma StepTrues(w: World, e: Event)
    requires Recorded(w)
    ensures AtMostOneTrue(Step(w, e)) <==> AtMostOneTrue(w) && !WritesAgain(w, e)
  {
    var v := Step(w, e);
    if !AtMostOneTrue(w) {
      var j, k :| 0 <= j < |w.starts| && 0 <= k < |w.starts| && w.starts[j] == Over(true) && w.starts[k] == Over(true)
        && j != k;
      assert v.starts[j] == Over(true) && v.starts[k] == Over(true);
    } else if WritesAgain(w, e) {
      var j :| 0 <= j < |w.starts| && w.starts[j] == Over(true);
      assert v.starts[j] == Over(true) && v.starts[e.k] == Over(true);
    } else {
      OnlyNewTrue(w, e);
    }
  }

  lemma OnlyNewTrue(w: World, e: Event)
    requires Recorded(w) && AtMostOneTrue(w) && !WritesAgain(w, e)
    ensures AtMostOneTrue(Step(w, e))
  {
    var v := Step(w, e);
    assert forall k :: 0 <= k < |v.starts| && k != e.k ==> v.starts[k] == w.starts[k];
  }

  /** Over every interleaving: at most one start returns true if and only if none writes
      RUNNING over RUNNING, having read CREATED before. */
  lemma {:induction false} OneTrueExactly(w: World, events: seq<Event>)
    requires Initial(w)
    ensures AtMostOneTrue(Exec(w, events)) <==> NeverWritesAgain(w, events)
  {
    hide Step, WritesAgain;
    if events != [] {
      OneTrueExactly(w, events[..|events| - 1]);
      ExecRecorded(w, events[..|events| - 1]);
      StepTrues(Exec(w, events[..|events| - 1]), events[|events| - 1]);
    }
  }

  predicate Resting(start: Start) { start.Fresh? || start.Over? }

  predicate AllResting(w: World) { forall k :: 0 <= k < |w.starts| ==> Resting(w.starts[k]) }

  predicate Begins(w: World, e: Event) { e.Load? && e.k < |w.starts| && w.starts[e.k].Fresh? }

  /** Starts issued one after another. */
  predicate Serial(w: World, events: seq<Event>) {
    events == [] ||
    (var front, e := events[..|events| - 1], events[|events| - 1];
     Serial(w, front) && (Begins(Exec(w, front), e) ==> AllResting(Exec(w, front))))
  }

  /** A start under way has the container to itself, and it is still CREATED. */
  predicate Alone(w: World) {
    forall k :: 0 <= k < |w.starts| && !Resting(w.starts[k]) ==>
      w.recorded.Created? && forall j :: 0 <= j < |w.starts| && j != k ==> Resting(w.starts[j])
  }

  lemma StepAlone(w: World, e: Event)
    requires Alone(w) && (Begins(w, e) ==> AllResting(w))
    ensures Alone(Step(w, e)) && !WritesAgain(w, e)
  {
    var v := Step(w, e);
    if e.k < |w.starts| {
      assert forall k :: 0 <= k < |v.starts| && k != e.k ==> v.starts[k] == w.starts[k];
    }
  }

  lemma {:induction false} SerialAlone(w: World, events: seq<Event>)
    requires Initial(w) && Serial(w, events)
    ensures Alone(Exec(w, events)) && NeverWritesAgain(w, events)
  {
    hide Step, WritesAgain;
    if events != [] {
      SerialAlone(w, events[..|events| - 1]);
      StepAlone(Exec(w, events[..|events| - 1]), events[|events| - 1]);
    }
  }

  /** Of starts issued one after another, at most one returns true. */
  lemma SerialOneTrue(w: World, events: seq<Event>)
    requires Initial(w) && Serial(w, events)
    ensures AtMostOneTrue(Exec(w, events))
  {
    SerialAlone(w, events);
    OneTrueExactly(w, events);
  }

  lemma {:induction false} SameStarts(w: World, events: seq<Event>)
    ensures |Exec(w, events).starts| == |w.starts|
  {
    if events != [] {
      SameStarts(w, events[..|events| - 1]);
    }
  }

  /** Both read CREATED before either writes. */
  const OVERLAP: seq<Event> := [
    Load(0, true), Load(1, true), Resume(0, true), Resume(1, true), Write(0, true), Write(1, true)]

  lemma BothReturnTrue(w: World)
    requires Initial(w) && |w.starts| >= 2
    ensures var v := Exec(w, OVERLAP); |v.starts| >= 2 && v.starts[0] == v.starts[1] == Over(true)
  {
    hide Exec;
    var w1 := ExecTo(w, OVERLAP, 0);
    var w2 := ExecTo(w, OVERLAP, 1);
    var w3 := ExecTo(w, OVERLAP, 2);
    var w4 := ExecTo(w, OVERLAP, 3);
    var w5 := ExecTo(w, OVERLAP, 4);
    var w6 := ExecTo(w, OVERLAP, 5);
    assert OVERLAP[..6] == OVERLAP;
  }

  lemma ExecTo(w: World, es: seq<Event>, i: nat) returns (v: World)
    requires i < |es|
    ensures v == Exec(w, es[..i + 1]) == Step(Exec(w, es[..i]), es[i])
    ensures i == 0 ==> Exec(w, es[..i]) == w
  {
    v := Exec(w, es[..i + 1]);
    assert es[..i + 1][..i] == es[..i];
  }

  /** In every interleaving at most one start returns true, if and only if there is at
      most one start. */
  lemma SafeForOneStartOnly(w: World)
    requires Initial(w)
    ensures (forall events: seq<Event> :: AtMostOneTrue(Exec(w, events))) <==> |w.starts| <= 1
  {
    if |w.starts| <= 1 {
      forall events: seq<Event> ensures AtMostOneTrue(Exec(w, events)) {
        SameStarts(w, events);
      }
    } else {
      BothReturnTrue(w);
      assert !AtMostOneTrue(Exec(w, OVERLAP));
    }
  }

  // ----- one start on its own -----

  /** The start as one call, of a container whose status is recorded. */
  function StartAlone(status: Status, signalled: bool, written: bool): (Status, bool) {
    if status.Created? && signalled && written then (Running, true) else (status, false)
  }

  /** Run without interruption, the steps of a start are that call. */
  lemma StepsAreStartAlone(w: World, k: nat, signalled: bool, written: bool)
    requires k < |w.starts| && w.starts[k].Fresh?
    ensures var v := Step(Step(Step(w, Load(k, true)), Resume(k, signalled)), Write(k, written));
      var (status, ret) := StartAlone(w.recorded, signalled, written);
      v == World(status, w.starts[k := Over(ret)])
  {
    var a := Step(w, Load(k, true));
    var b := Step(a, Resume(k, signalled));
    assert w.recorded.Created? ==> a == SetStart(w, k, Ready);
    assert w.recorded.Created? && signalled ==> b.starts == w.starts[k := Resumed];
    assert b.starts[k := Over(true)] == w.starts[k := Over(true)];
    assert b.starts[k := Over(false)] == w.starts[k := Over(false)];
  }
}
