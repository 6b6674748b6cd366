/** A start that waits for its VM, and kill commands, as processes that share one
    state file. The kill records STOPPING before it signals; the waiter cleans up
    only if the status it reads again is neither STOPPING nor STOPPED. */
module KillProtocol {
  import opened CLib
  import opened StateFile

  /** Where a kill command is: what it loaded is the status it puts back. */
  datatype Kill =
    | Fresh
    | Loaded(last: Status)
    | Marked(last: Status)
    | Delivered
    | Refused(last: Status)
    | Over(ret: bool)

  /** The waiting start; `calls` counts its cleanup's calls. */
  datatype Waiter = Asleep | Woken | Cleaning(calls: nat) | Returned(ret: bool)

  /** `recorded` is the status in the state file, if there is one. `delivered` is
      history: some kill has delivered its signal. */
  datatype World = World(
    recorded: Option<Status>, dir: bool, alive: bool, waiter: Waiter, kills: seq<Kill>, delivered: bool)

  /** A step of one process, or of the VM. `ok` says whether the system lets the call
      succeed: a write also needs the directory. `Overwrite` is the write of a pause, of
      a resume, or of the start itself, which read the file at some earlier time; `Remove`
      is a stop's unlink of the file, or its removal of the directory with the file. */
  datatype Event =
    | VmDies
    | Wake
    | Reread(ok: bool)
    | CleanupCall(ok: bool)
    | Load(k: nat, ok: bool)
    | Mark(k: nat, ok: bool)
    | Signal(k: nat, ok: bool)
    | Finish(k: nat, ok: bool)
    | Overwrite(pause: bool, ok: bool)
    | Remove(all: bool, ok: bool)

  predicate Halted(s: Status) { s.Stopping? || s.Stopped? }

  function SetKill(w: World, k: nat, kill: Kill): World
    requires k < |w.kills|
  {
    w.(kills := w.kills[k := kill])
  }

  /** The last two calls of a cleanup are the unlink and the removal of the directory. */
  function StepCleanup(w: World, mounts: nat, ok: bool): World
    requires w.waiter.Cleaning?
  {
    var n := w.waiter.calls;
    if !ok then w.(waiter := Returned(false))
    else if n < mounts then w.(waiter := Cleaning(n + 1))
    else if n == mounts then
      if w.recorded.None? then w.(waiter := Returned(false))
      else w.(recorded := None, waiter := Cleaning(n + 1))
    else w.(recorded := None, dir := false, waiter := Returned(true))
  }

  function StepReread(w: World, ok: bool): World
    requires w.waiter.Woken?
  {
    if !ok || w.recorded.None? then w.(waiter := Returned(false))
    else if Halted(w.recorded.value) then w.(waiter := Returned(true))
    else w.(waiter := Cleaning(0))
  }

  function StepFinish(w: World, k: nat, ok: bool): World
    requires k < |w.kills| && (w.kills[k].Delivered? || w.kills[k].Refused?)
  {
    var status := if w.kills[k].Delivered? then Stopped else w.kills[k].last;
    if ok && w.dir then SetKill(w.(recorded := Some(status)), k, Over(w.kills[k].Delivered?))
    else SetKill(w, k, Over(false))
  }

  /** An event whose process is elsewhere changes nothing. */
  function Step(w: World, mounts: nat, e: Event): World {
    match e
    case VmDies => w.(alive := false)
    case Wake => if w.waiter.Asleep? && !w.alive then w.(waiter := Woken) else w
    case Reread(ok) => if w.waiter.Woken? then StepReread(w, ok) else w
    case CleanupCall(ok) => if w.waiter.Cleaning? then StepCleanup(w, mounts, ok) else w
    case Load(k, ok) =>
      if k >= |w.kills| || !w.kills[k].Fresh? then w
      else if ok && w.recorded.Some? then SetKill(w, k, Loaded(w.recorded.value))
      else SetKill(w, k, Over(false))
    case Mark(k, ok) =>
      if k >= |w.kills| || !w.kills[k].Loaded? then w
      else if ok && w.dir then SetKill(w.(recorded := Some(Stopping)), k, Marked(w.kills[k].last))
      else SetKill(w, k, Over(false))
    case Signal(k, ok) =>
      if k >= |w.kills| || !w.kills[k].Marked? then w
      else if ok then SetKill(w, k, Delivered).(delivered := true)
      else SetKill(w, k, Refused(w.kills[k].last))
    case Finish(k, ok) =>
      if k < |w.kills| && (w.kills[k].Delivered? || w.kills[k].Refused?) then StepFinish(w, k, ok) else w
    case Overwrite(pause, ok) =>
      if ok && w.dir then w.(recorded := Some(if pause then Paused else Running)) else w
    case Remove(all, ok) =>
      if ok then w.(recorded := None, dir := w.dir && !all) else w
  }

  function Exec(w: World, mounts: nat, events: seq<Event>): World {
    if events == [] then w
    else Step(Exec(w, mounts, events[..|events| - 1]), mounts, events[|events| - 1])
  }

  /** A live status is recorded, and no kill has begun. */
  predicate Initial(w: World) {
    && w.recorded.Some? && !Halted(w.recorded.value) && w.dir && w.alive && w.waiter == Asleep && !w.delivered
    && forall k :: 0 <= k < |w.kills| ==> w.kills[k] == Fresh
  }

  predicate Resting(kill: Kill) { kill.Fresh? || kill.Over? }

  predicate AllResting(w: World) { forall k :: 0 <= k < |w.kills| ==> Resting(w.kills[k]) }

  /** The event is the beginning of a kill. */
  predicate Begins(w: World, e: Event) { e.Load? && e.k < |w.kills| && w.kills[e.k].Fresh? }

  /** Kill commands issued one after another, and no other command that writes the file: a
      kill begins when none is under way. */
  predicate Serial(w: World, mounts: nat, events: seq<Event>) {
    events == [] ||
    (var front, e := events[..|events| - 1], events[|events| - 1];
     var u := Exec(w, mounts, front);
     Serial(w, mounts, front) && !e.Overwrite? && (Begins(u, e) ==> AllResting(u)))
  }

  /** Signals are delivered to a VM that is alive, and only then. */
  predicate SignalsLive(w: World, mounts: nat, events: seq<Event>) {
    events == [] ||
    (var front, e := events[..|events| - 1], events[|events| - 1];
     SignalsLive(w, mounts, front) && (e.Signal? && e.ok ==> Exec(w, mounts, front).alive))
  }

  // ----- what every step keeps -----

  predicate OneUnderWay(w: World) {
    forall j, k :: 0 <= j < |w.kills| && 0 <= k < |w.kills| && !Resting(w.kills[j]) && !Resting(w.kills[k]) ==> j == k
  }

  /** What a kill under way has loaded is halted. */
  predicate HoldsHalted(kill: Kill) {
    kill.Loaded? || kill.Marked? || kill.Refused? ==> Halted(kill.last)
  }

  /** From a delivered signal on, only halted statuses can be put back. */
  predicate StaysHalted(w: World) {
    w.delivered ==>
      && (w.recorded.Some? ==> Halted(w.recorded.value))
      && forall k :: 0 <= k < |w.kills| ==> HoldsHalted(w.kills[k])
  }

  /** A kill that has marked the file finds its mark until it puts something else. */
  predicate MarkHolds(w: World) {
    forall k :: 0 <= k < |w.kills| && (w.kills[k].Marked? || w.kills[k].Delivered?) ==>
      w.recorded.Some? ==> Halted(w.recorded.value)
  }

  predicate Safe(w: World) { OneUnderWay(w) && MarkHolds(w) && StaysHalted(w) }

  lemma {:induction false} StepSafe(w: World, mounts: nat, e: Event)
    requires Safe(w) && !e.Overwrite? && (Begins(w, e) ==> AllResting(w))
    ensures Safe(Step(w, mounts, e))
  {
    match e
    case VmDies =>
    case Wake =>
    case Reread(ok) =>
    case CleanupCall(ok) =>
    case Remove(all, ok) =>
    case Load(k, ok) =>
      if k < |w.kills| && w.kills[k].Fresh? {
        LoadSafe(w, k, ok);
      }
    case Mark(k, ok) =>
      if k < |w.kills| && w.kills[k].Loaded? {
        MarkSafe(w, k, ok);
      }
    case Signal(k, ok) =>
      if k < |w.kills| && w.kills[k].Marked? {
        SignalSafe(w, k, ok);
      }
    case Finish(k, ok) =>
      if k < |w.kills| && (w.kills[k].Delivered? || w.kills[k].Refused?) {
        FinishSafe(w, k, ok);
      }
  }

  lemma LoadSafe(w: World, k: nat, ok: bool)
    requires Safe(w) && AllResting(w) && k < |w.kills| && w.kills[k].Fresh?
    ensures Safe(Step(w, 0, Load(k, ok)))
  {
  }

  lemma MarkSafe(w: World, k: nat, ok: bool)
    requires Safe(w) && k < |w.kills| && w.kills[k].Loaded?
    ensures Safe(Step(w, 0, Mark(k, ok)))
  {
  }

  lemma SignalSafe(w: World, k: nat, ok: bool)
    requires Safe(w) && k < |w.kills| && w.kills[k].Marked?
    ensures Safe(Step(w, 0, Signal(k, ok)))
  {
  }

  lemma FinishSafe(w: World, k: nat, ok: bool)
    requires Safe(w) && k < |w.kills| && (w.kills[k].Delivered? || w.kills[k].Refused?)
    ensures Safe(Step(w, 0, Finish(k, ok)))
  {
  }

  lemma {:induction false} ExecSafe(w: World, mounts: nat, events: seq<Event>)
    requires Initial(w) && Serial(w, mounts, events)
    ensures Safe(Exec(w, mounts, events))
  {
    if events != [] {
      ExecSafe(w, mounts, events[..|events| - 1]);
      StepSafe(Exec(w, mounts, events[..|events| - 1]), mounts, events[|events| - 1]);
    }
  }

  // ----- the main results -----

  predicate HaltedOrGone(w: World) { w.recorded.Some? ==> Halted(w.recorded.value) }

  predicate HasReread(waiter: Waiter) { waiter.Cleaning? || waiter.Returned? }

  /** The signal came before the waiter read the status again: it never cleans up. */
  predicate Undisturbed(w: World) { w.delivered && !w.waiter.Cleaning? }

  lemma StepUndisturbed(w: World, mounts: nat, e: Event)
    requires Safe(w) && Undisturbed(w) && !e.Overwrite?
    ensures Undisturbed(Step(w, mounts, e))
  {
  }

  /** No stop removes the file or the directory. */
  predicate NoRemovals(events: seq<Event>) {
    forall i {:trigger events[i]} :: 0 <= i < |events| ==> !events[i].Remove?
  }

  /** Once a signal is delivered, no status but STOPPING or STOPPED is ever recorded
      again, whatever happens afterwards. */
  lemma {:induction false} HaltedForEver(w: World, mounts: nat, before: seq<Event>, after: seq<Event>)
    requires Initial(w) && Serial(w, mounts, before + after)
    requires Exec(w, mounts, before).delivered
    ensures var v := Exec(w, mounts, before + after);
      v.delivered && (v.recorded.Some? ==> Halted(v.recorded.value))
  {
    ExecSafe(w, mounts, before + after);
    DeliveredForEver(w, mounts, before, after);
  }

  lemma {:induction false} DeliveredForEver(w: World, mounts: nat, before: seq<Event>, after: seq<Event>)
    requires Exec(w, mounts, before).delivered
    ensures Exec(w, mounts, before + after).delivered
  {
    hide Step;
    if after == [] {
      assert before + after == before;
    } else {
      var front := after[..|after| - 1];
      DeliveredForEver(w, mounts, before, front);
      assert (before + after)[..|before + after| - 1] == before + front;
      StepKeepsDelivered(Exec(w, mounts, before + front), mounts, after[|after| - 1]);
    }
  }

  lemma StepKeepsDelivered(w: World, mounts: nat, e: Event)
    ensures w.delivered ==> Step(w, mounts, e).delivered
    ensures (w.alive ==> w.waiter.Asleep?) ==> Step(w, mounts, e).alive ==> Step(w, mounts, e).waiter.Asleep?
  {
  }

  /** If the signal is delivered before the waiter reads the status again, the waiter
      never cleans up, and what is recorded stays halted; unless a stop removes them, the
      file and the directory stay. */
  lemma {:induction false} WaiterLeavesItAlone(w: World, mounts: nat, before: seq<Event>, after: seq<Event>)
    requires Initial(w) && Serial(w, mounts, before + after)
    requires Exec(w, mounts, before).delivered && !HasReread(Exec(w, mounts, before).waiter)
    ensures var v := Exec(w, mounts, before + after);
      && !v.waiter.Cleaning? && HaltedOrGone(v)
      && (NoRemovals(before + after) ==> v.dir && v.recorded.Some?)
  {
    hide Exec, Step;
    UndisturbedForEver(w, mounts, before, after);
    ExecSafe(w, mounts, before + after);
  }

  lemma {:induction false} UndisturbedForEver(w: World, mounts: nat, before: seq<Event>, after: seq<Event>)
    requires Initial(w) && Serial(w, mounts, before + after)
    requires Exec(w, mounts, before).delivered && !HasReread(Exec(w, mounts, before).waiter)
    ensures Undisturbed(Exec(w, mounts, before + after))
    ensures var v := Exec(w, mounts, before + after); NoRemovals(before + after) ==> v.dir && v.recorded.Some?
  {
    hide Step, Safe, Initial;
    if after == [] {
      assert before + after == before;
      if NoRemovals(before) {
        FileStaysUntilReread(w, mounts, before);
      }
    } else {
      var all, front, e := before + after, after[..|after| - 1], after[|after| - 1];
      assert all[..|all| - 1] == before + front && all[|all| - 1] == e;
      UndisturbedForEver(w, mounts, before, front);
      ExecSafe(w, mounts, before + front);
      StepUndisturbed(Exec(w, mounts, before + front), mounts, e);
      if NoRemovals(all) {
        NoRemovalsBefore(all);
        StepKeepsFile(Exec(w, mounts, before + front), mounts, e);
      }
    }
  }

  lemma NoRemovalsBefore(events: seq<Event>)
    requires NoRemovals(events) && events != []
    ensures NoRemovals(events[..|events| - 1]) && !events[|events| - 1].Remove?
  {
  }

  /** Nobody but the waiter and a stop removes the file, and the waiter only after it read
      it again. */
  lemma {:induction false} FileStaysUntilReread(w: World, mounts: nat, events: seq<Event>)
    requires Initial(w) && NoRemovals(events) && !HasReread(Exec(w, mounts, events).waiter)
    ensures var v := Exec(w, mounts, events); v.dir && v.recorded.Some?
  {
    hide Step;
    if events != [] {
      var u := Exec(w, mounts, events[..|events| - 1]);
      NoRemovalsBefore(events);
      StepKeepsFile(u, mounts, events[|events| - 1]);
      FileStaysUntilReread(w, mounts, events[..|events| - 1]);
    }
  }

  lemma StepKeepsFile(w: World, mounts: nat, e: Event)
    ensures !w.waiter.Cleaning? && w.dir && w.recorded.Some? && !e.Remove? ==>
      Step(w, mounts, e).dir && Step(w, mounts, e).recorded.Some?
    ensures HasReread(w.waiter) ==> HasReread(Step(w, mounts, e).waiter)
  {
  }

  /** While the VM lives the waiter sleeps. */
  lemma {:induction false} SleepsWhileAlive(w: World, mounts: nat, events: seq<Event>)
    requires Initial(w)
    ensures Exec(w, mounts, events).alive ==> Exec(w, mounts, events).waiter.Asleep?
  {
    if events != [] {
      SleepsWhileAlive(w, mounts, events[..|events| - 1]);
      StepKeepsDelivered(Exec(w, mounts, events[..|events| - 1]), mounts, events[|events| - 1]);
      hide Step;
    }
  }

  /** When signals reach live VMs only, a delivered signal always comes first, so the
      waiter it wakes never cleans up. */
  lemma {:induction false} DeliveredThenNoCleanup(w: World, mounts: nat, events: seq<Event>)
    requires Initial(w) && Serial(w, mounts, events) && SignalsLive(w, mounts, events)
    requires Exec(w, mounts, events).delivered
    ensures var v := Exec(w, mounts, events);
      && !v.waiter.Cleaning? && HaltedOrGone(v)
      && (NoRemovals(events) ==> v.dir && v.recorded.Some?)
  {
    hide Safe;
    ExecSafe(w, mounts, events);
    SafeHalted(Exec(w, mounts, events));
    var front, e := events[..|events| - 1], events[|events| - 1];
    var u := Exec(w, mounts, front);
    ExecSafe(w, mounts, front);
    if NoRemovals(events) {
      NoRemovalsBefore(events);
    }
    StepKeepsFile(u, mounts, e);
    if u.delivered {
      DeliveredThenNoCleanup(w, mounts, front);
      StepUndisturbed(u, mounts, e);
      hide Step;
    } else {
      SleepsWhileAlive(w, mounts, front);
      if NoRemovals(events) {
        FileStaysUntilReread(w, mounts, front);
      }
    }
  }

  lemma SafeHalted(w: World)
    requires Safe(w) && w.delivered
    ensures HaltedOrGone(w)
  {
  }

  // ----- overlapping commands -----

  /** The status that the event writes into the state file, if it writes at all. */
  function Writes(w: World, e: Event): Option<Status> {
    match e
    case Mark(k, ok) => if k < |w.kills| && w.kills[k].Loaded? && ok && w.dir then Some(Stopping) else None
    case Finish(k, ok) =>
      if k >= |w.kills| || !ok || !w.dir then None
      else if w.kills[k].Delivered? then Some(Stopped)
      else if w.kills[k].Refused? then Some(w.kills[k].last)
      else None
    case Overwrite(pause, ok) => if ok && w.dir then Some(if pause then Paused else Running) else None
    case _ => None
  }

  /** A kill whose signal was refused puts back the live status it had loaded, or
      another command writes over the file. */
  predicate PutsBack(w: World, e: Event) {
    || (e.Finish? && e.k < |w.kills| && w.kills[e.k].Refused? && !Halted(w.kills[e.k].last) && e.ok && w.dir)
    || (e.Overwrite? && e.ok && w.dir)
  }

  predicate AlwaysHalted(w: World, mounts: nat, events: seq<Event>) {
    HaltedOrGone(Exec(w, mounts, events)) && (events == [] || AlwaysHalted(w, mounts, events[..|events| - 1]))
  }

  predicate NeverPutsBack(w: World, mounts: nat, events: seq<Event>) {
    events == [] ||
    (var front, e := events[..|events| - 1], events[|events| - 1];
     NeverPutsBack(w, mounts, front) && !PutsBack(Exec(w, mounts, front), e))
  }

  lemma StepWrites(w: World, mounts: nat, e: Event)
    ensures PutsBack(w, e) <==> Writes(w, e).Some? && !Halted(Writes(w, e).value)
    ensures var v := Step(w, mounts, e);
      if Writes(w, e).Some? then v.recorded == Writes(w, e) else v.recorded == w.recorded || v.recorded == None
  {
  }

  /** From every world with a halted status, over every interleaving: it stays halted at
      every step if and only if no refused kill puts a live status back, and no other
      command writes over it. */
  lemma {:induction false} HaltedExactly(w: World, mounts: nat, events: seq<Event>)
    requires HaltedOrGone(w)
    ensures AlwaysHalted(w, mounts, events) <==> NeverPutsBack(w, mounts, events)
  {
    hide Step, PutsBack, Writes;
    if events != [] {
      HaltedExactly(w, mounts, events[..|events| - 1]);
      var u := Exec(w, mounts, events[..|events| - 1]);
      StepWrites(u, mounts, events[|events| - 1]);
      assert AlwaysHalted(w, mounts, events[..|events| - 1]) ==> HaltedOrGone(u);
    }
  }

  /** The last write of a run put a live status back. */
  predicate LiveWrite(w: World, mounts: nat, events: seq<Event>) {
    events != [] &&
    (var front, e := events[..|events| - 1], events[|events| - 1];
     var u := Exec(w, mounts, front);
     PutsBack(u, e) || (Writes(u, e).None? && LiveWrite(w, mounts, front)))
  }

  predicate NoWrites(w: World, mounts: nat, events: seq<Event>) {
    events == [] ||
    (var front, e := events[..|events| - 1], events[|events| - 1];
     Writes(Exec(w, mounts, front), e).None? && NoWrites(w, mounts, front))
  }

  /** Without a write no kill has got as far as its signal. */
  predicate Unmarked(w: World) {
    !w.delivered && forall k :: 0 <= k < |w.kills| ==> Resting(w.kills[k]) || w.kills[k].Loaded?
  }

  lemma StepUnmarked(w: World, mounts: nat, e: Event)
    requires Unmarked(w) && Writes(w, e).None?
    ensures Unmarked(Step(w, mounts, e))
  {
  }

  lemma {:induction false} NoWritesUnmarked(w: World, mounts: nat, events: seq<Event>)
    requires Initial(w) && NoWrites(w, mounts, events)
    ensures Unmarked(Exec(w, mounts, events))
  {
    hide Step, Writes;
    if events != [] {
      NoWritesUnmarked(w, mounts, events[..|events| - 1]);
      StepUnmarked(Exec(w, mounts, events[..|events| - 1]), mounts, events[|events| - 1]);
    }
  }

  lemma {:induction false} LastWriteRecorded(w: World, mounts: nat, events: seq<Event>)
    requires Initial(w)
    ensures var v := Exec(w, mounts, events);
      v.recorded.Some? ==> (!Halted(v.recorded.value) <==> LiveWrite(w, mounts, events) || NoWrites(w, mounts, events))
  {
    hide Step, Writes, PutsBack;
    if events != [] {
      LastWriteRecorded(w, mounts, events[..|events| - 1]);
      StepWrites(Exec(w, mounts, events[..|events| - 1]), mounts, events[|events| - 1]);
    }
  }

  /** Over every interleaving of any commands: once a signal is delivered, a live status
      is recorded if and only if the last write was a refused kill's, which put back what
      it had loaded, or another command's. */
  lemma LiveExactly(w: World, mounts: nat, events: seq<Event>)
    requires Initial(w) && Exec(w, mounts, events).delivered
    ensures var v := Exec(w, mounts, events);
      v.recorded.Some? ==> (!Halted(v.recorded.value) <==> LiveWrite(w, mounts, events))
  {
    hide Exec, Step;
    LastWriteRecorded(w, mounts, events);
    if NoWrites(w, mounts, events) {
      NoWritesUnmarked(w, mounts, events);
    }
  }

  /** So that is exactly when a waiter that wakes after the delivery, and finds the file,
      begins to clean up; without a stop it always finds it. */
  lemma WaiterCleansExactly(w: World, mounts: nat, events: seq<Event>)
    requires Initial(w) && Exec(w, mounts, events).delivered && Exec(w, mounts, events).waiter.Woken?
    ensures Step(Exec(w, mounts, events), mounts, Reread(true)).waiter.Cleaning? <==>
      Exec(w, mounts, events).recorded.Some? && LiveWrite(w, mounts, events)
    ensures NoRemovals(events) ==> Exec(w, mounts, events).recorded.Some?
  {
    hide Exec, LiveWrite;
    LiveExactly(w, mounts, events);
    if NoRemovals(events) {
      FileStaysUntilReread(w, mounts, events);
    }
  }

  // ----- how many kills it takes -----

  predicate NoOverwrite(events: seq<Event>) {
    forall i {:trigger events[i]} :: 0 <= i < |events| ==> !events[i].Overwrite?
  }

  lemma {:induction false} SameKills(w: World, mounts: nat, events: seq<Event>)
    ensures |Exec(w, mounts, events).kills| == |w.kills|
  {
    if events != [] {
      SameKills(w, mounts, events[..|events| - 1]);
      StepSameKills(Exec(w, mounts, events[..|events| - 1]), mounts, events[|events| - 1]);
      hide Step;
    }
  }

  lemma StepSameKills(w: World, mounts: nat, e: Event)
    ensures |Step(w, mounts, e).kills| == |w.kills|
  {
  }

  /** A kill on its own is serial in every interleaving with the VM and the waiter. */
  lemma {:induction false} OneKillSerial(w: World, mounts: nat, events: seq<Event>)
    requires |w.kills| <= 1 && NoOverwrite(events)
    ensures Serial(w, mounts, events)
  {
    if events != [] {
      var front := events[..|events| - 1];
      assert NoOverwrite(front);
      assert !events[|events| - 1].Overwrite?;
      OneKillSerial(w, mounts, front);
      SameKills(w, mounts, front);
      hide Exec;
    }
  }

  /** Two kills that overlap: the second loads the status before the first marks, its
      signal is refused after the first one's was delivered, and it puts back what it
      loaded. The VM dies and the waiter wakes, which cleans up. */
  const OVERLAP: seq<Event> := [
    Load(0, true), Load(1, true), Mark(0, true), Signal(0, true), Finish(0, true),
    Mark(1, true), Signal(1, false), Finish(1, true), VmDies, Wake, Reread(true)]

  /** A pause that read the file before the kill, and writes after it. */
  const PAUSE_AFTER_KILL: seq<Event> := [
    Load(0, true), Mark(0, true), Signal(0, true), Finish(0, true), Overwrite(true, true),
    VmDies, Wake, Reread(true)]

  lemma FirstKillDelivers(w: World, mounts: nat)
    requires Initial(w) && |w.kills| >= 2
    ensures var u := Exec(w, mounts, OVERLAP[..5]);
      && u.delivered && u.dir && u.waiter.Asleep? && |u.kills| >= 2 && u.kills[1] == Loaded(w.recorded.value)
  {
    hide Exec, StepCleanup, StepReread;
    var es := OVERLAP;
    var w1 := ExecTo(w, mounts, es, 0);
    var w2 := ExecTo(w, mounts, es, 1);
    var w3 := ExecTo(w, mounts, es, 2);
    var w4 := ExecTo(w, mounts, es, 3);
    var w5 := ExecTo(w, mounts, es, 4);
  }

  lemma OverlapPutsRunningBack(w: World, mounts: nat)
    requires Initial(w) && |w.kills| >= 2
    ensures var v := Exec(w, mounts, OVERLAP);
      v.delivered && v.recorded == w.recorded && v.waiter == Cleaning(0)
    ensures NoOverwrite(OVERLAP) && !Serial(w, mounts, OVERLAP)
  {
    hide Exec, StepCleanup, StepReread;
    var es := OVERLAP;
    FirstKillDelivers(w, mounts);
    var w6 := ExecTo(w, mounts, es, 5);
    var w7 := ExecTo(w, mounts, es, 6);
    var w8 := ExecTo(w, mounts, es, 7);
    hide Step, StepFinish;
    WakesToCleanUp(w, mounts, es, 8);
    if Serial(w, mounts, es) {
      ExecSafe(w, mounts, es);
    }
  }

  /** The VM dies, and the waiter finds a live status. */
  lemma WakesToCleanUp(w: World, mounts: nat, es: seq<Event>, n: nat)
    requires |es| == n + 3 && es[n] == VmDies && es[n + 1] == Wake && es[n + 2] == Reread(true)
    requires var u := Exec(w, mounts, es[..n]);
      u.waiter.Asleep? && u.recorded.Some? && !Halted(u.recorded.value)
    ensures var u, v := Exec(w, mounts, es[..n]), Exec(w, mounts, es);
      v == u.(alive := false, waiter := Cleaning(0))
  {
    hide Exec;
    var w1 := ExecTo(w, mounts, es, n);
    var w2 := ExecTo(w, mounts, es, n + 1);
    var w3 := ExecTo(w, mounts, es, n + 2);
    assert es[..n + 3] == es;
  }

  lemma PauseOverwritesKill(w: World, mounts: nat)
    requires Initial(w) && |w.kills| >= 1
    ensures var v := Exec(w, mounts, PAUSE_AFTER_KILL);
      v.delivered && v.recorded == Some(Paused) && v.waiter == Cleaning(0)
  {
    hide Exec;
    var es := PAUSE_AFTER_KILL;
    var w1 := ExecTo(w, mounts, es, 0);
    var w2 := ExecTo(w, mounts, es, 1);
    var w3 := ExecTo(w, mounts, es, 2);
    var w4 := ExecTo(w, mounts, es, 3);
    var w5 := ExecTo(w, mounts, es, 4);
    hide Step, StepFinish;
    WakesToCleanUp(w, mounts, es, 5);
  }

  /** Without other commands that write, every interleaving keeps a halted status once a
      signal is delivered, if and only if there is at most one kill. */
  lemma SafeForOneKillOnly(w: World, mounts: nat)
    requires Initial(w)
    ensures (forall events: seq<Event> :: NoOverwrite(events) && Exec(w, mounts, events).delivered ==>
              HaltedOrGone(Exec(w, mounts, events)))
       <==> |w.kills| <= 1
  {
    if |w.kills| <= 1 {
      forall events: seq<Event> | NoOverwrite(events) && Exec(w, mounts, events).delivered
        ensures HaltedOrGone(Exec(w, mounts, events))
      {
        OneKillSerial(w, mounts, events);
        ExecSafe(w, mounts, events);
      }
    } else {
      OverlapPutsRunningBack(w, mounts);
      assert !HaltedOrGone(Exec(w, mounts, OVERLAP));
    }
  }

  lemma ExecTo(w: World, mounts: nat, es: seq<Event>, i: nat) returns (v: World)
    requires i < |es|
    ensures v == Exec(w, mounts, es[..i + 1]) == Step(Exec(w, mounts, es[..i]), mounts, es[i])
    ensures i == 0 ==> Exec(w, mounts, es[..i]) == w
  {
    v := Exec(w, mounts, es[..i + 1]);
    assert es[..i + 1][..i] == es[..i];
  }

  // ----- one kill on its own -----

  /** The kill as one call, on a file that records `last`: the recorded status after
      it, and what it returns. */
  function KillAlone(last: Status, marked: bool, signalled: bool, written: bool): (Status, bool) {
    if !marked then (last, false)
    else if !signalled then (if written then last else Stopping, false)
    else (if written then Stopped else Stopping, written)
  }

  /** The kill at `k` is over, with this status and result, and nothing else has changed. */
  predicate KillOver(w: World, v: World, k: nat, status: Status, ret: bool)
    requires k < |w.kills|
  {
    && v.recorded == Some(status) && v.kills == w.kills[k := Over(ret)]
    && v.dir == w.dir && v.waiter == w.waiter && v.alive == w.alive
  }

  lemma UnmarkedKill(w: World, mounts: nat, k: nat, signalled: bool, written: bool)
    requires k < |w.kills| && w.kills[k].Over?
    ensures Step(Step(w, mounts, Signal(k, signalled)), mounts, Finish(k, written)) == w
  {
  }

  lemma MarkedKill(w: World, mounts: nat, k: nat, signalled: bool, written: bool)
    requires k < |w.kills| && w.kills[k].Marked? && w.dir && w.recorded == Some(Stopping)
    ensures var v := Step(Step(w, mounts, Signal(k, signalled)), mounts, Finish(k, written));
      var (status, ret) := KillAlone(w.kills[k].last, true, signalled, written);
      KillOver(w, v, k, status, ret)
  {
    var u := Step(w, mounts, Signal(k, signalled));
    assert u.kills == w.kills[k := if signalled then Delivered else Refused(w.kills[k].last)];
    assert u.recorded == w.recorded && u.dir == w.dir && u.waiter == w.waiter && u.alive == w.alive;
    var v := Step(u, mounts, Finish(k, written));
    assert v.kills == u.kills[k := v.kills[k]];
  }

  lemma LoadAndMark(w: World, mounts: nat, k: nat, marked: bool)
    requires k < |w.kills| && w.kills[k].Fresh? && w.recorded.Some? && w.dir
    ensures var u := Step(Step(w, mounts, Load(k, true)), mounts, Mark(k, marked));
      && u.kills == w.kills[k := if marked then Marked(w.recorded.value) else Over(false)]
      && u.recorded == (if marked then Some(Stopping) else w.recorded)
      && u.dir == w.dir && u.waiter == w.waiter && u.alive == w.alive
  {
    var a := Step(w, mounts, Load(k, true));
    assert a == SetKill(w, k, Loaded(w.recorded.value));
  }

  /** Run without interruption, the steps of a kill are that call. */
  lemma StepsAreKillAlone(w: World, mounts: nat, k: nat, marked: bool, signalled: bool, written: bool)
    requires k < |w.kills| && w.kills[k].Fresh? && w.recorded.Some? && w.dir
    ensures var v := Step(Step(Step(Step(w, mounts, Load(k, true)), mounts, Mark(k, marked)), mounts,
                               Signal(k, signalled)), mounts, Finish(k, written));
      var (status, ret) := KillAlone(w.recorded.value, marked, signalled, written);
      KillOver(w, v, k, status, ret)
  {
    hide Step;
    LoadAndMark(w, mounts, k, marked);
    var u := Step(Step(w, mounts, Load(k, true)), mounts, Mark(k, marked));
    if marked {
      MarkedKill(u, mounts, k, signalled, written);
    } else {
      UnmarkedKill(u, mounts, k, signalled, written);
    }
  }
}
