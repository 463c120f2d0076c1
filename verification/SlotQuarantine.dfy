/**
 The quarantine of a build slot is not only safe but exact: a slot stays marked behind its attempts only if
 something went wrong on it that the marker is for. And no attempt is ever stuck with a slot's lock.
 */
module SlotQuarantine {
  import opened Common
  import opened SlotProtocol

  /** The marker was not written, or not cleared, as asked. */
  predicate MarkerFails(turn: Turn)
  {
    match turn
    case Mark(ok, _) => !ok
    case Provision(ok, _) => !ok
    case FailPreflight(truncated) => !truncated
    case Settle(truncated) => !truncated
    case _ => false
  }

  /** The end of something started on the slot is not observed. */
  predicate LosesTrack(action: Action)
  {
    action == OnWork(Lose) || (action.OnWork? && action.task.LoseHelper?) || action == Onward(FailRemoval)
  }

  /**
   What marker and staging are kept for: a crash while one of them is there, work out of sight, a marker write
   or truncation that fails.
   */
  predicate Troubles(s: System, event: Event, slot: nat)
  {
    match event
    case Crash(id) => id in s.attempts && s.attempts[id].slot == slot && !s.attempts[id].kind.Restart? && CellOf(s, slot) != Idle(CellOf(s, slot))
    case Act(id, action) =>
      && id in s.attempts && s.attempts[id].slot == slot && !s.attempts[id].kind.Restart?
      && (LosesTrack(action) || (action.Onward? && MarkerFails(action.turn)))
    case _ => false
  }

  /** Nothing of the kind happens on the slot in the whole run. */
  predicate Undisturbed(s: System, events: seq<Event>, slot: nat)
    decreases |events|
  {
    events == [] || (!Troubles(s, events[0], slot) && Undisturbed(Next(s, events[0]), events[1..], slot))
  }

  /** An attempt between marking and clearing that has lost nothing. */
  predicate Busy(a: Attempt)
  {
    && !a.unknown && !a.dropping
    && (a.phase.Preflight? || a.phase.Working? || a.phase.Finishing? || a.phase == Removed(true))
  }

  /** The slot with neither marker nor staging. */
  function Idle(cell: Cell): Cell
  {
    cell.(marked := false, staging := None)
  }

  /** The marker is there for such an attempt, and the staging is its own. */
  predicate CleanFor(cell: Cell, a: Attempt)
  {
    (cell.marked ==> Busy(a)) && (cell.staging.Some? ==> a.staged && !a.unknown)
  }

  predicate Clean(s: System, slot: nat)
  {
    var cell := CellOf(s, slot);
    cell == Idle(cell) ||
    (cell.holder.Some? && cell.holder.value in s.attempts && CleanFor(cell, s.attempts[cell.holder.value]))
  }

  // ---- One step ----

  lemma {:induction false} FilesKeepClean(id: Id, cell: Cell, a: Attempt, step: FileStep)
    requires Coherent(a) && FilesAllowed(cell, a, step) && CleanFor(cell, a) && (a.staged ==> cell.staging.Some?)
    ensures var (next, after) := (cell.(staging := StagingAfter(id, cell, a, step)), AfterFiles(a, step));
      CleanFor(next, after) && (next != Idle(next) ==> Holds(after))
  {
  }

  lemma {:induction false} WorkKeepsClean(h: Host, id: Id, cell: Cell, a: Attempt, task: WorkStep)
    requires HandlesFit(a) && WorkAllowed(h, id, cell, a, task) && CleanFor(cell, a) && !LosesTrack(OnWork(task))
    ensures CleanFor(cell.(alive := AliveAfter(cell, task)), AfterWork(a, task))
  {
  }

  lemma {:induction false} TurnKeepsClean(h: Host, cell: Cell, a: Attempt, turn: Turn)
    requires Coherent(a) && TurnAllowed(h, cell, a, turn) && !LosesTrack(Onward(turn)) && !MarkerFails(turn) && CleanFor(cell, a)
    ensures CleanFor(cell.(marked := MarkedAfter(cell, a, turn)), AfterTurn(cell, a, turn))
  {
  }

  lemma {:induction false} ChangeKeepsClean(h: Host, id: Id, cell: Cell, a: Attempt, action: Action)
    requires Coherent(a) && Allowed(h, id, cell, a, action) && CleanFor(cell, a) && (a.staged ==> cell.staging.Some?)
    requires !LosesTrack(action) && !(action.Onward? && MarkerFails(action.turn))
    ensures var (next, after) := (CellAfter(id, cell, a, action), AttemptAfter(cell, a, action));
      CleanFor(next, after) && (next != Idle(next) ==> Holds(after))
  {
    hide FilesAllowed, WorkAllowed, TurnAllowed, AfterFiles, AfterWork, AfterTurn, MarkedAfter, StagingAfter, CleanFor, WorkFits, HandlesFit;
    ChangeKeepsCoherence(h, id, cell, a, action);
    match action {
      case OnFiles(step) => FilesKeepClean(id, cell, a, step);
      case OnWork(task) => WorkKeepsClean(h, id, cell, a, task);
      case Onward(turn) => TurnKeepsClean(h, cell, a, turn);
    }
  }

  lemma {:induction false} CleanIsNoRestart(cell: Cell, a: Attempt)
    requires Coherent(a) && CleanFor(cell, a) && cell != Idle(cell)
    ensures !a.kind.Restart?
  {
  }

  lemma {:induction false} RestartOnCleanSlot(h: Host, id: Id, cell: Cell, a: Attempt, action: Action)
    requires Coherent(a) && Allowed(h, id, cell, a, action) && a.kind.Restart? && cell == Idle(cell)
    ensures CellAfter(id, cell, a, action) == Idle(CellAfter(id, cell, a, action))
  {
    hide WorkAllowed, AfterFiles, AfterWork, AfterTurn;
  }

  lemma {:induction false} StepKeepsClean(h: Host, s: System, event: Event, slot: nat)
    requires LockInvariant(s) && Enabled(h, s, event) && Clean(s, slot) && !Troubles(s, event, slot)
    ensures Clean(Next(s, event), slot)
  {
    hide Coherent, CleanFor, Allowed, CellAfter, AttemptAfter, LosesTrack, MarkerFails;
    var cell := CellOf(s, slot);
    assert HeldByHolder(s, slot);
    if cell != Idle(cell) {
      var a := s.attempts[cell.holder.value];
      assert Owns(cell.holder.value, cell, a);
      CleanIsNoRestart(cell, a);
    }
    match event {
      case Act(id, action) => ActKeepsClean(h, s, id, action, slot);
      case Die(_, work) => SameClean(cell, cell.(alive := cell.alive - {work}));
      case Operator(_) => SameClean(cell, cell.(marked := false));
      case _ =>
    }
  }

  /** The account of a slot stands when work ends on it or the operator clears it. */
  lemma {:induction false} SameClean(cell: Cell, after: Cell)
    requires after.staging == cell.staging && (after.marked ==> cell.marked)
    ensures forall a :: CleanFor(cell, a) ==> CleanFor(after, a)
    ensures cell == Idle(cell) ==> after == Idle(after)
  {
  }

  lemma {:induction false} ActKeepsClean(h: Host, s: System, id: Id, action: Action, slot: nat)
    requires LockInvariant(s) && Enabled(h, s, Act(id, action)) && Clean(s, slot) && !Troubles(s, Act(id, action), slot)
    ensures Clean(Next(s, Act(id, action)), slot)
  {
    hide Coherent, CleanFor, Allowed, CellAfter, AttemptAfter, LosesTrack, MarkerFails;
    var a := s.attempts[id];
    var cell := CellOf(s, a.slot);
    assert HeldByHolder(s, slot) && Owns(id, cell, a);
    if a.slot == slot {
      ChangeKeepsOwnership(h, id, cell, a, action);
      if cell == Idle(cell) {
        IdleIsClean(cell, a);
      }
      if a.kind.Restart? {
        if cell != Idle(cell) { CleanIsNoRestart(cell, a); }
        RestartOnCleanSlot(h, id, cell, a, action);
      } else {
        ChangeKeepsClean(h, id, cell, a, action);
      }
    }
  }

  lemma {:induction false} IdleIsClean(cell: Cell, a: Attempt)
    requires cell == Idle(cell)
    ensures CleanFor(cell, a)
  {
  }

  /** A marker that reached the file stays there, also when its write is reported as failed. */
  lemma {:induction false} WrittenIsMarked(cell: Cell, a: Attempt, turn: Turn)
    requires (turn.Mark? || turn.Provision?) && (turn.ok || turn.written)
    ensures MarkedAfter(cell, a, turn)
  {
  }

  // ---- Whole runs ----

  lemma {:induction false} RunKeepsClean(h: Host, s: System, events: seq<Event>, slot: nat)
    requires LockInvariant(s) && Legal(h, s, events) && Clean(s, slot) && Undisturbed(s, events, slot)
    ensures LockInvariant(Run(s, events)) && Clean(Run(s, events), slot)
    decreases |events|
  {
    hide LockInvariant, Clean, Next, Enabled, Troubles;
    if events != [] {
      StepKeepsLocks(h, s, events[0]);
      StepKeepsClean(h, s, events[0], slot);
      RunKeepsClean(h, Next(s, events[0]), events[1..], slot);
    }
  }

  /**
   On every host: once a slot has neither marker nor staging, and as long as nothing goes wrong on it, it has
   them only while an attempt holds it, and whoever takes it next is admitted - however many attempts failed
   on it meanwhile.
   */
  lemma {:induction false} QuarantineIsExact(h: Host, s: System, events: seq<Event>, slot: nat)
    requires Reachable(h, s) && CellOf(s, slot) == Idle(CellOf(s, slot)) && Legal(h, s, events) && Undisturbed(s, events, slot)
    ensures var t := Run(s, events);
      && (CellOf(t, slot).holder.None? ==> !CellOf(t, slot).marked && CellOf(t, slot).staging.None?)
      && forall id :: Enabled(h, t, Act(id, Onward(ReadMarker))) && t.attempts[id].slot == slot && !t.attempts[id].kind.Restart? ==>
           Next(t, Act(id, Onward(ReadMarker))).attempts[id].phase.Admitted?
  {
    hide Reachable, Legal, Undisturbed;
    ReachableKeepsLocks(h, s);
    RunKeepsClean(h, s, events, slot);
    hide Run;
    var t := Run(s, events);
    forall id | Enabled(h, t, Act(id, Onward(ReadMarker))) && t.attempts[id].slot == slot && !t.attempts[id].kind.Restart?
      ensures Next(t, Act(id, Onward(ReadMarker))).attempts[id].phase.Admitted?
    {
      assert Owns(id, CellOf(t, slot), t.attempts[id]) && HeldByHolder(t, slot);
    }
  }

  // ---- Nobody is stuck ----

  /** A crash frees the slot for others and leaves everything else on it as it is. */
  lemma {:induction false} CrashFreesSlot(h: Host, s: System, id: Id, kind: Kind)
    requires Reachable(h, s) && id in s.attempts && Holds(s.attempts[id])
    requires (kind.CacheClear? ==> h.clearsCache) && (kind == Build(true, true) ==> h.receivesRailpack)
    ensures var (t, slot) := (Next(s, Crash(id)), s.attempts[id].slot);
      && Enabled(h, t, Take(slot, kind)) && id !in t.attempts
      && CellOf(t, slot) == CellOf(s, slot).(holder := None)
  {
    hide Reachable;
    ReachableKeepsLocks(h, s);
    assert Owns(id, CellOf(s, s.attempts[id].slot), s.attempts[id]);
  }

  /** A step an attempt may take, by phase: giving up whatever it waits for, then closing down. */
  ghost function WayOut(a: Attempt): Action
  {
    if a.child.Some? then OnWork(if a.probing then Swallow else Lose)
    else if a.helpers != {} then var work :| work in a.helpers; OnWork(LoseHelper(work))
    else
      match a.phase
      case Locked => Onward(ReadMarker)
      case Refused => OnFiles(DropLock)
      case Admitted => Onward(Abandon)
      case Preflight => Onward(FailPreflight(true))
      case Working => Onward(Finish)
      case Finishing => Onward(FailRemoval)
      case Removed(_) => Onward(Settle(true))
      case Sweeping => Onward(Abandon)
      case Restarting => Onward(Abandon)
      case Returned =>
        OnFiles(
          if a.lock && (a.staged ==> a.ownership) then DropLock
          else if a.prepared then DropPrepared
          else if a.staged then DropStaging
          else DropOwnership)
  }

  function Count(b: bool): nat
  {
    if b then 1 else 0
  }

  function StepsInPhase(phase: Phase): nat
  {
    if phase.Returned? then 0
    else if phase.Locked? then 5
    else if phase.Working? then 4
    else if phase.Finishing? then 3
    else if phase.Removed? then 2
    else 1
  }

  /** How many steps out are left at most. */
  function StepsLeft(a: Attempt): nat
  {
    StepsInPhase(a.phase) + |a.helpers| + Count(a.child.Some?) + Count(a.lock) + Count(a.ownership) + Count(a.staged) + Count(a.prepared)
  }

  lemma {:induction false} WayIsAllowed(h: Host, id: Id, cell: Cell, a: Attempt)
    requires Coherent(a) && Holds(a)
    ensures Allowed(h, id, cell, a, WayOut(a))
  {
  }

  lemma {:induction false} WayIsShorter(h: Host, id: Id, cell: Cell, a: Attempt)
    requires Coherent(a) && Holds(a)
    ensures StepsLeft(AttemptAfter(cell, a, WayOut(a))) < StepsLeft(a)
  {
    WayIsAllowed(h, id, cell, a);
    var action := WayOut(a);
    hide Coherent, FilesAllowed, WorkAllowed, TurnAllowed, AfterFiles, AfterWork, AfterTurn, StepsLeft;
    match action {
      case OnFiles(step) => DropIsShorter(cell, a, step);
      case OnWork(task) => GivingUpIsShorter(h, id, cell, a, task);
      case Onward(turn) => TurnIsShorter(h, cell, a, turn);
    }
  }

  lemma {:induction false} DropIsShorter(cell: Cell, a: Attempt, step: FileStep)
    requires FilesAllowed(cell, a, step) && (step.DropLock? || step.DropPrepared? || step.DropStaging? || step.DropOwnership?)
    ensures StepsLeft(AfterFiles(a, step)) < StepsLeft(a)
  {
  }

  lemma {:induction false} GivingUpIsShorter(h: Host, id: Id, cell: Cell, a: Attempt, task: WorkStep)
    requires WorkAllowed(h, id, cell, a, task) && (task.Lose? || task.Swallow? || task.LoseHelper?)
    ensures StepsLeft(AfterWork(a, task)) < StepsLeft(a)
  {
    hide AfterWork, StepsInPhase;
    if task.LoseHelper? {
      HelperIsGivenUp(a, task.work);
    } else {
      ChildIsGivenUp(a, task);
    }
  }

  lemma {:induction false} HelperIsGivenUp(a: Attempt, work: Work)
    requires work in a.helpers
    ensures var after := AfterWork(a, LoseHelper(work));
      after.phase == a.phase && after.child == a.child && |after.helpers| < |a.helpers|
  {
    assert |a.helpers - {work}| == |a.helpers| - 1;
  }

  lemma {:induction false} ChildIsGivenUp(a: Attempt, task: WorkStep)
    requires task.Lose? || task.Swallow?
    ensures var after := AfterWork(a, task);
      StepsInPhase(after.phase) <= StepsInPhase(a.phase) && after.child.None? && after.helpers == a.helpers
  {
    hide StepsInPhase;
    RankOfPhases(a.phase);
    RankOfPhases(AfterWork(a, task).phase);
  }

  lemma {:induction false} TurnIsShorter(h: Host, cell: Cell, a: Attempt, turn: Turn)
    requires TurnAllowed(h, cell, a, turn) && !turn.Mark? && !turn.Provision?
    ensures StepsLeft(AfterTurn(cell, a, turn)) < StepsLeft(a)
  {
    hide TurnAllowed, AfterTurn, StepsInPhase, Count;
    PhaseIsLater(h, cell, a, turn);
  }

  lemma {:induction false} PhaseIsLater(h: Host, cell: Cell, a: Attempt, turn: Turn)
    requires TurnAllowed(h, cell, a, turn) && !turn.Mark? && !turn.Provision?
    ensures StepsInPhase(AfterTurn(cell, a, turn).phase) < StepsInPhase(a.phase)
  {
  }

  lemma {:induction false} RankOfPhases(phase: Phase)
    ensures phase.Returned? <==> StepsInPhase(phase) == 0
    ensures phase.Locked? <==> StepsInPhase(phase) == 5
    ensures phase.Working? <==> StepsInPhase(phase) == 4
    ensures phase.Finishing? <==> StepsInPhase(phase) == 3
    ensures phase.Removed? <==> StepsInPhase(phase) == 2
    ensures StepsInPhase(phase) <= 5
  {
  }

  /** An attempt's own steps, one after another. */
  function StepsOf(id: Id, actions: seq<Action>): (events: seq<Event>)
    ensures |events| == |actions| && forall i :: 0 <= i < |events| ==> events[i] == Act(id, actions[i])
  {
    seq(|actions|, i requires 0 <= i < |actions| => Act(id, actions[i]))
  }

  /** Whoever holds a slot's lock, wherever they stand, can give it up by steps of their own. */
  lemma {:induction false} AlwaysAWayOut(h: Host, s: System, id: Id) returns (actions: seq<Action>)
    requires LockInvariant(s) && id in s.attempts
    ensures Legal(h, s, StepsOf(id, actions))
    ensures var t := Run(s, StepsOf(id, actions)); id in t.attempts && !Holds(t.attempts[id])
    decreases StepsLeft(s.attempts[id])
  {
    hide Coherent, Allowed, AttemptAfter, CellAfter, StepsLeft, WayOut;
    var a := s.attempts[id];
    if Holds(a) {
      var action, cell := WayOut(a), CellOf(s, a.slot);
      assert Owns(id, cell, a);
      WayIsAllowed(h, id, cell, a);
      WayIsShorter(h, id, cell, a);
      var next := Next(s, Act(id, action));
      StepKeepsLocks(h, s, Act(id, action));
      var rest := AlwaysAWayOut(h, next, id);
      hide LockInvariant, Next;
      actions := [action] + rest;
      assert StepsOf(id, actions)[1..] == StepsOf(id, rest);
    } else {
      actions := [];
    }
  }

  // ---- Restart ----

  /** Restart cleanup of one slot; a sweep only where the marker is clear. */
  function RestartSteps(id: Id, slot: nat, sweep: bool): seq<Event>
  {
    [Take(slot, Restart), Act(id, Onward(ReadMarker))] +
    (if sweep then [Act(id, OnFiles(RemoveStaging))] else []) + LastSteps(id)
  }

  /** Restart cleanup of a free slot removes abandoned staging and nothing else; of a marked slot it changes nothing. */
  lemma {:induction false} RestartSweepsUnmarked(h: Host, s: System, slot: nat)
    requires CellOf(s, slot).holder.None?
    ensures var events := RestartSteps(s.next, slot, !CellOf(s, slot).marked);
      && Legal(h, s, events)
      && CellOf(Run(s, events), slot) == if CellOf(s, slot).marked then CellOf(s, slot) else CellOf(s, slot).(staging := None)
  {
    var cell, sweep := CellOf(s, slot), [Act(s.next, OnFiles(RemoveStaging))];
    var events, last := RestartSteps(s.next, slot, !cell.marked), LastSteps(s.next);
    var read := RestartReads(h, s, slot);
    var rest := (if cell.marked then [] else sweep) + last;
    assert events[1..][0] == events[1] && events[1..][1..] == rest;
    assert Legal(h, s, events) == Legal(h, read, rest) && Run(s, events) == Run(read, rest);
    if cell.marked {
      assert rest == last;
      LocksAreDropped(h, read, s.next, slot);
    } else {
      var swept := Next(read, sweep[0]);
      assert rest[0] == sweep[0] && rest[1..] == last;
      assert CellOf(swept, slot) == CellOf(read, slot).(staging := None) && swept.attempts[s.next] == read.attempts[s.next];
      LocksAreDropped(h, swept, s.next, slot);
    }
  }

  lemma {:induction false} RestartReads(h: Host, s: System, slot: nat) returns (read: System)
    requires CellOf(s, slot).holder.None?
    ensures Enabled(h, s, Take(slot, Restart)) && Enabled(h, Next(s, Take(slot, Restart)), Act(s.next, Onward(ReadMarker)))
    ensures read == Next(Next(s, Take(slot, Restart)), Act(s.next, Onward(ReadMarker)))
    ensures CellOf(read, slot) == CellOf(s, slot).(holder := Some(s.next)) && s.next in read.attempts
    ensures read.attempts[s.next] == Started(slot, Restart).(phase := if CellOf(s, slot).marked then Restarting else Sweeping)
  {
    var taken := Next(s, Take(slot, Restart));
    assert CellOf(taken, slot) == CellOf(s, slot).(holder := Some(s.next)) && taken.attempts[s.next] == Started(slot, Restart);
    read := Next(taken, Act(s.next, Onward(ReadMarker)));
  }

  function LastSteps(id: Id): seq<Event>
  {
    [Act(id, Onward(Abandon)), Act(id, OnFiles(DropLock))]
  }

  lemma {:induction false} LocksAreDropped(h: Host, s: System, id: Id, slot: nat)
    requires id in s.attempts && s.attempts[id].slot == slot && s.attempts[id].lock && !s.attempts[id].ownership && !s.attempts[id].staged
    requires s.attempts[id].phase.Sweeping? || (s.attempts[id].phase.Restarting? && s.attempts[id].child.None?)
    ensures Legal(h, s, LastSteps(id)) && CellOf(Run(s, LastSteps(id)), slot) == CellOf(s, slot).(holder := None)
  {
    var events := LastSteps(id);
    var left := Next(s, events[0]);
    assert CellOf(left, slot) == CellOf(s, slot) && left.attempts[id] == s.attempts[id].(phase := Returned);
    var dropped := Next(left, events[1]);
    assert events[1..] == [events[1]] && [events[1]][1..] == [];
    assert Run(left, [events[1]]) == dropped;
  }
}
