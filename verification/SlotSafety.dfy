/**
 Safety of the build-slot protocol: work that may be alive on a slot keeps the slot marked, so nobody is
 admitted to it and nobody removes the files it reads - and exactly on which hosts that is so.
 */
module SlotSafety {
  import opened Common
  import opened SlotProtocol

  /** Hosts on which the marker protects all work. */
  predicate MarkerHost(h: Host)
  {
    h.gcConfigured && !(h.markerCanFail && h.clearsCache)
  }

  /** Hosts on which staging outlives all work. */
  predicate StagingHost(h: Host)
  {
    h.gcConfigured && !h.markerCanFail
  }

  predicate Guarded(cell: Cell)
  {
    cell.alive != {} ==> cell.marked
  }

  /** The attempt will still hear of this work's end. */
  predicate Tracked(a: Attempt, work: Work)
  {
    || a.child == Some(work)
    || work in a.helpers
    || (work.role.Worker? && (a.phase.Working? || (a.phase.Finishing? && !a.dropping)))
  }

  /** All work alive on the slot is tracked, or the result says it is not. */
  predicate Accounted(cell: Cell, a: Attempt)
  {
    a.unknown || a.leaked || forall work :: work in cell.alive ==> Tracked(a, work)
  }

  predicate Supervised(h: Host, cell: Cell, a: Attempt)
  {
    && (a.kind.CacheClear? ==> h.clearsCache)
    && (a.kind == Build(true, true) ==> h.receivesRailpack)
    && (a.dropping ==> h.markerCanFail)
    && (a.probing ==> !h.gcConfigured)
    && (Holds(a) ==>
      && (CanWork(a.phase) || a.phase.Removed? ==> cell.marked)
      && (a.phase.Sweeping? ==> cell.alive == {})
      && (!a.kind.Restart? && !a.phase.Locked? && !a.phase.Refused? ==> Accounted(cell, a)))
  }

  // ---- One attempt ----

  lemma {:induction false} ChangeKeepsAccount(h: Host, id: Id, cell: Cell, a: Attempt, action: Action)
    requires h.gcConfigured && WorkFits(a) && Allowed(h, id, cell, a, action) && (a.probing ==> !h.gcConfigured)
    requires !a.phase.Locked? && !a.phase.Refused? && Accounted(cell, a)
    ensures var (next, after) := (CellAfter(id, cell, a, action), AttemptAfter(cell, a, action)); Accounted(next, after)
  {
    hide WorkAllowed, TurnAllowed, AfterWork, AfterTurn, WorkFits, AliveAfter;
    match action {
      case OnFiles(step) => assert forall work :: Tracked(a, work) ==> Tracked(AfterFiles(a, step), work);
      case OnWork(task) => WorkKeepsAccount(h, id, cell, a, task);
      case Onward(turn) => TurnKeepsAccount(h, cell, a, turn);
    }
  }

  lemma {:induction false} WorkKeepsAccount(h: Host, id: Id, cell: Cell, a: Attempt, task: WorkStep)
    requires h.gcConfigured && WorkFits(a) && WorkAllowed(h, id, cell, a, task) && !a.probing && Accounted(cell, a)
    ensures Accounted(cell.(alive := AliveAfter(cell, task)), AfterWork(a, task))
  {
  }

  lemma {:induction false} TurnKeepsAccount(h: Host, cell: Cell, a: Attempt, turn: Turn)
    requires WorkFits(a) && TurnAllowed(h, cell, a, turn) && !a.phase.Locked? && Accounted(cell, a)
    ensures Accounted(cell, AfterTurn(cell, a, turn))
  {
  }

  /** Nothing is alive where an attempt could clear the marker, read it as clear, or sweep. */
  lemma {:induction false} NothingAlive(h: Host, cell: Cell, a: Attempt)
    requires WorkFits(a) && Guarded(cell) && Supervised(h, cell, a) && Holds(a)
    requires
      || (a.phase.Locked? && !cell.marked)
      || a.phase.Sweeping?
      || (!a.kind.Restart? && !a.unknown && !a.leaked && a.child.None?
          && (a.phase.Admitted? || a.phase.Preflight? || a.phase.Removed? || a.phase.Returned?))
    ensures cell.alive == {}
  {
    if !a.phase.Locked? && !a.phase.Sweeping? {
      assert Accounted(cell, a);
      assert forall work :: work in cell.alive ==> !Tracked(a, work);
    }
  }

  lemma {:induction false} ChangeKeepsMarks(h: Host, id: Id, cell: Cell, a: Attempt, action: Action)
    requires MarkerHost(h) && Coherent(a) && Allowed(h, id, cell, a, action)
    requires Guarded(cell) && Supervised(h, cell, a)
    ensures var (next, after) := (CellAfter(id, cell, a, action), AttemptAfter(cell, a, action));
      && Guarded(next)
      && (Holds(after) && (CanWork(after.phase) || after.phase.Removed?) ==> next.marked)
      && (Holds(after) && after.phase.Sweeping? ==> next.alive == {})
  {
    hide Accounted;
    assert Holds(a) by { ChangeKeepsCoherence(h, id, cell, a, action); }
    if action.Onward? && (action.turn.FailPreflight? || (action.turn.Settle? && a.phase == Removed(true))) {
      if !a.unknown {
        NothingAlive(h, cell, a);
      }
    }
  }

  lemma {:induction false} AccountStays(h: Host, id: Id, cell: Cell, a: Attempt, action: Action)
    requires h.gcConfigured && Coherent(a) && Allowed(h, id, cell, a, action)
    requires Guarded(cell) && Supervised(h, cell, a) && !a.kind.Restart?
    ensures var (next, after) := (CellAfter(id, cell, a, action), AttemptAfter(cell, a, action));
      Holds(after) && !after.phase.Refused? ==> Accounted(next, after)
  {
    if a.phase.Locked? || a.phase.Refused? {
      assert action == Onward(ReadMarker) || action == OnFiles(DropLock);
    } else {
      ChangeKeepsCoherence(h, id, cell, a, action);
      ChangeKeepsAccount(h, id, cell, a, action);
    }
  }

  lemma {:induction false} FlagsNeed(h: Host, id: Id, cell: Cell, a: Attempt, action: Action)
    requires Allowed(h, id, cell, a, action)
    ensures AttemptAfter(cell, a, action).probing ==> a.probing || !h.gcConfigured
    ensures AttemptAfter(cell, a, action).dropping ==> a.dropping || h.markerCanFail
  {
    hide AfterFiles, AfterWork, AfterTurn;
  }

  lemma {:induction false} ChangeKeepsSupervision(h: Host, id: Id, cell: Cell, a: Attempt, action: Action)
    requires MarkerHost(h) && Coherent(a) && Allowed(h, id, cell, a, action)
    requires Guarded(cell) && Supervised(h, cell, a)
    ensures var (next, after) := (CellAfter(id, cell, a, action), AttemptAfter(cell, a, action));
      Supervised(h, Unlocked(next, after), after) && Guarded(Unlocked(next, after))
  {
    hide Allowed, CellAfter, AttemptAfter, Accounted, Coherent;
    var (next, after) := (CellAfter(id, cell, a, action), AttemptAfter(cell, a, action));
    ChangeKeepsMarks(h, id, cell, a, action);
    FlagsNeed(h, id, cell, a, action);
    if !a.kind.Restart? {
      AccountStays(h, id, cell, a, action);
    }
    SameAccount(next, Unlocked(next, after), after);
  }

  lemma {:induction false} SameAccount(before: Cell, after: Cell, a: Attempt)
    requires after.alive <= before.alive
    ensures Accounted(before, a) ==> Accounted(after, a)
  {
  }

  // ---- The system ----

  ghost predicate WorkInvariant(h: Host, s: System)
  {
    && (forall id {:trigger id in s.attempts} :: id in s.attempts ==>
          Supervised(h, CellOf(s, s.attempts[id].slot), s.attempts[id]))
    && (forall slot {:trigger CellOf(s, slot)} :: Guarded(CellOf(s, slot)))
  }

  /** An attempt without a handle, or whose slot only lost work, is as well supervised as before. */
  lemma {:induction false} BystanderSupervised(h: Host, before: Cell, after: Cell, a: Attempt)
    requires Supervised(h, before, a) && (!Holds(a) || (after.alive <= before.alive && after.marked == before.marked))
    ensures Supervised(h, after, a)
  {
    hide Accounted;
    if Holds(a) {
      SameAccount(before, after, a);
    }
  }

  lemma {:induction false} StepKeepsWork(h: Host, s: System, event: Event)
    requires MarkerHost(h) && LockInvariant(s) && WorkInvariant(h, s) && Enabled(h, s, event)
    ensures WorkInvariant(h, Next(s, event))
  {
    match event {
      case Take(slot, kind) => TakeKeepsWork(h, s, slot, kind);
      case Act(id, action) => ActKeepsWork(h, s, id, action);
      case Crash(id) => CrashKeepsWork(h, s, id);
      case Die(slot, work) => DieKeepsWork(h, s, slot, work);
      case Operator(slot) => OperatorKeepsWork(h, s, slot);
    }
  }

  lemma {:induction false} TakeKeepsWork(h: Host, s: System, slot: nat, kind: Kind)
    requires LockInvariant(s) && WorkInvariant(h, s) && Enabled(h, s, Take(slot, kind))
    ensures WorkInvariant(h, Next(s, Take(slot, kind)))
  {
    hide Accounted, Coherent;
    var t := Next(s, Take(slot, kind));
    forall id | id in t.attempts
      ensures Supervised(h, CellOf(t, t.attempts[id].slot), t.attempts[id])
    {
      if id != s.next {
        assert id in s.attempts && t.attempts[id] == s.attempts[id];
        BystanderSupervised(h, CellOf(s, s.attempts[id].slot), CellOf(t, s.attempts[id].slot), s.attempts[id]);
      }
    }
    forall k
      ensures Guarded(CellOf(t, k))
    {
      assert Guarded(CellOf(s, k));
    }
  }

  lemma {:induction false} ActKeepsWork(h: Host, s: System, id: Id, action: Action)
    requires MarkerHost(h) && LockInvariant(s) && WorkInvariant(h, s) && Enabled(h, s, Act(id, action))
    ensures WorkInvariant(h, Next(s, Act(id, action)))
  {
    hide Allowed, CellAfter, AttemptAfter, Coherent, Accounted;
    var t, a := Next(s, Act(id, action)), s.attempts[id];
    assert Owns(id, CellOf(s, a.slot), a) && Guarded(CellOf(s, a.slot)) && Supervised(h, CellOf(s, a.slot), a);
    ChangeKeepsSupervision(h, id, CellOf(s, a.slot), a, action);
    ChangeKeepsOwnership(h, id, CellOf(s, a.slot), a, action);
    forall k | k in t.attempts
      ensures Supervised(h, CellOf(t, t.attempts[k].slot), t.attempts[k])
    {
      if k != id {
        assert k in s.attempts && t.attempts[k] == s.attempts[k];
        if s.attempts[k].slot == a.slot {
          assert !Holds(s.attempts[k]) by {
            if Holds(s.attempts[k]) { OnlyOneHolds(s, id, k); }
          }
          BystanderSupervised(h, CellOf(s, a.slot), CellOf(t, a.slot), s.attempts[k]);
        }
      }
    }
    forall k
      ensures Guarded(CellOf(t, k))
    {
      assert Guarded(CellOf(s, k));
      assert k != a.slot ==> CellOf(t, k) == CellOf(s, k);
    }
  }

  lemma {:induction false} CrashKeepsWork(h: Host, s: System, id: Id)
    requires LockInvariant(s) && WorkInvariant(h, s) && id in s.attempts
    ensures WorkInvariant(h, Next(s, Crash(id)))
  {
    hide Coherent, Accounted;
    var t, a := Next(s, Crash(id)), s.attempts[id];
    forall k | k in t.attempts
      ensures Supervised(h, CellOf(t, t.attempts[k].slot), t.attempts[k])
    {
      assert k in s.attempts && t.attempts[k] == s.attempts[k];
      BystanderSupervised(h, CellOf(s, s.attempts[k].slot), CellOf(t, s.attempts[k].slot), s.attempts[k]);
    }
    forall k
      ensures Guarded(CellOf(t, k))
    {
      assert Guarded(CellOf(s, k));
    }
  }

  lemma {:induction false} DieKeepsWork(h: Host, s: System, slot: nat, work: Work)
    requires LockInvariant(s) && WorkInvariant(h, s)
    ensures WorkInvariant(h, Next(s, Die(slot, work)))
  {
    hide Coherent, Accounted;
    var t := Next(s, Die(slot, work));
    forall k | k in t.attempts
      ensures Supervised(h, CellOf(t, t.attempts[k].slot), t.attempts[k])
    {
      BystanderSupervised(h, CellOf(s, s.attempts[k].slot), CellOf(t, s.attempts[k].slot), s.attempts[k]);
    }
    forall k
      ensures Guarded(CellOf(t, k))
    {
      assert Guarded(CellOf(s, k));
    }
  }

  lemma {:induction false} OperatorKeepsWork(h: Host, s: System, slot: nat)
    requires LockInvariant(s) && WorkInvariant(h, s) && Enabled(h, s, Operator(slot))
    ensures WorkInvariant(h, Next(s, Operator(slot)))
  {
    hide Coherent, Accounted;
    var t := Next(s, Operator(slot));
    forall k | k in t.attempts
      ensures Supervised(h, CellOf(t, t.attempts[k].slot), t.attempts[k])
    {
      assert k in s.attempts;
      BystanderSupervised(h, CellOf(s, s.attempts[k].slot), CellOf(t, s.attempts[k].slot), s.attempts[k]);
    }
    forall k
      ensures Guarded(CellOf(t, k))
    {
      assert Guarded(CellOf(s, k));
    }
  }

  lemma {:induction false} RunKeepsWork(h: Host, s: System, events: seq<Event>)
    requires MarkerHost(h) && LockInvariant(s) && WorkInvariant(h, s) && Legal(h, s, events)
    ensures WorkInvariant(h, Run(s, events))
    decreases |events|
  {
    hide LockInvariant, WorkInvariant, Next, Enabled;
    if events != [] {
      StepKeepsLocks(h, s, events[0]);
      StepKeepsWork(h, s, events[0]);
      RunKeepsWork(h, Next(s, events[0]), events[1..]);
    }
  }

  lemma {:induction false} ReachableKeepsWork(h: Host, s: System)
    requires MarkerHost(h) && Reachable(h, s)
    ensures LockInvariant(s) && WorkInvariant(h, s)
  {
    ReachableKeepsLocks(h, s);
    var events :| Legal(h, INITIAL, events) && Run(INITIAL, events) == s;
    forall slot
      ensures HeldByHolder(INITIAL, slot) && Guarded(CellOf(INITIAL, slot))
    {
    }
    RunKeepsWork(h, INITIAL, events);
  }

  // ---- What follows on such hosts ----

  /** Work that may be alive on a slot implies the slot's marker. */
  lemma {:induction false} AliveIsMarked(h: Host, s: System, slot: nat)
    requires MarkerHost(h) && Reachable(h, s)
    ensures CellOf(s, slot).alive != {} ==> CellOf(s, slot).marked
  {
    hide Reachable;
    ReachableKeepsWork(h, s);
    assert Guarded(CellOf(s, slot));
  }

  /** So no admission is granted on a slot where earlier work may still run. */
  lemma {:induction false} AdmittedAlone(h: Host, s: System, id: Id)
    requires MarkerHost(h) && Reachable(h, s) && Enabled(h, s, Act(id, Onward(ReadMarker)))
    requires Next(s, Act(id, Onward(ReadMarker))).attempts[id].phase.Admitted?
    ensures CellOf(s, s.attempts[id].slot).alive == {} && CellOf(s, s.attempts[id].slot).holder == Some(id)
  {
    hide Reachable;
    ReachableKeepsWork(h, s);
    var a := s.attempts[id];
    assert Guarded(CellOf(s, a.slot)) && Owns(id, CellOf(s, a.slot), a);
  }

  /** A marker goes away only when nothing is alive: by the operator, or by a holder whose result is known - never by restart cleanup. */
  lemma {:induction false} MarkerClearedWhenDone(h: Host, s: System, event: Event, slot: nat)
    requires MarkerHost(h) && Reachable(h, s) && Enabled(h, s, event)
    requires CellOf(s, slot).marked && !CellOf(Next(s, event), slot).marked
    ensures CellOf(s, slot).alive == {}
    ensures event == Operator(slot) ||
      (event.Act? && CellOf(s, slot).holder == Some(event.id) && !s.attempts[event.id].unknown && !s.attempts[event.id].kind.Restart?)
  {
    hide Reachable, Accounted;
    ReachableKeepsWork(h, s);
    if event.Act? {
      var a := s.attempts[event.id];
      var cell := CellOf(s, a.slot);
      assert Owns(event.id, cell, a) && Supervised(h, cell, a) && Guarded(cell);
      ChangeKeepsOwnership(h, event.id, cell, a, event.action);
      ClearsWhenDone(h, event.id, cell, a, event.action);
    }
  }

  lemma {:induction false} ClearsWhenDone(h: Host, id: Id, cell: Cell, a: Attempt, action: Action)
    requires Coherent(a) && Guarded(cell) && Supervised(h, cell, a) && Allowed(h, id, cell, a, action)
    requires cell.marked && !CellAfter(id, cell, a, action).marked
    ensures cell.alive == {} && !a.unknown && !a.kind.Restart?
  {
    assert action.Onward? && (action.turn.FailPreflight? || action.turn.Settle?);
    NothingAlive(h, cell, a);
  }

  ghost predicate RemovesRoot(s: System, event: Event, slot: nat)
  {
    CellOf(s, slot).staging.Some? && CellOf(Next(s, event), slot).staging.None?
  }

  ghost predicate RemovesPrepared(s: System, event: Event, slot: nat)
  {
    var (before, after) := (CellOf(s, slot).staging, CellOf(Next(s, event), slot).staging);
    before.Some? && before.value.prepared && after.Some? && !after.value.prepared
  }

  /** Commands and helpers read prepared inputs; the worker is only sent them by a command. */
  predicate InUse(cell: Cell)
  {
    exists work :: work in cell.alive && !work.role.Worker?
  }

  /** The drop of `Preparation` after a received build whose termination is unknown. */
  predicate DropsInDoubt(s: System, event: Event, slot: nat)
  {
    && event.Act? && event.action == OnFiles(DropPrepared) && event.id in s.attempts && CellOf(s, slot).holder == Some(event.id)
    && s.attempts[event.id].kind == Build(true, true) && s.attempts[event.id].unknown
  }

  /**
   The staging root is removed only when nothing that could read it is alive. What Railpack prepared in it is
   removed under something that could read it only by a received build with an unknown result.
   */
  lemma {:induction false} StagingOutlivesWork(h: Host, s: System, event: Event, slot: nat)
    requires StagingHost(h) && Reachable(h, s) && Enabled(h, s, event)
    ensures RemovesRoot(s, event, slot) ==> CellOf(s, slot).alive == {}
    ensures RemovesPrepared(s, event, slot) && InUse(CellOf(s, slot)) ==> h.receivesRailpack && DropsInDoubt(s, event, slot)
  {
    hide Reachable, Accounted;
    ReachableKeepsWork(h, s);
    if RemovesRoot(s, event, slot) || RemovesPrepared(s, event, slot) {
      StagingChangesUnderLock(h, s, event, slot);
      var a, cell := s.attempts[event.id], CellOf(s, slot);
      assert Owns(event.id, cell, a) && Supervised(h, cell, a) && Guarded(cell);
      if RemovesRoot(s, event, slot) {
        RemovesWhenDone(h, event.id, cell, a, event.action);
      } else {
        DropsWhenKnown(h, event.id, cell, a, event.action);
      }
    }
  }

  lemma {:induction false} RemovesWhenDone(h: Host, id: Id, cell: Cell, a: Attempt, action: Action)
    requires StagingHost(h) && Coherent(a) && Guarded(cell) && Supervised(h, cell, a) && Holds(a)
    requires Allowed(h, id, cell, a, action)
    requires cell.staging.Some? && CellAfter(id, cell, a, action).staging.None?
    ensures cell.alive == {}
  {
    assert action == OnFiles(RemoveStaging) || action == OnFiles(DropStaging);
    NothingAlive(h, cell, a);
  }

  lemma {:induction false} DropsWhenKnown(h: Host, id: Id, cell: Cell, a: Attempt, action: Action)
    requires StagingHost(h) && Owns(id, cell, a) && Supervised(h, cell, a) && Holds(a)
    requires Allowed(h, id, cell, a, action)
    requires cell.staging.Some? && cell.staging.value.prepared
    requires CellAfter(id, cell, a, action).staging.Some? && !CellAfter(id, cell, a, action).staging.value.prepared
    ensures action == OnFiles(DropPrepared) && a.kind == Build(true, true)
    ensures InUse(cell) ==> a.unknown
  {
    assert action == OnFiles(DropPrepared);
    if !a.unknown {
      assert Accounted(cell, a) && !a.leaked;
      assert forall work :: work in cell.alive ==> Tracked(a, work);
    }
  }
}
