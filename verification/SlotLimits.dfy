/**
 The hosts on which the marker protects all work, and those on which staging outlives it, are exactly the
 hosts of `SlotSafety`: on every other host a short run breaks the protection.

 Two places of the code are behind this. Without a garbage-collection target `collect_cache` asks Docker
 for the size of its disk and takes every failure of that command as "unknown size", a lost command
 included (core/crates/ployz-build/src/policy.rs:138-160, 202-212). And when `acquire` cannot write the
 marker, `Builder` is dropped, which runs a removal command whose loss nobody hears of
 (core/crates/ployz-build/src/builder.rs:49, 243-253).

 A third place is independent of the host's settings: what Railpack prepared inside the staging of a received
 build goes with `Preparation`, whatever the result says (core/crates/ployz-build/src/railpack.rs:43-47).
 */
module SlotLimits {
  import opened Common
  import opened SlotProtocol
  import opened SlotSafety

  lemma {:induction false} LegalAppend(h: Host, s: System, events: seq<Event>, event: Event)
    requires Legal(h, s, events) && Enabled(h, Run(s, events), event)
    ensures Legal(h, s, events + [event]) && Run(s, events + [event]) == Next(Run(s, events), event)
    decreases |events|
  {
    hide Enabled, Next;
    if events == [] {
      assert events + [event] == [event] && [event][1..] == [];
    } else {
      assert (events + [event])[0] == events[0] && (events + [event])[1..] == events[1..] + [event];
      LegalAppend(h, Next(s, events[0]), events[1..], event);
    }
  }

  lemma {:induction false} ReachableStep(h: Host, s: System, event: Event)
    requires Reachable(h, s) && Enabled(h, s, event)
    ensures Reachable(h, Next(s, event))
  {
    hide Enabled, Next, Legal, Run;
    var events :| Legal(h, INITIAL, events) && Run(INITIAL, events) == s;
    LegalAppend(h, INITIAL, events, event);
  }

  /** Attempt 0 alone, on slot 0. */
  function Alone(cell: Cell, a: Attempt): System
  {
    System(map[0 := cell], map[0 := a], 1)
  }

  lemma {:induction false} AloneTakes(h: Host, kind: Kind)
    requires (kind.CacheClear? ==> h.clearsCache) && (kind == Build(true, true) ==> h.receivesRailpack)
    ensures Reachable(h, Alone(FREE.(holder := Some(0)), Started(0, kind)))
  {
    assert Legal(h, INITIAL, []) && Run(INITIAL, []) == INITIAL;
    ReachableStep(h, INITIAL, Take(0, kind));
    var s := Next(INITIAL, Take(0, kind));
    assert s.cells == map[0 := FREE.(holder := Some(0))] && s.attempts == map[0 := Started(0, kind)];
  }

  lemma {:induction false} AloneActs(h: Host, cell: Cell, a: Attempt, action: Action, next: Cell, after: Attempt)
    requires Reachable(h, Alone(cell, a)) && a.slot == 0 && Allowed(h, 0, cell, a, action)
    requires CellAfter(0, cell, a, action) == next && AttemptAfter(cell, a, action) == after && Holds(after)
    ensures Reachable(h, Alone(next, after)) && Next(Alone(cell, a), Act(0, action)) == Alone(next, after)
  {
    hide Reachable, Allowed, CellAfter, AttemptAfter;
    var s := Alone(cell, a);
    assert CellOf(s, 0) == cell && s.attempts[0] == a;
    ReachableStep(h, s, Act(0, action));
    assert s.cells[0 := next] == map[0 := next] && s.attempts[0 := after] == map[0 := after];
  }

  const CHILD := Work(0, 0, Command)

  /** Both shapes of attempt 0 right after a lost probe, on a host without a garbage-collection target. */
  lemma {:induction false} ProbeIsSwallowed(h: Host, cell: Cell, a: Attempt) returns (next: Cell, after: Attempt)
    requires !h.gcConfigured && Reachable(h, Alone(cell, a)) && a.slot == 0 && a.phase.Preflight? && a.lock
    requires a.child.None? && !a.unknown && a.helpers == {} && cell.alive == {}
    ensures next == cell.(marked := false, alive := {CHILD}) && after == a.(phase := Returned, probing := false)
    ensures Reachable(h, Alone(next, after))
  {
    hide Reachable;
    var c1 := cell.(marked := true);
    var a1 := a.(phase := Working);
    AloneActs(h, cell, a, Onward(Provision(true, true)), c1, a1);
    var c2, a2 := c1.(alive := {CHILD}), a1.(child := Some(CHILD), probing := true);
    assert c1.alive + {CHILD} == {CHILD};
    AloneActs(h, c1, a1, OnWork(Probe(CHILD)), c2, a2);
    next, after := SwallowedAndCleared(h, c2, a2);
  }

  lemma {:induction false} SwallowedAndCleared(h: Host, cell: Cell, a: Attempt) returns (next: Cell, after: Attempt)
    requires Reachable(h, Alone(cell, a)) && a.slot == 0 && a.phase.Working? && a.lock
    requires a.child == Some(CHILD) && a.probing && !a.unknown && a.helpers == {} && cell.alive == {CHILD}
    ensures next == cell.(marked := false) && after == a.(phase := Returned, child := None, probing := false)
    ensures Reachable(h, Alone(next, after))
  {
    hide Reachable;
    var a1 := a.(child := None, probing := false);
    AloneActs(h, cell, a, OnWork(Swallow), cell, a1);
    var a2 := a1.(phase := Finishing);
    AloneActs(h, cell, a1, Onward(Finish), cell, a2);
    next, after := RemovedAndCleared(h, cell, a2);
  }

  lemma {:induction false} RemovalIsConfirmed(h: Host, cell: Cell, a: Attempt)
    requires Reachable(h, Alone(cell, a)) && a.slot == 0 && a.phase.Finishing? && a.lock && a.child.None? && cell.alive == {CHILD}
    ensures Reachable(h, Alone(cell, a.(phase := Removed(true))))
  {
    hide Reachable;
    AloneActs(h, cell, a, Onward(ConfirmRemoval), cell, a.(phase := Removed(true)));
  }

  lemma {:induction false} RemovedAndCleared(h: Host, cell: Cell, a: Attempt) returns (next: Cell, after: Attempt)
    requires Reachable(h, Alone(cell, a)) && a.slot == 0 && a.phase.Finishing? && a.lock
    requires a.child.None? && !a.unknown && cell.alive == {CHILD}
    ensures next == cell.(marked := false) && after == a.(phase := Returned)
    ensures Reachable(h, Alone(next, after))
  {
    hide Reachable;
    var a1 := a.(phase := Removed(true));
    RemovalIsConfirmed(h, cell, a);
    next, after := cell.(marked := false), a.(phase := Returned);
    AloneActs(h, cell, a1, Onward(Settle(true)), next, after);
  }

  /** A local build up to its preflight. */
  lemma {:induction false} LocalPreflight(h: Host) returns (cell: Cell, a: Attempt)
    ensures Reachable(h, Alone(cell, a)) && a == Started(0, Build(false, false)).(phase := Preflight)
    ensures cell == Cell(Some(0), true, None, {})
  {
    hide Reachable;
    var c0, a0 := FREE.(holder := Some(0)), Started(0, Build(false, false));
    AloneTakes(h, Build(false, false));
    var a1 := a0.(phase := Admitted);
    AloneActs(h, c0, a0, Onward(ReadMarker), c0, a1);
    cell, a := c0.(marked := true), a0.(phase := Preflight);
    AloneActs(h, c0, a1, Onward(Mark(true, true)), cell, a);
  }

  /** A received build up to its preflight. */
  lemma {:induction false} ReceivedPreflight(h: Host, recipes: bool) returns (cell: Cell, a: Attempt)
    requires recipes ==> h.receivesRailpack
    ensures Reachable(h, Alone(cell, a)) && a == Started(0, Build(true, recipes)).(phase := Preflight, staged := true, ownership := true)
    ensures cell == Cell(Some(0), true, Some(Staging(0, false)), {})
  {
    hide Reachable;
    var c0, a0 := ReceivedUpload(h, recipes);
    cell, a := c0.(marked := true), a0.(phase := Preflight);
    AloneActs(h, c0, a0, Onward(Mark(true, true)), cell, a);
  }

  lemma {:induction false} ReceivedUpload(h: Host, recipes: bool) returns (cell: Cell, a: Attempt)
    requires recipes ==> h.receivesRailpack
    ensures Reachable(h, Alone(cell, a)) && a == Started(0, Build(true, recipes)).(phase := Admitted, staged := true, ownership := true)
    ensures cell == Cell(Some(0), false, Some(Staging(0, false)), {})
  {
    hide Reachable;
    var c0, a0 := FREE.(holder := Some(0)), Started(0, Build(true, recipes));
    AloneTakes(h, Build(true, recipes));
    var a1 := a0.(phase := Admitted);
    AloneActs(h, c0, a0, Onward(ReadMarker), c0, a1);
    var a2 := a1.(staged := true);
    cell, a := c0.(staging := Some(Staging(0, false))), a2.(ownership := true);
    AloneActs(h, c0, a1, OnFiles(CreateStaging), cell, a2);
    AloneActs(h, cell, a2, OnFiles(Share), cell, a);
  }

  ghost predicate MarkerProtects(h: Host)
  {
    forall s, slot {:trigger Reachable(h, s), CellOf(s, slot)} :: Reachable(h, s) ==> Guarded(CellOf(s, slot))
  }

  /** In all runs work that may be alive keeps its slot marked, exactly on these hosts. */
  lemma {:induction false} MarkerProtectsIff(h: Host)
    ensures MarkerProtects(h) <==> MarkerHost(h)
  {
    hide Reachable;
    if MarkerHost(h) {
      forall s, slot | Reachable(h, s)
        ensures Guarded(CellOf(s, slot))
      {
        AliveIsMarked(h, s, slot);
      }
    } else {
      var s := UnmarkedWork(h);
      assert CHILD in CellOf(s, 0).alive;
      assert !Guarded(CellOf(s, 0));
    }
  }

  lemma {:induction false} UnmarkedWork(h: Host) returns (s: System)
    requires !MarkerHost(h)
    ensures Reachable(h, s) && CellOf(s, 0).alive == {CHILD} && !CellOf(s, 0).marked
  {
    hide Reachable;
    if !h.gcConfigured {
      var cell, a := LocalPreflight(h);
      var next, after := ProbeIsSwallowed(h, cell, a);
      s := Alone(next, after);
    } else {
      var c0, a0 := FREE.(holder := Some(0)), Started(0, CacheClear);
      AloneTakes(h, CacheClear);
      var a1 := a0.(phase := Admitted);
      AloneActs(h, c0, a0, Onward(ReadMarker), c0, a1);
      var a2 := a1.(phase := Finishing, dropping := true);
      AloneActs(h, c0, a1, Onward(Provision(false, false)), c0, a2);
      var c3, a3 := c0.(alive := {CHILD}), a2.(child := Some(CHILD));
      assert c0.alive + {CHILD} == {CHILD};
      AloneActs(h, c0, a2, OnWork(Spawn(CHILD)), c3, a3);
      s := Alone(c3, a3);
    }
  }

  ghost predicate RootGoesUnderWork(s: System, event: Event, slot: nat)
  {
    RemovesRoot(s, event, slot) && CellOf(s, slot).alive != {}
  }

  ghost predicate RemovesUnderWork(s: System, event: Event, slot: nat)
  {
    RootGoesUnderWork(s, event, slot) || (RemovesPrepared(s, event, slot) && InUse(CellOf(s, slot)))
  }

  ghost predicate RootProtects(h: Host)
  {
    forall s, event, slot {:trigger Enabled(h, s, event), RootGoesUnderWork(s, event, slot)} ::
      Reachable(h, s) && Enabled(h, s, event) ==> !RootGoesUnderWork(s, event, slot)
  }

  ghost predicate StagingProtects(h: Host)
  {
    forall s, event, slot {:trigger Enabled(h, s, event), RemovesUnderWork(s, event, slot)} ::
      Reachable(h, s) && Enabled(h, s, event) ==> !RemovesUnderWork(s, event, slot)
  }

  /** In all runs the staging root is removed only when nothing alive could read it, exactly on these hosts. */
  lemma {:induction false} RootProtectsIff(h: Host)
    ensures RootProtects(h) <==> StagingHost(h)
  {
    hide Reachable, Enabled;
    if StagingHost(h) {
      forall s, event, slot | Reachable(h, s) && Enabled(h, s, event)
        ensures !RootGoesUnderWork(s, event, slot)
      {
        StagingOutlivesWork(h, s, event, slot);
      }
    } else {
      var s := StagedLeak(h);
      assert RootGoesUnderWork(s, Act(0, OnFiles(DropStaging)), 0);
    }
  }

  /** In all runs nothing in the staging root is, exactly on those of them that get no Railpack recipes to build. */
  lemma {:induction false} StagingProtectsIff(h: Host)
    ensures StagingProtects(h) <==> StagingHost(h) && !h.receivesRailpack
  {
    hide Reachable, Enabled;
    if h.receivesRailpack {
      var s := PreparedLeak(h);
      assert RemovesUnderWork(s, Act(0, OnFiles(DropPrepared)), 0);
    } else if StagingHost(h) {
      forall s, event, slot | Reachable(h, s) && Enabled(h, s, event)
        ensures !RemovesUnderWork(s, event, slot)
      {
        StagingOutlivesWork(h, s, event, slot);
      }
    } else {
      var s := StagedLeak(h);
      assert RemovesUnderWork(s, Act(0, OnFiles(DropStaging)), 0);
    }
  }

  lemma {:induction false} StagedLeak(h: Host) returns (s: System)
    requires !StagingHost(h)
    ensures Reachable(h, s) && Enabled(h, s, Act(0, OnFiles(DropStaging))) && RootGoesUnderWork(s, Act(0, OnFiles(DropStaging)), 0)
  {
    hide Reachable;
    var cell, a := LeakedUpload(h);
    s := Alone(cell, a);
    assert CHILD in CellOf(s, 0).alive;
  }

  /**
   A received Railpack build whose command is lost: the result is unknown and the slot stays marked, so the
   staging root is kept, but the inputs prepared in it are removed under the command.
   */
  lemma {:induction false} PreparedLeak(h: Host) returns (s: System)
    requires h.receivesRailpack
    ensures Reachable(h, s) && Enabled(h, s, Act(0, OnFiles(DropPrepared)))
    ensures RemovesPrepared(s, Act(0, OnFiles(DropPrepared)), 0) && DropsInDoubt(s, Act(0, OnFiles(DropPrepared)), 0)
    ensures CellOf(s, 0).marked && CellOf(s, 0).alive == {CHILD} && InUse(CellOf(s, 0))
  {
    hide Reachable;
    var c0, a0 := ReceivedPreflight(h, true);
    var a1 := a0.(phase := Working);
    AloneActs(h, c0, a0, Onward(Provision(true, true)), c0, a1);
    var c2, a2 := c0.(staging := Some(Staging(0, true))), a1.(prepared := true);
    AloneActs(h, c0, a1, OnFiles(Prepare), c2, a2);
    var cell, a := LostInDoubt(h, c2, a2);
    s := Alone(cell, a);
    assert CHILD in CellOf(s, 0).alive;
  }

  lemma {:induction false} LostInDoubt(h: Host, cell: Cell, a: Attempt) returns (next: Cell, after: Attempt)
    requires Reachable(h, Alone(cell, a)) && a.slot == 0 && a.phase.Working? && a.lock && a.ownership
    requires a.child.None? && !a.probing && a.helpers == {} && cell.alive == {} && !a.dropping
    ensures Reachable(h, Alone(next, after)) && next == cell.(alive := {CHILD})
    ensures after == a.(phase := Returned, unknown := true, lock := false)
  {
    hide Reachable;
    next := cell.(alive := {CHILD});
    assert cell.alive + {CHILD} == {CHILD};
    var a1 := a.(child := Some(CHILD));
    AloneActs(h, cell, a, OnWork(Spawn(CHILD)), next, a1);
    var a2 := a.(unknown := true);
    AloneActs(h, next, a1, OnWork(Lose), next, a2);
    var a3 := a2.(phase := Finishing);
    AloneActs(h, next, a2, Onward(Finish), next, a3);
    after := GivenUp(h, next, a3);
  }

  lemma {:induction false} GivenUp(h: Host, cell: Cell, a: Attempt) returns (after: Attempt)
    requires Reachable(h, Alone(cell, a)) && a.slot == 0 && a.phase.Finishing? && a.lock && a.ownership && a.unknown
    requires a.child.None? && cell.alive == {CHILD}
    ensures Reachable(h, Alone(cell, after)) && after == a.(phase := Returned, lock := false)
  {
    hide Reachable;
    RemovalIsConfirmed(h, cell, a);
    var a1, a2 := a.(phase := Removed(true)), a.(phase := Returned);
    AloneActs(h, cell, a1, Onward(Settle(true)), cell, a2);
    after := a2.(lock := false);
    AloneActs(h, cell, a2, OnFiles(DropLock), cell, after);
  }

  lemma {:induction false} LeakedUpload(h: Host) returns (next: Cell, after: Attempt)
    requires !StagingHost(h)
    ensures Reachable(h, Alone(next, after)) && next.alive == {CHILD} && next.staging.Some?
    ensures after.slot == 0 && after.phase.Returned? && after.staged && !after.prepared && !after.unknown
  {
    hide Reachable;
    var cell, a := ReceivedPreflight(h, false);
    if !h.gcConfigured {
      next, after := ProbeIsSwallowed(h, cell, a);
    } else {
      var a1 := a.(phase := Finishing, dropping := true);
      AloneActs(h, cell, a, Onward(Provision(false, false)), cell, a1);
      var c2, a2 := cell.(alive := {CHILD}), a1.(child := Some(CHILD));
      assert cell.alive + {CHILD} == {CHILD};
      AloneActs(h, cell, a1, OnWork(Spawn(CHILD)), c2, a2);
      next := c2;
      after := LostWhileDropping(h, c2, a2);
    }
  }

  lemma {:induction false} LostWhileDropping(h: Host, cell: Cell, a: Attempt) returns (after: Attempt)
    requires Reachable(h, Alone(cell, a)) && a.slot == 0 && a.phase.Finishing? && a.dropping && a.child.Some? && !a.probing
    requires a.lock
    ensures Reachable(h, Alone(cell, after)) && after == a.(phase := Returned, child := None, leaked := true)
  {
    hide Reachable;
    var a1 := a.(phase := Removed(false), child := None, leaked := true);
    AloneActs(h, cell, a, OnWork(Lose), cell, a1);
    after := a1.(phase := Returned);
    AloneActs(h, cell, a1, Onward(Settle(false)), cell, after);
  }
}
