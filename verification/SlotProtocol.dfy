/**
 The build-slot ownership and quarantine protocol (core/crates/ployz-build/src: builder.rs, execution.rs,
 lib.rs, upload.rs, policy.rs) as a transition system.

 Any number of attempts compete for any number of slots. A slot is an exclusive file lock, a persistent
 marker (the lock file is not empty), an upload staging directory, and the work started on it: Docker
 commands, the builder's worker and helper containers. Work ends on its own time; an attempt only learns
 of it by observing. Any attempt may crash between any two steps, which releases its lock and leaves
 marker, staging and work as they are.

 An attempt does the steps of the code in the code's order. It may do more than the code would (start
 another command after one was lost, say): what holds for all these runs holds for the code's.
 */
module SlotProtocol {
  import opened Common

  type Id = nat

  /** What the execution host is like. */
  datatype Host = Host(
    /** A garbage-collection target is configured (`cache_bytes` or `min_free_bytes`). */
    gcConfigured: bool,
    /** Writing the marker may fail. */
    markerCanFail: bool,
    /** `clear_cache` is in use. */
    clearsCache: bool,
    /** Received builds may carry Railpack recipes. */
    receivesRailpack: bool)

  datatype Kind =
    /** A build, with upload staging when it was received; `recipes`: it has Railpack targets. */
    | Build(received: bool, recipes: bool)
    /** `check_capabilities` */
    | Capabilities
    /** `clear_slot_cache` */
    | CacheClear
    /** `cleanup_abandoned_slot` */
    | Restart

  datatype Role = Command | Worker | Helper

  datatype Work = Work(attempt: Id, serial: nat, role: Role)

  /** A staging root and, inside it, the inputs that `railpack::prepare` generates (`private/railpack`). */
  datatype Staging = Staging(owner: Id, prepared: bool)

  datatype Cell = Cell(holder: Option<Id>, marked: bool, staging: Option<Staging>, alive: set<Work>)

  datatype Phase =
    | Locked
    /** The marker was set: the lock is only dropped. */
    | Refused
    | Admitted
    | Preflight
    | Working
    | Finishing
    | Removed(confirmed: bool)
    /** The result is decided and values are being dropped. */
    | Returned
    /** Restart found no marker. */
    | Sweeping
    /** Restart found the marker. */
    | Restarting

  datatype Attempt = Attempt(
    kind: Kind, slot: nat, phase: Phase,
    /** The handle that `Admission` or `Builder` owns, and the `_ownership` clone. */
    lock: bool, ownership: bool,
    /** Owns an `Upload` in this slot's staging directory. */
    staged: bool,
    /** Owns the `Preparation` in that directory. */
    prepared: bool,
    /** The result says that termination is unknown. */
    unknown: bool,
    /** The Docker command being waited for, and whether it is the disk-size probe of `collect_cache`. */
    child: Option<Work>, probing: bool,
    helpers: set<Work>,
    /** `acquire` failed to write the marker, so `Builder` is dropped instead of finished. */
    dropping: bool,
    /** The drop lost its removal command; no result says so. */
    leaked: bool)

  /** Steps on handles and on files in the staging directory. */
  datatype FileStep =
    | Share
    | RemoveStaging
    | CreateStaging
    | Prepare
    | DropPrepared
    | DropLock
    | DropStaging
    | DropOwnership

  /** Steps that start Docker commands and containers, and those that learn what became of them. */
  datatype WorkStep =
    | Spawn(work: Work)
    | Reap
    | Lose
    | Probe(work: Work)
    | Swallow
    | StartWorker(work: Work)
    | StartHelper(work: Work)
    | ConfirmHelper(work: Work)
    | LoseHelper(work: Work)

  /** Steps to the next phase. `written`, `truncated`: whether a failing write or clear still changed the marker. */
  datatype Turn =
    | ReadMarker
    | Mark(ok: bool, written: bool)
    | Provision(ok: bool, written: bool)
    | FailPreflight(truncated: bool)
    | Finish
    | ConfirmRemoval
    | FailRemoval
    | Settle(truncated: bool)
    | Abandon

  datatype Action = OnFiles(step: FileStep) | OnWork(task: WorkStep) | Onward(turn: Turn)

  datatype Event = Take(slot: nat, kind: Kind) | Act(id: Id, action: Action) | Crash(id: Id) | Die(slot: nat, work: Work)
    | Operator(slot: nat)

  datatype System = System(cells: map<nat, Cell>, attempts: map<Id, Attempt>, next: Id)

  const FREE := Cell(None, false, None, {})
  const INITIAL := System(map[], map[], 0)

  function CellOf(s: System, slot: nat): Cell
  {
    if slot in s.cells then s.cells[slot] else FREE
  }

  predicate Holds(a: Attempt)
  {
    a.lock || a.ownership
  }

  predicate Stages(kind: Kind)
  {
    kind.Capabilities? || (kind.Build? && kind.received)
  }

  predicate Fresh(id: Id, cell: Cell, work: Work)
  {
    work.attempt == id && work !in cell.alive
  }

  predicate CanWork(phase: Phase)
  {
    phase.Preflight? || phase.Working? || phase.Finishing? || phase.Restarting?
  }

  // ---- Steps of one attempt on its slot ----

  predicate FilesAllowed(cell: Cell, a: Attempt, step: FileStep)
  {
    match step
    case Share => a.phase.Admitted? && !a.ownership && (if a.kind.Capabilities? then !a.staged else Stages(a.kind) && a.staged)
    case RemoveStaging => a.phase.Sweeping? || ReadyToStage(a)
    case CreateStaging => ReadyToStage(a) && cell.staging.None?
    case Prepare => a.phase.Working? && a.kind == Build(true, true) && a.staged && !a.prepared && a.child.None? && !a.unknown
    // When `prepare` fails after creating the directory, else after `finish` gave up its handle.
    case DropPrepared =>
      a.prepared && ((a.phase.Working? && a.child.None? && a.helpers == {}) || (a.phase.Returned? && !a.lock))
    // An upload is dropped before its own lock handle, but after the handle that finishing takes.
    case DropLock => (a.phase.Returned? || a.phase.Refused?) && a.lock && (a.staged ==> a.ownership)
    case DropStaging => a.phase.Returned? && a.staged && !a.prepared
    // `_ownership` is declared before the upload, so it is dropped after it.
    case DropOwnership => a.phase.Returned? && a.ownership && !a.staged
  }

  predicate ReadyToStage(a: Attempt)
  {
    a.phase.Admitted? && Stages(a.kind) && !a.staged && (a.kind.Capabilities? ==> a.ownership)
  }

  predicate WorkAllowed(h: Host, id: Id, cell: Cell, a: Attempt, task: WorkStep)
  {
    match task
    case Spawn(work) => CanWork(a.phase) && a.child.None? && Fresh(id, cell, work) && work.role.Command?
    case Reap => a.child.Some? && a.child.value !in cell.alive
    case Lose => a.child.Some? && !a.probing
    case Probe(work) =>
      a.phase.Working? && !h.gcConfigured && a.child.None? && !a.unknown && Fresh(id, cell, work) && work.role.Command?
    case Swallow => a.probing && a.child.Some?
    case StartWorker(work) => a.phase.Working? && Fresh(id, cell, work) && work.role.Worker?
    case StartHelper(work) => a.phase.Working? && Fresh(id, cell, work) && work.role.Helper?
    case ConfirmHelper(work) => work in a.helpers && work !in cell.alive
    case LoseHelper(work) => work in a.helpers
  }

  predicate TurnAllowed(h: Host, cell: Cell, a: Attempt, turn: Turn)
  {
    match turn
    case ReadMarker => a.phase.Locked?
    case Mark(ok, _) =>
      && a.phase.Admitted? && (a.kind.Build? || a.kind.Capabilities?) && (Stages(a.kind) ==> a.staged && a.ownership)
      && (!ok ==> h.markerCanFail)
    case Provision(ok, _) =>
      && a.child.None? && !a.unknown
      && (a.phase.Preflight? || (a.phase.Admitted? && a.kind.CacheClear?))
      && (!ok ==> h.markerCanFail)
    case FailPreflight(_) => a.phase.Preflight? && a.child.None?
    case Finish => a.phase.Working? && a.child.None? && a.helpers == {}
    case ConfirmRemoval => a.phase.Finishing? && a.child.None? && forall work :: work in cell.alive ==> !work.role.Worker?
    case FailRemoval => a.phase.Finishing? && a.child.None?
    case Settle(_) => a.phase.Removed?
    case Abandon => a.phase.Admitted? || a.phase.Sweeping? || (a.phase.Restarting? && a.child.None?)
  }

  predicate Allowed(h: Host, id: Id, cell: Cell, a: Attempt, action: Action)
  {
    match action
    case OnFiles(step) => FilesAllowed(cell, a, step)
    case OnWork(task) => WorkAllowed(h, id, cell, a, task)
    case Onward(turn) => TurnAllowed(h, cell, a, turn)
  }

  function StagingAfter(id: Id, cell: Cell, a: Attempt, step: FileStep): Option<Staging>
  {
    match step
    case RemoveStaging => None
    case CreateStaging => Some(Staging(id, false))
    case Prepare => Some(Staging(id, true))
    case DropPrepared => Some(Staging(id, false))
    case DropStaging => if a.unknown then cell.staging else None
    case _ => cell.staging
  }

  function AliveAfter(cell: Cell, task: WorkStep): set<Work>
  {
    match task
    case Spawn(work) => cell.alive + {work}
    case Probe(work) => cell.alive + {work}
    case StartWorker(work) => cell.alive + {work}
    case StartHelper(work) => cell.alive + {work}
    case _ => cell.alive
  }

  predicate MarkedAfter(cell: Cell, a: Attempt, turn: Turn)
  {
    match turn
    case Mark(ok, written) => cell.marked || ok || written
    case Provision(ok, written) => cell.marked || ok || written
    case FailPreflight(truncated) => cell.marked && (a.unknown || !truncated)
    case Settle(truncated) => cell.marked && (a.phase != Removed(true) || a.unknown || !truncated)
    case _ => cell.marked
  }

  /** The slot after a step, the lock aside. */
  function CellAfter(id: Id, cell: Cell, a: Attempt, action: Action): (after: Cell)
    ensures after.holder == cell.holder
  {
    match action
    case OnFiles(step) => cell.(staging := StagingAfter(id, cell, a, step))
    case OnWork(task) => cell.(alive := AliveAfter(cell, task))
    case Onward(turn) => cell.(marked := MarkedAfter(cell, a, turn))
  }

  function AfterFiles(a: Attempt, step: FileStep): (after: Attempt)
    ensures after.kind == a.kind && after.slot == a.slot
    ensures after.unknown == a.unknown && after.child == a.child && after.helpers == a.helpers
    ensures after.probing == a.probing && after.dropping == a.dropping && after.leaked == a.leaked
  {
    match step
    case Share => a.(ownership := true)
    case RemoveStaging => a
    case CreateStaging => a.(staged := true)
    case Prepare => a.(prepared := true)
    case DropPrepared => a.(prepared := false)
    case DropLock => a.(lock := false, phase := Returned)
    case DropStaging => a.(staged := false)
    case DropOwnership => a.(ownership := false)
  }

  function AfterWork(a: Attempt, task: WorkStep): (after: Attempt)
    ensures after.kind == a.kind && after.slot == a.slot
    ensures after.lock == a.lock && after.ownership == a.ownership && after.staged == a.staged && after.prepared == a.prepared
    ensures after.dropping == a.dropping && (after.probing ==> a.probing || task.Probe?)
  {
    match task
    case Spawn(work) => a.(child := Some(work))
    case Reap => a.(child := None, probing := false)
    case Lose =>
      if !a.phase.Finishing? then a.(child := None, unknown := true)
      else if a.dropping then a.(child := None, phase := Removed(false), leaked := true)
      else a.(child := None, phase := Removed(false), unknown := true)
    case Probe(work) => a.(child := Some(work), probing := true)
    case Swallow => a.(child := None, probing := false)
    case StartWorker(_) => a
    case StartHelper(work) => a.(helpers := a.helpers + {work})
    case ConfirmHelper(work) => a.(helpers := a.helpers - {work})
    case LoseHelper(work) => a.(helpers := a.helpers - {work}, unknown := true)
  }

  function PhaseAfter(kind: Kind, marked: bool, turn: Turn): Phase
  {
    match turn
    case ReadMarker =>
      if kind.Restart? then if marked then Restarting else Sweeping
      else if marked then Refused else Admitted
    case Mark(ok, _) => if ok then Preflight else Returned
    case Provision(ok, _) => if ok then Working else Finishing
    case FailPreflight(_) => Returned
    case Finish => Finishing
    case ConfirmRemoval => Removed(true)
    case FailRemoval => Removed(false)
    case Settle(_) => Returned
    case Abandon => Returned
  }

  function AfterTurn(cell: Cell, a: Attempt, turn: Turn): (after: Attempt)
    ensures after.kind == a.kind && after.slot == a.slot
    ensures after.lock == a.lock && after.ownership == a.ownership && after.staged == a.staged && after.prepared == a.prepared
    ensures after.child == a.child && after.helpers == a.helpers && after.probing == a.probing && after.leaked == a.leaked
    ensures after.dropping ==> a.dropping || (turn.Provision? && !turn.ok)
  {
    a.(
      phase := PhaseAfter(a.kind, cell.marked, turn),
      dropping := a.dropping || (turn.Provision? && !turn.ok),
      unknown := a.unknown || (turn.FailRemoval? && !a.dropping))
  }

  function AttemptAfter(cell: Cell, a: Attempt, action: Action): (after: Attempt)
    ensures after.kind == a.kind && after.slot == a.slot
  {
    match action
    case OnFiles(step) => AfterFiles(a, step)
    case OnWork(task) => AfterWork(a, task)
    case Onward(turn) => AfterTurn(cell, a, turn)
  }

  /** The lock goes with its last handle. */
  function Unlocked(cell: Cell, a: Attempt): Cell
  {
    if Holds(a) then cell else cell.(holder := None)
  }

  // ---- Steps of the whole system ----

  predicate Enabled(h: Host, s: System, event: Event)
  {
    match event
    case Take(slot, kind) =>
      && CellOf(s, slot).holder.None?
      && (kind.CacheClear? ==> h.clearsCache) && (kind == Build(true, true) ==> h.receivesRailpack)
    case Act(id, action) => id in s.attempts && Allowed(h, id, CellOf(s, s.attempts[id].slot), s.attempts[id], action)
    case Crash(id) => id in s.attempts
    case Die(slot, work) => work in CellOf(s, slot).alive
    // Only when nobody holds the slot and nothing runs on it.
    case Operator(slot) => CellOf(s, slot).holder.None? && CellOf(s, slot).alive == {}
  }

  function Started(slot: nat, kind: Kind): Attempt
  {
    Attempt(kind, slot, Locked, true, false, false, false, false, None, false, {}, false, false)
  }

  function Next(s: System, event: Event): System
  {
    match event
    case Take(slot, kind) =>
      System(s.cells[slot := CellOf(s, slot).(holder := Some(s.next))], s.attempts[s.next := Started(slot, kind)], s.next + 1)
    case Act(id, action) =>
      if id !in s.attempts then s
      else
        var a := s.attempts[id];
        var cell, after := CellAfter(id, CellOf(s, a.slot), a, action), AttemptAfter(CellOf(s, a.slot), a, action);
        s.(cells := s.cells[a.slot := Unlocked(cell, after)], attempts := s.attempts[id := after])
    case Crash(id) =>
      if id !in s.attempts then s
      else
        var a := s.attempts[id];
        s.(cells := if Holds(a) then s.cells[a.slot := CellOf(s, a.slot).(holder := None)] else s.cells,
           attempts := s.attempts - {id})
    case Die(slot, work) => s.(cells := s.cells[slot := CellOf(s, slot).(alive := CellOf(s, slot).alive - {work})])
    case Operator(slot) => s.(cells := s.cells[slot := CellOf(s, slot).(marked := false)])
  }

  predicate Legal(h: Host, s: System, events: seq<Event>)
    decreases |events|
  {
    events == [] || (Enabled(h, s, events[0]) && Legal(h, Next(s, events[0]), events[1..]))
  }

  function Run(s: System, events: seq<Event>): System
    decreases |events|
  {
    if events == [] then s else Run(Next(s, events[0]), events[1..])
  }

  ghost predicate Reachable(h: Host, s: System)
  {
    exists events :: Legal(h, INITIAL, events) && Run(INITIAL, events) == s
  }

  // ---- Ownership, on every host ----

  /** Handles and staging of an attempt, by phase. */
  predicate HandlesFit(a: Attempt)
  {
    && (!a.phase.Returned? ==> a.lock)
    && (a.phase.Locked? || a.phase.Refused? ==> !a.ownership)
    && (a.staged ==> Holds(a) && Stages(a.kind) && (a.phase.Admitted? || a.phase.Returned? || a.ownership))
    && (a.prepared ==> a.staged && a.ownership && a.kind == Build(true, true) && !a.phase.Admitted?)
    && (a.phase.Sweeping? || a.phase.Restarting? ==> a.kind.Restart?)
    && (a.kind.Restart? ==> a.phase.Locked? || a.phase.Sweeping? || a.phase.Restarting? || a.phase.Returned?)
  }

  /** What an attempt is waiting for and has lost, by phase. */
  predicate WorkFits(a: Attempt)
  {
    && (a.child.Some? ==> CanWork(a.phase))
    && (a.helpers != {} ==> a.phase.Working?)
    && (a.probing ==> a.phase.Working? && a.child.Some?)
    && (a.phase.Locked? || a.phase.Admitted? || a.phase.Refused? || a.phase.Sweeping? ==> !a.unknown)
    && (a.dropping ==> a.phase.Finishing? || a.phase.Removed? || a.phase.Returned?)
    && (a.leaked ==> a.dropping && (a.phase == Removed(false) || a.phase.Returned?))
  }

  predicate Coherent(a: Attempt)
  {
    HandlesFit(a) && WorkFits(a)
  }

  /** An attempt with a handle holds its slot, and its staging is on the disk. */
  predicate Owns(id: Id, cell: Cell, a: Attempt)
  {
    Coherent(a) && (Holds(a) ==> cell.holder == Some(id)) && (a.staged ==> cell.staging == Some(Staging(id, a.prepared)))
  }

  lemma {:induction false} ChangeKeepsCoherence(h: Host, id: Id, cell: Cell, a: Attempt, action: Action)
    requires Coherent(a) && Allowed(h, id, cell, a, action)
    ensures Holds(a) && Coherent(AttemptAfter(cell, a, action))
  {
    hide Coherent, FilesAllowed, WorkAllowed, TurnAllowed, AfterFiles, AfterWork, AfterTurn;
    match action {
      case OnFiles(step) => FilesKeepCoherence(cell, a, step);
      case OnWork(task) => WorkKeepsCoherence(h, id, cell, a, task);
      case Onward(turn) => TurnKeepsCoherence(h, cell, a, turn);
    }
  }

  lemma {:induction false} FilesKeepCoherence(cell: Cell, a: Attempt, step: FileStep)
    requires Coherent(a) && FilesAllowed(cell, a, step)
    ensures Holds(a) && Coherent(AfterFiles(a, step))
  {
  }

  lemma {:induction false} WorkKeepsCoherence(h: Host, id: Id, cell: Cell, a: Attempt, task: WorkStep)
    requires Coherent(a) && WorkAllowed(h, id, cell, a, task)
    ensures Holds(a) && Coherent(AfterWork(a, task))
  {
  }

  lemma {:induction false} TurnKeepsCoherence(h: Host, cell: Cell, a: Attempt, turn: Turn)
    requires Coherent(a) && TurnAllowed(h, cell, a, turn)
    ensures Holds(a) && Coherent(AfterTurn(cell, a, turn))
  {
  }

  lemma {:induction false} ChangeKeepsOwnership(h: Host, id: Id, cell: Cell, a: Attempt, action: Action)
    requires Owns(id, cell, a) && Allowed(h, id, cell, a, action)
    ensures Holds(a)
    ensures var (next, after) := (CellAfter(id, cell, a, action), AttemptAfter(cell, a, action));
      Owns(id, Unlocked(next, after), after)
  {
    hide Coherent, FilesAllowed, WorkAllowed, TurnAllowed, AfterFiles, AfterWork, AfterTurn;
    ChangeKeepsCoherence(h, id, cell, a, action);
    if action.OnFiles? {
      FilesKeepStaging(id, cell, a, action.step);
    }
  }

  lemma {:induction false} FilesKeepStaging(id: Id, cell: Cell, a: Attempt, step: FileStep)
    requires Owns(id, cell, a) && FilesAllowed(cell, a, step)
    ensures AfterFiles(a, step).staged ==> StagingAfter(id, cell, a, step) == Some(Staging(id, AfterFiles(a, step).prepared))
  {
  }

  ghost predicate LockInvariant(s: System)
  {
    && (forall id {:trigger id in s.attempts} :: id in s.attempts ==>
          id < s.next && Owns(id, CellOf(s, s.attempts[id].slot), s.attempts[id]))
    && (forall slot {:trigger CellOf(s, slot)} :: HeldByHolder(s, slot))
  }

  predicate HeldByHolder(s: System, slot: nat)
  {
    CellOf(s, slot).holder.Some? ==>
      var id := CellOf(s, slot).holder.value;
      id in s.attempts && s.attempts[id].slot == slot && Holds(s.attempts[id])
  }

  /** Without a handle an attempt does not depend on its slot. */
  lemma {:induction false} BystanderOwns(id: Id, before: Cell, after: Cell, a: Attempt)
    requires Owns(id, before, a) && (!Holds(a) || (before.holder == after.holder && before.staging == after.staging))
    ensures Owns(id, after, a)
  {
  }

  lemma {:induction false} StepKeepsLocks(h: Host, s: System, event: Event)
    requires LockInvariant(s) && Enabled(h, s, event)
    ensures LockInvariant(Next(s, event))
  {
    match event {
      case Take(slot, kind) => TakeKeepsLocks(h, s, slot, kind);
      case Act(id, action) => ActKeepsLocks(h, s, id, action);
      case Crash(id) => CrashKeepsLocks(s, id);
      case Die(slot, _) => QuietKeepsLocks(s, Next(s, event), slot);
      case Operator(slot) => QuietKeepsLocks(s, Next(s, event), slot);
    }
  }

  lemma {:induction false} TakeKeepsLocks(h: Host, s: System, slot: nat, kind: Kind)
    requires LockInvariant(s) && Enabled(h, s, Take(slot, kind))
    ensures LockInvariant(Next(s, Take(slot, kind)))
  {
    hide Coherent;
    var t := Next(s, Take(slot, kind));
    StartedIsCoherent(slot, kind);
    forall id | id in t.attempts
      ensures id < t.next && Owns(id, CellOf(t, t.attempts[id].slot), t.attempts[id])
    {
      if id != s.next {
        assert id in s.attempts && t.attempts[id] == s.attempts[id];
      }
    }
    forall k
      ensures HeldByHolder(t, k)
    {
      assert HeldByHolder(s, k);
      assert k != slot ==> CellOf(t, k) == CellOf(s, k);
    }
  }

  lemma {:induction false} StartedIsCoherent(slot: nat, kind: Kind)
    ensures Coherent(Started(slot, kind))
  {
  }

  /** A handle is a hold on the slot, so no other attempt has one. */
  lemma {:induction false} OnlyOneHolds(s: System, a: Id, b: Id)
    requires LockInvariant(s) && a in s.attempts && b in s.attempts
    requires s.attempts[a].slot == s.attempts[b].slot && Holds(s.attempts[a]) && Holds(s.attempts[b])
    ensures a == b
  {
  }

  lemma {:induction false} ActKeepsLocks(h: Host, s: System, id: Id, action: Action)
    requires LockInvariant(s) && Enabled(h, s, Act(id, action))
    ensures LockInvariant(Next(s, Act(id, action)))
  {
    hide Allowed, CellAfter, AttemptAfter, Coherent;
    var t, a := Next(s, Act(id, action)), s.attempts[id];
    var slot := a.slot;
    ChangeKeepsOwnership(h, id, CellOf(s, slot), a, action);
    forall k | k in t.attempts
      ensures k < t.next && Owns(k, CellOf(t, t.attempts[k].slot), t.attempts[k])
    {
      if k != id {
        assert k in s.attempts && t.attempts[k] == s.attempts[k];
        if s.attempts[k].slot == slot {
          assert !Holds(s.attempts[k]) by {
            if Holds(s.attempts[k]) { OnlyOneHolds(s, id, k); }
          }
          BystanderOwns(k, CellOf(s, slot), CellOf(t, slot), s.attempts[k]);
        }
      }
    }
    forall k
      ensures HeldByHolder(t, k)
    {
      assert HeldByHolder(s, k);
      assert k != slot ==> CellOf(t, k) == CellOf(s, k);
    }
  }

  lemma {:induction false} CrashKeepsLocks(s: System, id: Id)
    requires LockInvariant(s) && id in s.attempts
    ensures LockInvariant(Next(s, Crash(id)))
  {
    hide Coherent;
    var t, a := Next(s, Crash(id)), s.attempts[id];
    forall k | k in t.attempts
      ensures k < t.next && Owns(k, CellOf(t, t.attempts[k].slot), t.attempts[k])
    {
      assert k in s.attempts && t.attempts[k] == s.attempts[k];
      if s.attempts[k].slot == a.slot {
        if Holds(s.attempts[k]) && Holds(a) { OnlyOneHolds(s, id, k); }
        BystanderOwns(k, CellOf(s, a.slot), CellOf(t, a.slot), s.attempts[k]);
      }
    }
    forall k
      ensures HeldByHolder(t, k)
    {
      assert HeldByHolder(s, k);
      assert k != a.slot ==> CellOf(t, k) == CellOf(s, k);
    }
  }

  lemma {:induction false} QuietKeepsLocks(s: System, t: System, slot: nat)
    requires LockInvariant(s) && t.attempts == s.attempts && t.next == s.next
    requires forall k :: k != slot ==> CellOf(t, k) == CellOf(s, k)
    requires CellOf(t, slot).holder == CellOf(s, slot).holder && CellOf(t, slot).staging == CellOf(s, slot).staging
    ensures LockInvariant(t)
  {
    hide Coherent, CellOf;
    forall k | k in t.attempts
      ensures k < t.next && Owns(k, CellOf(t, t.attempts[k].slot), t.attempts[k])
    {
      assert k in s.attempts;
      BystanderOwns(k, CellOf(s, s.attempts[k].slot), CellOf(t, s.attempts[k].slot), s.attempts[k]);
    }
    forall k
      ensures HeldByHolder(t, k)
    {
      assert HeldByHolder(s, k);
    }
  }

  lemma {:induction false} RunKeepsLocks(h: Host, s: System, events: seq<Event>)
    requires LockInvariant(s) && Legal(h, s, events)
    ensures LockInvariant(Run(s, events))
    decreases |events|
  {
    hide LockInvariant, Next, Enabled;
    if events != [] {
      StepKeepsLocks(h, s, events[0]);
      RunKeepsLocks(h, Next(s, events[0]), events[1..]);
    }
  }

  /** On every host, in every reachable state, no slot has two owners. */
  lemma {:induction false} OneOwner(h: Host, s: System, a: Id, b: Id)
    requires Reachable(h, s) && a in s.attempts && b in s.attempts
    requires s.attempts[a].slot == s.attempts[b].slot && Holds(s.attempts[a]) && Holds(s.attempts[b])
    ensures a == b
  {
    ReachableKeepsLocks(h, s);
    OnlyOneHolds(s, a, b);
  }

  lemma {:induction false} ReachableKeepsLocks(h: Host, s: System)
    requires Reachable(h, s)
    ensures LockInvariant(s)
  {
    var events :| Legal(h, INITIAL, events) && Run(INITIAL, events) == s;
    forall slot
      ensures HeldByHolder(INITIAL, slot)
    {
    }
    RunKeepsLocks(h, INITIAL, events);
  }

  /** On every host, staging and what is prepared in it are created or removed only by the attempt that holds the slot's lock. */
  lemma {:induction false} StagingChangesUnderLock(h: Host, s: System, event: Event, slot: nat)
    requires Reachable(h, s) && Enabled(h, s, event)
    requires CellOf(Next(s, event), slot).staging != CellOf(s, slot).staging
    ensures event.Act? && s.attempts[event.id].slot == slot && CellOf(s, slot).holder == Some(event.id)
  {
    hide Reachable, Allowed, CellAfter, AttemptAfter, Coherent;
    ReachableKeepsLocks(h, s);
    if event.Act? {
      ChangeKeepsOwnership(h, event.id, CellOf(s, s.attempts[event.id].slot), s.attempts[event.id], event.action);
    }
  }
}
