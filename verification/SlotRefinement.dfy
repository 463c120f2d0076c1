/**
 `Builder::finish` as code (core/crates/ployz-build/src/builder.rs:201-240) and as steps of the slot
 protocol: both leave the same marker and agree on what is unknown.
 */
module SlotRefinement {
  import opened Common
  import opened BuildErrors
  import P = SlotProtocol

  /** How the removal inside `finish` shows in the protocol. */
  function Removal(confirmed: bool): P.Action
  {
    P.Onward(if confirmed then P.ConfirmRemoval else P.FailRemoval)
  }

  /** Removal and settling as steps: when they are enabled, and what they leave. */
  lemma {:induction false} RemovalSettles(h: P.Host, id: P.Id, cell: P.Cell, a: P.Attempt, confirmed: bool, truncated: bool)
    requires a.phase.Finishing? && a.child.None? && !a.dropping
    requires confirmed ==> forall work :: work in cell.alive ==> !work.role.Worker?
    ensures P.Allowed(h, id, cell, a, Removal(confirmed)) && P.CellAfter(id, cell, a, Removal(confirmed)) == cell
    ensures var (removed, settling) := (P.AttemptAfter(cell, a, Removal(confirmed)), P.Onward(P.Settle(truncated)));
      var (next, after) := (P.CellAfter(id, cell, removed, settling), P.AttemptAfter(cell, removed, settling));
      && P.Allowed(h, id, cell, removed, settling)
      && next == cell.(marked := cell.marked && !(confirmed && !a.unknown && truncated))
      && after.phase.Returned? && (after.unknown <==> a.unknown || !confirmed)
  {
    hide P.Allowed, P.CellAfter, P.AttemptAfter, Removal;
    RemovalSteps(h, id, cell, a, confirmed);
    SettlingSteps(h, id, cell, P.AttemptAfter(cell, a, Removal(confirmed)), truncated);
  }

  lemma {:induction false} RemovalSteps(h: P.Host, id: P.Id, cell: P.Cell, a: P.Attempt, confirmed: bool)
    requires a.phase.Finishing? && a.child.None? && !a.dropping
    requires confirmed ==> forall work :: work in cell.alive ==> !work.role.Worker?
    ensures P.Allowed(h, id, cell, a, Removal(confirmed)) && P.CellAfter(id, cell, a, Removal(confirmed)) == cell
    ensures var removed := P.AttemptAfter(cell, a, Removal(confirmed));
      removed.phase == P.Removed(confirmed) && (removed.unknown <==> a.unknown || !confirmed)
  {
  }

  lemma {:induction false} SettlingSteps(h: P.Host, id: P.Id, cell: P.Cell, a: P.Attempt, truncated: bool)
    requires a.phase.Removed?
    ensures var settling := P.Onward(P.Settle(truncated));
      var (next, after) := (P.CellAfter(id, cell, a, settling), P.AttemptAfter(cell, a, settling));
      && P.Allowed(h, id, cell, a, settling)
      && next == cell.(marked := cell.marked && !(a.phase.confirmed && !a.unknown && truncated))
      && after.phase.Returned? && after.unknown == a.unknown
  {
  }

  /**
   Finishing with a result is the removal step followed by settling: the steps are enabled, the marker goes
   exactly when `finish` truncates it, and the attempt ends unknown exactly when `finish` returns an unknown
   outcome.
   */
  lemma {:induction false} FinishIsSteps<T>(
      h: P.Host, id: P.Id, cell: P.Cell, a: P.Attempt, result: Outcome<T>, cleanup: Outcome<()>, cleared: Outcome<()>,
      truncated: bool, cancelled: bool)
    requires a.phase.Finishing? && a.child.None? && !a.dropping && (a.unknown <==> Unknown(result))
    requires cleanup.Ok? ==> forall work :: work in cell.alive ==> !work.role.Worker?
    requires (cleared.Ok? ==> truncated) && (cleared.Err? ==> !IsUnknown(cleared.error))
    ensures var (removal, settling) := (Removal(cleanup.Ok?), P.Onward(P.Settle(truncated)));
      var removed := P.AttemptAfter(cell, a, removal);
      var (next, after) := (P.CellAfter(id, cell, removed, settling), P.AttemptAfter(cell, removed, settling));
      && P.Allowed(h, id, cell, a, removal) && P.CellAfter(id, cell, a, removal) == cell
      && P.Allowed(h, id, cell, removed, settling)
      && next == cell.(marked := cell.marked && !(Clears(result, cleanup) && truncated))
      && after.phase.Returned?
      && (after.unknown <==> Unknown(Finished(result, cleanup, cleared, cancelled)))
  {
    hide Finished, Show, Removal, P.Allowed, P.AttemptAfter, P.CellAfter;
    FinishKeeps(result, cleanup, cleared, cancelled);
    RemovalSettles(h, id, cell, a, cleanup.Ok?, truncated);
  }
}
