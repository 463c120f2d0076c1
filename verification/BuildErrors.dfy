/**
 Errors of a build attempt and how failures combine (core/crates/ployz-build/src/lib.rs, builder.rs): an
 attempt whose termination is unknown never becomes known again, and the first failure keeps its stage.
 */
module BuildErrors {
  import opened Common

  datatype Stage = Admission | Queued | Upload | Preparation | Building | Output | Cleanup | Push

  datatype BuildError =
    | AtStage(at: Stage, source: BuildError)
    | Busy
    | Cancelled
    | Prerequisite(text: string)
    | Request(text: string)
    | Docker(action: string, diagnostic: string)
    | TimedOut(seconds: nat)
    | UncertainTermination(text: string)
    | BadResult(text: string)

  type Outcome<T> = Result<T, BuildError>

  function Decimal(n: nat): string
  {
    (if n < 10 then [] else Decimal(n / 10)) + [('0' as int + n % 10) as char]
  }

  function Show(error: BuildError): string
  {
    match error
    case AtStage(_, source) => Show(source)
    case Busy => "the Machine builder is busy; retry after the active Build finishes"
    case Cancelled => "the Build was cancelled and terminated"
    case Prerequisite(text) => text
    case Request(text) => text
    case Docker(action, diagnostic) => action + " failed: " + diagnostic
    case TimedOut(seconds) => "the build exceeded its " + Decimal(seconds) + "s execution timeout and was terminated"
    case UncertainTermination(text) => "build resource cleanup could not be confirmed: " + text
    case BadResult(text) => text
  }

  function StageOf(error: BuildError): Stage
  {
    match error
    case AtStage(at, _) => at
    case Busy => Admission
    case Prerequisite(_) => Preparation
    case Request(_) => Preparation
    case BadResult(_) => Output
    case UncertainTermination(_) => Cleanup
    case _ => Building
  }

  /** An error nobody gave a stage: what its stage says of it. */
  lemma {:induction false} StageTells(error: BuildError)
    requires !error.AtStage?
    ensures StageOf(error) == Admission <==> error.Busy?
    ensures StageOf(error) == Preparation <==> error.Prerequisite? || error.Request?
    ensures StageOf(error) == Building <==> error.Cancelled? || error.Docker? || error.TimedOut?
    ensures StageOf(error) == Output <==> error.BadResult?
    ensures StageOf(error) == Cleanup <==> IsUnknown(error)
  {
  }

  predicate IsUnknown(error: BuildError)
  {
    match error
    case AtStage(_, source) => IsUnknown(source)
    case UncertainTermination(_) => true
    case _ => false
  }

  predicate Unknown<T>(outcome: Outcome<T>)
  {
    outcome.Err? && IsUnknown(outcome.error)
  }

  function WithLaterFailure(first: BuildError, later: BuildError): BuildError
  {
    if IsUnknown(later) && !IsUnknown(first) then
      AtStage(StageOf(first), UncertainTermination(Show(first) + "; " + Show(later)))
    else first
  }

  lemma {:induction false} LaterFailureKeeps(first: BuildError, later: BuildError)
    ensures StageOf(WithLaterFailure(first, later)) == StageOf(first)
    ensures IsUnknown(WithLaterFailure(first, later)) <==> IsUnknown(first) || IsUnknown(later)
  {
    hide Show;
  }

  /** Folding any number of later failures: the stage stays, unknown is never forgotten. */
  function WithAll(first: BuildError, later: seq<BuildError>): BuildError
    decreases |later|
  {
    if later == [] then first else WithAll(WithLaterFailure(first, later[0]), later[1..])
  }

  lemma {:induction false} AllFailuresKeep(first: BuildError, later: seq<BuildError>)
    ensures StageOf(WithAll(first, later)) == StageOf(first)
    ensures IsUnknown(WithAll(first, later)) <==> IsUnknown(first) || exists i :: 0 <= i < |later| && IsUnknown(later[i])
    decreases |later|
  {
    hide Show, WithLaterFailure, IsUnknown;
    if later != [] {
      LaterFailureKeeps(first, later[0]);
      AllFailuresKeep(WithLaterFailure(first, later[0]), later[1..]);
      assert forall i :: 0 <= i < |later[1..]| ==> later[1..][i] == later[i + 1];
      assert forall i :: 0 < i < |later| ==> later[i] == later[1..][i - 1];
    }
  }

  // ---- Helper containers ----

  /** `remove_container`: an absent container is what it asks for, anything else is uncertain. */
  function RemoveContainer(absent: bool, run: Outcome<string>): (r: Outcome<()>)
    ensures r.Ok? <==> run.Ok? || (run.error.Docker? && absent)
    ensures r.Err? ==> IsUnknown(r.error) && StageOf(r.error) == Cleanup
  {
    if run.Ok? || (run.error.Docker? && absent) then Ok(())
    else Err(UncertainTermination(Show(run.error)))
  }

  /** `with_container`: removal before, creation, the work, and removal after. */
  function WithContainer<T>(before: Outcome<()>, create: Outcome<()>, work: Outcome<T>, after: Outcome<()>): Outcome<T>
  {
    if before.Err? then Err(before.error)
    else
      var result := if create.Err? then Err(AtStage(Preparation, create.error)) else work;
      if after.Ok? then result
      else if result.Ok? then Err(after.error)
      else Err(WithLaterFailure(result.error, after.error))
  }

  /** The container's end is known exactly when nothing was left unknown and both removals were confirmed. */
  lemma {:induction false} ContainerIsConfirmed<T>(before: Outcome<()>, create: Outcome<()>, work: Outcome<T>, after: Outcome<()>)
    requires before.Err? ==> IsUnknown(before.error)
    requires after.Err? ==> IsUnknown(after.error)
    ensures var r := WithContainer(before, create, work, after);
      && (Unknown(r) <==> before.Err? || Unknown(create) || (create.Ok? && Unknown(work)) || after.Err?)
      && (before.Ok? && create.Err? ==> r.Err? && StageOf(r.error) == Preparation)
      && (before.Ok? && create.Ok? && work.Err? ==> r.Err? && StageOf(r.error) == StageOf(work.error))
  {
    if before.Ok? && after.Err? {
      var result := if create.Err? then Err(AtStage(Preparation, create.error)) else work;
      if result.Err? {
        LaterFailureKeeps(result.error, after.error);
      }
    }
  }

  // ---- Finishing ----

  /** The marker is cleared only after the builder is confirmed gone and the result is known. */
  predicate Clears<T>(result: Outcome<T>, cleanup: Outcome<()>)
  {
    cleanup.Ok? && !Unknown(result)
  }

  /** What `finish` returns; `cleared` is how clearing went, where it was tried. */
  function Finished<T>(result: Outcome<T>, cleanup: Outcome<()>, cleared: Outcome<()>, cancelled: bool): Outcome<T>
  {
    var stage := if result.Err? then StageOf(result.error) else Cleanup;
    if Clears(result, cleanup) && cleared.Err? then
      Err(AtStage(stage,
        if result.Ok? then cleared.error
        else BadResult(Show(result.error) + "; cleanup failed: " + Show(cleared.error))))
    else if cleanup.Ok? then if result.Ok? && cancelled then Err(Cancelled) else result
    else
      Err(AtStage(stage, UncertainTermination(
        (if result.Ok? then "output handling completed" else Show(result.error)) + "; cleanup failed: " + Show(cleanup.error))))
  }

  /**
   `finish` reports the end as unknown exactly when it does not try to clear the marker, never lowers unknown
   to known, keeps the stage of the first failure, and returns a value only when everything was confirmed.
   A failed attempt to clear is a known error: at the first failure's stage, or at cleanup when there was none.
   */
  lemma {:induction false} FinishKeeps<T>(result: Outcome<T>, cleanup: Outcome<()>, cleared: Outcome<()>, cancelled: bool)
    requires cleared.Err? ==> !IsUnknown(cleared.error)
    ensures var r := Finished(result, cleanup, cleared, cancelled);
      && (Unknown(r) <==> !Clears(result, cleanup))
      && (Unknown(result) ==> Unknown(r))
      && (result.Err? ==> r.Err? && StageOf(r.error) == StageOf(result.error))
      && (r.Ok? <==> result.Ok? && cleanup.Ok? && cleared.Ok? && !cancelled)
      && (r.Ok? || (result.Err? && cleanup.Ok? && (cleared.Ok? || Unknown(result))) ==> r == result)
      && (result.Ok? && cleanup.Ok? && cleared.Ok? && cancelled ==> r == Err(Cancelled))
      && (Clears(result, cleanup) && cleared.Err? ==>
          r.Err? && !IsUnknown(r.error) && StageOf(r.error) == (if result.Err? then StageOf(result.error) else Cleanup))
  {
    hide Show;
    var r := Finished(result, cleanup, cleared, cancelled);
    if cleanup.Err? {
      assert IsUnknown(r.error) <==> IsUnknown(r.error.source);
    } else if Clears(result, cleanup) && cleared.Err? {
      assert IsUnknown(r.error) <==> IsUnknown(r.error.source);
    }
  }

  /** A build that went well but whose marker could not be cleared ends in a known error at cleanup. */
  lemma {:induction false} FailedClearIsKnown(why: string)
    ensures var result: Outcome<int> := Ok(1);
      var r := Finished(result, Ok(()), Err(Prerequisite(why)), false);
      Clears(result, Ok(())) && r.Err? && !IsUnknown(r.error) && StageOf(r.error) == Cleanup
  {
    var result: Outcome<int> := Ok(1);
    FinishKeeps(result, Ok(()), Err(Prerequisite(why)), false);
  }

  // ---- Waiting for a child ----

  datatype Poll = Exited(status: int) | Running | PollFails(why: string)

  /** One round of the wait loop: what the child looked like and what interrupts it. */
  datatype Round = Round(poll: Poll, cancelled: bool, expired: bool)

  /** The round ends the wait loop: the child exited, could not be polled, or is interrupted. */
  predicate Stops(round: Round)
  {
    !round.poll.Running? || round.cancelled || round.expired
  }

  predicate IsFirstStop(rounds: seq<Round>, i: int)
  {
    0 <= i < |rounds| && Stops(rounds[i]) && forall k :: 0 <= k < i ==> !Stops(rounds[k])
  }

  /** Why a loop stopped here gave up; a failed poll is never forgotten. */
  function CauseOf(round: Round, budget: nat): BuildError
    requires Stops(round)
  {
    if round.poll.PollFails? then UncertainTermination(round.poll.why)
    else if round.cancelled then Cancelled
    else TimedOut(budget)
  }

  /** The first poll after the kill that is not `Running`, if there is one. */
  predicate IsFirstNews(polls: seq<Poll>, j: int)
  {
    0 <= j < |polls| && !polls[j].Running? && forall k :: 0 <= k < j ==> polls[k].Running?
  }

  ghost predicate SeenToExit(polls: seq<Poll>)
  {
    exists j :: IsFirstNews(polls, j) && polls[j].Exited?
  }

  /**
   `wait_controlled`: polls until the child exits or something interrupts, then kills it and polls for a
   bounded time. The rounds are what the loop sees; the last one is where the deadline has passed.

   The status is that of the first round that stops the loop, if the child had exited there. Otherwise the
   cause is reported as it is exactly when the first news after the kill is an exit; in all other cases, and
   after a failed poll, the end is unknown.
   */
  method WaitControlled(rounds: seq<Round>, afterKill: seq<Poll>, budget: nat) returns (r: Outcome<int>)
    requires rounds != [] && rounds[|rounds| - 1].expired
    ensures exists i :: IsFirstStop(rounds, i)
    ensures forall i :: IsFirstStop(rounds, i) && rounds[i].poll.Exited? ==> r == Ok(rounds[i].poll.status)
    ensures forall i :: IsFirstStop(rounds, i) && !rounds[i].poll.Exited? && SeenToExit(afterKill) ==> r == Err(CauseOf(rounds[i], budget))
    ensures forall i :: IsFirstStop(rounds, i) && !rounds[i].poll.Exited? && !SeenToExit(afterKill) ==> Unknown(r)
  {
    hide Show;
    var i := 0;
    var cause := Cancelled;
    while true
      invariant 0 <= i < |rounds|
      invariant forall k :: 0 <= k < i ==> !Stops(rounds[k])
      decreases |rounds| - i
    {
      match rounds[i].poll {
        case Exited(status) =>
          assert IsFirstStop(rounds, i) && forall k :: IsFirstStop(rounds, k) ==> k == i;
          return Ok(status);
        case Running =>
        case PollFails(why) =>
          cause := UncertainTermination(why);
          break;
      }
      if rounds[i].cancelled {
        cause := Cancelled;
        break;
      }
      if rounds[i].expired {
        cause := TimedOut(budget);
        break;
      }
      i := i + 1;
    }
    assert IsFirstStop(rounds, i) && forall k :: IsFirstStop(rounds, k) ==> k == i;
    assert cause == CauseOf(rounds[i], budget);
    var j := 0;
    while j < |afterKill|
      invariant 0 <= j <= |afterKill|
      invariant forall k :: 0 <= k < j ==> afterKill[k].Running?
    {
      match afterKill[j] {
        case Exited(_) =>
          assert IsFirstNews(afterKill, j);
          return Err(cause);
        case Running =>
        case PollFails(why) =>
          assert IsFirstNews(afterKill, j) && forall k :: IsFirstNews(afterKill, k) ==> k == j;
          return Err(UncertainTermination(why));
      }
      j := j + 1;
    }
    r := Err(UncertainTermination(Show(cause) + "; Docker CLI termination was not observed"));
  }

  /** A success or a known error means that the child was seen to exit. */
  method WaitedForExit(rounds: seq<Round>, afterKill: seq<Poll>, budget: nat) returns (r: Outcome<int>)
    requires rounds != [] && rounds[|rounds| - 1].expired
    ensures r.Ok? ==> exists i :: 0 <= i < |rounds| && rounds[i].poll == Exited(r.value)
    ensures r.Err? && !IsUnknown(r.error) ==> exists j :: 0 <= j < |afterKill| && afterKill[j].Exited?
    ensures r.Err? && !IsUnknown(r.error) ==> r.error in {Cancelled, TimedOut(budget)}
  {
    hide Show;
    r := WaitControlled(rounds, afterKill, budget);
    ghost var i :| IsFirstStop(rounds, i);
    if r.Err? && !IsUnknown(r.error) {
      ghost var j :| IsFirstNews(afterKill, j) && afterKill[j].Exited?;
    }
  }
}
