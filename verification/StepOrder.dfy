/**
 The order of step events: a step opens before it completes, its output comes before its completion, and
 repeating a completion never reopens it.
 */
module StepOrder {
  import opened Common
  import opened ProgressLines
  import opened SolveParser

  /** A report of a started, not yet completed step. */
  predicate IsOpen(event: Event)
  {
    event.Step? && event.step.started.Some? && event.step.completed.None?
  }

  predicate IsCompletion(event: Event)
  {
    event.Step? && event.step.completed.Some?
  }

  /** Steps for which an open event has been emitted. */
  function Opened(events: seq<Event>): set<string>
  {
    if events == [] then {} else (if IsOpen(events[0]) then {events[0].step.id} else {}) + Opened(events[1..])
  }

  lemma {:induction false} OpenedAppend(a: seq<Event>, b: seq<Event>)
    ensures Opened(a + b) == Opened(a) + Opened(b)
  {
    if a == [] {
      assert a + b == b;
    } else {
      assert (a + b)[0] == a[0] && (a + b)[1..] == a[1..] + b;
      OpenedAppend(a[1..], b);
    }
  }

  lemma {:induction false} NoneOpened(events: seq<Event>)
    requires forall event :: event in events ==> !IsOpen(event)
    ensures Opened(events) == {}
  {
    if events != [] {
      NoneOpened(events[1..]);
    }
  }

  lemma {:induction false} OpenedIsEmitted(events: seq<Event>, id: string)
    requires id in Opened(events)
    ensures exists i :: 0 <= i < |events| && IsOpen(events[i]) && events[i].step.id == id
  {
    if !(IsOpen(events[0]) && events[0].step.id == id) {
      OpenedIsEmitted(events[1..], id);
      var i :| 0 <= i < |events[1..]| && IsOpen(events[1..][i]) && events[1..][i].step.id == id;
      assert IsOpen(events[i + 1]);
    }
  }

  // ---- Opening ----

  /** The steps remembered as started are exactly those with an open event. */
  lemma {:induction false} OpeningOpens(started: set<string>, steps: seq<BuildStep>)
    ensures var o := OpenSteps(started, steps);
      && o.started == started + Opened(o.events)
      && (forall event :: event in o.events ==> event.Step? && !IsCompletion(event))
      && (forall step :: step in o.completed ==> step.completed.Some? && (step.started.Some? ==> step.id in o.started))
    decreases |steps|
  {
    if steps != [] {
      var first := OpenStep(started, steps[0]);
      var rest := OpenSteps(first.started, steps[1..]);
      OpeningOpens(first.started, steps[1..]);
      OpenedAppend(first.events, rest.events);
      if first.events != [] {
        assert first.events == [first.events[0]] && first.events[1..] == [];
      }
    }
  }

  lemma {:induction false} OutputOpensNothing(partial: Partial, logs: seq<Log>)
    ensures forall event :: event in IngestLogs(partial, logs).1 ==> event.StepOutput?
    decreases |logs|
  {
    if logs != [] {
      OutputOpensNothing(IngestLog(partial, logs[0]).0, logs[1..]);
    }
  }

  lemma {:induction false} CompletingOpensNothing(partial: Partial, steps: seq<BuildStep>)
    requires forall step :: step in steps ==> step.completed.Some?
    ensures forall event :: event in CompleteSteps(partial, steps).1 ==>
      if event.Step? then event.step in steps else event.StepOutput? && event.key in partial
    decreases |steps|
  {
    if steps != [] {
      assert steps[0] in steps && forall step :: step in steps[1..] ==> step in steps;
      CompletingOpensNothing(CompleteStep(partial, steps[0]).0, steps[1..]);
    }
  }

  lemma {:induction false} StatusOpens(s: State, status: Status)
    ensures var (after, events) := EmitStatus(s, status); after.started == s.started + Opened(events)
  {
    var opening := OpenSteps(s.started, status.vertexes);
    var (held, output) := IngestLogs(s.partial, status.logs);
    var completed := CompleteSteps(held, opening.completed).1;
    OpeningOpens(s.started, status.vertexes);
    OutputOpensNothing(s.partial, status.logs);
    CompletingOpensNothing(held, opening.completed);
    NoneOpened(output);
    NoneOpened(completed);
    OpenedAppend(opening.events, output);
    OpenedAppend(opening.events + output, completed);
    hide Opened, OpenSteps, IngestLogs, CompleteSteps;
  }

  lemma {:induction false} RunOpens(parse: Parse, s: State, units: seq<Unit>)
    ensures var (after, events) := EmitUnits(parse, s, units); after.started == s.started + Opened(events)
    decreases |units|
  {
    if units != [] {
      var (next, first) := EmitUnit(parse, s, units[0]);
      match StatusOf(parse, units[0]) {
        case None => NoneOpened(first);
        case Some(status) => StatusOpens(s, status);
      }
      RunOpens(parse, next, units[1..]);
      OpenedAppend(first, EmitUnits(parse, next, units[1..]).1);
      hide EmitStatus, Opened;
    }
  }

  // ---- Completion comes after opening ----

  /** Each completion that carries a start is of a step in `known` or opened earlier in the list. */
  ghost predicate OpensFirst(known: set<string>, events: seq<Event>)
  {
    forall i :: 0 <= i < |events| && IsCompletion(events[i]) && events[i].step.started.Some? ==>
      events[i].step.id in known + Opened(events[..i])
  }

  lemma {:induction false} OpensFirstAppend(known: set<string>, a: seq<Event>, b: seq<Event>)
    requires OpensFirst(known, a) && OpensFirst(known + Opened(a), b)
    ensures OpensFirst(known, a + b)
  {
    forall i | 0 <= i < |a + b| && IsCompletion((a + b)[i]) && (a + b)[i].step.started.Some?
      ensures (a + b)[i].step.id in known + Opened((a + b)[..i])
    {
      if i < |a| {
        assert (a + b)[..i] == a[..i] && (a + b)[i] == a[i];
      } else {
        assert (a + b)[..i] == a + b[..i - |a|] && (a + b)[i] == b[i - |a|];
        OpenedAppend(a, b[..i - |a|]);
      }
    }
  }

  lemma {:induction false} KnownOpensFirst(known: set<string>, events: seq<Event>)
    requires forall event :: event in events && IsCompletion(event) && event.step.started.Some? ==> event.step.id in known
    ensures OpensFirst(known, events)
  {
    hide Opened;
    forall i | 0 <= i < |events| && IsCompletion(events[i]) && events[i].step.started.Some?
      ensures events[i].step.id in known + Opened(events[..i])
    {
      assert events[i] in events;
    }
  }

  lemma {:induction false} StatusOpensFirst(s: State, status: Status)
    ensures OpensFirst(s.started, EmitStatus(s, status).1)
  {
    var opening := OpenSteps(s.started, status.vertexes);
    var (held, output) := IngestLogs(s.partial, status.logs);
    var completed := CompleteSteps(held, opening.completed).1;
    OpeningOpens(s.started, status.vertexes);
    OutputOpensNothing(s.partial, status.logs);
    CompletingOpensNothing(held, opening.completed);
    NoneOpened(output);
    OpenedAppend(opening.events, output);
    hide Opened, OpenSteps, IngestLogs, CompleteSteps;
    KnownOpensFirst(s.started, opening.events + output);
    KnownOpensFirst(opening.started, completed);
    hide OpensFirst;
    OpensFirstAppend(s.started, opening.events + output, completed);
  }

  lemma {:induction false} RunOpensFirst(parse: Parse, s: State, units: seq<Unit>)
    ensures OpensFirst(s.started, EmitUnits(parse, s, units).1)
    decreases |units|
  {
    if units != [] {
      var (next, first) := EmitUnit(parse, s, units[0]);
      match StatusOf(parse, units[0]) {
        case None =>
          NoneOpened(first);
        case Some(status) =>
          StatusOpens(s, status);
          StatusOpensFirst(s, status);
      }
      RunOpensFirst(parse, next, units[1..]);
      hide EmitStatus, Opened;
      OpensFirstAppend(s.started, first, EmitUnits(parse, next, units[1..]).1);
    }
  }

  /** In every run, a completion that carries a start comes after an open event of the same step. */
  lemma {:induction false} CompletionFollowsOpening(parse: Parse, units: seq<Unit>, i: nat)
    requires var events := EmitUnits(parse, INITIAL, units).1;
      i < |events| && IsCompletion(events[i]) && events[i].step.started.Some?
    ensures var events := EmitUnits(parse, INITIAL, units).1;
      exists j :: 0 <= j < i && IsOpen(events[j]) && events[j].step.id == events[i].step.id
  {
    var events := EmitUnits(parse, INITIAL, units).1;
    RunOpensFirst(parse, INITIAL, units);
    hide EmitUnits;
    OpenedIsEmitted(events[..i], events[i].step.id);
    var j :| 0 <= j < |events[..i]| && IsOpen(events[..i][j]) && events[..i][j].step.id == events[i].step.id;
    assert IsOpen(events[j]);
  }

  // ---- Output comes before completion ----

  /** After a step's completion the list has no more output of that step. */
  ghost predicate OutputFirst(events: seq<Event>)
  {
    forall i, j :: 0 <= i < j < |events| && IsCompletion(events[i]) && events[j].StepOutput? ==>
      events[j].key.step != events[i].step.id
  }

  lemma {:induction false} CompletingOutputsFirst(partial: Partial, steps: seq<BuildStep>)
    requires forall step :: step in steps ==> step.completed.Some?
    ensures OutputFirst(CompleteSteps(partial, steps).1)
    decreases |steps|
  {
    if steps != [] {
      var (held, first) := CompleteStep(partial, steps[0]);
      var rest := CompleteSteps(held, steps[1..]).1;
      assert steps[0] in steps && forall step :: step in steps[1..] ==> step in steps;
      CompletingOutputsFirst(held, steps[1..]);
      CompletingOpensNothing(held, steps[1..]);
      FlushIsOutput(partial, steps[0]);
      forall x, y | x in first && y in rest && IsCompletion(x) && y.StepOutput?
        ensures y.key.step != x.step.id
      {
        assert x == Step(steps[0]) && y.key in held;
        assert y.key != StreamKey(steps[0].id, false) && y.key != StreamKey(steps[0].id, true);
      }
      hide CompleteSteps, CompleteStep;
    }
  }

  lemma {:induction false} FlushIsOutput(partial: Partial, step: BuildStep)
    ensures var events := CompleteStep(partial, step).1;
      OutputFirst(events) && (forall event :: event in events && event.Step? ==> event == Step(step))
  {
  }

  lemma {:induction false} NoCompletionYet(events: seq<Event>)
    requires forall event :: event in events ==> !IsCompletion(event)
    ensures OutputFirst(events)
  {
    assert forall i :: 0 <= i < |events| ==> events[i] in events;
  }

  /** Within one status, all output of a completed step - old, new and flushed - comes before its completion. */
  lemma {:induction false} StatusOutputsFirst(s: State, status: Status)
    ensures OutputFirst(EmitStatus(s, status).1)
  {
    var opening := OpenSteps(s.started, status.vertexes);
    var (held, output) := IngestLogs(s.partial, status.logs);
    var completed := CompleteSteps(held, opening.completed).1;
    OpeningOpens(s.started, status.vertexes);
    OutputOpensNothing(s.partial, status.logs);
    CompletingOutputsFirst(held, opening.completed);
    hide OpenSteps, IngestLogs, CompleteSteps;
    NoCompletionYet(opening.events + output);
    hide OutputFirst;
  }

  // ---- Repeated completions ----

  function Reports(parse: Parse, units: seq<Unit>): seq<BuildStep>
  {
    if units == [] then []
    else
      var status := StatusOf(parse, units[0]);
      (if status.Some? then status.value.vertexes else []) + Reports(parse, units[1..])
  }

  function CountOpen(events: seq<Event>, id: string): nat
  {
    if events == [] then 0 else (if IsOpen(events[0]) && events[0].step.id == id then 1 else 0) + CountOpen(events[1..], id)
  }

  /** Reports of the step as started and not completed. */
  function OpenReports(steps: seq<BuildStep>, id: string): nat
  {
    if steps == [] then 0
    else (if steps[0].id == id && steps[0].started.Some? && steps[0].completed.None? then 1 else 0) + OpenReports(steps[1..], id)
  }

  /** The first report that carries a start already carries the completion. */
  predicate FirstSeenCompleted(steps: seq<BuildStep>, id: string)
  {
    steps != [] &&
    if steps[0].id == id && steps[0].started.Some? then steps[0].completed.Some? else FirstSeenCompleted(steps[1..], id)
  }

  lemma {:induction false} CountAppend(a: seq<Event>, b: seq<Event>, id: string)
    ensures CountOpen(a + b, id) == CountOpen(a, id) + CountOpen(b, id)
  {
    if a == [] {
      assert a + b == b;
    } else {
      assert (a + b)[0] == a[0] && (a + b)[1..] == a[1..] + b;
      CountAppend(a[1..], b, id);
    }
  }

  lemma {:induction false} CountNone(events: seq<Event>, id: string)
    requires forall event :: event in events ==> !IsOpen(event)
    ensures CountOpen(events, id) == 0
  {
    if events != [] {
      CountNone(events[1..], id);
    }
  }

  /** Open events a list of reports leads to, from the steps started so far. */
  function Due(started: set<string>, steps: seq<BuildStep>, id: string): nat
  {
    OpenReports(steps, id) + if id !in started && FirstSeenCompleted(steps, id) then 1 else 0
  }

  lemma {:induction false} OpeningCounts(started: set<string>, steps: seq<BuildStep>, id: string)
    ensures CountOpen(OpenSteps(started, steps).events, id) == Due(started, steps, id)
    decreases |steps|
  {
    if steps != [] {
      var first := OpenStep(started, steps[0]);
      var rest := OpenSteps(first.started, steps[1..]);
      OpeningCounts(first.started, steps[1..], id);
      CountAppend(first.events, rest.events, id);
      if first.events != [] {
        assert first.events == [first.events[0]] && first.events[1..] == [];
      }
    }
  }

  lemma {:induction false} DueAppend(started: set<string>, a: seq<BuildStep>, b: seq<BuildStep>, id: string)
    ensures Due(started, a + b, id) == Due(started, a, id) + Due(OpenSteps(started, a).started, b, id)
    decreases |a|
  {
    if a == [] {
      assert a + b == b;
    } else {
      assert (a + b)[0] == a[0] && (a + b)[1..] == a[1..] + b;
      DueAppend(OpenStep(started, a[0]).started, a[1..], b, id);
    }
  }

  /**
   In every run a step is opened once for each report of it as running, plus once if its first start came
   together with its completion. Completions repeated later add nothing.
   */
  lemma {:induction false} RunCounts(parse: Parse, s: State, units: seq<Unit>, id: string)
    ensures CountOpen(EmitUnits(parse, s, units).1, id) == Due(s.started, Reports(parse, units), id)
    decreases |units|
  {
    if units != [] {
      var (next, first) := EmitUnit(parse, s, units[0]);
      var now := if StatusOf(parse, units[0]).Some? then StatusOf(parse, units[0]).value.vertexes else [];
      match StatusOf(parse, units[0]) {
        case None => CountNone(first, id);
        case Some(status) => StatusCounts(s, status, id);
      }
      RunCounts(parse, next, units[1..], id);
      CountAppend(first, EmitUnits(parse, next, units[1..]).1, id);
      DueAppend(s.started, now, Reports(parse, units[1..]), id);
      hide CountOpen, Due, OpenSteps, IngestLogs, CompleteSteps;
      if StatusOf(parse, units[0]).None? {
        assert now + Reports(parse, units[1..]) == Reports(parse, units[1..]);
      }
    }
  }

  lemma {:induction false} StatusCounts(s: State, status: Status, id: string)
    ensures CountOpen(EmitStatus(s, status).1, id) == Due(s.started, status.vertexes, id)
  {
    var opening := OpenSteps(s.started, status.vertexes);
    var (held, output) := IngestLogs(s.partial, status.logs);
    var completed := CompleteSteps(held, opening.completed).1;
    OpeningCounts(s.started, status.vertexes, id);
    OpeningOpens(s.started, status.vertexes);
    OutputOpensNothing(s.partial, status.logs);
    CompletingOpensNothing(held, opening.completed);
    CountNone(output, id);
    CountNone(completed, id);
    CountAppend(opening.events, output, id);
    CountAppend(opening.events + output, completed, id);
    hide CountOpen, Due, OpenSteps, IngestLogs, CompleteSteps;
  }
}
