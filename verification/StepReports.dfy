/**
 What the progress parser passes on besides step output: over every run the completions, the reports of
 running steps and the unparsed lines are exactly those of the input, in order.
 */
module StepReports {
  import opened Common
  import opened ProgressLines
  import opened SolveParser
  import opened StepOrder

  function Filter<T>(s: seq<T>, keep: T -> bool): seq<T>
  {
    if s == [] then [] else (if keep(s[0]) then [s[0]] else []) + Filter(s[1..], keep)
  }

  lemma {:induction false} FilterAppend<T>(a: seq<T>, b: seq<T>, keep: T -> bool)
    ensures Filter(a + b, keep) == Filter(a, keep) + Filter(b, keep)
  {
    if a == [] {
      assert a + b == b;
    } else {
      var first, rest := if keep(a[0]) then [a[0]] else [], a[1..];
      FilterAppend(rest, b, keep);
      FilterStep(a, keep);
      FilterStep(a + b, keep);
      hide Filter;
      assert (a + b)[0] == a[0] && (a + b)[1..] == rest + b;
      assert first + (Filter(rest, keep) + Filter(b, keep)) == first + Filter(rest, keep) + Filter(b, keep);
    }
  }

  lemma {:induction false} FilterStep<T>(s: seq<T>, keep: T -> bool)
    requires s != []
    ensures Filter(s, keep) == (if keep(s[0]) then [s[0]] else []) + Filter(s[1..], keep)
  {
  }

  lemma {:induction false} FilterNone<T>(s: seq<T>, keep: T -> bool)
    requires forall x :: x in s ==> !keep(x)
    ensures Filter(s, keep) == []
  {
    if s != [] {
      FilterNone(s[1..], keep);
    }
  }

  lemma {:induction false} FilterAll<T>(s: seq<T>, keep: T -> bool)
    requires forall x :: x in s ==> keep(x)
    ensures Filter(s, keep) == s
  {
    if s != [] {
      FilterAll(s[1..], keep);
    }
  }

  // ---- What the input says ----

  predicate IsRunning(event: Event)
  {
    event.Step? && event.step.completed.None?
  }

  predicate IsOutput(event: Event)
  {
    event.Output?
  }

  predicate Completed(step: BuildStep)
  {
    step.completed.Some?
  }

  function Steps(steps: seq<BuildStep>): (events: seq<Event>)
    ensures |events| == |steps| && forall i :: 0 <= i < |steps| ==> events[i] == Step(steps[i])
  {
    seq(|steps|, i requires 0 <= i < |steps| => Step(steps[i]))
  }

  /** Steps some report gave a start to. */
  function Starts(reports: seq<BuildStep>): set<string>
  {
    set r | r in reports && r.started.Some? :: r.id
  }

  /** A completed step as it must have been while running. */
  function WhileRunning(step: BuildStep): BuildStep
  {
    step.(completed := None, cached := false, error := None)
  }

  /**
   Reports of running steps as they are; and for a completion that is the first to give its step a start,
   the step as it was while running.
   */
  function Announced(before: seq<BuildStep>, reports: seq<BuildStep>): seq<BuildStep>
    decreases |reports|
  {
    if reports == [] then []
    else
      var r := reports[0];
      (if !Completed(r) then [r] else if r.started.Some? && r.id !in Starts(before) then [WhileRunning(r)] else [])
      + Announced(before + [r], reports[1..])
  }

  /** Lines that are no status, and overlong ones. */
  function Unparsed(parse: Parse, units: seq<Unit>): seq<Event>
  {
    if units == [] then []
    else (if StatusOf(parse, units[0]).None? then [Output(units[0].bytes)] else []) + Unparsed(parse, units[1..])
  }

  // ---- One status ----

  lemma {:induction false} StartsGrow(before: seq<BuildStep>, r: BuildStep)
    ensures Starts(before + [r]) == Starts(before) + if r.started.Some? then {r.id} else {}
  {
  }

  lemma {:induction false} AnnouncedAppend(before: seq<BuildStep>, a: seq<BuildStep>, b: seq<BuildStep>)
    ensures Announced(before, a + b) == Announced(before, a) + Announced(before + a, b)
    decreases |a|
  {
    if a == [] {
      assert a + b == b && before + a == before;
    } else {
      assert (a + b)[0] == a[0] && (a + b)[1..] == a[1..] + b;
      assert before + [a[0]] + a[1..] == before + a;
      AnnouncedAppend(before + [a[0]], a[1..], b);
    }
  }

  lemma {:induction false} StepsAppend(a: seq<BuildStep>, b: seq<BuildStep>)
    ensures Steps(a + b) == Steps(a) + Steps(b)
  {
  }

  lemma {:induction false} StepAnnounces(before: seq<BuildStep>, r: BuildStep)
    ensures var first := OpenStep(Starts(before), r);
      && first.started == Starts(before + [r])
      && first.completed == (if Completed(r) then [r] else [])
      && first.events == Steps(
           if !Completed(r) then [r] else if r.started.Some? && r.id !in Starts(before) then [WhileRunning(r)] else [])
  {
    hide Starts;
    StartsGrow(before, r);
  }

  lemma {:induction false} OpeningAnnounces(before: seq<BuildStep>, steps: seq<BuildStep>)
    ensures var o := OpenSteps(Starts(before), steps);
      o.events == Steps(Announced(before, steps)) && o.completed == Filter(steps, Completed) && o.started == Starts(before + steps)
    decreases |steps|
  {
    hide Starts, Filter, OpenStep;
    if steps == [] {
      assert before + steps == before;
      NothingReported(before);
    } else {
      var first, rest := OpenStep(Starts(before), steps[0]), steps[1..];
      var grown := before + [steps[0]];
      OpeningAnnounces(grown, rest);
      assert grown + rest == before + steps;
      StepAnnounces(before, steps[0]);
      FilterStep(steps, Completed);
      var now := if !Completed(steps[0]) then [steps[0]]
                 else if steps[0].started.Some? && steps[0].id !in Starts(before) then [WhileRunning(steps[0])] else [];
      StepsAppend(now, Announced(grown, rest));
    }
  }

  lemma {:induction false} CompletingReports(partial: Partial, steps: seq<BuildStep>)
    requires forall step :: step in steps ==> Completed(step)
    ensures Filter(CompleteSteps(partial, steps).1, IsCompletion) == Steps(steps)
    decreases |steps|
  {
    hide Filter, CompleteStep, IsCompletion;
    if steps == [] {
      NothingReported([]);
    } else {
      var (held, first) := CompleteStep(partial, steps[0]);
      var rest := CompleteSteps(held, steps[1..]).1;
      assert steps[0] in steps && forall step :: step in steps[1..] ==> step in steps;
      CompletingReports(held, steps[1..]);
      FilterAppend(first, rest, IsCompletion);
      CompletionIsReported(partial, steps[0]);
      assert Steps(steps) == [Step(steps[0])] + Steps(steps[1..]);
    }
  }

  lemma {:induction false} CompletionIsReported(partial: Partial, step: BuildStep)
    requires Completed(step)
    ensures Filter(CompleteStep(partial, step).1, IsCompletion) == [Step(step)]
  {
    var flushed := Flush(partial, StreamKey(step.id, false)) + Flush(partial, StreamKey(step.id, true));
    FilterNone(flushed, IsCompletion);
    FilterAll([Step(step)], IsCompletion);
    FilterAppend(flushed, [Step(step)], IsCompletion);
  }

  /** What a completed step still held comes out first, standard output before standard error. */
  lemma {:induction false} StdoutComesFirst(partial: Partial, step: BuildStep, i: nat, j: nat)
    requires var events := CompleteStep(partial, step).1; i < j < |events| && events[i].StepOutput? && events[j].StepOutput?
    ensures var events := CompleteStep(partial, step).1; !events[i].key.stderr && events[j].key.stderr
  {
  }

  lemma {:induction false} StatusReports(s: State, status: Status, before: seq<BuildStep>)
    requires s.started == Starts(before)
    ensures var (after, events) := EmitStatus(s, status);
      && Filter(events, IsCompletion) == Steps(Filter(status.vertexes, Completed))
      && Filter(events, IsRunning) == Steps(Announced(before, status.vertexes))
      && Filter(events, IsOutput) == [] && after.started == Starts(before + status.vertexes)
  {
    var opening := OpenSteps(s.started, status.vertexes);
    var (held, output) := IngestLogs(s.partial, status.logs);
    var completed := CompleteSteps(held, opening.completed).1;
    OpeningAnnounces(before, status.vertexes);
    OpeningOpens(s.started, status.vertexes);
    OutputOpensNothing(s.partial, status.logs);
    CompletingOpensNothing(held, opening.completed);
    CompletingReports(held, opening.completed);
    hide OpenSteps, IngestLogs, CompleteSteps, Announced, Starts, Filter;
    FilterAll(opening.events, IsRunning);
    PartsReport(opening.events, output, completed);
  }

  lemma {:induction false} PartsReport(opening: seq<Event>, output: seq<Event>, completed: seq<Event>)
    requires forall event :: event in opening ==> IsRunning(event)
    requires forall event :: event in output ==> event.StepOutput?
    requires forall event :: event in completed ==> event.StepOutput? || IsCompletion(event)
    ensures var events := opening + output + completed;
      && Filter(events, IsCompletion) == Filter(completed, IsCompletion)
      && Filter(events, IsRunning) == Filter(opening, IsRunning)
      && Filter(events, IsOutput) == []
  {
    hide Filter;
    FilterNone(opening + output, IsCompletion);
    FilterAppend(opening + output, completed, IsCompletion);
    FilterNone(output + completed, IsRunning);
    FilterAppend(opening, output + completed, IsRunning);
    assert opening + (output + completed) == opening + output + completed;
    FilterNone(opening + output + completed, IsOutput);
  }

  // ---- Whole runs ----

  lemma {:induction false} UnitReports(parse: Parse, s: State, unit: Unit, before: seq<BuildStep>)
    requires s.started == Starts(before)
    ensures var (after, events) := EmitUnit(parse, s, unit);
      var now := if StatusOf(parse, unit).Some? then StatusOf(parse, unit).value.vertexes else [];
      && Filter(events, IsCompletion) == Steps(Filter(now, Completed))
      && Filter(events, IsRunning) == Steps(Announced(before, now))
      && Filter(events, IsOutput) == (if StatusOf(parse, unit).None? then [Output(unit.bytes)] else [])
      && after.started == Starts(before + now)
  {
    match StatusOf(parse, unit)
    case None =>
      var events := [Output(unit.bytes)];
      FilterNone(events, IsCompletion);
      FilterNone(events, IsRunning);
      FilterAll(events, IsOutput);
      assert before + [] == before;
    case Some(status) =>
      hide EmitStatus, Filter, Starts;
      StatusReports(s, status, before);
  }

  lemma {:induction false} RunReportsFrom(parse: Parse, s: State, units: seq<Unit>, before: seq<BuildStep>)
    requires s.started == Starts(before)
    ensures var events := EmitUnits(parse, s, units).1;
      var reports := Reports(parse, units);
      && Filter(events, IsCompletion) == Steps(Filter(reports, Completed))
      && Filter(events, IsRunning) == Steps(Announced(before, reports))
      && Filter(events, IsOutput) == Unparsed(parse, units)
    decreases |units|
  {
    hide Filter, Announced, Starts, EmitUnit, Steps;
    if units == [] {
      NothingReported(before);
    } else {
      var (next, first) := EmitUnit(parse, s, units[0]);
      var now := if StatusOf(parse, units[0]).Some? then StatusOf(parse, units[0]).value.vertexes else [];
      var later, rest := Reports(parse, units[1..]), EmitUnits(parse, next, units[1..]).1;
      UnitReports(parse, s, units[0], before);
      RunReportsFrom(parse, next, units[1..], before + now);
      FilterAppend(first, rest, IsCompletion);
      FilterAppend(first, rest, IsRunning);
      FilterAppend(first, rest, IsOutput);
      FilterAppend(now, later, Completed);
      AnnouncedAppend(before, now, later);
      StepsAppend(Filter(now, Completed), Filter(later, Completed));
      StepsAppend(Announced(before, now), Announced(before + now, later));
    }
  }

  lemma {:induction false} NothingReported(before: seq<BuildStep>)
    ensures Filter<Event>([], IsCompletion) == [] && Filter<Event>([], IsRunning) == [] && Filter<Event>([], IsOutput) == []
    ensures Filter<BuildStep>([], Completed) == [] && Announced(before, []) == [] && Steps([]) == []
  {
  }

  /** At the end what is pending is passed on as it is, and nothing more is reported of any step. */
  lemma {:induction false} FinishReports(pending: seq<Byte>, partial: Partial, order: seq<StreamKey>)
    ensures var events := FinishEvents(pending, partial, order);
      && Filter(events, IsOutput) == (if pending != [] then [Output(pending)] else [])
      && forall event :: event in events ==> !event.Step?
  {
    var first, rest := if pending != [] then [Output(pending)] else [], FlushAll(partial, order);
    FlushedIsOutput(partial, order);
    FilterAll(first, IsOutput);
    FilterNone(rest, IsOutput);
    FilterAppend(first, rest, IsOutput);
  }

  lemma {:induction false} FlushedIsOutput(partial: Partial, order: seq<StreamKey>)
    ensures forall event :: event in FlushAll(partial, order) ==> event.StepOutput?
  {
    if order != [] {
      FlushedIsOutput(partial, order[1..]);
    }
  }

  /**
   In every run: each report of a completed step is passed on once, unchanged and in order. Of running steps
   exactly the reports are passed on, and for a step first seen completed, how it must have been. Lines that
   are no status, and overlong ones, are passed on byte for byte.
   */
  lemma {:induction false} RunReports(parse: Parse, units: seq<Unit>)
    ensures var events := EmitUnits(parse, INITIAL, units).1;
      var reports := Reports(parse, units);
      && Filter(events, IsCompletion) == Steps(Filter(reports, Completed))
      && Filter(events, IsRunning) == Steps(Announced([], reports))
      && Filter(events, IsOutput) == Unparsed(parse, units)
  {
    RunReportsFrom(parse, INITIAL, units, []);
  }
}
