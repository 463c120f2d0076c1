/**
 What plain rendering prints, told from the events alone: the renderer's table never shows.
 */
module RenderedText {
  import opened Common
  import opened SolveParser
  import opened PlainRenderer

  // ---- What the events so far say of a step ----

  predicate Reports(event: Event, id: string)
  {
    event.Step? && event.step.id == id
  }

  function Ids(events: seq<Event>): set<string>
  {
    set event | event in events && event.Step? :: event.step.id
  }

  /** The number of a step: how many steps were reported when it was first. */
  function NumberIn(events: seq<Event>, id: string): nat
    decreases |events|
  {
    if events == [] then 0
    else
      var earlier, last := events[..|events| - 1], events[|events| - 1];
      if id in Ids(earlier) then NumberIn(earlier, id)
      else if Reports(last, id) then |Ids(earlier)| + 1
      else 0
  }

  predicate StartSeen(events: seq<Event>, id: string)
  {
    exists event :: event in events && Reports(event, id) && event.step.started.Some?
  }

  /** The completion reported last. */
  function LastCompletion(events: seq<Event>, id: string): Option<string>
    decreases |events|
  {
    if events == [] then None
    else
      var last := events[|events| - 1];
      if Reports(last, id) && last.step.completed.Some? then last.step.completed
      else LastCompletion(events[..|events| - 1], id)
  }

  // ---- What is to be printed ----

  /** An error before anything else, then a cache hit, then how long it took. */
  function EndOf(step: BuildStep): Option<Text>
  {
    match (step.error, step.cached, step.started, step.completed)
    case (Some(error), _, _, _) => Some(Failed(error))
    case (None, true, _, _) => Some(Cached)
    case (None, false, Some(from), Some(to)) => Some(Done(from, to))
    case _ => None
  }

  /**
   A step's name with its first start, and its end when the completion is not the one reported last; output
   under its step's number; anything else as it is.
   */
  function Lines(before: seq<Event>, event: Event): seq<Printed>
  {
    match event
    case Step(step) =>
      var number := Some(NumberIn(before + [event], step.id));
      (if step.started.Some? && !StartSeen(before, step.id) then [Printed(number, Name(step.name))] else []) +
      (if step.completed.Some? && LastCompletion(before, step.id) != step.completed && EndOf(step).Some?
       then [Printed(number, EndOf(step).value)] else [])
    case StepOutput(key, raw) => [Printed(Some(NumberIn(before, key.step)), Said(raw))]
    case Output(bytes) => [Printed(None, Passed(bytes))]
  }

  function AllLines(before: seq<Event>, events: seq<Event>): seq<Printed>
    decreases |events|
  {
    if events == [] then [] else Lines(before, events[0]) + AllLines(before + [events[0]], events[1..])
  }

  // ---- The table shows the events so far ----

  ghost predicate Shows(table: Table, before: seq<Event>)
  {
    && table.Keys == Ids(before)
    && forall id :: id in table ==> ShowsStep(table[id], before, id)
  }

  ghost predicate ShowsStep(seen: Seen, before: seq<Event>, id: string)
  {
    && seen.number == NumberIn(before, id) && (seen.started.Some? <==> StartSeen(before, id))
    && seen.completed == LastCompletion(before, id)
  }

  lemma {:induction false} LastOf(before: seq<Event>, event: Event)
    ensures (before + [event])[..|before|] == before && (before + [event])[|before|] == event
    ensures Ids(before + [event]) == Ids(before) + if event.Step? then {event.step.id} else {}
  {
  }

  lemma {:induction false} NothingOf(before: seq<Event>, id: string)
    requires id !in Ids(before)
    ensures NumberIn(before, id) == 0 && !StartSeen(before, id) && LastCompletion(before, id) == None
    decreases |before|
  {
    if before != [] {
      var earlier, last := before[..|before| - 1], before[|before| - 1];
      assert before == earlier + [last];
      LastOf(earlier, last);
      NothingOf(earlier, id);
    }
  }

  /** What one more event changes for a step. */
  lemma {:induction false} OneMore(before: seq<Event>, event: Event, id: string)
    ensures NumberIn(before + [event], id) ==
      if id in Ids(before) then NumberIn(before, id) else if Reports(event, id) then |Ids(before)| + 1 else 0
    ensures StartSeen(before + [event], id) <==> StartSeen(before, id) || (Reports(event, id) && event.step.started.Some?)
    ensures LastCompletion(before + [event], id) ==
      if Reports(event, id) && event.step.completed.Some? then event.step.completed else LastCompletion(before, id)
  {
    LastOf(before, event);
  }

  lemma {:induction false} EntryShows(table: Table, before: seq<Event>, event: Event)
    requires Shows(table, before) && event.Step?
    ensures var (seen, id) := (Entry(table, event.step.id), event.step.id);
      && seen.number == NumberIn(before + [event], id) && (seen.started.Some? <==> StartSeen(before, id))
      && seen.completed == LastCompletion(before, id)
  {
    hide NumberIn, StartSeen, LastCompletion;
    var id := event.step.id;
    OneMore(before, event, id);
    assert |table.Keys| == |table|;
    if id !in table {
      NothingOf(before, id);
    }
  }

  lemma {:induction false} RenderShows(table: Table, before: seq<Event>, event: Event)
    requires Shows(table, before)
    ensures Shows(Render(table, event).0, before + [event]) && Render(table, event).1 == Lines(before, event)
  {
    hide NumberIn, StartSeen, LastCompletion, Ids;
    LastOf(before, event);
    var after := Render(table, event).0;
    match event {
      case Step(step) =>
        EntryShows(table, before, event);
        ClosingSays(Entry(table, step.id), step);
        assert after.Keys == table.Keys + {step.id};
      case StepOutput(key, _) =>
        if key.step !in table { NothingOf(before, key.step); }
      case Output(_) =>
    }
    forall id | id in after
      ensures ShowsStep(after[id], before + [event], id)
    {
      OneMore(before, event, id);
    }
  }

  lemma {:induction false} ClosingSays(seen: Seen, step: BuildStep)
    ensures Closing(seen, step) ==
      if step.completed.Some? && seen.completed != step.completed && EndOf(step).Some? then [Printed(Some(seen.number), EndOf(step).value)] else []
  {
  }

  lemma {:induction false} RunShows(table: Table, before: seq<Event>, events: seq<Event>)
    requires Shows(table, before)
    ensures RenderAll(table, events).1 == AllLines(before, events)
    decreases |events|
  {
    hide Shows, Render, Lines;
    if events != [] {
      RenderShows(table, before, events[0]);
      RunShows(Render(table, events[0]).0, before + [events[0]], events[1..]);
    }
  }

  /** The lines printed for any events, with number and text, are those the events call for. */
  lemma {:induction false} RenderedAsReported(events: seq<Event>)
    ensures RenderAll(map[], events).1 == AllLines([], events)
  {
    RunShows(map[], [], events);
  }
}
