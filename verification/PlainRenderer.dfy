/**
 Plain rendering of build progress (`PlainRenderer`, core/crates/ployz-build/src/solve.rs): every step gets
 one number, one header, and one line for each change of its completion.

 A printed line is kept as the pair of its step number and what it says; turning that into characters and
 a duration into seconds is not modelled.
 */
module PlainRenderer {
  import opened Common
  import opened SolveParser
  import ProgressLines
  import StepOrder

  datatype Seen = Seen(number: nat, started: Option<string>, completed: Option<string>)

  type Table = map<string, Seen>

  datatype Text = Name(name: string) | Failed(error: string) | Cached | Done(started: string, completed: string)
    | Said(raw: seq<Byte>) | Passed(bytes: seq<Byte>)

  /** A line with its `#number`; `None` for build output passed on without one. */
  datatype Printed = Printed(number: Option<nat>, text: Text)

  function Header(seen: Seen, step: BuildStep): seq<Printed>
  {
    if seen.started.None? && step.started.Some? then [Printed(Some(seen.number), Name(step.name))] else []
  }

  predicate Completes(seen: Seen, step: BuildStep)
  {
    step.completed.Some? && seen.completed != step.completed
  }

  function Closing(seen: Seen, step: BuildStep): seq<Printed>
  {
    if !Completes(seen, step) then []
    else if step.error.Some? then [Printed(Some(seen.number), Failed(step.error.value))]
    else if step.cached then [Printed(Some(seen.number), Cached)]
    else if step.started.Some? then [Printed(Some(seen.number), Done(step.started.value, step.completed.value))]
    else []
  }

  function Entry(table: Table, id: string): Seen
  {
    if id in table then table[id] else Seen(|table| + 1, None, None)
  }

  function Note(seen: Seen, step: BuildStep): Seen
  {
    Seen(seen.number,
         if seen.started.None? && step.started.Some? then step.started else seen.started,
         if Completes(seen, step) then step.completed else seen.completed)
  }

  function NumberOf(table: Table, id: string): nat
  {
    if id in table then table[id].number else 0
  }

  function Render(table: Table, event: Event): (Table, seq<Printed>)
  {
    match event
    case Step(step) =>
      var seen := Entry(table, step.id);
      (table[step.id := Note(seen, step)], Header(seen, step) + Closing(seen, step))
    case StepOutput(key, raw) => (table, [Printed(Some(NumberOf(table, key.step)), Said(raw))])
    case Output(bytes) => (table, [Printed(None, Passed(bytes))])
  }

  function RenderAll(table: Table, events: seq<Event>): (Table, seq<Printed>)
    decreases |events|
  {
    if events == [] then (table, [])
    else
      var (next, first) := Render(table, events[0]);
      var (after, lines) := RenderAll(next, events[1..]);
      (after, first + lines)
  }

  // ---- Numbers ----

  /** The numbers in use are between 1 and the number of steps, each for one step. */
  ghost predicate Numbered(table: Table)
  {
    && (forall a :: a in table ==> 1 <= table[a].number <= |table|)
    && (forall a, b :: a in table && b in table && table[a].number == table[b].number ==> a == b)
  }

  /** Steps keep their numbers; new steps get new ones. */
  ghost predicate Extends(table: Table, after: Table)
  {
    && |table| <= |after|
    && (forall a :: a in table ==> a in after && after[a].number == table[a].number)
    && (forall a :: a in after && a !in table ==> |table| < after[a].number)
  }

  lemma {:induction false} RenderKeepsNumbers(table: Table, event: Event)
    requires Numbered(table)
    ensures Numbered(Render(table, event).0) && Extends(table, Render(table, event).0)
  {
  }

  lemma {:induction false} RunKeepsNumbers(table: Table, events: seq<Event>)
    requires Numbered(table)
    ensures Numbered(RenderAll(table, events).0) && Extends(table, RenderAll(table, events).0)
    decreases |events|
  {
    if events != [] {
      var next := Render(table, events[0]).0;
      RenderKeepsNumbers(table, events[0]);
      RunKeepsNumbers(next, events[1..]);
      hide Numbered, Render;
      ExtendsFurther(table, next, RenderAll(table, events).0);
    }
  }

  lemma {:induction false} ExtendsFurther(a: Table, b: Table, c: Table)
    requires Extends(a, b) && Extends(b, c)
    ensures Extends(a, c)
  {
  }

  function UpTo(n: nat): (r: set<nat>)
    ensures |r| == n && forall k :: k in r <==> 1 <= k <= n
  {
    if n == 0 then {} else UpTo(n - 1) + {n}
  }

  /** So n steps use exactly the numbers 1..n. */
  lemma {:induction false} EveryNumberIsUsed(table: Table, n: nat)
    requires Numbered(table) && 1 <= n <= |table|
    ensures exists a :: a in table && table[a].number == n
  {
    if forall a :: a in table ==> table[a].number != n {
      Crowded(table, table.Keys, UpTo(|table|) - {n});
    }
  }

  /** Steps with distinct numbers need as many numbers. */
  lemma {:induction false} Crowded(table: Table, ids: set<string>, numbers: set<nat>)
    requires Numbered(table) && ids <= table.Keys
    requires forall a :: a in ids ==> table[a].number in numbers
    ensures |ids| <= |numbers|
    decreases |ids|
  {
    if ids != {} {
      var id :| id in ids;
      Crowded(table, ids - {id}, numbers - {table[id].number});
    }
  }

  // ---- Transitions ----

  datatype Kind = Heading | Ending

  predicate Is(line: Printed, kind: Kind, number: nat)
  {
    && line.number == Some(number)
    && match kind
       case Heading => line.text.Name?
       case Ending => line.text.Failed? || line.text.Cached? || line.text.Done?
  }

  function Count(lines: seq<Printed>, kind: Kind, number: nat): nat
  {
    if lines == [] then 0 else (if Is(lines[0], kind, number) then 1 else 0) + Count(lines[1..], kind, number)
  }

  lemma {:induction false} CountAppend(a: seq<Printed>, b: seq<Printed>, kind: Kind, number: nat)
    ensures Count(a + b, kind, number) == Count(a, kind, number) + Count(b, kind, number)
  {
    if a == [] {
      assert a + b == b;
    } else {
      assert (a + b)[0] == a[0] && (a + b)[1..] == a[1..] + b;
      CountAppend(a[1..], b, kind, number);
    }
  }

  lemma {:induction false} CountOne(lines: seq<Printed>, kind: Kind, number: nat)
    requires |lines| <= 1
    ensures Count(lines, kind, number) == if |lines| == 1 && Is(lines[0], kind, number) then 1 else 0
  {
  }

  predicate Starts(event: Event, id: string)
  {
    event.Step? && event.step.id == id && event.step.started.Some?
  }

  /** The event reports a completion of the step other than the last one reported. */
  predicate Ends(last: Option<string>, event: Event, id: string)
  {
    event.Step? && event.step.id == id && event.step.completed.Some? && event.step.completed != last
  }

  /** Something can be said about the completion: an error, a cache hit or a duration. */
  predicate Speaks(step: BuildStep)
  {
    step.error.Some? || step.cached || step.started.Some?
  }

  function StartOf(table: Table, id: string): Option<string>
  {
    if id in table then table[id].started else None
  }

  function EndOf(table: Table, id: string): Option<string>
  {
    if id in table then table[id].completed else None
  }

  /** What one event prints under a step's number. */
  function Due(table: Table, event: Event, id: string, kind: Kind): nat
  {
    match kind
    case Heading => if StartOf(table, id).None? && Starts(event, id) then 1 else 0
    case Ending => if Ends(EndOf(table, id), event, id) && Speaks(event.step) then 1 else 0
  }

  /** One event prints under a step's own number just what it reports of that step. */
  lemma {:induction false} RenderPrints(table: Table, event: Event, id: string, number: nat, kind: Kind)
    requires Numbered(table)
    requires var after := Render(table, event).0; if id in after then number == after[id].number else number > |after|
    ensures Count(Render(table, event).1, kind, number) == Due(table, event, id, kind)
  {
    var (after, lines) := Render(table, event);
    RenderKeepsNumbers(table, event);
    if event.Step? {
      var seen := Entry(table, event.step.id);
      assert after[event.step.id].number == seen.number;
      assert number == seen.number <==> id == event.step.id;
      hide Numbered, Extends;
      StepPrints(seen, event.step, kind, number);
    } else {
      CountOne(lines, kind, number);
    }
  }

  lemma {:induction false} StepPrints(seen: Seen, step: BuildStep, kind: Kind, number: nat)
    ensures Count(Header(seen, step) + Closing(seen, step), kind, number) ==
      if number != seen.number then 0
      else match kind
        case Heading => if seen.started.None? && step.started.Some? then 1 else 0
        case Ending => if Completes(seen, step) && Speaks(step) then 1 else 0
  {
    hide Count;
    CountAppend(Header(seen, step), Closing(seen, step), kind, number);
    CountOne(Header(seen, step), kind, number);
    CountOne(Closing(seen, step), kind, number);
  }

  lemma {:induction false} RenderNotes(table: Table, event: Event, id: string)
    ensures var after := Render(table, event).0;
      && StartOf(after, id) == (if StartOf(table, id).None? && Starts(event, id) then event.step.started else StartOf(table, id))
      && EndOf(after, id) == (if Ends(EndOf(table, id), event, id) then event.step.completed else EndOf(table, id))
  {
  }

  predicate StartedIn(events: seq<Event>, id: string)
  {
    events != [] && (Starts(events[0], id) || StartedIn(events[1..], id))
  }

  /** How many completions differ from the one reported before them and have something to say. */
  function EndingsIn(last: Option<string>, events: seq<Event>, id: string): nat
    decreases |events|
  {
    if events == [] then 0
    else if Ends(last, events[0], id) then
      (if Speaks(events[0].step) then 1 else 0) + EndingsIn(events[0].step.completed, events[1..], id)
    else EndingsIn(last, events[1..], id)
  }

  /** What a run prints under a step's number, told from the events alone. */
  function RunDue(start: Option<string>, last: Option<string>, events: seq<Event>, id: string, kind: Kind): nat
  {
    match kind
    case Heading => if start.None? && StartedIn(events, id) then 1 else 0
    case Ending => EndingsIn(last, events, id)
  }

  lemma {:induction false} RunDueStep(table: Table, events: seq<Event>, id: string, kind: Kind)
    requires events != []
    ensures var next := Render(table, events[0]).0;
      RunDue(StartOf(table, id), EndOf(table, id), events, id, kind) ==
        Due(table, events[0], id, kind) + RunDue(StartOf(next, id), EndOf(next, id), events[1..], id, kind)
  {
    RenderNotes(table, events[0], id);
    hide Render, StartOf, EndOf;
  }

  /**
   In every run a step that anything starts gets exactly one header, and one line for each change of its
   completion, all under the one number it has in the end.
   */
  lemma {:induction false} RunPrints(table: Table, events: seq<Event>, id: string, kind: Kind)
    requires Numbered(table) && id in RenderAll(table, events).0
    ensures var (after, lines) := RenderAll(table, events);
      Count(lines, kind, after[id].number) == RunDue(StartOf(table, id), EndOf(table, id), events, id, kind)
    decreases |events|
  {
    if events != [] {
      var (next, first) := Render(table, events[0]);
      var (after, lines) := RenderAll(next, events[1..]);
      var number := after[id].number;
      RenderKeepsNumbers(table, events[0]);
      RunKeepsNumbers(next, events[1..]);
      assert if id in next then number == next[id].number else number > |next|;
      RenderPrints(table, events[0], id, number, kind);
      CountAppend(first, lines, kind, number);
      RunDueStep(table, events, id, kind);
      hide Numbered, Extends, Count, Render, StartOf, EndOf, RunDue, Due;
      RunPrints(next, events[1..], id, kind);
    }
  }

  /** A completion repeated with the same time is printed once at most. */
  lemma {:induction false} RepeatedCompletion(events: seq<Event>, id: string, at: string, last: Option<string>)
    requires last == None || last == Some(at)
    requires forall event :: event in events && event.Step? && event.step.id == id ==> event.step.completed in {None, Some(at)}
    ensures EndingsIn(last, events, id) <= if last == None then 1 else 0
    decreases |events|
  {
    if events != [] {
      assert events[0] in events && forall event :: event in events[1..] ==> event in events;
      RepeatedCompletion(events[1..], id, at, if Ends(last, events[0], id) then Some(at) else last);
    }
  }

  /** Output printed under a number other than 0 carries the number of its step's header; 0 marks an unknown step. */
  lemma {:induction false} OutputNumber(events: seq<Event>, key: StreamKey, raw: seq<Byte>)
    ensures var table := RenderAll(map[], events).0;
      var number := Render(table, StepOutput(key, raw)).1[0].number.value;
      if key.step in table then number == table[key.step].number && number > 0 else number == 0
  {
    RunKeepsNumbers(map[], events);
  }

  lemma {:induction false} StartIsKept(table: Table, events: seq<Event>, id: string, i: nat)
    requires i < |events| && Starts(events[i], id)
    ensures StartOf(RenderAll(table, events).0, id).Some?
    decreases |events|
  {
    var next := Render(table, events[0]).0;
    RenderNotes(table, events[0], id);
    hide Render, StartOf;
    if i == 0 {
      StaysStarted(next, events[1..], id);
    } else {
      StartIsKept(next, events[1..], id, i - 1);
    }
  }

  lemma {:induction false} StaysStarted(table: Table, events: seq<Event>, id: string)
    requires StartOf(table, id).Some?
    ensures StartOf(RenderAll(table, events).0, id).Some?
    decreases |events|
  {
    if events != [] {
      RenderNotes(table, events[0], id);
      hide Render, StartOf;
      StaysStarted(Render(table, events[0]).0, events[1..], id);
    }
  }

  lemma {:induction false} StartIsIn(events: seq<Event>, id: string, i: nat)
    requires i < |events| && Starts(events[i], id)
    ensures StartedIn(events, id)
    decreases |events|
  {
    if i > 0 {
      StartIsIn(events[1..], id, i - 1);
    }
  }

  lemma {:induction false} CountedIsPrinted(lines: seq<Printed>, kind: Kind, number: nat)
    requires Count(lines, kind, number) > 0
    ensures exists k :: 0 <= k < |lines| && Is(lines[k], kind, number)
    decreases |lines|
  {
    if !Is(lines[0], kind, number) {
      CountedIsPrinted(lines[1..], kind, number);
      var k :| 0 <= k < |lines[1..]| && Is(lines[1..][k], kind, number);
      assert Is(lines[k + 1], kind, number);
    }
  }

  /** The step has a number, and a header line with it was printed. */
  ghost predicate HasHeader(table: Table, lines: seq<Printed>, id: string)
  {
    id in table && exists k :: 0 <= k < |lines| && Is(lines[k], Heading, table[id].number)
  }

  /** A step that an event has started has its header among the lines printed. */
  lemma {:induction false} StartedHasHeader(events: seq<Event>, id: string, j: nat)
    requires j < |events| && Starts(events[j], id)
    ensures HasHeader(RenderAll(map[], events).0, RenderAll(map[], events).1, id)
  {
    var (table, lines) := RenderAll(map[], events);
    StartIsKept(map[], events, id, j);
    StartIsIn(events, id, j);
    RunPrints(map[], events, id, Heading);
    CountedIsPrinted(lines, Heading, table[id].number);
  }

  /**
   Fed by the parser, the renderer has printed a step's header, under the number it then has, before any event
   that closes the step with a duration.
   */
  lemma {:induction false} HeaderComesFirst(parse: Parse, units: seq<ProgressLines.Unit>, i: nat)
    requires var events := EmitUnits(parse, INITIAL, units).1;
      i < |events| && StepOrder.IsCompletion(events[i]) && events[i].step.started.Some?
    ensures var events := EmitUnits(parse, INITIAL, units).1;
      HasHeader(RenderAll(map[], events[..i]).0, RenderAll(map[], events[..i]).1, events[i].step.id)
  {
    hide EmitUnits, RenderAll;
    var events := EmitUnits(parse, INITIAL, units).1;
    StepOrder.CompletionFollowsOpening(parse, units, i);
    var j :| 0 <= j < i && StepOrder.IsOpen(events[j]) && events[j].step.id == events[i].step.id;
    assert events[..i][j] == events[j];
    StartedHasHeader(events[..i], events[i].step.id, j);
  }

  // ---- The renderer as an object ----

  class Renderer {
    var steps: Table

    constructor ()
      ensures steps == map[]
    {
      steps := map[];
    }

    method Print(event: Event) returns (lines: seq<Printed>)
      modifies this
      ensures (steps, lines) == Render(old(steps), event)
    {
      match event {
        case Step(step) =>
          if step.id !in steps {
            steps := steps[step.id := Seen(|steps| + 1, None, None)];
          }
          var seen := steps[step.id];
          lines := [];
          if seen.started.None? && step.started.Some? {
            steps := steps[step.id := steps[step.id].(started := step.started)];
            lines := lines + [Printed(Some(seen.number), Name(step.name))];
          }
          if step.completed.Some? && seen.completed != step.completed {
            steps := steps[step.id := steps[step.id].(completed := step.completed)];
            lines := lines + Closing(seen, step);
          }
          assert lines == Header(seen, step) + Closing(seen, step);
          assert steps == old(steps)[step.id := Note(Entry(old(steps), step.id), step)];
        case StepOutput(key, raw) =>
          lines := [Printed(Some(NumberOf(steps, key.step)), Said(raw))];
        case Output(bytes) =>
          lines := [Printed(None, Passed(bytes))];
      }
    }
  }
}
