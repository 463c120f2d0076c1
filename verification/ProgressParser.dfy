/**
 The parser as the object the build feeds chunk by chunk (core/crates/ployz-build/src/solve.rs). Each
 method is proved against the functions of `SolveParser`; `progress` calls are the returned events.
 */
module ProgressParser {
  import opened Common
  import opened ProgressLines
  import opened SolveParser

  lemma {:induction false} EmitAppend(parse: Parse, s: State, a: seq<Unit>, b: seq<Unit>)
    ensures var mid := EmitUnits(parse, s, a);
      && EmitUnits(parse, s, a + b).0 == EmitUnits(parse, mid.0, b).0
      && EmitUnits(parse, s, a + b).1 == mid.1 + EmitUnits(parse, mid.0, b).1
    decreases |a|
  {
    hide EmitUnit;
    if a == [] {
      assert a + b == b;
    } else {
      assert (a + b)[0] == a[0] && (a + b)[1..] == a[1..] + b;
      EmitAppend(parse, EmitUnit(parse, s, a[0]).0, a[1..], b);
    }
  }

  lemma {:induction false} EmitOne(parse: Parse, s: State, unit: Unit)
    ensures EmitUnits(parse, s, []) == (s, [])
    ensures EmitUnits(parse, s, [unit]) == EmitUnit(parse, s, unit)
    ensures unit.Overflow? ==> EmitUnit(parse, s, unit) == (s, [Output(unit.bytes)])
  {
    hide EmitStatus;
    var first := EmitUnit(parse, s, unit);
    assert [unit][1..] == [] && first.1 + [] == first.1;
  }

  /** The same bytes give the same events and leave the same state however they arrive in chunks. */
  lemma {:induction false} SameBytesSameEvents(parse: Parse, s: State, a: seq<seq<Byte>>, b: seq<seq<Byte>>)
    requires Concat(a) == Concat(b) && NoOversizedTail([], a) && NoOversizedTail([], b)
    ensures FeedUnits([], a).1 == FeedUnits([], b).1
    ensures EmitUnits(parse, s, FeedUnits([], a).0) == EmitUnits(parse, s, FeedUnits([], b).0)
  {
    ChunkingIsInvisible([], a);
    ChunkingIsInvisible([], b);
  }

  lemma {:induction false} FlushLast(partial: Partial, order: seq<StreamKey>, key: StreamKey)
    ensures FlushAll(partial, order + [key]) == FlushAll(partial, order) + Flush(partial, key)
  {
    if order == [] {
      assert ([] + [key]) == [key] && [key][1..] == [];
    } else {
      assert (order + [key])[0] == order[0] && (order + [key])[1..] == order[1..] + [key];
      FlushLast(partial, order[1..], key);
    }
  }

  lemma {:induction false} OpenLast(started: set<string>, steps: seq<BuildStep>, step: BuildStep)
    ensures var (o, p) := (OpenSteps(started, steps), OpenSteps(started, steps + [step]));
      var last := OpenStep(o.started, step);
      p.started == last.started && p.events == o.events + last.events && p.completed == o.completed + last.completed
    decreases |steps|
  {
    hide OpenStep;
    if steps == [] {
      assert steps + [step] == [step] && [step][1..] == [];
    } else {
      assert (steps + [step])[0] == steps[0] && (steps + [step])[1..] == steps[1..] + [step];
      OpenLast(OpenStep(started, steps[0]).started, steps[1..], step);
    }
  }

  lemma {:induction false} IngestNone(partial: Partial)
    ensures IngestLogs(partial, []) == (partial, [])
  {
  }

  lemma {:induction false} IngestLast(partial: Partial, logs: seq<Log>, log: Log)
    ensures var (r, q) := (IngestLogs(partial, logs), IngestLogs(partial, logs + [log]));
      var last := IngestLog(r.0, log);
      q.0 == last.0 && q.1 == r.1 + last.1
    decreases |logs|
  {
    hide IngestLog;
    if logs == [] {
      assert logs + [log] == [log] && [log][1..] == [];
    } else {
      assert (logs + [log])[0] == logs[0] && (logs + [log])[1..] == logs[1..] + [log];
      IngestLast(IngestLog(partial, logs[0]).0, logs[1..], log);
    }
  }

  lemma {:induction false} CompleteLast(partial: Partial, steps: seq<BuildStep>, step: BuildStep)
    ensures var (r, q) := (CompleteSteps(partial, steps), CompleteSteps(partial, steps + [step]));
      var last := CompleteStep(r.0, step);
      q.0 == last.0 && q.1 == r.1 + last.1
    decreases |steps|
  {
    hide CompleteStep;
    if steps == [] {
      assert steps + [step] == [step] && [step][1..] == [];
    } else {
      assert (steps + [step])[0] == steps[0] && (steps + [step])[1..] == steps[1..] + [step];
      CompleteLast(CompleteStep(partial, steps[0]).0, steps[1..], step);
    }
  }

  lemma {:induction false} NextFeed(pending: seq<Byte>, chunks: seq<seq<Byte>>, i: nat)
    requires i <= |chunks|
    ensures i == |chunks| ==> FeedUnits(pending, chunks[i..]) == ([], pending)
    ensures i < |chunks| ==>
      var (now, later) := (pending + chunks[i], FeedUnits(Kept(pending + chunks[i]), chunks[i + 1..]));
      FeedUnits(pending, chunks[i..]).0 == Cut(now) + later.0 && FeedUnits(pending, chunks[i..]).1 == later.1
  {
    hide Cut, Kept;
    if i < |chunks| {
      assert chunks[i..][0] == chunks[i] && chunks[i..][1..] == chunks[i + 1..];
    }
  }

  /** Two fresh parsers fed the same bytes in different chunks emit the same events. */
  method FeedBoth(parse: Parse, a: seq<seq<Byte>>, b: seq<seq<Byte>>) returns (x: seq<Event>, y: seq<Event>)
    requires Concat(a) == Concat(b) && NoOversizedTail([], a) && NoOversizedTail([], b)
    ensures x == y == EmitUnits(parse, INITIAL, Lines(Concat(a))).1
  {
    hide EmitUnits, FeedUnits, NoOversizedTail;
    var first := new Parser(parse);
    var second := new Parser(parse);
    ChunkingIsInvisible([], a);
    ChunkingIsInvisible([], b);
    assert [] + Concat(a) == Concat(a);
    x := first.FeedAll(a);
    y := second.FeedAll(b);
  }

  class Parser {
    const parse: Parse
    var pending: seq<Byte>
    var partial: Partial
    var started: set<string>

    constructor (parse: Parse)
      ensures this.parse == parse && pending == [] && Progress() == INITIAL
    {
      this.parse := parse;
      pending, partial, started := [], map[], {};
    }

    function Progress(): State
      reads this
    {
      State(partial, started)
    }

    method Feed(bytes: seq<Byte>) returns (events: seq<Event>)
      modifies this
      ensures (Progress(), events) == EmitUnits(parse, old(Progress()), Cut(old(pending) + bytes))
      ensures pending == Kept(old(pending) + bytes)
    {
      hide EmitUnits, EmitUnit;
      ghost var before, all, done := Progress(), pending + bytes, [];
      assert (before, []) == EmitUnits(parse, before, []) by { EmitOne(parse, before, Line([])); }
      pending := pending + bytes;
      events := [];
      var end := LineEnd(pending);
      while end > 0
        invariant end == LineEnd(pending)
        invariant Lines(all) == done + Lines(pending) && Tail(all) == Tail(pending)
        invariant (Progress(), events) == EmitUnits(parse, before, done)
        decreases |pending|
      {
        var line := pending[..end];
        ghost var earlier := Progress();
        pending := pending[end..];
        var more := EmitLine(line);
        EmitAppend(parse, before, done, [Line(line)]);
        EmitOne(parse, earlier, Line(line));
        assert done + ([Line(line)] + Lines(pending)) == (done + [Line(line)]) + Lines(pending);
        done := done + [Line(line)];
        events := events + more;
        end := LineEnd(pending);
      }
      assert Lines(all) == done;
      if |pending| > MAX_LINE {
        EmitAppend(parse, before, done, [Overflow(pending)]);
        EmitOne(parse, Progress(), Overflow(pending));
        events := events + [Output(pending)];
        pending := [];
      } else {
        assert Cut(all) == done;
      }
    }

    /** Successive feeds emit the events of all the units they cut, and keep what the last one leaves. */
    method FeedAll(chunks: seq<seq<Byte>>) returns (events: seq<Event>)
      modifies this
      ensures (Progress(), events) == EmitUnits(parse, old(Progress()), FeedUnits(old(pending), chunks).0)
      ensures pending == FeedUnits(old(pending), chunks).1
    {
      hide EmitUnits, Cut, Kept, FeedUnits;
      ghost var before, done := Progress(), [];
      events := [];
      EmitOne(parse, before, Line([]));
      assert chunks[0..] == chunks;
      for i := 0 to |chunks|
        invariant FeedUnits(old(pending), chunks).0 == done + FeedUnits(pending, chunks[i..]).0
        invariant FeedUnits(old(pending), chunks).1 == FeedUnits(pending, chunks[i..]).1
        invariant (Progress(), events) == EmitUnits(parse, before, done)
      {
        NextFeed(pending, chunks, i);
        ghost var cut := Cut(pending + chunks[i]);
        EmitAppend(parse, before, done, cut);
        var more := Feed(chunks[i]);
        assert done + (cut + FeedUnits(pending, chunks[i + 1..]).0) == (done + cut) + FeedUnits(pending, chunks[i + 1..]).0;
        done := done + cut;
        events := events + more;
      }
      NextFeed(pending, chunks, |chunks|);
      assert done + [] == done;
    }

    method EmitLine(line: seq<Byte>) returns (events: seq<Event>)
      modifies this`partial, this`started
      ensures (Progress(), events) == EmitUnit(parse, old(Progress()), Line(line))
    {
      match parse(line) {
        case None => events := [Output(line)];
        case Some(status) =>
          var opening, completed := Open(status.vertexes);
          var output := Ingest(status.logs);
          var closing := Complete(completed);
          events := opening + output + closing;
      }
    }

    method Open(steps: seq<BuildStep>) returns (events: seq<Event>, completed: seq<BuildStep>)
      modifies this`started
      ensures Opening(started, events, completed) == OpenSteps(old(started), steps)
    {
      events, completed := [], [];
      for i := 0 to |steps|
        invariant Opening(started, events, completed) == OpenSteps(old(started), steps[..i])
      {
        var step := steps[i];
        assert steps[..i + 1] == steps[..i] + [step];
        OpenLast(old(started), steps[..i], step);
        var firstStart := step.started.Some? && step.id !in started;
        if step.started.Some? {
          started := started + {step.id};
        }
        if step.completed.None? {
          events := events + [Step(step)];
        } else {
          if firstStart {
            events := events + [Step(step.(completed := None, cached := false, error := None))];
          }
          completed := completed + [step];
        }
      }
      assert steps[..|steps|] == steps;
    }

    method Ingest(logs: seq<Log>) returns (events: seq<Event>)
      modifies this`partial
      ensures (partial, events) == IngestLogs(old(partial), logs)
    {
      hide IngestLogs, IngestLog;
      events := [];
      IngestNone(partial);
      assert logs[..0] == [];
      for i := 0 to |logs|
        invariant (partial, events) == IngestLogs(old(partial), logs[..i])
      {
        var log := logs[i];
        assert logs[..i + 1] == logs[..i] + [log];
        IngestLast(old(partial), logs[..i], log);
        var more := IngestOne(log);
        events := events + more;
      }
      assert logs[..|logs|] == logs;
    }

    method IngestOne(log: Log) returns (events: seq<Event>)
      modifies this`partial
      ensures (partial, events) == IngestLog(old(partial), log)
    {
      hide ReleaseLength;
      var key := KeyOf(log);
      var bytes := Get(partial, key) + log.data;
      partial := partial - {key};
      var end := ReleaseLength(bytes);
      events := if end > 0 then [StepOutput(key, bytes[..end])] else [];
      if bytes[end..] != [] {
        partial := partial[key := bytes[end..]];
      }
      assert partial == Hold(old(partial), key, bytes[end..]);
    }

    method Complete(steps: seq<BuildStep>) returns (events: seq<Event>)
      modifies this`partial
      ensures (partial, events) == CompleteSteps(old(partial), steps)
    {
      events := [];
      for i := 0 to |steps|
        invariant (partial, events) == CompleteSteps(old(partial), steps[..i])
      {
        assert steps[..i + 1] == steps[..i] + [steps[i]];
        CompleteLast(old(partial), steps[..i], steps[i]);
        hide CompleteSteps;
        var flushed := FlushStep(steps[i].id);
        events := events + (flushed + [Step(steps[i])]);
      }
      assert steps[..|steps|] == steps;
    }

    method FlushStep(id: string) returns (events: seq<Event>)
      modifies this`partial
      ensures var out, err := StreamKey(id, false), StreamKey(id, true);
        && partial == old(partial) - {out, err}
        && events == Flush(old(partial), out) + Flush(old(partial), err)
    {
      events := [];
      var out, err := StreamKey(id, false), StreamKey(id, true);
      if out in partial {
        events := events + [StepOutput(out, partial[out])];
        partial := partial - {out};
      }
      if err in partial {
        events := events + [StepOutput(err, partial[err])];
        partial := partial - {err};
      }
    }

    /** Passes on everything still held; the streams come in whatever order the table yields them. */
    method Finish() returns (events: seq<Event>)
      modifies this`pending, this`partial
      ensures pending == [] && partial == map[]
      ensures exists order :: IsOrder(order, old(partial)) && events == FinishEvents(old(pending), old(partial), order)
    {
      events := if pending != [] then [Output(pending)] else [];
      pending := [];
      var held := partial;
      partial := map[];
      var rest, order := FlushTable(held);
      events := events + rest;
    }
  }

  method FlushTable(held: Partial) returns (events: seq<Event>, ghost order: seq<StreamKey>)
    ensures IsOrder(order, held) && events == FlushAll(held, order)
  {
    events, order := [], [];
    var keys := held.Keys;
    while keys != {}
      invariant keys <= held.Keys
      invariant forall i, j :: 0 <= i < j < |order| ==> order[i] != order[j]
      invariant forall key :: key in held <==> key in order || key in keys
      invariant forall key :: key in order ==> key !in keys
      invariant events == FlushAll(held, order)
    {
      var key :| key in keys;
      FlushLast(held, order, key);
      hide FlushAll;
      events := events + [StepOutput(key, held[key])];
      order := order + [key];
      keys := keys - {key};
    }
  }
}
