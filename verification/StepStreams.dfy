/**
 What the progress parser does to each step's output stream: nothing is lost or repeated, little is
 held back, and well-formed text stays well-formed however it is cut up.
 */
module StepStreams {
  import opened Common
  import opened Utf8
  import opened ProgressLines
  import opened SolveParser

  /** The bytes emitted for one stream. */
  function Raw(events: seq<Event>, key: StreamKey): seq<Byte>
  {
    if events == [] then []
    else (if events[0].StepOutput? && events[0].key == key then events[0].raw else []) + Raw(events[1..], key)
  }

  /** The bytes logged for one stream. */
  function Logged(logs: seq<Log>, key: StreamKey): seq<Byte>
  {
    if logs == [] then []
    else (if logs[0].vertex == key.step && (logs[0].stream == 2 <==> key.stderr) then logs[0].data else []) + Logged(logs[1..], key)
  }

  function UnitLogs(parse: Parse, unit: Unit): seq<Log>
  {
    var status := StatusOf(parse, unit);
    if status.Some? then status.value.logs else []
  }

  function LoggedIn(parse: Parse, units: seq<Unit>, key: StreamKey): seq<Byte>
  {
    if units == [] then [] else Logged(UnitLogs(parse, units[0]), key) + LoggedIn(parse, units[1..], key)
  }

  lemma {:induction false} RawAppend(a: seq<Event>, b: seq<Event>, key: StreamKey)
    ensures Raw(a + b, key) == Raw(a, key) + Raw(b, key)
  {
    if a == [] {
      assert a + b == b;
    } else {
      assert (a + b)[0] == a[0] && (a + b)[1..] == a[1..] + b;
      RawAppend(a[1..], b, key);
    }
  }

  lemma {:induction false} RawOne(event: Event, key: StreamKey)
    ensures Raw([event], key) == if event.StepOutput? && event.key == key then event.raw else []
    ensures Raw([], key) == []
  {
    assert [event][1..] == [];
  }

  // ---- Conservation ----

  lemma {:induction false} LogConserves(partial: Partial, log: Log, key: StreamKey)
    ensures var (after, events) := IngestLog(partial, log);
      Raw(events, key) + Get(after, key) == Get(partial, key) + if KeyOf(log) == key then log.data else []
  {
    hide ReleaseLength;
    var bytes := Get(partial, KeyOf(log)) + log.data;
    var n := ReleaseLength(bytes);
    RawOne(StepOutput(KeyOf(log), bytes[..n]), key);
    hide Raw;
    assert bytes[..n] + bytes[n..] == bytes;
  }

  lemma {:induction false} LogsConserve(partial: Partial, logs: seq<Log>, key: StreamKey)
    ensures var (after, events) := IngestLogs(partial, logs);
      Raw(events, key) + Get(after, key) == Get(partial, key) + Logged(logs, key)
    decreases |logs|
  {
    if logs != [] {
      var (held, first) := IngestLog(partial, logs[0]);
      var (after, events) := IngestLogs(held, logs[1..]);
      LogConserves(partial, logs[0], key);
      LogsConserve(held, logs[1..], key);
      RawAppend(first, events, key);
      hide IngestLog, Get, Raw;
      Chain(Get(partial, key), if KeyOf(logs[0]) == key then logs[0].data else [], Raw(first, key),
            Get(held, key), Logged(logs[1..], key), Raw(events, key), Get(after, key));
    }
  }

  /** Two conserving steps in a row conserve. */
  lemma {:induction false} Chain(before: seq<Byte>, data: seq<Byte>, first: seq<Byte>, middle: seq<Byte>, later: seq<Byte>, second: seq<Byte>, end: seq<Byte>)
    requires first + middle == before + data && second + end == middle + later
    ensures (first + second) + end == before + (data + later)
  {
    assert (first + second) + end == first + (second + end);
    assert first + (middle + later) == (first + middle) + later;
    assert (before + data) + later == before + (data + later);
  }

  lemma {:induction false} FlushRaw(partial: Partial, flushed: StreamKey, key: StreamKey)
    ensures Raw(Flush(partial, flushed), key) == if flushed == key then Get(partial, key) else []
  {
    RawOne(StepOutput(flushed, Get(partial, flushed)), key);
  }

  lemma {:induction false} StepConserves(partial: Partial, step: BuildStep, key: StreamKey)
    ensures var (after, events) := CompleteStep(partial, step);
      Raw(events, key) + Get(after, key) == Get(partial, key)
  {
    var out, err := StreamKey(step.id, false), StreamKey(step.id, true);
    FlushRaw(partial, out, key);
    FlushRaw(partial, err, key);
    RawOne(Step(step), key);
    RawAppend(Flush(partial, out), Flush(partial, err), key);
    RawAppend(Flush(partial, out) + Flush(partial, err), [Step(step)], key);
    hide Raw, Flush;
  }

  lemma {:induction false} StepsConserve(partial: Partial, steps: seq<BuildStep>, key: StreamKey)
    ensures var (after, events) := CompleteSteps(partial, steps);
      Raw(events, key) + Get(after, key) == Get(partial, key)
    decreases |steps|
  {
    if steps != [] {
      var (held, first) := CompleteStep(partial, steps[0]);
      var (after, events) := CompleteSteps(held, steps[1..]);
      StepConserves(partial, steps[0], key);
      StepsConserve(held, steps[1..], key);
      RawAppend(first, events, key);
      hide CompleteStep, Get, Raw;
      Chain(Get(partial, key), [], Raw(first, key), Get(held, key), [], Raw(events, key), Get(after, key));
    }
  }

  lemma {:induction false} OpeningIsSilent(started: set<string>, steps: seq<BuildStep>, key: StreamKey)
    ensures Raw(OpenSteps(started, steps).events, key) == []
    decreases |steps|
  {
    if steps != [] {
      var first := OpenStep(started, steps[0]);
      OpeningIsSilent(first.started, steps[1..], key);
      RawAppend(first.events, OpenSteps(first.started, steps[1..]).events, key);
      if first.events != [] {
        RawOne(first.events[0], key);
        assert first.events == [first.events[0]];
      }
    }
  }

  lemma {:induction false} StatusConserves(s: State, status: Status, key: StreamKey)
    ensures var (after, events) := EmitStatus(s, status);
      Raw(events, key) + Get(after.partial, key) == Get(s.partial, key) + Logged(status.logs, key)
  {
    var opening := OpenSteps(s.started, status.vertexes);
    var (held, output) := IngestLogs(s.partial, status.logs);
    var (partial, completed) := CompleteSteps(held, opening.completed);
    OpeningIsSilent(s.started, status.vertexes, key);
    LogsConserve(s.partial, status.logs, key);
    StepsConserve(held, opening.completed, key);
    RawAppend(opening.events, output, key);
    RawAppend(opening.events + output, completed, key);
    hide Get, Raw, OpenSteps, IngestLogs, CompleteSteps, Logged;
    Chain(Get(s.partial, key), Logged(status.logs, key), Raw(output, key), Get(held, key), [], Raw(completed, key), Get(partial, key));
  }

  /**
   At every moment of every run, each stream's emitted bytes followed by its held bytes are exactly what
   was logged for it, from whatever was held before.
   */
  lemma {:induction false} RunConserves(parse: Parse, s: State, units: seq<Unit>, key: StreamKey)
    ensures var (after, events) := EmitUnits(parse, s, units);
      Raw(events, key) + Get(after.partial, key) == Get(s.partial, key) + LoggedIn(parse, units, key)
    decreases |units|
  {
    if units != [] {
      var (next, first) := EmitUnit(parse, s, units[0]);
      var (after, events) := EmitUnits(parse, next, units[1..]);
      match StatusOf(parse, units[0]) {
        case None => RawOne(Output(units[0].bytes), key);
        case Some(status) => StatusConserves(s, status, key);
      }
      RunConserves(parse, next, units[1..], key);
      RawAppend(first, events, key);
      hide Get, Raw, EmitStatus, Logged;
      Chain(Get(s.partial, key), Logged(UnitLogs(parse, units[0]), key), Raw(first, key),
            Get(next.partial, key), LoggedIn(parse, units[1..], key), Raw(events, key), Get(after.partial, key));
    }
  }

  lemma {:induction false} FlushAllRaw(partial: Partial, order: seq<StreamKey>, key: StreamKey)
    requires forall i, j :: 0 <= i < j < |order| ==> order[i] != order[j]
    ensures Raw(FlushAll(partial, order), key) == if key in order then Get(partial, key) else []
  {
    if order != [] {
      FlushAllRaw(partial, order[1..], key);
      FlushRaw(partial, order[0], key);
      RawAppend(Flush(partial, order[0]), FlushAll(partial, order[1..]), key);
      hide Raw, Flush;
      assert key in order <==> key == order[0] || key in order[1..];
    }
  }

  /** After `finish`, everything logged for a stream has been emitted, once and in order. */
  lemma {:induction false} FinishEmitsTheRest(parse: Parse, units: seq<Unit>, pending: seq<Byte>, order: seq<StreamKey>, key: StreamKey)
    requires IsOrder(order, EmitUnits(parse, INITIAL, units).0.partial)
    ensures var (after, events) := EmitUnits(parse, INITIAL, units);
      Raw(events + FinishEvents(pending, after.partial, order), key) == LoggedIn(parse, units, key)
  {
    var (after, events) := EmitUnits(parse, INITIAL, units);
    var first := if pending != [] then [Output(pending)] else [];
    RunConserves(parse, INITIAL, units, key);
    FlushAllRaw(after.partial, order, key);
    RawOne(Output(pending), key);
    RawAppend(first, FlushAll(after.partial, order), key);
    RawAppend(events, FinishEvents(pending, after.partial, order), key);
    assert key in order <==> key in after.partial;
    hide Raw, EmitUnits, FlushAll, LoggedIn, IsOrder;
    assert Raw(FinishEvents(pending, after.partial, order), key) == [] + Get(after.partial, key);
    assert [] + LoggedIn(parse, units, key) == LoggedIn(parse, units, key);
  }

  // ---- How much is held back ----

  lemma {:induction false} LastNewline(bytes: seq<Byte>)
    ensures var n := AfterLastNewline(bytes);
      && NEWLINE !in bytes[n..] && (n > 0 ==> bytes[n - 1] == NEWLINE)
  {
    if bytes != [] && bytes[|bytes| - 1] != NEWLINE {
      var front := bytes[..|bytes| - 1];
      LastNewline(front);
      var n := AfterLastNewline(front);
      assert bytes[n..] == front[n..] + [bytes[|bytes| - 1]];
    }
  }

  function Max(a: nat, b: nat): nat
  {
    if a > b then a else b
  }

  /** What a stream holds has no newline and is at most 64 KiB or as long as its last record. */
  ghost predicate Short(held: seq<Byte>, last: nat)
  {
    NEWLINE !in held && |held| <= Max(MAX_PARTIAL, last)
  }

  lemma {:induction false} BoundaryLeavesLittle(bytes: seq<Byte>)
    ensures |bytes| - CharBoundary(bytes) <= 3
  {
    hide Plausible, ValidUpTo;
  }

  lemma {:induction false} ReleaseLeavesShort(held: seq<Byte>, data: seq<Byte>, last: nat)
    requires Short(held, last)
    ensures var bytes := held + data; Short(bytes[ReleaseLength(bytes)..], |data|)
  {
    var bytes := held + data;
    var end := AfterLastNewline(bytes);
    LastNewline(bytes);
    BoundaryLeavesLittle(bytes);
    hide CharBoundary, AfterLastNewline;
    if end > 0 {
      assert forall i :: 0 <= i < |held| ==> held[i] == bytes[i];
    } else {
      assert bytes[0..] == bytes;
    }
  }

  function LastRecord(logs: seq<Log>, key: StreamKey, last: nat): nat
  {
    if logs == [] then last else LastRecord(logs[1..], key, if KeyOf(logs[0]) == key then |logs[0].data| else last)
  }

  /** Length of a stream's last record in a run, or `last` when it has none. */
  function LastRecordIn(parse: Parse, units: seq<Unit>, key: StreamKey, last: nat): nat
  {
    if units == [] then last else LastRecordIn(parse, units[1..], key, LastRecord(UnitLogs(parse, units[0]), key, last))
  }

  lemma {:induction false} LogsHoldShort(partial: Partial, logs: seq<Log>, key: StreamKey, last: nat)
    requires Short(Get(partial, key), last)
    ensures Short(Get(IngestLogs(partial, logs).0, key), LastRecord(logs, key, last))
    decreases |logs|
  {
    if logs != [] {
      var held := IngestLog(partial, logs[0]).0;
      if KeyOf(logs[0]) == key {
        ReleaseLeavesShort(Get(partial, key), logs[0].data, last);
      }
      hide Short, ReleaseLength;
      LogsHoldShort(held, logs[1..], key, if KeyOf(logs[0]) == key then |logs[0].data| else last);
    }
  }

  lemma {:induction false} StepsHoldShort(partial: Partial, steps: seq<BuildStep>, key: StreamKey)
    ensures var held := Get(CompleteSteps(partial, steps).0, key); held == Get(partial, key) || held == []
    decreases |steps|
  {
    if steps != [] {
      StepsHoldShort(CompleteStep(partial, steps[0]).0, steps[1..], key);
    }
  }

  /** At every moment of every run, no stream holds more than that. */
  lemma {:induction false} RunHoldsShort(parse: Parse, s: State, units: seq<Unit>, key: StreamKey, last: nat)
    requires Short(Get(s.partial, key), last)
    ensures Short(Get(EmitUnits(parse, s, units).0.partial, key), LastRecordIn(parse, units, key, last))
    decreases |units|
  {
    if units != [] {
      var next := EmitUnit(parse, s, units[0]).0;
      var status := StatusOf(parse, units[0]);
      if status.Some? {
        LogsHoldShort(s.partial, status.value.logs, key, last);
        StepsHoldShort(IngestLogs(s.partial, status.value.logs).0, OpenSteps(s.started, status.value.vertexes).completed, key);
      }
      assert Short(Get(next.partial, key), LastRecord(UnitLogs(parse, units[0]), key, last));
      hide Short, EmitUnit, LastRecord, UnitLogs;
      RunHoldsShort(parse, next, units[1..], key, LastRecord(UnitLogs(parse, units[0]), key, last));
    }
  }

  // ---- Text ----

  ghost predicate AllText(events: seq<Event>, key: StreamKey)
  {
    forall event :: event in events && event.StepOutput? && event.key == key ==> IsUtf8(event.raw)
  }

  lemma {:induction false} ReleaseKeepsText(bytes: seq<Byte>, future: seq<Byte>)
    requires IsUtf8(bytes + future)
    ensures IsUtf8(bytes[..ReleaseLength(bytes)]) && IsUtf8(bytes[ReleaseLength(bytes)..] + future)
  {
    var end := AfterLastNewline(bytes);
    LastNewline(bytes);
    EmptyIsText();
    hide IsUtf8, AfterLastNewline, CharBoundary;
    if end > 0 {
      CutAfterNewline(bytes + future, end - 1);
      assert (bytes + future)[..end] == bytes[..end] && (bytes + future)[end..] == bytes[end..] + future;
    } else if |bytes| > MAX_PARTIAL {
      BoundaryOfPrefix(bytes, future);
    } else {
      assert bytes[..0] == [] && bytes[0..] == bytes;
    }
  }

  lemma {:induction false} LogKeepsText(partial: Partial, log: Log, key: StreamKey, future: seq<Byte>)
    requires IsUtf8((Get(partial, key) + if KeyOf(log) == key then log.data else []) + future)
    ensures var (held, events) := IngestLog(partial, log); AllText(events, key) && IsUtf8(Get(held, key) + future)
  {
    hide ReleaseLength, IsUtf8;
    if KeyOf(log) == key {
      ReleaseKeepsText(Get(partial, key) + log.data, future);
    } else {
      assert Get(partial, key) + [] == Get(partial, key);
    }
  }

  /** However records cut characters, what is passed on is whole text, given that the stream's text is. */
  lemma {:induction false} LogsKeepText(partial: Partial, logs: seq<Log>, key: StreamKey, future: seq<Byte>)
    requires IsUtf8((Get(partial, key) + Logged(logs, key)) + future)
    ensures var (after, events) := IngestLogs(partial, logs); AllText(events, key) && IsUtf8(Get(after, key) + future)
    decreases |logs|
  {
    hide IsUtf8, IngestLog, Get;
    if logs == [] {
      assert Get(partial, key) + [] == Get(partial, key);
    } else {
      var log, later := logs[0], Logged(logs[1..], key);
      var now := if KeyOf(log) == key then log.data else [];
      Regroup4(Get(partial, key), now, later, future);
      LogKeepsText(partial, log, key, later + future);
      var held := IngestLog(partial, log).0;
      assert (Get(held, key) + later) + future == Get(held, key) + (later + future);
      LogsKeepText(held, logs[1..], key, future);
    }
  }

  lemma {:induction false} Regroup4(a: seq<Byte>, b: seq<Byte>, c: seq<Byte>, d: seq<Byte>)
    ensures (a + (b + c)) + d == (a + b) + (c + d)
  {
  }

  ghost predicate Completes(status: Status, id: string)
  {
    exists step :: step in status.vertexes && step.id == id && step.completed.Some?
  }

  lemma {:induction false} CompletedAreReported(started: set<string>, steps: seq<BuildStep>, step: BuildStep)
    ensures step in OpenSteps(started, steps).completed <==> step in steps && step.completed.Some?
    decreases |steps|
  {
    if steps != [] {
      CompletedAreReported(OpenStep(started, steps[0]).started, steps[1..], step);
    }
  }

  lemma {:induction false} StepsKeepText(partial: Partial, steps: seq<BuildStep>, key: StreamKey)
    requires (exists step :: step in steps && step.id == key.step) ==> IsUtf8(Get(partial, key))
    ensures AllText(CompleteSteps(partial, steps).1, key)
    decreases |steps|
  {
    hide IsUtf8;
    if steps != [] {
      var (held, first) := CompleteStep(partial, steps[0]);
      assert steps[0] in steps;
      assert AllText(first, key);
      assert Get(held, key) == Get(partial, key) || steps[0].id == key.step;
      EmptyIsText();
      StepsKeepText(held, steps[1..], key);
    }
  }

  lemma {:induction false} EmptyIsText()
    ensures IsUtf8([])
  {
  }

  lemma {:induction false} OpeningHasNoText(started: set<string>, steps: seq<BuildStep>, key: StreamKey)
    ensures AllText(OpenSteps(started, steps).events, key)
    decreases |steps|
  {
    hide IsUtf8;
    if steps != [] {
      OpeningHasNoText(OpenStep(started, steps[0]).started, steps[1..], key);
    }
  }

  lemma {:induction false} StatusKeepsText(s: State, status: Status, key: StreamKey, future: seq<Byte>)
    requires IsUtf8((Get(s.partial, key) + Logged(status.logs, key)) + future)
    requires Completes(status, key.step) ==> future == []
    ensures var (after, events) := EmitStatus(s, status); AllText(events, key) && IsUtf8(Get(after.partial, key) + future)
  {
    var opening := OpenSteps(s.started, status.vertexes);
    var held := IngestLogs(s.partial, status.logs).0;
    OpeningHasNoText(s.started, status.vertexes, key);
    LogsKeepText(s.partial, status.logs, key, future);
    forall step | step in opening.completed
      ensures step in status.vertexes && step.completed.Some?
    {
      CompletedAreReported(s.started, status.vertexes, step);
    }
    assert (exists step :: step in opening.completed && step.id == key.step) ==> Completes(status, key.step);
    assert future == [] ==> Get(held, key) + future == Get(held, key);
    StepsKeepText(held, opening.completed, key);
    OthersAreHeld(held, opening.completed, key);
    EmptyIsText();
    hide IsUtf8, OpenSteps, IngestLogs, CompleteSteps, Logged;
    var after := CompleteSteps(held, opening.completed).0;
    if !Completes(status, key.step) {
      assert Get(after, key) == Get(held, key);
    }
  }

  lemma {:induction false} OthersAreHeld(partial: Partial, steps: seq<BuildStep>, key: StreamKey)
    ensures Get(CompleteSteps(partial, steps).0, key)
            == if exists step :: step in steps && step.id == key.step then [] else Get(partial, key)
    decreases |steps|
  {
    if steps != [] {
      var held := CompleteStep(partial, steps[0]).0;
      OthersAreHeld(held, steps[1..], key);
      assert steps[0] in steps;
      assert forall step :: step in steps <==> step == steps[0] || step in steps[1..];
    }
  }

  /** Nothing is logged for the stream in a status after one that completes its step. */
  ghost predicate QuietAfterCompletion(parse: Parse, units: seq<Unit>, key: StreamKey)
    decreases |units|
  {
    units != [] ==>
      && (var status := StatusOf(parse, units[0]); status.Some? && Completes(status.value, key.step) ==> LoggedIn(parse, units[1..], key) == [])
      && QuietAfterCompletion(parse, units[1..], key)
  }

  /**
   If a stream's bytes are well-formed text overall and nothing is logged for it after its step completes,
   then every piece emitted for it is well-formed text, wherever records cut characters and wherever the
   64 KiB overflow cut falls; and so is what is still held for `finish`.
   */
  lemma {:induction false} RunKeepsText(parse: Parse, s: State, units: seq<Unit>, key: StreamKey)
    requires IsUtf8(Get(s.partial, key) + LoggedIn(parse, units, key)) && QuietAfterCompletion(parse, units, key)
    ensures var (after, events) := EmitUnits(parse, s, units); AllText(events, key) && IsUtf8(Get(after.partial, key))
    decreases |units|
  {
    hide IsUtf8, EmitStatus, Get, Completes;
    if units == [] {
      assert Get(s.partial, key) + [] == Get(s.partial, key);
    } else {
      var (next, first) := EmitUnit(parse, s, units[0]);
      var now, future := Logged(UnitLogs(parse, units[0]), key), LoggedIn(parse, units[1..], key);
      assert Get(s.partial, key) + (now + future) == (Get(s.partial, key) + now) + future;
      match StatusOf(parse, units[0]) {
        case None =>
          assert now == [];
          assert Get(s.partial, key) + [] == Get(s.partial, key);
        case Some(status) => StatusKeepsText(s, status, key, future);
      }
      RunKeepsText(parse, next, units[1..], key);
    }
  }

  lemma {:induction false} FinishKeepsText(parse: Parse, units: seq<Unit>, pending: seq<Byte>, order: seq<StreamKey>, key: StreamKey)
    requires IsUtf8(LoggedIn(parse, units, key)) && QuietAfterCompletion(parse, units, key)
    ensures var (after, events) := EmitUnits(parse, INITIAL, units);
      AllText(events + FinishEvents(pending, after.partial, order), key)
  {
    assert [] + LoggedIn(parse, units, key) == LoggedIn(parse, units, key);
    RunKeepsText(parse, INITIAL, units, key);
    FlushAllText(EmitUnits(parse, INITIAL, units).0.partial, order, key);
    hide IsUtf8, EmitUnits, FlushAll;
  }

  lemma {:induction false} FlushAllText(partial: Partial, order: seq<StreamKey>, key: StreamKey)
    requires IsUtf8(Get(partial, key))
    ensures AllText(FlushAll(partial, order), key)
  {
    hide IsUtf8;
    if order != [] {
      FlushAllText(partial, order[1..], key);
    }
  }
}
