/**
 The streaming progress parser (`SolveParser`, core/crates/ployz-build/src/solve.rs).

 A line of Buildx output that parses as a solve status becomes step events and step output; any other
 line is passed on. JSON and base64 decoding are foreign: `Parse` stands for both, and every result holds
 for every such function. Step output is kept as the bytes given to `from_utf8_lossy`, which leaves
 well-formed text unchanged.
 */
module SolveParser {
  import opened Common
  import opened Utf8
  import opened ProgressLines

  const MAX_PARTIAL := 65536 // 64 KiB

  datatype BuildStep = BuildStep(
    id: string, name: string, started: Option<string>, completed: Option<string>, cached: bool, error: Option<string>)

  /** One log record with its data decoded. */
  datatype Log = Log(vertex: string, stream: nat, data: seq<Byte>)

  datatype Status = Status(vertexes: seq<BuildStep>, logs: seq<Log>)

  datatype StreamKey = StreamKey(step: string, stderr: bool)

  datatype Event = Output(bytes: seq<Byte>) | Step(step: BuildStep) | StepOutput(key: StreamKey, raw: seq<Byte>)

  type Parse = seq<Byte> -> Option<Status>

  type Partial = map<StreamKey, seq<Byte>>

  // ---- One status ----

  function KeyOf(log: Log): StreamKey
  {
    StreamKey(log.vertex, log.stream == 2)
  }

  function Get(partial: Partial, key: StreamKey): seq<Byte>
  {
    if key in partial then partial[key] else []
  }

  /** `rposition` of a newline plus one, or 0 when there is none. */
  function AfterLastNewline(bytes: seq<Byte>): (n: nat)
    ensures n <= |bytes|
  {
    if bytes == [] then 0
    else if bytes[|bytes| - 1] == NEWLINE then |bytes|
    else AfterLastNewline(bytes[..|bytes| - 1])
  }

  /** How many of a stream's held bytes are passed on: whole lines, or an overlong run up to a character boundary. */
  function ReleaseLength(bytes: seq<Byte>): (n: nat)
    ensures n <= |bytes|
  {
    var end := AfterLastNewline(bytes);
    if end > 0 then end else if |bytes| > MAX_PARTIAL then CharBoundary(bytes) else 0
  }

  function Hold(partial: Partial, key: StreamKey, rest: seq<Byte>): Partial
  {
    if rest == [] then partial - {key} else partial[key := rest]
  }

  function IngestLog(partial: Partial, log: Log): (Partial, seq<Event>)
  {
    var key := KeyOf(log);
    var bytes := Get(partial, key) + log.data;
    var n := ReleaseLength(bytes);
    (Hold(partial, key, bytes[n..]), if n > 0 then [StepOutput(key, bytes[..n])] else [])
  }

  function IngestLogs(partial: Partial, logs: seq<Log>): (Partial, seq<Event>)
    decreases |logs|
  {
    if logs == [] then (partial, [])
    else
      var (held, first) := IngestLog(partial, logs[0]);
      var (after, events) := IngestLogs(held, logs[1..]);
      (after, first + events)
  }

  /** Reports of steps: those not completed are passed on; a completed one opens its step if nothing did. */
  datatype Opening = Opening(started: set<string>, events: seq<Event>, completed: seq<BuildStep>)

  function OpenStep(started: set<string>, step: BuildStep): Opening
  {
    var first := step.started.Some? && step.id !in started;
    var known := if step.started.Some? then started + {step.id} else started;
    if step.completed.None? then Opening(known, [Step(step)], [])
    else Opening(known, if first then [Step(step.(completed := None, cached := false, error := None))] else [], [step])
  }

  function OpenSteps(started: set<string>, steps: seq<BuildStep>): Opening
    decreases |steps|
  {
    if steps == [] then Opening(started, [], [])
    else
      var first := OpenStep(started, steps[0]);
      var rest := OpenSteps(first.started, steps[1..]);
      Opening(rest.started, first.events + rest.events, first.completed + rest.completed)
  }

  function Flush(partial: Partial, key: StreamKey): seq<Event>
  {
    if key in partial then [StepOutput(key, partial[key])] else []
  }

  function CompleteStep(partial: Partial, step: BuildStep): (Partial, seq<Event>)
  {
    var out, err := StreamKey(step.id, false), StreamKey(step.id, true);
    (partial - {out, err}, Flush(partial, out) + Flush(partial, err) + [Step(step)])
  }

  function CompleteSteps(partial: Partial, steps: seq<BuildStep>): (Partial, seq<Event>)
    decreases |steps|
  {
    if steps == [] then (partial, [])
    else
      var (held, first) := CompleteStep(partial, steps[0]);
      var (after, events) := CompleteSteps(held, steps[1..]);
      (after, first + events)
  }

  /** Held step output and the steps opened so far. */
  datatype State = State(partial: Partial, started: set<string>)

  const INITIAL: State := State(map[], {})

  function EmitStatus(s: State, status: Status): (State, seq<Event>)
  {
    var opening := OpenSteps(s.started, status.vertexes);
    var (held, output) := IngestLogs(s.partial, status.logs);
    var (partial, completed) := CompleteSteps(held, opening.completed);
    (State(partial, opening.started), opening.events + output + completed)
  }

  /** A unit's status, if it is a line that parses as one. */
  function StatusOf(parse: Parse, unit: Unit): Option<Status>
  {
    if unit.Line? then parse(unit.bytes) else None
  }

  function EmitUnit(parse: Parse, s: State, unit: Unit): (State, seq<Event>)
  {
    match StatusOf(parse, unit)
    case None => (s, [Output(unit.bytes)])
    case Some(status) => EmitStatus(s, status)
  }

  function EmitUnits(parse: Parse, s: State, units: seq<Unit>): (State, seq<Event>)
    decreases |units|
  {
    if units == [] then (s, [])
    else
      var (next, first) := EmitUnit(parse, s, units[0]);
      var (after, events) := EmitUnits(parse, next, units[1..]);
      (after, first + events)
  }

  /** `finish` passes on what is pending and every held stream, in any order of the streams. */
  ghost predicate IsOrder(order: seq<StreamKey>, partial: Partial)
  {
    && (forall i, j :: 0 <= i < j < |order| ==> order[i] != order[j])
    && (forall key :: key in order <==> key in partial)
  }

  function FlushAll(partial: Partial, order: seq<StreamKey>): seq<Event>
  {
    if order == [] then [] else Flush(partial, order[0]) + FlushAll(partial, order[1..])
  }

  function FinishEvents(pending: seq<Byte>, partial: Partial, order: seq<StreamKey>): seq<Event>
  {
    (if pending != [] then [Output(pending)] else []) + FlushAll(partial, order)
  }
}
