/**
 Following many log sources across reconnections (core/crates/ployz-sdk/runtime-logs.js).

 Each source has an append-only log with nondecreasing timestamps. Readers end, fail and are handed off in
 any order; a reopened reader starts at the beginning of the second of the last record and the rows already
 passed on are skipped by counting within the last timestamp.
 */
module RuntimeLogs {
  import opened Common

  const RUNNING := "running"

  datatype Container = Container(key: string, state: string)

  /** What is pending for a source: nothing, an open, or the next row of its reader. */
  datatype Channel = Idle | Opening | Reading(at: nat)

  datatype Source = Source(
    channel: Channel, state: string, last: Option<nat>, boundary: Option<nat>, skip: int, failed: bool, handoffSpent: bool)

  /** An emitted record: where it is in its source's log, and the timestamp and ordinal that make its id. */
  datatype Record = Record(index: nat, at: nat, ordinal: nat)

  type Counts = map<nat, nat>

  // ---- The follower's decisions for one source ----

  function Count(counts: Counts, at: nat): nat
  {
    if at in counts then counts[at] else 0
  }

  function OpenSource(source: Source, counts: Counts): Source
  {
    source.(
      boundary := source.last,
      skip := if source.last.None? then 0 else Count(counts, source.last.value),
      channel := Opening)
  }

  function Discover(source: Option<Source>, state: string): Source
  {
    if source.None? then Source(Idle, state, None, None, 0, false, false)
    else source.value.(handoffSpent := source.value.handoffSpent && source.value.state == state, state := state)
  }

  predicate OpensOnWatch(source: Source)
  {
    && source.channel.Idle? && !source.failed
    && !(source.handoffSpent && source.state != RUNNING)
    && !(source.last.Some? && source.state != RUNNING)
  }

  function Mention(source: Option<Source>, state: string, counts: Counts): Source
  {
    var found := Discover(source, state);
    if OpensOnWatch(found) then OpenSource(found, counts) else found
  }

  predicate HandsOff(source: Source, follow: bool)
  {
    !source.failed && follow && source.state == RUNNING && !source.handoffSpent
  }

  function End(source: Source, follow: bool, counts: Counts): Source
  {
    var ended := source.(channel := Idle);
    if HandsOff(ended, follow) then OpenSource(ended.(handoffSpent := true), counts) else ended
  }

  function Fail(source: Source): Source
  {
    source.(channel := Idle, failed := true)
  }

  predicate Accepts(source: Source, at: nat)
  {
    source.boundary.None? || at > source.boundary.value || (at == source.boundary.value && source.skip <= 0)
  }

  /** The source after a row; the reader's position is moved by its caller. */
  function TakeRow(source: Source, at: nat): Source
  {
    var counted := if source.boundary == Some(at) then source.(skip := source.skip - 1) else source;
    if Accepts(source, at) then counted.(boundary := None, handoffSpent := false, last := Some(at)) else counted
  }

  // ---- Logs ----

  predicate Sorted(log: seq<nat>)
  {
    forall i, j :: 0 <= i <= j < |log| ==> log[i] <= log[j]
  }

  /** The first index at or after a time; where its group starts, if the time occurs. */
  function FirstAt(log: seq<nat>, at: nat): (i: nat)
    ensures i <= |log|
    ensures forall k :: 0 <= k < i ==> log[k] < at
    ensures i < |log| ==> log[i] >= at
  {
    if log == [] then 0
    else if log[0] >= at then 0
    else 1 + FirstAt(log[1..], at)
  }

  /** Not strictly inside a group of equal timestamps. */
  predicate Aligned(log: seq<nat>, i: nat)
  {
    0 < i < |log| ==> log[i - 1] < log[i]
  }

  /** Where a reader opened after the last record starts. */
  function ResumeAt(log: seq<nat>, last: nat): nat
  {
    FirstAt(log, last / 1000000000 * 1000000000)
  }

  /** How many of the records `lo..hi` have this timestamp. */
  function Seen(log: seq<nat>, lo: nat, hi: nat, at: nat): nat
    requires lo <= hi <= |log|
    decreases hi
  {
    if lo == hi then 0 else Seen(log, lo, hi - 1, at) + if log[hi - 1] == at then 1 else 0
  }

  // ---- All sources ----

  /** A source with its log and what was made of it: records, position of the first, opens and mentions. */
  datatype Lane = Lane(log: seq<nat>, source: Option<Source>, counts: Counts, records: seq<Record>, first: nat, opens: nat, mentions: nat)

  const EMPTY: Lane := Lane([], None, map[], [], 0, 0, 0)

  datatype Event =
    | Watched(state: string)
    | Opened(start: nat)
    | Row
    | ErrorRow
    | Ended
    | Failed
    | Appended(at: nat)

  predicate Enabled(lane: Lane, event: Event)
  {
    match event
    case Watched(_) => true
    case Opened(start) =>
      && lane.source.Some? && lane.source.value.channel.Opening? && start <= |lane.log|
      && (lane.source.value.last.Some? ==> start == ResumeAt(lane.log, lane.source.value.last.value))
    case Row => lane.source.Some? && lane.source.value.channel.Reading? && lane.source.value.channel.at < |lane.log|
    case ErrorRow => lane.source.Some? && lane.source.value.channel.Reading?
    case Ended => lane.source.Some? && lane.source.value.channel.Reading?
    case Failed => lane.source.Some? && !lane.source.value.channel.Idle?
    case Appended(at) => lane.log != [] ==> lane.log[|lane.log| - 1] <= at
  }

  /** The first record of all comes from the start of a timestamp group. */
  predicate StartsAligned(lane: Lane, event: Event)
  {
    event.Row? && lane.source.Some? && lane.source.value.channel.Reading? && lane.records == [] ==>
      Aligned(lane.log, lane.source.value.channel.at)
  }

  function ReadRow(lane: Lane): Lane
    requires Enabled(lane, Row)
  {
    var source := lane.source.value;
    var index, at := source.channel.at, lane.log[source.channel.at];
    var after := TakeRow(source, at).(channel := Reading(index + 1));
    if !Accepts(source, at) then lane.(source := Some(after))
    else
      lane.(
        source := Some(after),
        counts := lane.counts[at := Count(lane.counts, at) + 1],
        records := lane.records + [Record(index, at, Count(lane.counts, at))],
        first := if lane.records == [] then index else lane.first)
  }

  function Step(follow: bool, lane: Lane, event: Event): Lane
    requires Enabled(lane, event)
  {
    match event
    case Watched(state) =>
      var opens := OpensOnWatch(Discover(lane.source, state));
      lane.(source := Some(Mention(lane.source, state, lane.counts)), mentions := lane.mentions + 1,
            opens := lane.opens + if opens then 1 else 0)
    case Opened(start) => lane.(source := Some(lane.source.value.(channel := Reading(start))))
    case Row => ReadRow(lane)
    case ErrorRow => lane.(source := Some(lane.source.value.(failed := true)))
    case Ended =>
      lane.(source := Some(End(lane.source.value, follow, lane.counts)),
            opens := lane.opens + if HandsOff(lane.source.value, follow) then 1 else 0)
    case Failed => lane.(source := Some(Fail(lane.source.value)))
    case Appended(at) => lane.(log := lane.log + [at])
  }

  type World = map<string, Lane>

  function LaneOf(world: World, key: string): Lane
  {
    if key in world then world[key] else EMPTY
  }

  /** Any source may be next. */
  datatype Turn = Turn(key: string, event: Event)

  predicate Legal(follow: bool, world: World, turns: seq<Turn>)
    decreases |turns|
  {
    turns == [] ||
    (var lane := LaneOf(world, turns[0].key);
     && Enabled(lane, turns[0].event) && StartsAligned(lane, turns[0].event)
     && Legal(follow, world[turns[0].key := Step(follow, lane, turns[0].event)], turns[1..]))
  }

  function Run(follow: bool, world: World, turns: seq<Turn>): World
    requires Legal(follow, world, turns)
    decreases |turns|
  {
    if turns == [] then world
    else Run(follow, world[turns[0].key := Step(follow, LaneOf(world, turns[0].key), turns[0].event)], turns[1..])
  }
}
