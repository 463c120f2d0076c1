/**
 Whatever the schedule of endings, handoffs, failures and watch events, the records of every source are a
 contiguous run of its log, each once, and their ids are their places within their timestamp groups.
 */
module LogsExactlyOnce {
  import opened Common
  import opened RuntimeLogs

  // ---- Groups of equal timestamps ----

  /** From an aligned start, the records of a group seen so far are counted from the group's start. */
  lemma {:induction false} SeenFromGroupStart(log: seq<nat>, lo: nat, hi: nat, k: nat)
    requires Sorted(log) && Aligned(log, lo) && lo <= k < |log| && lo <= hi <= k + 1
    ensures lo <= FirstAt(log, log[k])
    ensures Seen(log, lo, hi, log[k]) == if hi > FirstAt(log, log[k]) then hi - FirstAt(log, log[k]) else 0
    decreases hi
  {
    var start := FirstAt(log, log[k]);
    if lo < hi {
      SeenFromGroupStart(log, lo, hi - 1, k);
      assert hi - 1 < start ==> log[hi - 1] < log[k];
    }
  }

  lemma {:induction false} SeenOfMore(log: seq<nat>, more: seq<nat>, lo: nat, hi: nat, at: nat)
    requires lo <= hi <= |log|
    ensures Seen(log + more, lo, hi, at) == Seen(log, lo, hi, at)
    decreases hi
  {
    if lo < hi {
      SeenOfMore(log, more, lo, hi - 1, at);
    }
  }

  lemma {:induction false} FirstAtOfMore(log: seq<nat>, more: seq<nat>, at: nat)
    requires FirstAt(log, at) < |log|
    ensures FirstAt(log + more, at) == FirstAt(log, at)
  {
    if log[0] < at {
      assert (log + more)[1..] == log[1..] + more;
      FirstAtOfMore(log[1..], more, at);
    }
  }

  // ---- One source ----

  /** The record of one log entry, told from the log alone. */
  function Entry(log: seq<nat>, i: nat): Record
    requires i < |log|
  {
    Record(i, log[i], var start := FirstAt(log, log[i]); if start <= i then i - start else 0)
  }

  /** The records are the entries of the log from `first` on, one after another. */
  predicate Exact(log: seq<nat>, first: nat, records: seq<Record>)
  {
    && Sorted(log)
    && first + |records| <= |log|
    && (records != [] ==> Aligned(log, first))
    && forall i :: 0 <= i < |records| ==> records[i] == Entry(log, first + i)
  }

  ghost predicate Counted(log: seq<nat>, first: nat, next: nat, counts: Counts)
  {
    first <= next <= |log| && forall at :: Count(counts, at) == Seen(log, first, next, at)
  }

  /** The last record, from where the next one will be. */
  function LastOf(log: seq<nat>, first: nat, next: nat): Option<nat>
    requires next <= |log|
  {
    if first < next then Some(log[next - 1]) else None
  }

  /** How many rows a reader at this place has yet to skip. */
  function ToSkip(log: seq<nat>, next: nat, at: nat, boundary: nat): int
  {
    next - if at <= FirstAt(log, boundary) then FirstAt(log, boundary) else at
  }

  /** The reader is where its next accepted row will be the next record. */
  predicate Placed(log: seq<nat>, first: nat, next: nat, source: Source)
  {
    && first <= next <= |log|
    && source.last == LastOf(log, first, next)
    && match source.channel
       case Idle => true
       case Opening =>
         source.boundary == source.last && (source.last.Some? ==> source.skip == ToSkip(log, next, 0, source.last.value))
       case Reading(at) =>
         && at <= |log|
         && if source.boundary.None? then first < next ==> at == next
            else source.boundary == source.last && at <= next && source.skip == ToSkip(log, next, at, source.boundary.value)
  }

  /** Opens are paid for by records and watch events. */
  predicate Bounded(lane: Lane)
  {
    lane.opens + (if lane.source.Some? && !lane.source.value.handoffSpent then 1 else 0) <= |lane.records| + 2 * lane.mentions
  }

  ghost predicate Good(lane: Lane)
  {
    var next := lane.first + |lane.records|;
    && Exact(lane.log, lane.first, lane.records)
    && Counted(lane.log, lane.first, next, lane.counts)
    && (if lane.source.Some? then Placed(lane.log, lane.first, next, lane.source.value) else lane.records == [])
    && Bounded(lane)
  }

  /** The first row a reader gives after its boundary is the next record of the log. */
  lemma {:induction false} AcceptedIsNext(log: seq<nat>, first: nat, next: nat, source: Source)
    requires Sorted(log) && Placed(log, first, next, source) && source.channel.Reading? && source.channel.at < |log|
    ensures if first < next then Accepts(source, log[source.channel.at]) <==> source.channel.at == next else source.boundary.None?
  {
  }

  lemma {:induction false} RowIsPlaced(log: seq<nat>, first: nat, next: nat, source: Source)
    requires Sorted(log) && Placed(log, first, next, source) && source.channel.Reading? && source.channel.at < |log|
    ensures var at := source.channel.at;
      var after := TakeRow(source, log[at]).(channel := Reading(at + 1));
      if Accepts(source, log[at]) then Placed(log, if first < next then first else at, at + 1, after)
      else Placed(log, first, next, after)
  {
    AcceptedIsNext(log, first, next, source);
  }

  /** The next entry of the log extends the records. */
  lemma {:induction false} RowIsExact(log: seq<nat>, first: nat, records: seq<Record>, index: nat)
    requires Exact(log, first, records) && index < |log|
    requires if records == [] then Aligned(log, index) else index == first + |records|
    ensures Exact(log, if records == [] then index else first, records + [Entry(log, index)])
  {
  }

  /** Its ordinal is what was counted of its timestamp. */
  lemma {:induction false} RowIsCounted(log: seq<nat>, first: nat, next: nat, counts: Counts)
    requires Sorted(log) && Aligned(log, first) && next < |log| && Counted(log, first, next, counts)
    ensures Entry(log, next).ordinal == Count(counts, log[next])
    ensures Counted(log, first, next + 1, counts[log[next] := Count(counts, log[next]) + 1])
  {
    SeenFromGroupStart(log, first, next, next);
    var after := counts[log[next] := Count(counts, log[next]) + 1];
    forall at
      ensures Count(after, at) == Seen(log, first, next + 1, at)
    {
      assert Count(counts, at) == Seen(log, first, next, at);
    }
  }

  /** An empty count serves any place to start from. */
  lemma {:induction false} CountAnew(log: seq<nat>, first: nat, counts: Counts, index: nat)
    requires Counted(log, first, first, counts) && index <= |log|
    ensures Counted(log, index, index, counts)
  {
    forall at
      ensures Count(counts, at) == Seen(log, index, index, at)
    {
      assert Count(counts, at) == Seen(log, first, first, at);
    }
  }

  lemma {:induction false} RowIsGood(lane: Lane)
    requires Good(lane) && Enabled(lane, Row) && StartsAligned(lane, Row)
    ensures Good(ReadRow(lane))
  {
    hide Exact, Counted, Placed, Seen, Sorted, Aligned;
    var source, next := lane.source.value, lane.first + |lane.records|;
    var index := source.channel.at;
    assert Sorted(lane.log) && (lane.records != [] ==> Aligned(lane.log, lane.first)) && next <= |lane.log| by {
      LastIsLast(lane);
    }
    AcceptedIsNext(lane.log, lane.first, next, source);
    RowIsPlaced(lane.log, lane.first, next, source);
    if Accepts(source, lane.log[index]) {
      var first := if lane.records == [] then index else lane.first;
      if lane.records == [] {
        CountAnew(lane.log, lane.first, lane.counts, index);
      }
      RowIsExact(lane.log, lane.first, lane.records, index);
      RowIsCounted(lane.log, first, index, lane.counts);
    }
  }

  /** Opening a source remembers the last record and how many of its group were passed on. */
  lemma {:induction false} OpenIsPlaced(log: seq<nat>, first: nat, next: nat, counts: Counts, source: Source)
    requires Sorted(log) && (first < next ==> Aligned(log, first)) && Counted(log, first, next, counts)
    requires source.last == LastOf(log, first, next)
    ensures Placed(log, first, next, OpenSource(source, counts))
  {
    if first < next {
      SeenFromGroupStart(log, first, next, next - 1);
    }
  }

  /** Facts of a good lane that opening needs. */
  lemma {:induction false} LastIsLast(lane: Lane)
    requires Good(lane)
    ensures var next := lane.first + |lane.records|;
      && Sorted(lane.log) && (lane.first < next ==> Aligned(lane.log, lane.first)) && next <= |lane.log|
      && (lane.source.Some? ==> lane.source.value.last == LastOf(lane.log, lane.first, next))
      && (lane.source.None? ==> LastOf(lane.log, lane.first, next) == None)
  {
  }

  lemma {:induction false} WatchIsGood(follow: bool, lane: Lane, state: string)
    requires Good(lane)
    ensures Good(Step(follow, lane, Watched(state)))
  {
    hide Exact, Counted, Sorted, Aligned;
    LastIsLast(lane);
    OpenIsPlaced(lane.log, lane.first, lane.first + |lane.records|, lane.counts, Discover(lane.source, state));
  }

  lemma {:induction false} EndIsGood(follow: bool, lane: Lane)
    requires Good(lane) && Enabled(lane, Ended)
    ensures Good(Step(follow, lane, Ended))
  {
    hide Exact, Counted, Sorted, Aligned;
    LastIsLast(lane);
    OpenIsPlaced(lane.log, lane.first, lane.first + |lane.records|, lane.counts,
                 lane.source.value.(channel := Idle, handoffSpent := true));
  }

  /** A reopened reader starts no later than the group of the last record. */
  lemma {:induction false} ResumeIsEarly(log: seq<nat>, last: nat)
    ensures ResumeAt(log, last) <= FirstAt(log, last)
  {
    assert last / 1000000000 * 1000000000 <= last;
  }

  lemma {:induction false} OpenedIsPlaced(log: seq<nat>, first: nat, next: nat, source: Source, start: nat)
    requires Sorted(log) && Placed(log, first, next, source) && source.channel.Opening? && start <= |log|
    requires source.last.Some? ==> start <= FirstAt(log, source.last.value)
    ensures Placed(log, first, next, source.(channel := Reading(start)))
  {
  }

  lemma {:induction false} OpenedIsGood(follow: bool, lane: Lane, start: nat)
    requires Good(lane) && Enabled(lane, Opened(start))
    ensures Good(Step(follow, lane, Opened(start)))
  {
    hide Exact, Counted, Placed, Sorted, Aligned, ResumeAt;
    LastIsLast(lane);
    var source := lane.source.value;
    if source.last.Some? {
      ResumeIsEarly(lane.log, source.last.value);
    }
    OpenedIsPlaced(lane.log, lane.first, lane.first + |lane.records|, source, start);
  }

  lemma {:induction false} FailureIsGood(follow: bool, lane: Lane, event: Event)
    requires Good(lane) && Enabled(lane, event) && (event.Failed? || event.ErrorRow?)
    ensures Good(Step(follow, lane, event))
  {
    hide Exact, Counted;
  }

  // ---- The log grows ----

  lemma {:induction false} GroupsStay(log: seq<nat>, at: nat, i: nat)
    requires Sorted(log) && i < |log|
    ensures FirstAt(log + [at], log[i]) == FirstAt(log, log[i])
  {
    FirstAtOfMore(log, [at], log[i]);
  }

  lemma {:induction false} ExactStays(log: seq<nat>, at: nat, first: nat, records: seq<Record>)
    requires Exact(log, first, records) && (log != [] ==> log[|log| - 1] <= at)
    ensures Exact(log + [at], first, records)
  {
    forall i | 0 <= i < |records|
      ensures records[i] == Entry(log + [at], first + i)
    {
      GroupsStay(log, at, first + i);
    }
  }

  lemma {:induction false} CountedStays(log: seq<nat>, at: nat, first: nat, next: nat, counts: Counts)
    requires Counted(log, first, next, counts)
    ensures Counted(log + [at], first, next, counts)
  {
    forall t
      ensures Count(counts, t) == Seen(log + [at], first, next, t)
    {
      SeenOfMore(log, [at], first, next, t);
    }
  }

  lemma {:induction false} PlacedStays(log: seq<nat>, at: nat, first: nat, next: nat, source: Source)
    requires Sorted(log) && Placed(log, first, next, source)
    ensures Placed(log + [at], first, next, source)
  {
    if first < next {
      GroupsStay(log, at, next - 1);
    }
  }

  lemma {:induction false} AppendIsGood(follow: bool, lane: Lane, at: nat)
    requires Good(lane) && Enabled(lane, Appended(at))
    ensures Good(Step(follow, lane, Appended(at)))
  {
    hide Exact, Counted, Placed, Sorted, Aligned;
    LastIsLast(lane);
    ExactStays(lane.log, at, lane.first, lane.records);
    CountedStays(lane.log, at, lane.first, lane.first + |lane.records|, lane.counts);
    if lane.source.Some? {
      PlacedStays(lane.log, at, lane.first, lane.first + |lane.records|, lane.source.value);
    }
  }

  lemma {:induction false} StepIsGood(follow: bool, lane: Lane, event: Event)
    requires Good(lane) && Enabled(lane, event) && StartsAligned(lane, event)
    ensures Good(Step(follow, lane, event))
  {
    hide Good;
    match event {
      case Watched(state) => WatchIsGood(follow, lane, state);
      case Opened(start) => OpenedIsGood(follow, lane, start);
      case Row => RowIsGood(lane);
      case ErrorRow => FailureIsGood(follow, lane, event);
      case Ended => EndIsGood(follow, lane);
      case Failed => FailureIsGood(follow, lane, event);
      case Appended(at) => AppendIsGood(follow, lane, at);
    }
  }

  // ---- All sources ----

  ghost predicate AllGood(world: World)
  {
    forall key {:trigger LaneOf(world, key)} :: Good(LaneOf(world, key))
  }

  lemma {:induction false} RunIsGood(follow: bool, world: World, turns: seq<Turn>)
    requires AllGood(world) && Legal(follow, world, turns)
    ensures AllGood(Run(follow, world, turns))
    decreases |turns|
  {
    hide Good, Enabled, StartsAligned, Step;
    if turns != [] {
      var turn := turns[0];
      var after := Step(follow, LaneOf(world, turn.key), turn.event);
      var next := world[turn.key := after];
      StepIsGood(follow, LaneOf(world, turn.key), turn.event);
      forall key
        ensures Good(LaneOf(next, key))
      {
        assert LaneOf(next, key) == if key == turn.key then after else LaneOf(world, key);
      }
      RunIsGood(follow, next, turns[1..]);
    }
  }

  lemma {:induction false} NothingYet()
    ensures AllGood(map[])
  {
    assert Good(EMPTY);
  }

  /**
   In every run, for every source: the records are a contiguous in-order part of the log, each carries the
   place within its timestamp group, and the opens are at most the records plus twice the watch events.
   */
  lemma {:induction false} ExactlyOnce(follow: bool, turns: seq<Turn>, key: string)
    requires Legal(follow, map[], turns)
    ensures var lane := LaneOf(Run(follow, map[], turns), key);
      && lane.first + |lane.records| <= |lane.log|
      && (forall i :: 0 <= i < |lane.records| ==> lane.records[i] == Entry(lane.log, lane.first + i))
      && lane.opens <= |lane.records| + 2 * lane.mentions
  {
    NothingYet();
    RunIsGood(follow, map[], turns);
    assert Good(LaneOf(Run(follow, map[], turns), key));
  }

  /** So two records of a source never have the same id. */
  lemma {:induction false} IdsAreDistinct(follow: bool, turns: seq<Turn>, key: string, i: nat, j: nat)
    requires Legal(follow, map[], turns)
    requires var lane := LaneOf(Run(follow, map[], turns), key); i < j < |lane.records|
    ensures var lane := LaneOf(Run(follow, map[], turns), key);
      lane.records[i].at != lane.records[j].at || lane.records[i].ordinal != lane.records[j].ordinal
  {
    var lane := LaneOf(Run(follow, map[], turns), key);
    NothingYet();
    RunIsGood(follow, map[], turns);
    assert Good(lane) && Exact(lane.log, lane.first, lane.records);
  }

  // ---- A failed source stays closed ----

  predicate IsClosed(lane: Lane)
  {
    lane.source.Some? && lane.source.value.failed && lane.source.value.channel.Idle?
  }

  /** Nothing reopens a source that failed: it emits no more and is opened no more. */
  lemma {:induction false} FailedIsFinal(follow: bool, world: World, turns: seq<Turn>, key: string)
    requires Legal(follow, world, turns) && IsClosed(LaneOf(world, key))
    ensures var (lane, later) := (LaneOf(world, key), LaneOf(Run(follow, world, turns), key));
      IsClosed(later) && later.records == lane.records && later.opens == lane.opens
    decreases |turns|
  {
    hide StartsAligned;
    if turns != [] {
      var lane := LaneOf(world, turns[0].key);
      var next := world[turns[0].key := Step(follow, lane, turns[0].event)];
      assert LaneOf(next, key) == if key == turns[0].key then Step(follow, lane, turns[0].event) else LaneOf(world, key);
      FailedIsFinal(follow, next, turns[1..], key);
    }
  }

  // ---- Why the first record must be aligned ----

  /** The first row a reader passes on, or the end of the log. */
  function FirstAccepted(log: seq<nat>, source: Source, at: nat): nat
    decreases |log| - at
  {
    if at >= |log| then |log|
    else if Accepts(source, log[at]) then at
    else FirstAccepted(log, TakeRow(source, log[at]), at + 1)
  }

  lemma {:induction false} SkipsUpTo(log: seq<nat>, source: Source, at: nat, resume: nat, boundary: nat)
    requires source.boundary == Some(boundary) && at <= resume <= |log| && Sorted(log)
    requires FirstAt(log, boundary) <= resume && source.skip == ToSkip(log, resume, at, boundary)
    requires forall i :: FirstAt(log, boundary) <= i < resume ==> log[i] == boundary
    ensures FirstAccepted(log, source, at) == resume
    decreases resume - at
  {
    if at < resume {
      assert at < FirstAt(log, boundary) ==> log[at] < boundary;
      SkipsUpTo(log, TakeRow(source, log[at]), at + 1, resume, boundary);
    } else if at < |log| {
      assert log[at] >= boundary;
    }
  }

  /** Wherever the records began, their last group is counted from the later of the group's start and theirs. */
  lemma {:induction false} SeenOfLast(log: seq<nat>, first: nat, next: nat, upTo: nat)
    requires Sorted(log) && first <= upTo <= next <= |log| && first < next
    ensures var start := FirstAt(log, log[next - 1]);
      Seen(log, first, upTo, log[next - 1]) == (if upTo <= start || upTo <= first then 0 else upTo - if start <= first then first else start)
    decreases upTo
  {
    if first < upTo {
      SeenOfLast(log, first, next, upTo - 1);
      assert upTo - 1 < FirstAt(log, log[next - 1]) ==> log[upTo - 1] < log[next - 1];
    }
  }

  /**
   A reopened reader continues with the next record exactly when the records did not begin strictly inside
   the timestamp group of the last one; otherwise it goes back.
   */
  lemma {:induction false} ReopenIsExactIff(log: seq<nat>, first: nat, next: nat, source: Source)
    requires Sorted(log) && first < next <= |log| && source.last == Some(log[next - 1])
    ensures var reopened := source.(boundary := source.last, skip := Seen(log, first, next, log[next - 1]));
      FirstAccepted(log, reopened, ResumeAt(log, log[next - 1])) == next <==>
        Aligned(log, first) || log[first] != log[next - 1]
  {
    var last := log[next - 1];
    var start, skip := FirstAt(log, last), Seen(log, first, next, last);
    SeenOfLast(log, first, next, next);
    ResumeIsEarly(log, last);
    assert start + skip <= next;
    SkipsUpTo(log, source.(boundary := source.last, skip := skip), ResumeAt(log, last), start + skip, last);
    assert start < first <==> !Aligned(log, first) && log[first] == last by {
      if start < first {
        assert log[first - 1] == last && log[first] == last;
      }
    }
  }

  /** A lane's events lead from one state to another; nothing is assumed of where the first record starts. */
  predicate Leads(lane: Lane, events: seq<Event>, end: Lane)
    decreases |events|
  {
    if events == [] then lane == end
    else Enabled(lane, events[0]) && Leads(Step(true, lane, events[0]), events[1..], end)
  }

  lemma {:induction false} Then(lane: Lane, event: Event, next: Lane, rest: seq<Event>, end: Lane)
    requires Enabled(lane, event) && Step(true, lane, event) == next && Leads(next, rest, end)
    ensures Leads(lane, [event] + rest, end)
  {
    hide Enabled, Step;
    assert ([event] + rest)[0] == event && ([event] + rest)[1..] == rest;
  }

  const LOGGED := EMPTY.(log := [5, 5, 5])

  /** The reader was handed off after the third of three rows of one time, the only one wanted. */
  const HANDED_OFF := Lane([5, 5, 5], Some(Source(Opening, RUNNING, Some(5), Some(5), 1, false, true)), map[5 := 1], [Record(2, 5, 0)], 2, 2, 1)

  lemma {:induction false} ReadsTheLast()
    ensures Leads(LOGGED, [Watched(RUNNING), Opened(2), Row, Ended], HANDED_OFF)
  {
    var source := Source(Opening, RUNNING, None, None, 0, false, false);
    var opening := LOGGED.(source := Some(source), mentions := 1, opens := 1);
    var reading := opening.(source := Some(source.(channel := Reading(2))));
    var read := reading.(source := Some(source.(channel := Reading(3), last := Some(5))), counts := map[5 := 1], records := [Record(2, 5, 0)], first := 2);
    Then(read, Ended, HANDED_OFF, [], HANDED_OFF);
    Then(reading, Row, read, [Ended], HANDED_OFF);
    Then(opening, Opened(2), reading, [Row, Ended], HANDED_OFF);
    Then(LOGGED, Watched(RUNNING), opening, [Opened(2), Row, Ended], HANDED_OFF);
    assert [Watched(RUNNING)] + [Opened(2), Row, Ended] == [Watched(RUNNING), Opened(2), Row, Ended];
    assert [Opened(2)] + [Row, Ended] == [Opened(2), Row, Ended] && [Row] + [Ended] == [Row, Ended] && [Ended] + [] == [Ended];
  }

  /** The same rows again: the second for the first time, then the third once more. */
  const REPEATED := Lane([5, 5, 5], Some(Source(Reading(3), RUNNING, Some(5), None, -1, false, false)), map[5 := 3],
                         [Record(2, 5, 0), Record(1, 5, 1), Record(2, 5, 2)], 2, 2, 1)

  lemma {:induction false} ReadsAgain()
    ensures Leads(HANDED_OFF, [Opened(0), Row, Row, Row], REPEATED)
  {
    var source := Source(Reading(0), RUNNING, Some(5), Some(5), 1, false, true);
    var reading := HANDED_OFF.(source := Some(source));
    var skipped := reading.(source := Some(source.(channel := Reading(1), skip := 0)));
    var accepted := reading.(
      source := Some(Source(Reading(2), RUNNING, Some(5), None, -1, false, false)),
      counts := map[5 := 2], records := [Record(2, 5, 0), Record(1, 5, 1)]);
    assert FirstAt([5, 5, 5], 0) == 0;
    Then(accepted, Row, REPEATED, [], REPEATED);
    Then(skipped, Row, accepted, [Row], REPEATED);
    Then(reading, Row, skipped, [Row, Row], REPEATED);
    Then(HANDED_OFF, Opened(0), reading, [Row, Row, Row], REPEATED);
    assert [Opened(0)] + [Row, Row, Row] == [Opened(0), Row, Row, Row];
    assert [Row] + [Row, Row] == [Row, Row, Row] && [Row] + [Row] == [Row, Row] && [Row] + [] == [Row];
  }

  lemma {:induction false} LeadsFurther(a: Lane, x: seq<Event>, b: Lane, y: seq<Event>, c: Lane)
    requires Leads(a, x, b) && Leads(b, y, c)
    ensures Leads(a, x + y, c)
    decreases |x|
  {
    hide Enabled, Step;
    if x == [] {
      assert x + y == y;
    } else {
      assert (x + y)[0] == x[0] && (x + y)[1..] == x[1..] + y;
      LeadsFurther(Step(true, a, x[0]), x[1..], b, y, c);
    }
  }

  lemma {:induction false} ThreeRows()
    ensures Leads(EMPTY, [Appended(5), Appended(5), Appended(5)], LOGGED)
  {
    var one, two := EMPTY.(log := [5]), EMPTY.(log := [5, 5]);
    Then(two, Appended(5), LOGGED, [], LOGGED);
    Then(one, Appended(5), two, [Appended(5)], LOGGED);
    Then(EMPTY, Appended(5), one, [Appended(5), Appended(5)], LOGGED);
    assert [Appended(5)] + [Appended(5), Appended(5)] == [Appended(5), Appended(5), Appended(5)];
    assert [Appended(5)] + [Appended(5)] == [Appended(5), Appended(5)] && [Appended(5)] + [] == [Appended(5)];
  }

  /**
   From nothing: three rows of one time, of which only the last is wanted, and one handoff. The third row is
   emitted twice, so the records are no contiguous part of the log.
   */
  lemma {:induction false} UnalignedRepeats() returns (events: seq<Event>)
    ensures Leads(EMPTY, events, REPEATED)
    ensures REPEATED.records[0].index == REPEATED.records[2].index && !Exact(REPEATED.log, REPEATED.first, REPEATED.records)
  {
    hide Leads;
    ThreeRows();
    ReadsTheLast();
    ReadsAgain();
    var x, y, z := [Appended(5), Appended(5), Appended(5)], [Watched(RUNNING), Opened(2), Row, Ended], [Opened(0), Row, Row, Row];
    LeadsFurther(EMPTY, x, LOGGED, y, HANDED_OFF);
    LeadsFurther(EMPTY, x + y, HANDED_OFF, z, REPEATED);
    events := x + y + z;
  }
}
