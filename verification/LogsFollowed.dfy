/**
 The other half of following logs: no source is forgotten. A source is opened when it is first mentioned,
 and is left without a reader only when it failed, is not running, or gave nothing since its handoff.
 */
module LogsFollowed {
  import opened Common
  import opened RuntimeLogs

  /** Why a source may be without a reader. */
  predicate MayRest(follow: bool, source: Source)
  {
    source.failed || source.state != RUNNING || !follow || source.handoffSpent
  }

  predicate Followed(follow: bool, lane: Lane)
  {
    && (lane.mentions > 0 <==> lane.source.Some?)
    && (lane.source.None? ==> lane.records == [])
    && (lane.source.Some? ==>
      && lane.opens > 0
      && (lane.source.value.last.Some? <==> lane.records != [])
      && (lane.source.value.channel.Idle? ==> MayRest(follow, lane.source.value)))
  }

  lemma {:induction false} StepFollows(follow: bool, lane: Lane, event: Event)
    requires Followed(follow, lane) && Enabled(lane, event)
    ensures Followed(follow, Step(follow, lane, event))
  {
  }

  lemma {:induction false} RunFollows(follow: bool, world: World, turns: seq<Turn>)
    requires (forall key {:trigger LaneOf(world, key)} :: Followed(follow, LaneOf(world, key))) && Legal(follow, world, turns)
    ensures forall key {:trigger LaneOf(Run(follow, world, turns), key)} :: Followed(follow, LaneOf(Run(follow, world, turns), key))
    decreases |turns|
  {
    hide Followed, Enabled, StartsAligned, Step;
    if turns != [] {
      var turn := turns[0];
      var after := Step(follow, LaneOf(world, turn.key), turn.event);
      var next := world[turn.key := after];
      StepFollows(follow, LaneOf(world, turn.key), turn.event);
      forall key
        ensures Followed(follow, LaneOf(next, key))
      {
        assert LaneOf(next, key) == if key == turn.key then after else LaneOf(world, key);
      }
      RunFollows(follow, next, turns[1..]);
    }
  }

  /**
   In every run: a source that was mentioned has been opened, and it is without a reader and without a
   pending open only if it failed, is not running, is not followed, or gave nothing since its handoff.
   */
  lemma {:induction false} AlwaysFollowed(follow: bool, turns: seq<Turn>, key: string)
    requires Legal(follow, map[], turns)
    ensures var lane := LaneOf(Run(follow, map[], turns), key);
      && (lane.mentions > 0 ==> lane.source.Some? && lane.opens > 0)
      && (lane.mentions > 0 && lane.source.value.channel.Idle? ==> MayRest(follow, lane.source.value))
  {
    assert Followed(follow, EMPTY);
    RunFollows(follow, map[], turns);
    assert Followed(follow, LaneOf(Run(follow, map[], turns), key));
  }

  /**
   A mention leaves a source without a reader exactly if it had none and failed, or had none, is not running,
   and already gave a record or spent its handoff in this very state. A new source is always opened.
   */
  lemma {:induction false} MentionedRestsIff(follow: bool, turns: seq<Turn>, key: string, state: string)
    requires Legal(follow, map[], turns)
    ensures var lane := LaneOf(Run(follow, map[], turns), key);
      var after := Step(follow, lane, Watched(state));
      && after.source.Some? && after.source.value.state == state
      && (after.source.value.channel.Idle? <==>
            && lane.source.Some? && lane.source.value.channel.Idle?
            && (lane.source.value.failed ||
                (state != RUNNING && (lane.records != [] || (lane.source.value.handoffSpent && lane.source.value.state == state)))))
      && after.opens == lane.opens + if after.source.value.channel.Opening? && (lane.source.None? || lane.source.value.channel.Idle?) then 1 else 0
  {
    assert Followed(follow, EMPTY);
    RunFollows(follow, map[], turns);
    assert Followed(follow, LaneOf(Run(follow, map[], turns), key));
  }

  // ---- Failed sources ----

  /** A source that failed, by an error row too, is never opened again. */
  lemma {:induction false} FailedIsNotReopened(follow: bool, world: World, turns: seq<Turn>, key: string)
    requires Legal(follow, world, turns) && LaneOf(world, key).source.Some? && LaneOf(world, key).source.value.failed
    ensures var later := LaneOf(Run(follow, world, turns), key);
      later.source.Some? && later.source.value.failed && later.opens == LaneOf(world, key).opens
    decreases |turns|
  {
    hide StartsAligned;
    if turns != [] {
      var lane := LaneOf(world, turns[0].key);
      var next := world[turns[0].key := Step(follow, lane, turns[0].event)];
      assert LaneOf(next, key) == if key == turns[0].key then Step(follow, lane, turns[0].event) else LaneOf(world, key);
      FailedIsNotReopened(follow, next, turns[1..], key);
    }
  }

  // ---- Readers that end ----

  /** A reopened reader starts with the second of the last record: behind all rows of earlier seconds, before all others. */
  lemma {:induction false} ResumesAtItsSecond(log: seq<nat>, last: nat, k: nat)
    requires Sorted(log) && k < |log|
    ensures k < ResumeAt(log, last) <==> log[k] / 1000000000 < last / 1000000000
  {
    var start := last / 1000000000 * 1000000000;
    assert log[k] < start <==> log[k] / 1000000000 < last / 1000000000;
    var i := FirstAt(log, start);
    assert i <= k ==> log[i] <= log[k];
  }

  /** Rows and appends, one after another, of one source. */
  predicate Reads(lane: Lane, events: seq<Event>)
    decreases |events|
  {
    events == [] ||
    (Enabled(lane, events[0]) && (events[0].Row? || events[0].Appended?) && Reads(Step(true, lane, events[0]), events[1..]))
  }

  function AfterReading(lane: Lane, events: seq<Event>): Lane
    requires Reads(lane, events)
    decreases |events|
  {
    if events == [] then lane else AfterReading(Step(true, lane, events[0]), events[1..])
  }

  /** A running source whose reader gave a record before it ended is opened again at once. */
  lemma {:induction false} EmittingReaderIsReopened(lane: Lane, events: seq<Event>)
    requires lane.source.Some? && lane.source.value.channel.Reading? && Reads(lane, events)
    requires lane.source.value.state == RUNNING && !lane.source.value.failed
    requires |AfterReading(lane, events).records| > |lane.records|
    ensures var last := AfterReading(lane, events);
      && Enabled(last, Ended)
      && Step(true, last, Ended).source.value.channel.Opening? && Step(true, last, Ended).opens == last.opens + 1
  {
    ReadingKeeps(lane, events);
  }

  lemma {:induction false} ReadingKeeps(lane: Lane, events: seq<Event>)
    requires lane.source.Some? && lane.source.value.channel.Reading? && Reads(lane, events)
    ensures var last := AfterReading(lane, events);
      && last.source.Some? && last.source.value.channel.Reading? && |last.records| >= |lane.records|
      && last.source.value.state == lane.source.value.state && last.source.value.failed == lane.source.value.failed
      && (|last.records| > |lane.records| || !lane.source.value.handoffSpent ==> !last.source.value.handoffSpent)
    decreases |events|
  {
    if events != [] {
      ReadingKeeps(Step(true, lane, events[0]), events[1..]);
    }
  }
}
