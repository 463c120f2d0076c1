/**
 The follower as the object its race loop mutates (core/crates/ployz-sdk/runtime-logs.js): a table of
 sources and the counts that number records. Each method handles one event of the loop.

 `history` is what happened so far, as turns of `RuntimeLogs`. Every method extends it by its own turn and
 keeps the table in step with it, so what is proved of all runs is proved of the object.
 */
module LogFollower {
  import opened Common
  import opened RuntimeLogs
  import opened LogsExactlyOnce
  import opened LogsFollowed

  type Sources = map<string, Source>

  function CountsOf(counts: map<string, Counts>, key: string): Counts
  {
    if key in counts then counts[key] else map[]
  }

  function Find(sources: Sources, key: string): Option<Source>
  {
    if key in sources then Some(sources[key]) else None
  }

  /** All containers of one watch event, in order. */
  function MentionAll(filter: Container -> bool, sources: Sources, counts: map<string, Counts>, found: seq<Container>): Sources
    decreases |found|
  {
    if found == [] then sources
    else
      var c := found[0];
      var next :=
        if filter(c) then sources[c.key := Mention(Find(sources, c.key), c.state, CountsOf(counts, c.key))] else sources;
      MentionAll(filter, next, counts, found[1..])
  }

  /** A watch event changes just the sources it mentions. */
  lemma {:induction false} OthersAreLeft(filter: Container -> bool, sources: Sources, counts: map<string, Counts>, found: seq<Container>, key: string)
    requires forall c :: c in found && filter(c) ==> c.key != key
    ensures Find(MentionAll(filter, sources, counts, found), key) == Find(sources, key)
    decreases |found|
  {
    hide Mention;
    if found != [] {
      var c := found[0];
      assert c in found && forall d :: d in found[1..] ==> d in found;
      OthersAreLeft(
        filter, if filter(c) then sources[c.key := Mention(Find(sources, c.key), c.state, CountsOf(counts, c.key))] else sources,
        counts, found[1..], key);
    }
  }

  // ---- The table and the run ----

  /** The table holds for each source what the run has for it. */
  ghost predicate Represents(sources: Sources, counts: map<string, Counts>, world: World)
  {
    forall key {:trigger LaneOf(world, key)} :: LaneOf(world, key).source == Find(sources, key) && LaneOf(world, key).counts == CountsOf(counts, key)
  }

  /** The turns one watch event takes. */
  function WatchTurns(filter: Container -> bool, found: seq<Container>): seq<Turn>
  {
    if found == [] then []
    else (if filter(found[0]) then [Turn(found[0].key, Watched(found[0].state))] else []) + WatchTurns(filter, found[1..])
  }

  lemma {:induction false} RunAppend(follow: bool, world: World, a: seq<Turn>, b: seq<Turn>)
    requires Legal(follow, world, a) && Legal(follow, Run(follow, world, a), b)
    ensures Legal(follow, world, a + b) && Run(follow, world, a + b) == Run(follow, Run(follow, world, a), b)
    decreases |a|
  {
    hide Enabled, StartsAligned, Step;
    if a == [] {
      assert a + b == b;
    } else {
      assert (a + b)[0] == a[0] && (a + b)[1..] == a[1..] + b;
      RunAppend(follow, world[a[0].key := Step(follow, LaneOf(world, a[0].key), a[0].event)], a[1..], b);
    }
  }

  lemma {:induction false} TurnRepresents(sources: Sources, counts: map<string, Counts>, world: World, key: string, source: Source, more: map<string, Counts>, lane: Lane)
    requires Represents(sources, counts, world) && lane.source == Some(source) && lane.counts == CountsOf(more, key)
    requires forall k :: k != key ==> CountsOf(more, k) == CountsOf(counts, k)
    ensures Represents(sources[key := source], more, world[key := lane])
  {
    var next := world[key := lane];
    forall k
      ensures LaneOf(next, k).source == Find(sources[key := source], k) && LaneOf(next, k).counts == CountsOf(more, k)
    {
      assert LaneOf(next, k) == if k == key then lane else LaneOf(world, k);
    }
  }

  lemma {:induction false} WatchedStep(follow: bool, lane: Lane, state: string)
    ensures Enabled(lane, Watched(state)) && StartsAligned(lane, Watched(state))
    ensures var after := Step(follow, lane, Watched(state));
      after.source == Some(Mention(lane.source, state, lane.counts)) && after.counts == lane.counts
  {
    hide Mention;
  }

  /** A watch event of any containers is the turns of those that match, in order. */
  lemma {:induction false} WatchRepresents(follow: bool, filter: Container -> bool, sources: Sources, counts: map<string, Counts>, world: World, found: seq<Container>)
    requires Represents(sources, counts, world)
    ensures Legal(follow, world, WatchTurns(filter, found))
    ensures Represents(MentionAll(filter, sources, counts, found), counts, Run(follow, world, WatchTurns(filter, found)))
    decreases |found|
  {
    hide Mention, Represents, Step, Enabled, StartsAligned;
    if found != [] {
      var c, later := found[0], WatchTurns(filter, found[1..]);
      if filter(c) {
        var turn := Turn(c.key, Watched(c.state));
        var source := Mention(Find(sources, c.key), c.state, CountsOf(counts, c.key));
        LaneIsTable(sources, counts, world, c.key);
        WatchedStep(follow, LaneOf(world, c.key), c.state);
        var lane := Step(follow, LaneOf(world, c.key), turn.event);
        TurnRepresents(sources, counts, world, c.key, source, counts, lane);
        WatchRepresents(follow, filter, sources[c.key := source], counts, world[c.key := lane], found[1..]);
        RunAppend(follow, world, [turn], later);
      } else {
        assert WatchTurns(filter, found) == later;
        WatchRepresents(follow, filter, sources, counts, world, found[1..]);
      }
    }
  }

  lemma {:induction false} LaneIsTable(sources: Sources, counts: map<string, Counts>, world: World, key: string)
    requires Represents(sources, counts, world)
    ensures LaneOf(world, key).source == Find(sources, key) && LaneOf(world, key).counts == CountsOf(counts, key)
  {
  }

  class Follower {
    const follow: bool
    const filter: Container -> bool
    var sources: Sources
    var counts: map<string, Counts>
    ghost var history: seq<Turn>

    constructor (follow: bool, filter: Container -> bool)
      ensures this.follow == follow && this.filter == filter && history == [] && Valid()
    {
      this.follow, this.filter := follow, filter;
      sources, counts := map[], map[];
      history := [];
    }

    ghost predicate Valid()
      reads this
    {
      Legal(follow, map[], history) && Represents(sources, counts, Run(follow, map[], history))
    }

    /** What the run so far has for a source. */
    ghost function LaneAt(key: string): Lane
      requires Valid()
      reads this
    {
      LaneOf(Run(follow, map[], history), key)
    }

    method OpenAgain(key: string)
      requires key in sources
      modifies this`sources
      ensures sources == old(sources)[key := OpenSource(old(sources)[key], CountsOf(counts, key))]
    {
      var source := sources[key];
      source := source.(boundary := source.last);
      source := source.(skip := if source.last.None? then 0 else Count(CountsOf(counts, key), source.last.value));
      sources := sources[key := source.(channel := Opening)];
    }

    method OnContainer(c: Container)
      modifies this`sources
      ensures sources == old(sources)[c.key := Mention(Find(old(sources), c.key), c.state, CountsOf(counts, c.key))]
    {
      if c.key !in sources {
        sources := sources[c.key := Source(Idle, c.state, None, None, 0, false, false)];
      } else {
        var source := sources[c.key];
        if source.state != c.state {
          source := source.(handoffSpent := false);
        }
        sources := sources[c.key := source.(state := c.state)];
      }
      var source := sources[c.key];
      assert source == Discover(Find(old(sources), c.key), c.state);
      if !source.channel.Idle? || source.failed {
        return;
      }
      if source.handoffSpent && c.state != RUNNING {
        return;
      }
      if source.last.Some? && c.state != RUNNING {
        return;
      }
      OpenAgain(c.key);
    }

    /** A watch event: each container that matches is one turn, and no other source is touched. */
    method OnWatch(found: seq<Container>)
      requires Valid()
      modifies this`sources, this`history
      ensures Valid() && history == old(history) + WatchTurns(filter, found)
      ensures sources == MentionAll(filter, old(sources), counts, found)
    {
      hide Mention, Represents;
      for i := 0 to |found|
        invariant history == old(history)
        invariant MentionAll(filter, sources, counts, found[i..]) == MentionAll(filter, old(sources), counts, found)
      {
        assert found[i..][0] == found[i] && found[i..][1..] == found[i + 1..];
        if filter(found[i]) {
          OnContainer(found[i]);
        }
      }
      ghost var world := Run(follow, map[], history);
      WatchRepresents(follow, filter, old(sources), counts, world, found);
      RunAppend(follow, map[], history, WatchTurns(filter, found));
      history := history + WatchTurns(filter, found);
    }

    /** Takes the turn in the history once the table shows its effect on the one source. */
    ghost method Took(turn: Turn, earlier: Sources, counted: map<string, Counts>)
      requires Legal(follow, map[], history) && Represents(earlier, counted, Run(follow, map[], history))
      requires var lane := LaneOf(Run(follow, map[], history), turn.key);
        && Enabled(lane, turn.event) && StartsAligned(lane, turn.event)
        && turn.key in sources && sources == earlier[turn.key := sources[turn.key]]
        && Step(follow, lane, turn.event).source == Some(sources[turn.key])
        && Step(follow, lane, turn.event).counts == CountsOf(counts, turn.key)
      requires forall k :: k != turn.key ==> CountsOf(counts, k) == CountsOf(counted, k)
      modifies this`history
      ensures Valid() && history == old(history) + [turn]
      ensures Run(follow, map[], history) == old(Run(follow, map[], history))[turn.key :=
        Step(follow, LaneOf(old(Run(follow, map[], history)), turn.key), turn.event)]
    {
      hide Represents, Enabled, StartsAligned, Step;
      var world := Run(follow, map[], history);
      RunAppend(follow, map[], history, [turn]);
      TurnRepresents(earlier, counted, world, turn.key, sources[turn.key], counts, Step(follow, LaneOf(world, turn.key), turn.event));
      history := history + [turn];
    }

    /** A reader was opened; reading starts where it starts. */
    method OnOpened(key: string, start: nat)
      requires Valid() && Enabled(LaneAt(key), Opened(start))
      modifies this`sources, this`history
      ensures Valid() && history == old(history) + [Turn(key, Opened(start))]
      ensures key in sources && sources[key].channel == Reading(start)
    {
      LaneIsTable(sources, counts, Run(follow, map[], history), key);
      ghost var earlier := sources;
      sources := sources[key := sources[key].(channel := Reading(start))];
      Took(Turn(key, Opened(start)), earlier, counts);
    }

    /** An ended reader: handed off to a new open at most once until a record or a state change renews it. */
    method OnEnd(key: string)
      requires Valid() && Enabled(LaneAt(key), Ended)
      modifies this`sources, this`history
      ensures Valid() && history == old(history) + [Turn(key, Ended)]
      ensures key in sources && !sources[key].channel.Reading?
      ensures sources[key].channel.Opening? ==> old(key in sources && !sources[key].handoffSpent) && sources[key].handoffSpent
    {
      LaneIsTable(sources, counts, Run(follow, map[], history), key);
      ghost var earlier := sources;
      sources := sources[key := sources[key].(channel := Idle)];
      var source := sources[key];
      if !source.failed && follow && source.state == RUNNING && !source.handoffSpent {
        sources := sources[key := source.(handoffSpent := true)];
        OpenAgain(key);
      }
      Took(Turn(key, Ended), earlier, counts);
    }

    /** An open or a read failed. The source is closed; `FailedIsFinal` says it stays so. */
    method OnFailure(key: string)
      requires Valid() && Enabled(LaneAt(key), Failed)
      modifies this`sources, this`history
      ensures Valid() && history == old(history) + [Turn(key, Failed)] && IsClosed(LaneAt(key))
    {
      LaneIsTable(sources, counts, Run(follow, map[], history), key);
      ghost var earlier := sources;
      sources := sources[key := sources[key].(channel := Idle, failed := true)];
      Took(Turn(key, Failed), earlier, counts);
    }

    /** A row that reports an error: the source will not be reopened, but its reader goes on. */
    method OnErrorRow(key: string)
      requires Valid() && Enabled(LaneAt(key), ErrorRow)
      modifies this`sources, this`history
      ensures Valid() && history == old(history) + [Turn(key, ErrorRow)]
      ensures key in sources && sources[key].failed && sources[key].channel.Reading?
    {
      LaneIsTable(sources, counts, Run(follow, map[], history), key);
      ghost var earlier := sources;
      sources := sources[key := sources[key].(failed := true)];
      Took(Turn(key, ErrorRow), earlier, counts);
    }

    /**
     A row is skipped or passed on with the ordinal that completes its id. It is passed on exactly when it is
     the next record of its log, and the ordinal is its place among the rows of its time.
     */
    method OnRow(key: string, at: nat) returns (ordinal: Option<nat>)
      requires Valid() && Enabled(LaneAt(key), Row) && StartsAligned(LaneAt(key), Row)
      requires at == LaneAt(key).log[LaneAt(key).source.value.channel.at]
      modifies this
      ensures Valid() && history == old(history) + [Turn(key, Row)]
      ensures ordinal.None? ==> LaneAt(key).records == old(LaneAt(key).records)
      ensures ordinal.Some? ==>
        var index := old(LaneAt(key).source.value.channel.at);
        && LaneAt(key).records == old(LaneAt(key).records) + [Entry(old(LaneAt(key).log), index)]
        && Entry(old(LaneAt(key).log), index) == Record(index, at, ordinal.value)
      ensures old(LaneAt(key).records) != [] ==>
        (ordinal.Some? <==> old(LaneAt(key).source.value.channel.at == LaneAt(key).first + |LaneAt(key).records|))
    {
      hide Good, FirstAt, Represents, Aligned, Run, Legal;
      ghost var world := Run(follow, map[], history);
      ghost var lane := LaneOf(world, key);
      LaneIsTable(sources, counts, world, key);
      RunFromNothing(follow, history, key);
      RowMeans(lane);
      ghost var earlier, counted := sources, counts;
      ordinal := Read(key, at);
      ghost var after := ReadRow(lane);
      assert after.source == Some(sources[key]) && after.counts == CountsOf(counts, key);
      Took(Turn(key, Row), earlier, counted);
      assert LaneAt(key) == after;
    }

    /** What the row does to the table. */
    method Read(key: string, at: nat) returns (ordinal: Option<nat>)
      requires key in sources && sources[key].channel.Reading?
      modifies this`sources, this`counts
      ensures var before := old(sources)[key];
        && sources == old(sources)[key := TakeRow(before, at).(channel := Reading(before.channel.at + 1))]
        && ordinal == (if Accepts(before, at) then Some(Count(CountsOf(old(counts), key), at)) else None)
        && counts == (if ordinal.None? then old(counts)
                      else old(counts)[key := CountsOf(old(counts), key)[at := ordinal.value + 1]])
    {
      var source := sources[key];
      var accepted := source.boundary.None? || at > source.boundary.value;
      if !accepted && at == source.boundary.value {
        accepted := source.skip <= 0;
      }
      if source.boundary == Some(at) {
        source := source.(skip := source.skip - 1);
      }
      ordinal := None;
      if accepted {
        source := source.(boundary := None, handoffSpent := false, last := Some(at));
        var group := CountsOf(counts, key);
        ordinal := Some(Count(group, at));
        counts := counts[key := group[at := Count(group, at) + 1]];
      }
      sources := sources[key := source.(channel := Reading(source.channel.at + 1))];
    }

    /** The log of a source grows; the follower does not notice. */
    ghost method LogGrows(key: string, at: nat)
      requires Valid() && Enabled(LaneAt(key), Appended(at))
      modifies this`history
      ensures Valid() && history == old(history) + [Turn(key, Appended(at))]
    {
      var world, turn := Run(follow, map[], history), Turn(key, Appended(at));
      RunAppend(follow, map[], history, [turn]);
      var next := world[key := Step(follow, LaneOf(world, key), turn.event)];
      forall k
        ensures LaneOf(next, k).source == Find(sources, k) && LaneOf(next, k).counts == CountsOf(counts, k)
      {
        LaneIsTable(sources, counts, world, k);
      }
      history := history + [turn];
    }

    /** However the object was driven, the records of every source are exact and its opens are bounded. */
    lemma {:induction false} DrivenIsExact(key: string)
      requires Valid()
      ensures var lane := LaneAt(key);
        && lane.first + |lane.records| <= |lane.log|
        && (forall i :: 0 <= i < |lane.records| ==> lane.records[i] == Entry(lane.log, lane.first + i))
        && lane.opens <= |lane.records| + 2 * lane.mentions
    {
      ExactlyOnce(follow, history, key);
    }

    /** And no source it was told of is forgotten. */
    lemma {:induction false} DrivenIsFollowed(key: string)
      requires Valid()
      ensures var lane := LaneAt(key);
        && (lane.mentions > 0 ==> lane.source.Some? && lane.opens > 0)
        && (lane.mentions > 0 && lane.source.value.channel.Idle? ==> MayRest(follow, lane.source.value))
    {
      AlwaysFollowed(follow, history, key);
    }
  }

  lemma {:induction false} RunFromNothing(follow: bool, turns: seq<Turn>, key: string)
    requires Legal(follow, map[], turns)
    ensures Good(LaneOf(Run(follow, map[], turns), key))
  {
    hide Good;
    NothingYet();
    RunIsGood(follow, map[], turns);
  }

  /** What reading a row does to the records. */
  lemma {:induction false} RowMeans(lane: Lane)
    requires Good(lane) && Enabled(lane, Row) && StartsAligned(lane, Row)
    ensures var source := lane.source.value;
      var (index, after) := (source.channel.at, ReadRow(lane));
      && (!Accepts(source, lane.log[index]) ==> after.records == lane.records)
      && (Accepts(source, lane.log[index]) ==>
        && after.records == lane.records + [Entry(lane.log, index)]
        && Entry(lane.log, index) == Record(index, lane.log[index], Count(lane.counts, lane.log[index])))
      && (lane.records != [] ==> (Accepts(source, lane.log[index]) <==> index == lane.first + |lane.records|))
  {
    hide Placed, Counted, FirstAt, Aligned, Bounded;
    var source, after := lane.source.value, ReadRow(lane);
    var index := source.channel.at;
    AcceptedIsNext(lane.log, lane.first, lane.first + |lane.records|, source);
    RowIsGood(lane);
    if Accepts(source, lane.log[index]) {
      assert Exact(after.log, after.first, after.records);
      assert after.records[|lane.records|] == Entry(after.log, after.first + |lane.records|);
    }
  }
}
