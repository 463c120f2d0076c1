/**
 What an attempt proves about each target (core/crates/ployz-build/src/lib.rs, index.rs, execution.rs):
 targets are built one after another, ordinary ones first, and the evidence never claims more than was seen.
 */
module TargetEvidence {
  import opened Common

  datatype Produce = Load | Registry | Validate | Cache

  datatype Target = Target(name: string, platforms: seq<string>)

  type Image = string

  datatype Evidence = Unattempted | Unknown | Built(image: Image) | Validated | Published

  datatype Event = Event(name: string, outcome: Evidence)

  /** How building one target goes; for several platforms, how many of the Bake runs start. */
  datatype Course =
    | NeverStarted
    /** The run fails; an image it left may still be found. */
    | RunFails(found: Option<Image>)
    /** The run ends; the image that was verified, if one was. */
    | RunEnds(image: Option<Image>)
    | Assembly(starts: nat, assembled: Option<Image>, helperRemoved: bool)

  predicate IsMulti(target: Target)
  {
    |target.platforms| > 1
  }

  predicate IsProof(evidence: Evidence)
  {
    evidence.Built? || evidence.Validated? || evidence.Published?
  }

  // ---- One target ----

  function Starts(name: string, n: nat): seq<Event>
  {
    seq(n, _ => Event(name, Unknown))
  }

  function Shown(name: string, image: Option<Image>): seq<Event>
  {
    if image.Some? then [Event(name, Built(image.value))] else []
  }

  function EventsOf(produce: Produce, target: Target, course: Course): seq<Event>
  {
    match course
    case NeverStarted => []
    case RunFails(found) => Starts(target.name, 1) + if produce.Load? then Shown(target.name, found) else []
    case RunEnds(image) =>
      Starts(target.name, 1) +
      (match produce
       case Load => Shown(target.name, image)
       case Registry => [Event(target.name, Published)]
       case Validate => [Event(target.name, Validated)]
       case Cache => [])
    case Assembly(starts, assembled, _) => Starts(target.name, starts) + Shown(target.name, assembled)
  }

  /** Whether the attempt goes on to the next target. */
  predicate GoesOn(produce: Produce, course: Course)
  {
    match course
    case RunEnds(image) => produce.Load? ==> image.Some?
    case Assembly(_, assembled, helperRemoved) => assembled.Some? && helperRemoved
    case _ => false
  }

  function ImageOf(course: Course): Option<Image>
  {
    match course
    case RunEnds(image) => image
    case Assembly(_, assembled, _) => assembled
    case _ => None
  }

  /** Only a target of several platforms is assembled, and only for local output. */
  predicate Fits(produce: Produce, target: Target, course: Course)
  {
    (course.Assembly? ==> IsMulti(target)) && (IsMulti(target) ==> produce.Load? && course.Assembly?)
  }

  // ---- All targets ----

  type Courses = string -> Course

  function Partition(targets: seq<Target>, multi: bool): seq<Target>
  {
    if targets == [] then []
    else (if IsMulti(targets[0]) == multi then [targets[0]] else []) + Partition(targets[1..], multi)
  }

  /** Targets in the order they are built. */
  function Order(targets: seq<Target>): seq<Target>
  {
    Partition(targets, false) + Partition(targets, true)
  }

  function Events(produce: Produce, order: seq<Target>, courses: Courses): seq<Event>
  {
    if order == [] then []
    else
      var first := EventsOf(produce, order[0], courses(order[0].name));
      first + if GoesOn(produce, courses(order[0].name)) then Events(produce, order[1..], courses) else []
  }

  predicate AllGoOn(produce: Produce, order: seq<Target>, courses: Courses)
  {
    forall i :: 0 <= i < |order| ==> GoesOn(produce, courses(order[i].name))
  }

  predicate DistinctNames(targets: seq<Target>)
  {
    forall i, j :: 0 <= i < j < |targets| ==> targets[i].name != targets[j].name
  }

  // ---- Evidence ----

  /** What the events so far say of a target. */
  function Latest(events: seq<Event>, name: string): Evidence
  {
    if events == [] then Unattempted
    else if events[|events| - 1].name == name then events[|events| - 1].outcome
    else Latest(events[..|events| - 1], name)
  }

  /** `WorkEvidence`, kept as events arrive, always says the latest. */
  method Observe(targets: seq<Target>, events: seq<Event>) returns (evidence: map<string, Evidence>)
    requires forall event :: event in events ==> exists t :: t in targets && t.name == event.name
    ensures forall t :: t in targets ==> t.name in evidence && evidence[t.name] == Latest(events, t.name)
  {
    evidence := map t | t in targets :: t.name := Unattempted;
    for i := 0 to |events|
      invariant forall t :: t in targets ==> t.name in evidence && evidence[t.name] == Latest(events[..i], t.name)
    {
      assert events[..i + 1][..i] == events[..i];
      evidence := evidence[events[i].name := events[i].outcome];
    }
    assert events[..|events|] == events;
  }

  lemma {:induction false} LatestAppend(a: seq<Event>, b: seq<Event>, name: string)
    ensures (forall event :: event in b ==> event.name != name) ==> Latest(a + b, name) == Latest(a, name)
    ensures (forall event :: event in a ==> event.name != name) ==> Latest(a + b, name) == Latest(b, name)
    decreases |b|
  {
    if b == [] {
      assert a + b == a;
      LatestOfOthers(a, name);
    } else {
      var last := b[|b| - 1];
      assert (a + b)[..|a + b| - 1] == a + b[..|b| - 1];
      LatestAppend(a, b[..|b| - 1], name);
      assert last in b;
    }
  }

  lemma {:induction false} LatestOfOthers(events: seq<Event>, name: string)
    ensures (forall event :: event in events ==> event.name != name) ==> Latest(events, name) == Unattempted
    decreases |events|
  {
    if events != [] {
      LatestOfOthers(events[..|events| - 1], name);
      assert events[|events| - 1] in events;
    }
  }

  lemma {:induction false} OwnEvents(produce: Produce, target: Target, course: Course)
    ensures forall event :: event in EventsOf(produce, target, course) ==> event.name == target.name
  {
  }

  /** Going on means the target's last event proves it, unless only the cache is filled. */
  lemma {:induction false} GoingOnIsProof(produce: Produce, target: Target, course: Course)
    requires GoesOn(produce, course) && !produce.Cache? && Fits(produce, target, course)
    ensures var latest := Latest(EventsOf(produce, target, course), target.name);
      IsProof(latest) && (produce.Load? ==> ImageOf(course) == Some(latest.image) && latest.Built?)
  {
    var events := EventsOf(produce, target, course);
    assert IsProof(events[|events| - 1].outcome) && events[|events| - 1].name == target.name;
  }

  lemma {:induction false} EventsAreOfOrder(produce: Produce, order: seq<Target>, courses: Courses)
    ensures forall event :: event in Events(produce, order, courses) ==> exists i :: 0 <= i < |order| && order[i].name == event.name
    decreases |order|
  {
    if order != [] {
      OwnEvents(produce, order[0], courses(order[0].name));
      EventsAreOfOrder(produce, order[1..], courses);
      forall event | event in Events(produce, order, courses)
        ensures exists i :: 0 <= i < |order| && order[i].name == event.name
      {
        if event in EventsOf(produce, order[0], courses(order[0].name)) {
          assert order[0].name == event.name;
        } else {
          var i :| 0 <= i < |order[1..]| && order[1..][i].name == event.name;
          assert order[i + 1].name == event.name;
        }
      }
    }
  }

  /** A run of proven targets, then at most one in doubt, then only unattempted ones; `a` is where the run ends. */
  predicate Shape(events: seq<Event>, order: seq<Target>, a: nat)
  {
    && a <= |order|
    && (forall i :: 0 <= i < a ==> IsProof(Latest(events, order[i].name)))
    && (forall i :: a < i < |order| ==> Latest(events, order[i].name) == Unattempted)
  }

  ghost predicate Shaped(events: seq<Event>, order: seq<Target>)
  {
    exists a :: Shape(events, order, a)
  }

  /** At every event of every run that produces something, the evidence has that shape. */
  lemma {:induction false} EvidenceIsShaped(produce: Produce, order: seq<Target>, courses: Courses, n: nat)
    requires !produce.Cache? && DistinctNames(order) && n <= |Events(produce, order, courses)|
    requires forall t :: t in order ==> Fits(produce, t, courses(t.name))
    ensures Shaped(Events(produce, order, courses)[..n], order)
    decreases |order|
  {
    var events := Events(produce, order, courses);
    if order == [] {
      assert Shape(events[..n], order, 0);
    } else {
      var course := courses(order[0].name);
      var first, later := EventsOf(produce, order[0], course), order[1..];
      OwnEvents(produce, order[0], course);
      if n <= |first| {
        assert events[..n] == first[..n];
        forall i | 0 < i < |order|
          ensures Latest(events[..n], order[i].name) == Unattempted
        {
          LatestOfOthers(first[..n], order[i].name);
        }
        assert Shape(events[..n], order, 0);
      } else {
        var rest := Events(produce, later, courses);
        var m := n - |first|;
        assert events[..n] == first + rest[..m];
        assert forall t :: t in later ==> t in order;
        EvidenceIsShaped(produce, later, courses, m);
        var a :| Shape(rest[..m], later, a);
        ShapeGrows(produce, order, courses, rest[..m], a);
      }
    }
  }

  lemma {:induction false} ShapeGrows(produce: Produce, order: seq<Target>, courses: Courses, rest: seq<Event>, a: nat)
    requires !produce.Cache? && order != [] && DistinctNames(order) && Shape(rest, order[1..], a)
    requires var course := courses(order[0].name); GoesOn(produce, course) && Fits(produce, order[0], course)
    requires forall event :: event in rest ==> event in Events(produce, order[1..], courses)
    ensures Shape(EventsOf(produce, order[0], courses(order[0].name)) + rest, order, a + 1)
  {
    var course := courses(order[0].name);
    var first, later := EventsOf(produce, order[0], course), order[1..];
    OwnEvents(produce, order[0], course);
    EventsAreOfOrder(produce, later, courses);
    GoingOnIsProof(produce, order[0], course);
    LatestAppend(first, rest, order[0].name);
    forall i | 0 < i < |order|
      ensures Latest(first + rest, order[i].name) == Latest(rest, later[i - 1].name)
    {
      LatestAppend(first, rest, order[i].name);
    }
  }

  /** Filling the cache proves nothing, so two finished targets are both left in doubt. */
  lemma {:induction false} CacheLeavesDoubt(a: Target, b: Target)
    requires a.name != b.name && !IsMulti(a) && !IsMulti(b)
    ensures var courses: Courses := _ => RunEnds(None); !Shaped(Events(Cache, [a, b], courses), [a, b])
  {
    var courses: Courses := _ => RunEnds(None);
    var events := Events(Cache, [a, b], courses);
    assert [a, b][1..] == [b] && [b][1..] == [];
    assert EventsOf(Cache, a, RunEnds(None)) == [Event(a.name, Unknown)];
    assert EventsOf(Cache, b, RunEnds(None)) == [Event(b.name, Unknown)];
    assert Events(Cache, [b], courses) == [Event(b.name, Unknown)] + Events(Cache, [], courses);
    assert events == [Event(a.name, Unknown)] + Events(Cache, [b], courses);
    assert events == [Event(a.name, Unknown), Event(b.name, Unknown)];
    assert events[..1] == [Event(a.name, Unknown)];
    assert Latest(events, a.name) == Unknown && Latest(events, b.name) == Unknown;
    forall k
      ensures !Shape(events, [a, b], k)
    {
      assert [a, b][0] == a && [a, b][1] == b;
    }
  }

  ghost predicate AlwaysShaped(produce: Produce)
  {
    forall order, courses: Courses, n {:trigger Events(produce, order, courses)[..n]} ::
      DistinctNames(order) && 0 <= n <= |Events(produce, order, courses)| && AllFit(produce, order, courses) ==>
        Shaped(Events(produce, order, courses)[..n], order)
  }

  predicate AllFit(produce: Produce, order: seq<Target>, courses: Courses)
  {
    forall t :: t in order ==> Fits(produce, t, courses(t.name))
  }

  /** The shape holds of all runs for exactly the kinds of output that prove something. */
  lemma {:induction false} AlwaysShapedIff(produce: Produce)
    ensures AlwaysShaped(produce) <==> !produce.Cache?
  {
    if produce.Cache? {
      var a, b := Target("a", []), Target("b", []);
      var courses: Courses := _ => RunEnds(None);
      var events := Events(Cache, [a, b], courses);
      assert a.name[0] != b.name[0];
      CacheLeavesDoubt(a, b);
      assert events[..|events|] == events;
      assert DistinctNames([a, b]) && AllFit(Cache, [a, b], courses);
    } else {
      forall order, courses: Courses, n | DistinctNames(order) && 0 <= n <= |Events(produce, order, courses)| && AllFit(produce, order, courses)
        ensures Shaped(Events(produce, order, courses)[..n], order)
      {
        EvidenceIsShaped(produce, order, courses, n);
      }
    }
  }

  // ---- The evidence in the end ----

  predicate WasStarted(course: Course)
  {
    match course
    case NeverStarted => false
    case Assembly(starts, _, _) => starts > 0
    case _ => true
  }

  /** The image seen of a target, be it behind a failed run. */
  function SeenImage(course: Course): Option<Image>
  {
    if course.RunFails? then course.found else ImageOf(course)
  }

  /** What is known of a target in the end: an image that was seen, else that its run ended well, else doubt if one started. */
  function Verdict(produce: Produce, course: Course): Evidence
  {
    if produce.Load? && SeenImage(course).Some? then Built(SeenImage(course).value)
    else if produce.Registry? && course.RunEnds? then Published
    else if produce.Validate? && course.RunEnds? then Validated
    else if WasStarted(course) then Unknown
    else Unattempted
  }

  lemma {:induction false} VerdictOfOne(produce: Produce, target: Target, course: Course)
    requires Fits(produce, target, course)
    ensures Latest(EventsOf(produce, target, course), target.name) == Verdict(produce, course)
  {
    var events := EventsOf(produce, target, course);
    if events != [] {
      assert events[|events| - 1].name == target.name && events[|events| - 1].outcome == Verdict(produce, course);
    }
  }

  /** A target has its own verdict if all before it went on, and is unattempted if one did not. */
  lemma {:induction false} EvidenceInTheEnd(produce: Produce, order: seq<Target>, courses: Courses, i: nat)
    requires DistinctNames(order) && AllFit(produce, order, courses) && i < |order|
    ensures Latest(Events(produce, order, courses), order[i].name) ==
      if AllGoOn(produce, order[..i], courses) then Verdict(produce, courses(order[i].name)) else Unattempted
    decreases |order|
  {
    hide EventsOf, Verdict, GoesOn, Fits, Events, Latest;
    if i == 0 {
      FirstVerdict(produce, order, courses);
    } else {
      var later := order[1..];
      LaterVerdict(produce, order, courses, i);
      assert forall t :: t in later ==> t in order;
      EvidenceInTheEnd(produce, later, courses, i - 1);
      assert order[..i][1..] == later[..i - 1] && later[i - 1] == order[i];
      FirstGoesOn(produce, order[..i], courses);
    }
  }

  lemma {:induction false} FirstVerdict(produce: Produce, order: seq<Target>, courses: Courses)
    requires DistinctNames(order) && AllFit(produce, order, courses) && order != []
    ensures Latest(Events(produce, order, courses), order[0].name) == Verdict(produce, courses(order[0].name))
  {
    hide EventsOf, Verdict, GoesOn, Fits, Latest;
    var course, later := courses(order[0].name), order[1..];
    var first, rest := EventsOf(produce, order[0], course), Events(produce, later, courses);
    assert order[0] in order;
    VerdictOfOne(produce, order[0], course);
    EventsAreOfOrder(produce, later, courses);
    assert forall k :: 0 <= k < |later| ==> later[k].name == order[k + 1].name;
    LatestAppend(first, if GoesOn(produce, course) then rest else [], order[0].name);
  }

  lemma {:induction false} LaterVerdict(produce: Produce, order: seq<Target>, courses: Courses, i: nat)
    requires DistinctNames(order) && 0 < i < |order|
    ensures Latest(Events(produce, order, courses), order[i].name) ==
      if GoesOn(produce, courses(order[0].name)) then Latest(Events(produce, order[1..], courses), order[i].name) else Unattempted
  {
    hide EventsOf, GoesOn, Latest;
    var course := courses(order[0].name);
    var first, rest := EventsOf(produce, order[0], course), Events(produce, order[1..], courses);
    OwnEvents(produce, order[0], course);
    LatestAppend(first, if GoesOn(produce, course) then rest else [], order[i].name);
    LatestOfOthers(first, order[i].name);
  }

  lemma {:induction false} FirstGoesOn(produce: Produce, order: seq<Target>, courses: Courses)
    requires order != []
    ensures AllGoOn(produce, order, courses) <==> GoesOn(produce, courses(order[0].name)) && AllGoOn(produce, order[1..], courses)
  {
    assert forall i :: 0 < i < |order| ==> order[i] == order[1..][i - 1];
  }

  /** A run that did not start or failed, an image that was wanted and not seen, a helper not known to be gone. */
  predicate Stops(produce: Produce, course: Course)
  {
    || course.NeverStarted? || course.RunFails?
    || (produce.Load? && ImageOf(course).None?)
    || (course.Assembly? && !course.helperRemoved)
  }

  /** Behind a target that stops the attempt nothing is attempted. */
  lemma {:induction false} NothingBehindAStop(produce: Produce, order: seq<Target>, courses: Courses, i: nat, j: nat)
    requires DistinctNames(order) && AllFit(produce, order, courses) && i < j < |order| && Stops(produce, courses(order[i].name))
    ensures Latest(Events(produce, order, courses), order[j].name) == Unattempted
  {
    EvidenceInTheEnd(produce, order, courses, j);
    assert order[..j][i] == order[i] && order[i] in order;
    assert !GoesOn(produce, courses(order[i].name));
  }

  // ---- Returned images ----

  lemma {:induction false} PartitionKeeps(targets: seq<Target>, t: Target)
    ensures t in Order(targets) <==> t in targets
  {
    PartitionIs(targets, false, t);
    PartitionIs(targets, true, t);
  }

  lemma {:induction false} PartitionIs(targets: seq<Target>, multi: bool, t: Target)
    ensures t in Partition(targets, multi) <==> t in targets && IsMulti(t) == multi
  {
    if targets != [] {
      assert targets == [targets[0]] + targets[1..];
      PartitionIs(targets[1..], multi, t);
    }
  }

  lemma {:induction false} OrderIsDistinct(targets: seq<Target>)
    requires DistinctNames(targets)
    ensures DistinctNames(Order(targets))
  {
    PartitionIsDistinct(targets, false);
    PartitionIsDistinct(targets, true);
    var a, b := Partition(targets, false), Partition(targets, true);
    var order := a + b;
    forall i, j | 0 <= i < j < |order|
      ensures order[i].name != order[j].name
    {
      if i < |a| && |a| <= j {
        var x, y := a[i], b[j - |a|];
        assert x in a && y in b;
        PartitionIs(targets, false, x);
        PartitionIs(targets, true, y);
      }
    }
  }

  lemma {:induction false} PartitionIsDistinct(targets: seq<Target>, multi: bool)
    requires DistinctNames(targets)
    ensures DistinctNames(Partition(targets, multi))
  {
    if targets != [] {
      PartitionIsDistinct(targets[1..], multi);
      var rest := Partition(targets[1..], multi);
      forall t | t in rest
        ensures t.name != targets[0].name
      {
        PartitionIs(targets[1..], multi, t);
        var k :| 0 <= k < |targets[1..]| && targets[1..][k] == t;
        assert targets[k + 1] == t;
      }
    }
  }

  /** In a run where every target goes on, each target's latest evidence is its own image. */
  lemma {:induction false} ImagesAreEvidence(order: seq<Target>, courses: Courses, t: Target)
    requires DistinctNames(order) && AllGoOn(Load, order, courses) && t in order
    requires forall u :: u in order ==> Fits(Load, u, courses(u.name))
    ensures ImageOf(courses(t.name)).Some?
    ensures Latest(Events(Load, order, courses), t.name) == Built(ImageOf(courses(t.name)).value)
    decreases |order|
  {
    hide EventsOf, Latest, GoesOn, Fits;
    var course, later := courses(order[0].name), order[1..];
    var first, rest := EventsOf(Load, order[0], course), Events(Load, later, courses);
    OwnEvents(Load, order[0], course);
    EventsAreOfOrder(Load, later, courses);
    LatestAppend(first, rest, t.name);
    assert order[0] in order && GoesOn(Load, course);
    if t == order[0] {
      GoingOnIsProof(Load, t, course);
    } else {
      assert t in later && forall u :: u in later ==> u in order;
      ImagesAreEvidence(later, courses, t);
      var k :| 0 <= k < |later| && later[k] == t;
      assert order[k + 1] == t;
    }
  }

  /** The images pushed while building, in that order; only local output has any. */
  predicate Pushed(produce: Produce, order: seq<Target>, courses: Courses, images: seq<Image>)
  {
    if produce.Load? then |images| == |order| && forall k :: 0 <= k < |order| ==> Some(images[k]) == ImageOf(courses(order[k].name))
    else images == []
  }

  /** One target after another, up to the first that does not go on; each image is pushed as it is made. */
  method BuildInOrder(produce: Produce, order: seq<Target>, courses: Courses) returns (ok: bool, images: seq<Image>, events: seq<Event>)
    ensures events == Events(produce, order, courses) && (ok <==> AllGoOn(produce, order, courses))
    ensures ok ==> Pushed(produce, order, courses, images)
  {
    hide EventsOf, Events, GoesOn;
    events, images := [], [];
    assert order[0..] == order;
    for i := 0 to |order|
      invariant events + Events(produce, order[i..], courses) == Events(produce, order, courses)
      invariant forall k :: 0 <= k < i ==> GoesOn(produce, courses(order[k].name))
      invariant Pushed(produce, order[..i], courses, images)
    {
      var course := courses(order[i].name);
      var first := EventsOf(produce, order[i], course);
      assert order[i..][0] == order[i] && order[i..][1..] == order[i + 1..];
      NextTarget(produce, order[i..], courses);
      events := events + first;
      if !GoesOn(produce, course) {
        return false, images, events;
      }
      if produce.Load? {
        images := images + [ImageOf(course).value];
      }
    }
    NextTarget(produce, order[|order|..], courses);
    assert order[|order|..] == [] && order[..|order|] == order;
    ok := true;
  }

  lemma {:induction false} NextTarget(produce: Produce, order: seq<Target>, courses: Courses)
    ensures order == [] ==> Events(produce, order, courses) == []
    ensures order != [] ==>
      Events(produce, order, courses) == EventsOf(produce, order[0], courses(order[0].name)) +
        if GoesOn(produce, courses(order[0].name)) then Events(produce, order[1..], courses) else []
    ensures order != [] && produce.Load? && GoesOn(produce, courses(order[0].name)) ==> ImageOf(courses(order[0].name)).Some?
  {
    hide EventsOf;
  }

  /** Names paired with images by position; what is left over on either side is dropped. */
  function Zip(order: seq<Target>, images: seq<Image>): map<string, Image>
  {
    if order == [] || images == [] then map[]
    else
      var n := if |order| < |images| then |order| else |images|;
      Zip(order[..n - 1], images[..n - 1])[order[n - 1].name := images[n - 1]]
  }

  lemma {:induction false} ZipHolds(order: seq<Target>, images: seq<Image>, k: nat)
    requires DistinctNames(order) && |images| == |order| && k < |order|
    ensures order[k].name in Zip(order, images) && Zip(order, images)[order[k].name] == images[k]
    decreases |order|
  {
    var n := |order|;
    if k < n - 1 {
      ZipHolds(order[..n - 1], images[..n - 1], k);
      assert order[k].name != order[n - 1].name;
    }
  }

  lemma {:induction false} ImageOfTarget(targets: seq<Target>, courses: Courses, images: seq<Image>, i: nat)
    requires DistinctNames(targets) && (forall t :: t in targets ==> Fits(Load, t, courses(t.name))) && i < |targets|
    requires AllGoOn(Load, Order(targets), courses) && Pushed(Load, Order(targets), courses, images)
    ensures var byName := Zip(Order(targets), images);
      && targets[i].name in byName
      && Latest(Events(Load, Order(targets), courses), targets[i].name) == Built(byName[targets[i].name])
  {
    hide Events, Latest, GoesOn, Fits, ImageOf, Zip, Order;
    var order := Order(targets);
    OrderIsDistinct(targets);
    FitsStay(targets, courses);
    PartitionKeeps(targets, targets[i]);
    ImagesAreEvidence(order, courses, targets[i]);
    var k :| 0 <= k < |order| && order[k] == targets[i];
    ZipHolds(order, images, k);
  }

  /** The table that the zip of names and images builds. */
  method Collect(order: seq<Target>, images: seq<Image>) returns (byName: map<string, Image>)
    ensures byName == Zip(order, images)
  {
    byName := map[];
    var n := if |order| < |images| then |order| else |images|;
    for i := 0 to n
      invariant byName == Zip(order[..i], images[..i])
    {
      assert order[..i + 1][..i] == order[..i] && images[..i + 1][..i] == images[..i];
      byName := byName[order[i].name := images[i]];
    }
    ZipCut(order, images);
  }

  lemma {:induction false} ZipCut(order: seq<Target>, images: seq<Image>)
    ensures var n := if |order| < |images| then |order| else |images|; Zip(order[..n], images[..n]) == Zip(order, images)
    ensures images == [] ==> Zip(order, images) == map[]
  {
    var n := if |order| < |images| then |order| else |images|;
    if n > 0 {
      assert order[..n][..n - 1] == order[..n - 1] && images[..n][..n - 1] == images[..n - 1];
    }
  }

  /**
   The body of `execute_produce`: builds in order and returns the images in the order of the request. When
   it succeeds with local output, there is one image for each target, the one its evidence names; otherwise
   there is none.
   */
  method BuildAll(produce: Produce, targets: seq<Target>, courses: Courses) returns (r: Option<seq<Image>>, events: seq<Event>)
    requires DistinctNames(targets) && forall t :: t in targets ==> Fits(produce, t, courses(t.name))
    ensures events == Events(produce, Order(targets), courses)
    ensures r.Some? <==> AllGoOn(produce, Order(targets), courses)
    ensures r.Some? && produce.Load? ==>
      |r.value| == |targets| && forall i :: 0 <= i < |targets| ==> Latest(events, targets[i].name) == Built(r.value[i])
    ensures r.Some? && !produce.Load? ==> r.value == []
  {
    hide Events, Latest, GoesOn, Fits, Order, AllGoOn, ImageOf, Zip;
    var order := Order(targets);
    var ok, images, found := BuildInOrder(produce, order, courses);
    events := found;
    if !ok {
      return None, events;
    }
    ghost var all := Zip(order, images);
    var byName := Collect(order, images);
    var result: seq<Image> := [];
    ZipCut(order, images);
    for i := 0 to |targets|
      invariant produce.Load? ==> |result| == i && forall k :: 0 <= k < i ==> Latest(events, targets[k].name) == Built(result[k])
      invariant produce.Load? ==> forall k :: i <= k < |targets| ==> targets[k].name in all ==> targets[k].name in byName && byName[targets[k].name] == all[targets[k].name]
      invariant !produce.Load? ==> result == [] && byName == map[]
    {
      if produce.Load? {
        ImageOfTarget(targets, courses, images, i);
      }
      if targets[i].name in byName {
        result := result + [byName[targets[i].name]];
        byName := byName - {targets[i].name};
      }
    }
    r := Some(result);
  }

  lemma {:induction false} FitsStay(targets: seq<Target>, courses: Courses)
    requires forall t :: t in targets ==> Fits(Load, t, courses(t.name))
    ensures forall t :: t in Order(targets) ==> Fits(Load, t, courses(t.name))
  {
    forall t | t in Order(targets)
      ensures t in targets
    {
      PartitionKeeps(targets, t);
    }
  }

  // ---- Build names ----

  function BakeName(name: string): (r: string)
    ensures |r| == |name|
  {
    seq(|name|, i requires 0 <= i < |name| => if name[i] == '.' then '_' else name[i])
  }

  /** `plan` accepts exactly the requests whose build names are all different; then the targets' names are too. */
  method Plan(targets: seq<Target>) returns (ok: bool)
    ensures ok <==> forall i, j :: 0 <= i < j < |targets| ==> BakeName(targets[i].name) != BakeName(targets[j].name)
    ensures ok ==> DistinctNames(targets)
  {
    var names: set<string> := {};
    for i := 0 to |targets|
      invariant forall k :: 0 <= k < i ==> BakeName(targets[k].name) in names
      invariant forall name :: name in names ==> exists k :: 0 <= k < i && BakeName(targets[k].name) == name
      invariant forall j, k :: 0 <= j < k < i ==> BakeName(targets[j].name) != BakeName(targets[k].name)
    {
      var bake := BakeName(targets[i].name);
      if bake in names {
        return false;
      }
      names := names + {bake};
    }
    ok := true;
  }
}
