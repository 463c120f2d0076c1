/**
 Validation of uploaded symbolic links (`validate_link`, core/crates/ployz-build/src/upload.rs)
 against pathname resolution as section 4.13 of the POSIX.1-2017 Base Definitions describes it.

 The validator looks at one link at a time. The point of this module is that accepting every
 link makes resolution of any path of plain names below `source` stay below `source`.
 */
module LinkWalk {
  import opened Common
  import opened PathSyntax

  type Links = map<Path, seq<Component>>

  /** The octets of "source". */
  const SOURCE: Name := [115, 111, 117, 114, 99, 101]

  /** Links one validation may follow. */
  const MAX_HOPS := 40

  ghost predicate Inside(location: Path)
  {
    location != [] && location[0] == SOURCE
  }

  /** No part of the way to `location` is itself a link. */
  ghost predicate Canonical(links: Links, location: Path)
  {
    forall k :: 0 < k <= |location| ==> location[..k] !in links
  }

  // ---- Pathname resolution ----

  /** Where resolution stands, and what is left of the pathname. `Escaped` is anything above the staging root. */
  datatype Config = At(location: Path, todo: seq<Component>) | Escaped

  function Step(links: Links, c: Config): Config
    requires c.At? && c.todo != []
  {
    var rest := c.todo[1..];
    match c.todo[0]
    case CurDir => At(c.location, rest)
    case RootDir => Escaped
    case ParentDir => if c.location == [] then Escaped else At(c.location[..|c.location| - 1], rest)
    case Normal(name) =>
      var next := c.location + [name];
      if next in links then At(c.location, links[next] + rest) else At(next, rest)
  }

  predicate Follows(links: Links, c: Config)
    requires c.At? && c.todo != []
  {
    c.todo[0].Normal? && c.location + [c.todo[0].name] in links
  }

  predicate Stopped(c: Config)
  {
    c.Escaped? || c.todo == []
  }

  /** `n` steps of resolution. */
  function Run(links: Links, c: Config, n: nat): Config
    decreases n
  {
    if n == 0 || Stopped(c) then c else Run(links, Step(links, c), n - 1)
  }

  /** Links followed in those steps. */
  function Hops(links: Links, c: Config, n: nat): nat
    decreases n
  {
    if n == 0 || Stopped(c) then 0
    else (if Follows(links, c) then 1 else 0) + Hops(links, Step(links, c), n - 1)
  }

  /** Within `n` steps, resolution of `c` ends at `location`, never leaves `source`, and follows at most `hops` links. */
  ghost predicate EndsInside(links: Links, c: Config, n: nat, location: Path, hops: nat)
  {
    && Run(links, c, n) == At(location, [])
    && Hops(links, c, n) <= hops
    && forall i :: 0 <= i <= n ==> Run(links, c, i).At? && Inside(Run(links, c, i).location)
  }

  // ---- The validator ----

  /** Where the validator's walk ends, or None when it refuses. */
  function Walk(links: Links, resolved: Path, todo: seq<Component>, hops: nat): Option<Path>
    decreases hops, |todo|
  {
    if todo == [] then Some(resolved)
    else
      match todo[0]
      case CurDir => Walk(links, resolved, todo[1..], hops)
      case RootDir => None
      case ParentDir =>
        if resolved != [SOURCE] && resolved != [] then Walk(links, resolved[..|resolved| - 1], todo[1..], hops) else None
      case Normal(name) =>
        var next := resolved + [name];
        if next[0] != SOURCE then None
        else if next !in links then Walk(links, next, todo[1..], hops)
        else if hops == 0 then None
        else Walk(links, resolved, links[next] + todo[1..], hops - 1)
  }

  /** What `validate_link` checks of the link at `path`. */
  predicate Accepted(path: Path, links: Links)
  {
    Walk(links, [], Normals(path), MAX_HOPS).Some?
  }

  /** The source's loop: a queue of partly read paths, the place reached, and a count of links followed. */
  method ValidateLink(path: Path, links: Links) returns (ok: bool)
    ensures ok <==> Accepted(path, links)
  {
    var pending := [Normals(path)];
    var resolved: Path := [];
    var followed := 0;
    ConcatFront(Normals(path), []);
    while pending != []
      invariant 0 <= followed <= MAX_HOPS
      invariant Walk(links, resolved, Concat(pending), MAX_HOPS - followed) == Walk(links, [], Normals(path), MAX_HOPS)
      decreases MAX_HOPS - followed, |pending|
    {
      var parts := pending[0];
      pending := pending[1..];
      var hopsBefore := followed;
      ghost var others := Concat(pending);
      ghost var waiting := |pending|;
      while parts != []
        invariant followed == hopsBefore && Concat(pending) == others && |pending| == waiting
        invariant Walk(links, resolved, parts + others, MAX_HOPS - followed) == Walk(links, [], Normals(path), MAX_HOPS)
        decreases |parts|
      {
        var part := parts[0];
        ghost var before, todo := resolved, parts + others;
        parts := parts[1..];
        assert todo[0] == part && todo[1..] == parts + others;
        match part {
          case CurDir =>
            continue;
          case Normal(name) =>
            resolved := resolved + [name];
          case ParentDir =>
            if resolved != [SOURCE] && resolved != [] {
              resolved := resolved[..|resolved| - 1];
              continue;
            }
            return false;
          case RootDir =>
            return false;
        }
        if resolved[0] != SOURCE {
          return false;
        }
        if resolved in links {
          var target := links[resolved];
          followed := followed + 1;
          if followed > MAX_HOPS {
            return false;
          }
          resolved := resolved[..|resolved| - 1];
          assert resolved == before;
          ConcatFront(parts, pending);
          pending := [parts] + pending;
          ConcatFront(target, pending);
          pending := [target] + pending;
          break;
        }
      }
      if followed == hopsBefore {
        assert parts + others == Concat(pending);
      }
    }
    ok := true;
  }

  // ---- The validator decides exactly what resolution does ----

  /** One step in front of a run that ends inside. */
  lemma {:induction false} EndsInsideAfterStep(links: Links, c: Config, n: nat, location: Path, hops: nat)
    requires c.At? && c.todo != [] && Inside(c.location)
    requires EndsInside(links, Step(links, c), n, location, hops)
    ensures EndsInside(links, c, n + 1, location, hops + if Follows(links, c) then 1 else 0)
  {
    forall i | 0 <= i <= n + 1
      ensures Run(links, c, i).At? && Inside(Run(links, c, i).location)
    {
      if i > 0 {
        assert Run(links, c, i) == Run(links, Step(links, c), i - 1);
      }
    }
  }

  /** An accepted walk is a resolution that ends inside within the link budget. */
  lemma {:induction false} AcceptedWalkEndsInside(links: Links, resolved: Path, todo: seq<Component>, hops: nat) returns (n: nat)
    requires Inside(resolved) && Walk(links, resolved, todo, hops).Some?
    ensures EndsInside(links, At(resolved, todo), n, Walk(links, resolved, todo, hops).value, hops)
    decreases hops, |todo|
  {
    var c := At(resolved, todo);
    if todo == [] {
      n := 0;
    } else if Follows(links, c) {
      var m := AcceptedWalkEndsInside(links, resolved, Step(links, c).todo, hops - 1);
      EndsInsideAfterStep(links, c, m, Walk(links, resolved, todo, hops).value, hops - 1);
      n := m + 1;
    } else {
      var m := AcceptedWalkEndsInside(links, Step(links, c).location, todo[1..], hops);
      EndsInsideAfterStep(links, c, m, Walk(links, resolved, todo, hops).value, hops);
      n := m + 1;
    }
  }

  function Followed(links: Links, c: Config): nat
    requires c.At? && c.todo != []
  {
    if Follows(links, c) then 1 else 0
  }

  lemma {:induction false} EndsInsideNext(links: Links, c: Config, n: nat, location: Path, hops: nat)
    requires c.At? && c.todo != [] && EndsInside(links, c, n, location, hops)
    ensures n > 0 && Inside(c.location) && Followed(links, c) <= hops
    ensures var next := Step(links, c);
      next.At? && Inside(next.location) && EndsInside(links, next, n - 1, location, hops - Followed(links, c))
  {
    hide Step;
    var next := Step(links, c);
    assert Inside(Run(links, c, 0).location);
    assert Run(links, c, 1) == Run(links, next, 0);
    forall i | 0 <= i <= n - 1
      ensures Run(links, next, i).At? && Inside(Run(links, next, i).location)
    {
      assert Run(links, next, i) == Run(links, c, i + 1);
    }
  }

  /** Inside, the walk takes the same steps. */
  lemma {:induction false} WalkSteps(links: Links, c: Config, hops: nat)
    requires c.At? && c.todo != [] && Inside(c.location) && Followed(links, c) <= hops
    requires Step(links, c).At? && Inside(Step(links, c).location)
    ensures var next := Step(links, c);
      Walk(links, c.location, c.todo, hops) == Walk(links, next.location, next.todo, hops - Followed(links, c))
  {
  }

  /** Conversely, a resolution that ends inside within the budget is accepted, at the same place. */
  lemma {:induction false} EndingInsideIsAccepted(links: Links, c: Config, n: nat, location: Path, hops: nat)
    requires c.At? && EndsInside(links, c, n, location, hops)
    ensures Walk(links, c.location, c.todo, hops) == Some(location)
    decreases n
  {
    if c.todo != [] {
      hide Step, Followed, Run, Hops, Walk, Inside, EndsInside;
      EndsInsideNext(links, c, n, location, hops);
      WalkSteps(links, c, hops);
      EndingInsideIsAccepted(links, Step(links, c), n - 1, location, hops - Followed(links, c));
    }
  }

  /** `validate_link` below a real `source` directory: accepted exactly when resolution ends inside within 40 links. */
  lemma {:induction false} ValidatedIffEndsInside(links: Links, path: Path)
    requires Inside(path) && [SOURCE] !in links
    ensures Accepted(path, links)
            <==> exists n, location :: EndsInside(links, At([SOURCE], Normals(path[1..])), n, location, MAX_HOPS)
  {
    var todo := Normals(path);
    assert [] + [SOURCE] == [SOURCE] && todo[1..] == Normals(path[1..]);
    assert Walk(links, [], todo, MAX_HOPS) == Walk(links, [SOURCE], todo[1..], MAX_HOPS);
    if Walk(links, [SOURCE], todo[1..], MAX_HOPS).Some? {
      var n := AcceptedWalkEndsInside(links, [SOURCE], todo[1..], MAX_HOPS);
    }
    if n, location :| EndsInside(links, At([SOURCE], Normals(path[1..])), n, location, MAX_HOPS) {
      EndingInsideIsAccepted(links, At([SOURCE], todo[1..]), n, location, MAX_HOPS);
    }
  }

  /** Acceptance means resolution reached a place with no link on the way to it. */
  lemma {:induction false} WalkEndsCanonical(links: Links, resolved: Path, todo: seq<Component>, hops: nat)
    requires Canonical(links, resolved) && Walk(links, resolved, todo, hops).Some?
    ensures Canonical(links, Walk(links, resolved, todo, hops).value)
    decreases hops, |todo|
  {
    if todo != [] {
      match todo[0]
      case CurDir => WalkEndsCanonical(links, resolved, todo[1..], hops);
      case ParentDir =>
        var up := resolved[..|resolved| - 1];
        assert forall k :: 0 < k <= |up| ==> up[..k] == resolved[..k];
        WalkEndsCanonical(links, up, todo[1..], hops);
      case Normal(name) =>
        var next := resolved + [name];
        if next in links {
          WalkEndsCanonical(links, resolved, links[next] + todo[1..], hops - 1);
        } else {
          assert forall k :: 0 < k <= |next| ==> next[..k] == if k == |next| then next else resolved[..k];
          WalkEndsCanonical(links, next, todo[1..], hops);
        }
    }
  }

  // ---- Containment of the whole tree ----

  predicate AllAccepted(links: Links)
  {
    forall path {:trigger Accepted(path, links)} :: path in links ==> Accepted(path, links)
  }

  /** Walking down a place no link leads to is just walking down. */
  lemma {:induction false} WalkDown(links: Links, location: Path, k: nat, tail: seq<Component>, hops: nat)
    requires Inside(location) && Canonical(links, location) && k <= |location|
    ensures Walk(links, location[..k], Normals(location[k..]) + tail, hops) == Walk(links, location, tail, hops)
    decreases |location| - k
  {
    var todo := Normals(location[k..]) + tail;
    if k == |location| {
      assert location[..k] == location && todo == tail;
    } else {
      assert todo[0] == Normal(location[k]) && todo[1..] == Normals(location[k + 1..]) + tail;
      assert location[..k] + [location[k]] == location[..k + 1];
      WalkDown(links, location, k + 1, tail, hops);
    }
  }

  /** A validated link's target can be walked from the directory that holds the link. */
  lemma {:induction false} TargetIsAccepted(links: Links, directory: Path, name: Name)
    requires AllAccepted(links) && Inside(directory) && Canonical(links, directory)
    requires directory + [name] in links
    ensures Walk(links, directory, links[directory + [name]], MAX_HOPS - 1).Some?
  {
    var path := directory + [name];
    var target := links[path];
    assert Accepted(path, links);
    assert Normals(path) == Normals(directory[0..]) + [Normal(name)];
    WalkDown(links, directory, 0, [Normal(name)], MAX_HOPS);
    assert target + [Normal(name)][1..] == target;
  }

  /** A target that starts at the root, or goes up as often as the link lies deep. */
  predicate Leaves(target: seq<Component>, depth: nat)
  {
    target != [] && (target[0] == RootDir || (depth <= |target| && forall i :: 0 <= i < depth ==> target[i] == ParentDir))
  }

  lemma {:induction false} WalkingUpIsRefused(links: Links, location: Path, todo: seq<Component>, hops: nat)
    requires Inside(location) && Leaves(todo, |location|)
    ensures Walk(links, location, todo, hops).None?
    decreases |location|
  {
    if todo[0] == ParentDir && |location| > 1 {
      WalkingUpIsRefused(links, location[..|location| - 1], todo[1..], hops);
    }
  }

  /** A link in a real directory whose target leaves `source` in its first steps is refused. */
  lemma {:induction false} LeavingIsRefused(links: Links, directory: Path, name: Name)
    requires Inside(directory) && Canonical(links, directory)
    requires directory + [name] in links && Leaves(links[directory + [name]], |directory|)
    ensures !Accepted(directory + [name], links)
  {
    var target := links[directory + [name]];
    assert Normals(directory + [name]) == Normals(directory[0..]) + [Normal(name)];
    WalkDown(links, directory, 0, [Normal(name)], MAX_HOPS);
    assert target + [Normal(name)][1..] == target;
    WalkingUpIsRefused(links, directory, target, MAX_HOPS - 1);
  }

  lemma {:induction false} StepKeepsCanonical(links: Links, c: Config)
    requires c.At? && c.todo != [] && Canonical(links, c.location)
    ensures Step(links, c).At? ==> Canonical(links, Step(links, c).location)
  {
    var next := Step(links, c);
    if next.At? {
      forall k | 0 < k <= |next.location|
        ensures next.location[..k] !in links
      {
        assert k <= |c.location| ==> next.location[..k] == c.location[..k];
        assert k == |next.location| ==> next.location[..k] == next.location;
      }
    }
  }

  /**
   Resolution of a partly walked, validated target followed by plain names: it ends, inside
   `source`, at a place with no link on the way, within the links left plus forty for each name.
   */
  lemma {:induction false} ResolutionEnds(links: Links, location: Path, target: seq<Component>, names: Path, hops: nat)
    returns (n: nat, end: Path)
    requires AllAccepted(links)
    requires Inside(location) && Canonical(links, location) && Walk(links, location, target, hops).Some?
    ensures EndsInside(links, At(location, target + Normals(names)), n, end, hops + 40 * |names|)
    ensures Canonical(links, end)
    decreases |names|, hops, |target|
  {
    var c := At(location, target + Normals(names));
    if c.todo == [] {
      n, end := 0, location;
      return;
    }
    var next := Step(links, c);
    StepKeepsCanonical(links, c);
    hide Canonical, AllAccepted, EndsInside, Hops;
    if target != [] {
      assert c.todo[1..] == target[1..] + Normals(names);
      if Follows(links, c) {
        var expanded := links[location + [target[0].name]] + target[1..];
        assert next.todo == expanded + Normals(names);
        n, end := ResolutionEnds(links, location, expanded, names, hops - 1);
      } else {
        n, end := ResolutionEnds(links, next.location, target[1..], names, hops);
      }
    } else {
      assert c.todo[0] == Normal(names[0]) && c.todo[1..] == Normals(names[1..]);
      if Follows(links, c) {
        TargetIsAccepted(links, location, names[0]);
        n, end := ResolutionEnds(links, location, links[location + [names[0]]], names[1..], MAX_HOPS - 1);
      } else {
        assert next.todo == [] + Normals(names[1..]);
        n, end := ResolutionEnds(links, next.location, [], names[1..], hops);
      }
    }
    EndsInsideAfterStep(links, c, n, end, hops + 40 * |names| - if Follows(links, c) then 1 else 0);
    n := n + 1;
  }

  lemma {:induction false} RunPastTheEnd(links: Links, c: Config, n: nat, m: nat)
    requires Stopped(Run(links, c, n)) && n <= m
    ensures Run(links, c, m) == Run(links, c, n)
    decreases n
  {
    if n > 0 && !Stopped(c) {
      RunPastTheEnd(links, Step(links, c), n - 1, m - 1);
    }
  }

  /** After any number of steps, resolving `source/names...` from the staging root is still below `source`. */
  ghost predicate StaysInside(links: Links, names: Path, n: nat)
  {
    var c := Run(links, At([], Normals([SOURCE] + names)), n);
    c.At? && Inside(c.location)
  }

  /** Every prefix of every resolution of plain names below `source` stays below `source`, and every resolution ends. */
  lemma {:induction false} ResolutionIsContained(links: Links, names: Path)
    requires AllAccepted(links) && [SOURCE] !in links
    ensures forall n: nat :: n > 0 ==> StaysInside(links, names, n)
    ensures exists n: nat, end ::
      Run(links, At([], Normals([SOURCE] + names)), n) == At(end, []) && Inside(end) && Canonical(links, end)
  {
    var start := At([], Normals([SOURCE] + names));
    var below := At([SOURCE], [] + Normals(names));
    assert start.todo[0] == Normal(SOURCE) && start.todo[1..] == below.todo && [] + [SOURCE] == [SOURCE];
    assert Step(links, start) == below;
    assert [SOURCE][..1] == [SOURCE];
    var last, end := ResolutionEnds(links, [SOURCE], [], names, 0);
    forall n: nat | n > 0
      ensures StaysInside(links, names, n)
    {
      assert Run(links, start, n) == Run(links, below, n - 1);
      if n - 1 > last {
        RunPastTheEnd(links, below, last, n - 1);
      }
    }
    assert Run(links, start, last + 1) == Run(links, below, last);
    assert Inside(Run(links, below, last).location);
  }

  // ---- A link received in place of `source` itself ----

  /** An accepted walk is a resolution, wherever it starts. */
  lemma {:induction false} AcceptedWalkRuns(links: Links, resolved: Path, todo: seq<Component>, hops: nat) returns (n: nat)
    requires Walk(links, resolved, todo, hops).Some? && (resolved == [] || Inside(resolved))
    ensures Run(links, At(resolved, todo), n) == At(Walk(links, resolved, todo, hops).value, [])
    ensures var end := Walk(links, resolved, todo, hops).value; end == [] || Inside(end)
    decreases hops, |todo|
  {
    if todo == [] {
      n := 0;
    } else {
      var next := Step(links, At(resolved, todo));
      var m := AcceptedWalkRuns(links, next.location, next.todo, hops - if Follows(links, At(resolved, todo)) then 1 else 0);
      n := m + 1;
    }
  }

  lemma {:induction false} SourceIsOnTheWay(location: Path)
    ensures Inside(location) ==> location[..1] == [SOURCE]
  {
  }

  /**
   The exact condition. Accepting every link contains resolution exactly when `source` was not itself
   received as a link: the validator also accepts `source -> .`, and then `source` names the staging root.
   */
  lemma {:induction false} ContainedIffSourceIsNoLink(links: Links)
    requires AllAccepted(links)
    ensures (forall names: Path, n: nat :: n > 0 ==> StaysInside(links, names, n)) <==> [SOURCE] !in links
    ensures [SOURCE] in links ==> exists n: nat :: n > 0 && Run(links, At([], Normals([SOURCE])), n) == At([], [])
  {
    if [SOURCE] in links {
      assert Accepted([SOURCE], links);
      var n := AcceptedWalkRuns(links, [], Normals([SOURCE]), MAX_HOPS);
      WalkEndsCanonical(links, [], Normals([SOURCE]), MAX_HOPS);
      var end := Walk(links, [], Normals([SOURCE]), MAX_HOPS).value;
      SourceIsOnTheWay(end);
      assert end == [];
      assert n > 0;
      assert [SOURCE] + [] == [SOURCE];
      assert !StaysInside(links, [], n);
    } else {
      forall names: Path, n: nat | n > 0
        ensures StaysInside(links, names, n)
      {
        ResolutionIsContained(links, names);
      }
    }
  }

  /** The validator does accept `source -> .`. */
  lemma {:induction false} SourceLinkToHereIsAccepted()
    ensures var links: Links := map[[SOURCE] := [CurDir]]; AllAccepted(links) && [SOURCE] in links
  {
    var links: Links := map[[SOURCE] := [CurDir]];
    assert [] + [SOURCE] == [SOURCE] && Normals([SOURCE]) == [Normal(SOURCE)];
    assert [CurDir] + [Normal(SOURCE)][1..] == [CurDir];
    assert Walk(links, [], [CurDir], MAX_HOPS - 1) == Walk(links, [], [], MAX_HOPS - 1);
  }
}
