/** The round trip: what the executor finds is the capture that was sent, path by path. */
module UploadTheorem {
  import opened Common
  import opened PathSyntax
  import opened LinkWalk
  import opened UploadReceiver
  import opened UploadRoundTrip

  // ---- Looking a path up in a capture ----

  function Find(t: Tree, names: Path): Option<Tree>
    decreases t, 1
  {
    if names == [] then Some(t)
    else if t.DirTree? then FindChild(t.children, names)
    else None
  }

  function FindChild(children: seq<Child>, names: Path): Option<Tree>
    requires names != []
    decreases children, 0
  {
    if children == [] then None
    else if children[0].name == names[0] then Find(children[0].tree, names[1..])
    else FindChild(children[1..], names)
  }

  function Lookup(c: Capture, path: Path): Option<Tree>
  {
    if path == [] then None
    else if path[0] == SOURCE then Find(c.source, path[1..])
    else if path[0] == PRIVATE then Find(c.secret, path[1..])
    else if path[0] == COMPOSE then Find(c.compose, path[1..])
    else None
  }

  lemma {:induction false} FoundIsItem(path: Path, t: Tree, names: Path)
    requires Find(t, names).Some?
    ensures Item(path + names, Find(t, names).value) in Items(path, t)
    decreases t, 1
  {
    if names == [] {
      assert path + names == path && Items(path, t)[0] == Item(path, t);
    } else {
      FoundChildIsItem(path, t.children, names);
      assert Items(path, t)[1..] == ChildItems(path, t.children);
    }
  }

  lemma {:induction false} FoundChildIsItem(path: Path, children: seq<Child>, names: Path)
    requires names != [] && FindChild(children, names).Some?
    ensures Item(path + names, FindChild(children, names).value) in ChildItems(path, children)
    decreases children, 0
  {
    if children[0].name == names[0] {
      FoundIsItem(path + [names[0]], children[0].tree, names[1..]);
      assert path + [names[0]] + names[1..] == path + names;
    } else {
      FoundChildIsItem(path, children[1..], names);
    }
  }

  lemma {:induction false} ItemIsFound(path: Path, t: Tree, item: Item)
    requires WellFormed(path, t) && item in Items(path, t)
    ensures path <= item.path && Find(t, item.path[|path|..]) == Some(item.tree)
    decreases t, 1
  {
    hide Sendable;
    if item == Item(path, t) {
      assert item.path[|path|..] == [];
    } else {
      assert Items(path, t)[0] == Item(path, t) && (t.DirTree? ==> Items(path, t)[1..] == ChildItems(path, t.children));
      ChildItemIsFound(path, t.children, item);
    }
  }

  lemma {:induction false} ChildItemIsFound(path: Path, children: seq<Child>, item: Item)
    requires ChildrenWellFormed(path, children) && item in ChildItems(path, children)
    ensures path <= item.path && |item.path| > |path|
    ensures FindChild(children, item.path[|path|..]) == Some(item.tree)
    ensures exists j :: 0 <= j < |children| && item.path[|path|] == children[j].name
    decreases children, 0
  {
    hide Sendable;
    var below := path + [children[0].name];
    if item in Items(below, children[0].tree) {
      ItemIsFound(below, children[0].tree, item);
      assert item.path[|path|] == below[|path|] == children[0].name;
      assert item.path[|path|..][1..] == item.path[|below|..];
      assert path <= item.path by { assert path == below[..|path|]; }
    } else {
      ChildItemIsFound(path, children[1..], item);
      var j :| 0 <= j < |children[1..]| && item.path[|path|] == children[1..][j].name;
      assert children[j + 1].name != children[0].name;
    }
  }

  // ---- The capture as a list of entries ----

  ghost predicate CaptureWellFormed(c: Capture)
  {
    WellFormed([SOURCE], c.source) && WellFormed([PRIVATE], c.secret) && WellFormed([COMPOSE], c.compose)
  }

  /** The receiver's byte, entry and metadata ceilings. */
  predicate CaptureInLimits(c: Capture)
  {
    var items := CaptureItems(c);
    && |items| <= ENTRY_LIMIT && SourceSize(items) <= SOURCE_LIMIT
    && PrivateSize(items) <= PRIVATE_LIMIT && HeaderSize(items) <= PRIVATE_LIMIT
  }

  /** The capture's links, as the receiver resolves them. */
  function CapturedLinks(c: Capture): Links
  {
    map p | p in Paths(CaptureItems(c)) && Lookup(c, p).Some? && Lookup(c, p).value.LinkTree? :: Components(Lookup(c, p).value.target)
  }

  lemma {:induction false} AreasDiffer()
    ensures SOURCE != PRIVATE && SOURCE != COMPOSE && PRIVATE != COMPOSE
  {
    assert SOURCE[0] != PRIVATE[0] && SOURCE[0] != COMPOSE[0] && PRIVATE[0] != COMPOSE[0];
  }

  lemma {:induction false} LookupIffItem(c: Capture, path: Path, t: Tree)
    requires CaptureWellFormed(c)
    ensures Lookup(c, path) == Some(t) <==> Item(path, t) in CaptureItems(c)
  {
    hide WellFormed, SOURCE, PRIVATE, COMPOSE;
    AreasDiffer();
    LookupInArea(SOURCE, c.source, path, t);
    LookupInArea(PRIVATE, c.secret, path, t);
    LookupInArea(COMPOSE, c.compose, path, t);
  }

  lemma {:induction false} LookupInArea(area: Name, tree: Tree, path: Path, t: Tree)
    requires WellFormed([area], tree)
    ensures path != [] && path[0] == area && Find(tree, path[1..]) == Some(t) <==> Item(path, t) in Items([area], tree)
  {
    if Item(path, t) in Items([area], tree) {
      ItemIsFound([area], tree, Item(path, t));
    }
    if path != [] && path[0] == area && Find(tree, path[1..]) == Some(t) {
      FoundIsItem([area], tree, path[1..]);
      assert [area] + path[1..] == path;
    }
  }

  lemma {:induction false} CaptureIsPlaceable(c: Capture)
    requires CaptureWellFormed(c)
    ensures Placeable({[]}, {}, CaptureItems(c))
  {
    var source, secret, compose := Items([SOURCE], c.source), Items([PRIVATE], c.secret), Items([COMPOSE], c.compose);
    AreaIsPlaceable({[]}, {}, SOURCE, c.source);
    PathsBelow([SOURCE], c.source);
    PathsBelow([PRIVATE], c.secret);
    AreasDiffer();
    hide WellFormed, SOURCE, PRIVATE, COMPOSE;
    SiblingsApart({}, Paths(source), [], SOURCE, PRIVATE);
    SiblingsApart({}, Paths(source), [], SOURCE, COMPOSE);
    SiblingsApart({} + Paths(source), Paths(secret), [], PRIVATE, COMPOSE);
    AreaIsPlaceable({[]} + DirPaths(source), {} + Paths(source), PRIVATE, c.secret);
    PlaceableAppend({[]}, {}, source, secret);
    PathsAppend(source, secret);
    AreaIsPlaceable({[]} + DirPaths(source + secret), {} + Paths(source + secret), COMPOSE, c.compose);
    PlaceableAppend({[]}, {}, source + secret, compose);
  }

  lemma {:induction false} AreaIsPlaceable(dirs: set<Path>, paths: set<Path>, area: Name, t: Tree)
    requires WellFormed([area], t) && [] in dirs && Untaken(paths, [] + [area])
    ensures Placeable(dirs, paths, Items([area], t))
  {
    assert [] + [area] == [area] && Parent([area]) == [];
    TreeIsPlaceable(dirs, paths, [area], t);
  }

  // ---- Receiving it ----

  /** The receiver when every entry of the capture is in. */
  ghost function Loaded(c: Capture): Receiver
  {
    AddAll(FRESH, CaptureItems(c))
  }

  lemma {:induction false} PathIffItem(items: seq<Item>, p: Path)
    ensures p in Paths(items) <==> exists i :: 0 <= i < |items| && items[i].path == p
  {
    if items != [] {
      PathIffItem(items[1..], p);
      if i :| 0 <= i < |items| && items[i].path == p {
        assert i > 0 ==> items[1..][i - 1].path == p;
      }
      if j :| 0 <= j < |items[1..]| && items[1..][j].path == p {
        assert items[j + 1].path == p;
      }
    }
  }

  /** Each looked-up entry is held by the loaded receiver, and nothing else is. */
  lemma {:induction false} LoadedHolds(c: Capture, p: Path)
    requires CaptureWellFormed(c)
    ensures Lookup(c, p).Some? <==> p in Loaded(c).paths
    ensures Lookup(c, p).Some? ==> Holds(Loaded(c), Item(p, Lookup(c, p).value))
  {
    hide CaptureWellFormed, Holds, CaptureItems, Lookup;
    var items := CaptureItems(c);
    CaptureIsPlaceable(c);
    AddAllPaths(FRESH, {[]}, items);
    PathIffItem(items, p);
    hide AddAll;
    if Lookup(c, p).Some? {
      var t := Lookup(c, p).value;
      LookupIffItem(c, p, t);
      var i :| 0 <= i < |items| && items[i] == Item(p, t);
      AddAllHolds(FRESH, {[]}, items, i);
    }
    if i :| 0 <= i < |items| && items[i].path == p {
      LookupIffItem(c, p, items[i].tree);
    }
  }

  lemma {:induction false} LinkIsCaptured(c: Capture, p: Path)
    requires CaptureWellFormed(c)
    ensures p in Loaded(c).links <==> p in Paths(CaptureItems(c)) && Lookup(c, p).Some? && Lookup(c, p).value.LinkTree?
    ensures p in Loaded(c).links ==> Loaded(c).links[p] == Lookup(c, p).value.target
  {
    var items := CaptureItems(c);
    CaptureIsPlaceable(c);
    AddAllPaths(FRESH, {[]}, items);
    LoadedHolds(c, p);
    hide CaptureWellFormed, CaptureItems, Lookup, AddAll;
    if p in Loaded(c).links {
      AddAllOrigin(FRESH, items, p);
      var i :| 0 <= i < |items| && items[i].path == p && items[i].tree.LinkTree?;
      LookupIffItem(c, p, items[i].tree);
    }
  }

  lemma {:induction false} LinksAreCaptured(c: Capture)
    requires CaptureWellFormed(c)
    ensures LinkTargets(Loaded(c).links) == CapturedLinks(c)
  {
    hide CaptureWellFormed, CaptureItems, Lookup, Loaded, Components, Paths;
    forall p
      ensures p in Loaded(c).links <==> p in CapturedLinks(c)
      ensures p in Loaded(c).links ==> Components(Loaded(c).links[p]) == CapturedLinks(c)[p]
    {
      LinkIsCaptured(c, p);
    }
  }

  lemma {:induction false} LoadedWithinLimits(c: Capture)
    requires CaptureWellFormed(c) && CaptureInLimits(c)
    ensures WithinLimits(Loaded(c))
  {
    hide CaptureWellFormed, CaptureItems;
    CaptureIsPlaceable(c);
    AddAllPaths(FRESH, {[]}, CaptureItems(c));
    AddAllTotals(FRESH, CaptureItems(c));
    hide AddAll, SourceSize, PrivateSize, HeaderSize, Placeable;
  }

  lemma {:induction false} LoadingIsAccepted(c: Capture)
    requires CaptureWellFormed(c) && CaptureInLimits(c)
    ensures Feed(FRESH, Frames(CaptureItems(c))) == Some(Loaded(c)) && Idle(Loaded(c)) && Valid(Loaded(c))
  {
    assert Valid(FRESH);
    hide CaptureWellFormed, CaptureItems, CaptureInLimits, Placeable, AddAll, Frames, Feed, WithinLimits, Valid;
    var items := CaptureItems(c);
    CaptureIsPlaceable(c);
    LoadedWithinLimits(c);
    ItemsAreAccepted(FRESH, {[]}, items);
    FeedKeepsValid(FRESH, Frames(items));
  }

  lemma {:induction false} FeedKeepsValid(r: Receiver, frames: seq<Input>)
    requires Valid(r) && Feed(r, frames).Some?
    ensures Valid(Feed(r, frames).value)
    decreases |frames|
  {
    hide Valid, Accept;
    if frames != [] {
      AcceptKeepsValid(r, frames[0], Works);
      FeedKeepsValid(Accept(r, frames[0], Works).0, frames[1..]);
    }
  }

  /** The receiver when Finish is in as well. */
  ghost function Sent(c: Capture): Receiver
  {
    var r := Loaded(c);
    r.(current := None, files := WithLinks(r.files, r.links), phase := Finished)
  }

  /** Every frame of a well-formed capture within the limits is accepted, Finish included. */
  lemma {:induction false} CaptureIsAccepted(c: Capture)
    requires CaptureWellFormed(c) && CaptureInLimits(c) && AllAccepted(CapturedLinks(c))
    ensures Feed(FRESH, Frames(CaptureItems(c)) + [Finish]) == Some(Sent(c))
  {
    hide CaptureWellFormed, CaptureItems, CaptureInLimits, CapturedLinks, LinkTargets, AllAccepted, Valid, WithLinks, Loaded, Accept;
    var frames, r := Frames(CaptureItems(c)), Loaded(c);
    LoadingIsAccepted(c);
    LinksAreCaptured(c);
    FinishSeals(r);
    FeedAppend(FRESH, frames, [Finish]);
    assert [Finish][1..] == [];
  }

  lemma {:induction false} ListedDirectory(items: seq<Item>, j: nat) returns (i: nat)
    requires j < |DirectoryList(items)|
    ensures i < |items| && items[i].tree.DirTree?
    ensures DirectoryList(items)[j] == (items[i].path, Wanted(items[i]).mode)
  {
    hide Wanted;
    var first := items[0].tree.DirTree?;
    if first && j == 0 {
      i := 0;
    } else {
      i := ListedDirectory(items[1..], if first then j - 1 else j);
      i := i + 1;
    }
  }

  lemma {:induction false} RecordedAt(directories: seq<(Path, nat)>, p: Path) returns (j: nat)
    requires p in Recorded(directories)
    ensures j < |directories| && directories[j].0 == p
  {
    var n := |directories| - 1;
    if directories[n].0 == p {
      j := n;
    } else {
      j := RecordedAt(directories[..n], p);
    }
  }

  /** What the executor finds once directory modes are restored. */
  ghost function Executable(c: Capture): map<Path, Node>
  {
    Restored(Sent(c).files, Sent(c).directories)
  }

  /** An entry that is no directory keeps its node; a path never received stays absent. */
  lemma {:induction false} RestoredSealed(files: map<Path, Node>, paths: set<Path>, directories: seq<(Path, nat)>, links: map<Path, seq<Byte>>, p: Path)
    requires Partition(files, paths, links) && AllRecorded(directories, files) && !(p in files && files[p].Dir?)
    ensures var restored := Restored(WithLinks(files, links), directories);
      && (p in restored <==> p in paths)
      && (p in links ==> restored[p] == Symlink(links[p]))
      && (p in files ==> restored[p] == files[p])
  {
    assert p !in Recorded(directories);
    RestoredOthers(WithLinks(files, links), directories, p);
    hide Restored, Recorded;
  }

  lemma {:induction false} DirectoryIsRebuilt(c: Capture, p: Path)
    requires CaptureWellFormed(c) && CaptureInLimits(c)
    requires Lookup(c, p).Some? && Lookup(c, p).value.DirTree?
    ensures p in Executable(c) && Executable(c)[p] == Wanted(Item(p, Lookup(c, p).value))
  {
    hide CaptureWellFormed, CaptureItems, CaptureInLimits, Lookup, AddAll, ParentClosed, Accounted, Partition, LinksInSource, WithinLimits, ParentsFirst;
    hide Feed, Frames, DirectoryList, Recorded, Restored, WithLinks;
    var items, r := CaptureItems(c), Loaded(c);
    LoadingIsAccepted(c);
    LoadedHolds(c, p);
    AddAllDirectories(FRESH, items);
    assert [] + DirectoryList(items) == DirectoryList(items);
    assert p in Recorded(r.directories);
    var j := RecordedAt(r.directories, p);
    var i := ListedDirectory(items, j);
    LookupIffItem(c, p, items[i].tree);
    RestoredAt(Sent(c).files, r.directories, j);
  }

  lemma {:induction false} OthersAreRebuilt(c: Capture, p: Path)
    requires CaptureWellFormed(c) && CaptureInLimits(c)
    requires Lookup(c, p).Some? ==> !Lookup(c, p).value.DirTree?
    ensures p in Executable(c) <==> Lookup(c, p).Some?
    ensures p in Executable(c) ==> Executable(c)[p] == Wanted(Item(p, Lookup(c, p).value))
  {
    hide CaptureWellFormed, CaptureItems, CaptureInLimits, Lookup, Loaded, ParentClosed, Accounted, LinksInSource, WithinLimits, ParentsFirst, AllRecorded;
    hide Feed, Frames, Restored, Recorded, WithLinks;
    var r := Loaded(c);
    LoadingIsAccepted(c);
    LoadedHolds(c, p);
    RestoredSealed(r.files, r.paths, r.directories, r.links, p);
  }

  /**
   The round trip. For every well-formed capture within the limits whose links are valid - any sibling
   order, empty files, files cut into chunks anywhere - the receiver accepts every frame, finishes, and the
   executor then finds exactly the captured paths, each with the captured content or link target, source
   entries with their own modes and everything else private.
   */
  lemma {:induction false} RoundTrip(c: Capture)
    requires CaptureWellFormed(c) && CaptureInLimits(c) && AllAccepted(CapturedLinks(c))
    ensures Feed(FRESH, Frames(CaptureItems(c)) + [Finish]).Some?
    ensures var r := Feed(FRESH, Frames(CaptureItems(c)) + [Finish]).value;
      && r.phase.Finished?
      && forall p ::
          && (p in Restored(r.files, r.directories) <==> Lookup(c, p).Some?)
          && (Lookup(c, p).Some? ==> Restored(r.files, r.directories)[p] == Wanted(Item(p, Lookup(c, p).value)))
  {
    CaptureIsAccepted(c);
    hide CaptureWellFormed, CaptureItems, CaptureInLimits, CapturedLinks, Lookup, Loaded, Feed, Restored, Wanted;
    forall p
      ensures p in Executable(c) <==> Lookup(c, p).Some?
      ensures Lookup(c, p).Some? ==> Executable(c)[p] == Wanted(Item(p, Lookup(c, p).value))
    {
      if Lookup(c, p).Some? && Lookup(c, p).value.DirTree? {
        DirectoryIsRebuilt(c, p);
      } else {
        OthersAreRebuilt(c, p);
      }
    }
  }
}
