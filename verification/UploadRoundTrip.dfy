/**
 The sender (`upload` and `visit`, core/crates/ployz-build/src/upload.rs) and the law that joins it to the
 receiver: the frames of a capture rebuild that capture, whatever the sibling order and however the
 reads cut a file into chunks.
 */
module UploadRoundTrip {
  import opened Common
  import opened PathSyntax
  import opened LinkWalk
  import opened UploadReceiver

  /** A captured tree. A file is the chunks its reads return; a directory lists its children in any order. */
  datatype Tree =
    | DirTree(mode: nat, children: seq<Child>)
    | FileTree(mode: nat, chunks: seq<seq<Byte>>)
    | LinkTree(mode: nat, target: seq<Byte>)

  datatype Child = Child(name: Name, tree: Tree)

  datatype Capture = Capture(source: Tree, secret: Tree, compose: Tree)

  // ---- Sending ----

  /** One visited entry. */
  datatype Item = Item(path: Path, tree: Tree)

  /** Every entry of a tree, each directory before what it holds. */
  function Items(path: Path, t: Tree): seq<Item>
    decreases t, 1
  {
    [Item(path, t)] + if t.DirTree? then ChildItems(path, t.children) else []
  }

  function ChildItems(path: Path, children: seq<Child>): seq<Item>
    decreases children, 0
  {
    if children == [] then []
    else Items(path + [children[0].name], children[0].tree) + ChildItems(path, children[1..])
  }

  function Content(t: Tree): seq<Byte>
  {
    if t.FileTree? then Concat(t.chunks) else []
  }

  function KindOf(t: Tree): Kind
  {
    match t
    case DirTree(_, _) => Directory
    case FileTree(_, _) => File(|Content(t)|)
    case LinkTree(_, target) => Link(target)
  }

  /** The permission bits a header carries: `mode & 0o777`. */
  function Permissions(t: Tree): (bits: nat)
    ensures bits < MODE_LIMIT && (t.mode - bits) % 512 == 0
  {
    t.mode % 512
  }

  function Header(item: Item): Input
  {
    Entry(Join(item.path), KindOf(item.tree), Permissions(item.tree))
  }

  function DataFrames(chunks: seq<seq<Byte>>): seq<Input>
  {
    if chunks == [] then [] else [Data(chunks[0])] + DataFrames(chunks[1..])
  }

  /** The entry's header, then a file's chunks. */
  function ItemFrames(item: Item): seq<Input>
  {
    [Header(item)] + if item.tree.FileTree? then DataFrames(item.tree.chunks) else []
  }

  function Frames(items: seq<Item>): seq<Input>
  {
    if items == [] then [] else ItemFrames(items[0]) + Frames(items[1..])
  }

  function CaptureItems(c: Capture): seq<Item>
  {
    Items([SOURCE], c.source) + Items([PRIVATE], c.secret) + Items([COMPOSE], c.compose)
  }

  lemma {:induction false} FramesAppend(a: seq<Item>, b: seq<Item>)
    ensures Frames(a + b) == Frames(a) + Frames(b)
  {
    if a == [] {
      assert a + b == b;
    } else {
      assert (a + b)[0] == a[0] && (a + b)[1..] == a[1..] + b;
      FramesAppend(a[1..], b);
    }
  }

  /** `visit`: send an entry, then its children or its data. */
  method Visit(path: Path, t: Tree) returns (sent: seq<Input>)
    ensures sent == Frames(Items(path, t))
    decreases t, 1
  {
    sent := [Header(Item(path, t))];
    match t
    case DirTree(_, children) =>
      var below := VisitChildren(path, children);
      sent := sent + below;
      assert Items(path, t)[1..] == ChildItems(path, children);
    case FileTree(_, chunks) =>
      var data := SendData(chunks);
      sent := sent + data;
      assert Items(path, t)[1..] == [];
    case LinkTree(_, _) =>
      assert Items(path, t)[1..] == [];
  }

  method VisitChildren(path: Path, children: seq<Child>) returns (sent: seq<Input>)
    ensures sent == Frames(ChildItems(path, children))
    decreases children, 0
  {
    sent := [];
    ghost var listed: seq<Item> := [];
    for i := 0 to |children|
      invariant ChildItems(path, children) == listed + ChildItems(path, children[i..])
      invariant sent == Frames(listed)
    {
      var below := Visit(path + [children[i].name], children[i].tree);
      sent := sent + below;
      ghost var next := Items(path + [children[i].name], children[i].tree);
      FramesAppend(listed, next);
      assert children[i..][1..] == children[i + 1..];
      listed := listed + next;
    }
    assert listed == ChildItems(path, children);
  }

  method SendData(chunks: seq<seq<Byte>>) returns (sent: seq<Input>)
    ensures sent == DataFrames(chunks)
  {
    sent := [];
    for i := 0 to |chunks|
      invariant DataFrames(chunks) == sent + DataFrames(chunks[i..])
    {
      assert chunks[i..][1..] == chunks[i + 1..];
      sent := sent + [Data(chunks[i])];
    }
  }

  /** `upload`: the three areas in order, then Finish. */
  method Upload(c: Capture) returns (sent: seq<Input>)
    ensures sent == Frames(CaptureItems(c)) + [Finish]
  {
    var source := Visit([SOURCE], c.source);
    var secret := Visit([PRIVATE], c.secret);
    var compose := Visit([COMPOSE], c.compose);
    FramesAppend(Items([SOURCE], c.source), Items([PRIVATE], c.secret));
    FramesAppend(Items([SOURCE], c.source) + Items([PRIVATE], c.secret), Items([COMPOSE], c.compose));
    sent := source + secret + compose + [Finish];
  }

  // ---- Receiving it ----

  /** The receiver after frames that are all accepted and written, or None as soon as one is not. */
  function Feed(r: Receiver, frames: seq<Input>): Option<Receiver>
    decreases |frames|
  {
    if frames == [] then Some(r)
    else
      var (next, ok) := Accept(r, frames[0], Works);
      if ok then Feed(next, frames[1..]) else None
  }

  lemma {:induction false} FeedAppend(r: Receiver, a: seq<Input>, b: seq<Input>)
    requires Feed(r, a).Some?
    ensures Feed(r, a + b) == Feed(Feed(r, a).value, b)
    decreases |a|
  {
    hide Accept;
    if a == [] {
      assert a + b == b;
    } else {
      assert (a + b)[0] == a[0] && (a + b)[1..] == a[1..] + b;
      FeedAppend(Accept(r, a[0], Works).0, a[1..], b);
    }
  }

  predicate Idle(r: Receiver)
  {
    r.phase.Receiving? && (r.current.Some? ==> r.current.value.remaining == 0)
  }

  /** What one entry, completely received, adds. */
  function Add(r: Receiver, item: Item): Receiver
  {
    var p, m := item.path, Permissions(item.tree);
    var s := InSource(p);
    var counted := r.(paths := r.paths + {p}, metadataBytes := r.metadataBytes + MetadataSize(Join(p), KindOf(item.tree)), current := None);
    match item.tree
    case DirTree(_, _) =>
      counted.(files := r.files[p := Dir(PRIVATE_DIR)], directories := r.directories + [(p, if s then m else PRIVATE_DIR)])
    case FileTree(_, _) =>
      counted.(files := r.files[p := Wanted(item)],
               current := Some(Current(p, 0)),
               sourceBytes := r.sourceBytes + (if s then |Content(item.tree)| else 0),
               privateBytes := r.privateBytes + (if s then 0 else |Content(item.tree)|))
    case LinkTree(_, target) =>
      counted.(links := r.links[p := target])
  }

  function AddAll(r: Receiver, items: seq<Item>): Receiver
    decreases |items|
  {
    if items == [] then r else AddAll(Add(r, items[0]), items[1..])
  }

  /** What the executor should find: source modes kept, everything else private. */
  function Wanted(item: Item): Node
  {
    var m := Permissions(item.tree);
    match item.tree
    case DirTree(_, _) => Dir(if InSource(item.path) then m else PRIVATE_DIR)
    case FileTree(_, _) => Regular(if InSource(item.path) then m else PRIVATE_FILE, |Content(item.tree)|, Content(item.tree))
    case LinkTree(_, target) => Symlink(target)
  }

  /** The entry alone is one the receiver takes: a printable path in an area, readable chunks, an allowed kind. */
  ghost predicate Sendable(item: Item)
  {
    && item.path != [] && ValidNames(item.path) && Belongs(item.path)
    && |item.path| <= MAX_DEPTH && |Join(item.path)| <= MAX_PATH && NUL !in Join(item.path)
    && match item.tree
       case DirTree(_, _) => item.path != [COMPOSE]
       case FileTree(_, chunks) => forall i :: 0 <= i < |chunks| ==> 0 < |chunks[i]| <= CHUNK_SIZE
       case LinkTree(_, target) => InSource(item.path) && target != [] && |target| <= MAX_PATH && NUL !in target
  }

  lemma {:induction false} DataIsAppended(r: Receiver, path: Path, chunks: seq<seq<Byte>>)
    requires r.phase.Receiving? && path in r.files && r.files[path].Regular?
    requires r.current == Some(Current(path, |Concat(chunks)|))
    requires forall i :: 0 <= i < |chunks| ==> 0 < |chunks[i]| <= CHUNK_SIZE
    ensures Feed(r, DataFrames(chunks)) == Some(r.(
      files := r.files[path := r.files[path].(content := r.files[path].content + Concat(chunks))],
      current := Some(Current(path, 0))))
    decreases |chunks|
  {
    if chunks == [] {
      assert r.files[path].content + [] == r.files[path].content;
      assert r.files[path := r.files[path]] == r.files;
    } else {
      var file := r.files[path];
      var grown := file.(content := file.content + chunks[0]);
      var next := r.(files := r.files[path := grown], current := Some(Current(path, |Concat(chunks[1..])|)));
      assert Concat(chunks) == chunks[0] + Concat(chunks[1..]);
      assert chunks[0][..|chunks[0]|] == chunks[0];
      assert Accept(r, Data(chunks[0]), Works) == (next, true);
      DataIsAppended(next, path, chunks[1..]);
      assert file.content + Concat(chunks) == grown.content + Concat(chunks[1..]);
      var whole := grown.(content := grown.content + Concat(chunks[1..]));
      assert next.files[path := whole] == r.files[path := whole];
    }
  }

  /** A whole entry, header and data, is accepted where its parent is a directory and nothing has its path. */
  lemma {:induction false} ItemIsAccepted(r: Receiver, item: Item)
    requires Idle(r) && Sendable(item) && item.path !in r.paths && IsDirectory(r.files, Parent(item.path))
    requires WithinLimits(Add(r, item))
    ensures Feed(r, ItemFrames(item)) == Some(Add(r, item))
  {
    HeaderIsAccepted(r, item);
    hide Sendable, Parent, IsDirectory, Accept, Header, WithinLimits, Add;
    var frames := ItemFrames(item);
    assert frames[0] == Header(item);
    if item.tree.FileTree? {
      assert frames[1..] == DataFrames(item.tree.chunks);
      DataFillsFile(r, item);
      hide Opened;
    } else {
      assert frames[1..] == [];
    }
  }

  lemma {:induction false} DataFillsFile(r: Receiver, item: Item)
    requires r.phase.Receiving? && item.tree.FileTree?
    requires forall i :: 0 <= i < |item.tree.chunks| ==> 0 < |item.tree.chunks[i]| <= CHUNK_SIZE
    ensures Feed(Opened(r, item), DataFrames(item.tree.chunks)) == Some(Add(r, item))
  {
    hide Join, InSource, MetadataSize, KindOf;
    var chunks, header := item.tree.chunks, Opened(r, item);
    DataIsAppended(header, item.path, chunks);
    assert [] + Concat(chunks) == Concat(chunks);
    assert header.files[item.path := Wanted(item)] == r.files[item.path := Wanted(item)];
  }

  /** The receiver once the entry's header is in: complete, but for a file's bytes. */
  function Opened(r: Receiver, item: Item): Receiver
  {
    var added := Add(r, item);
    if !item.tree.FileTree? then added
    else
      var size := |Content(item.tree)|;
      added.(files := r.files[item.path := Wanted(item).(content := [])], current := Some(Current(item.path, size)))
  }

  lemma {:induction false} KindIsOpened(r: Receiver, item: Item)
    requires r.current.None? && r.phase.Receiving? && Sendable(item)
    requires WithinLimits(Add(r, item))
    ensures AcceptKind(Listing(r, item), item.path, KindOf(item.tree), Permissions(item.tree), Works) == (Opened(r, item), true)
  {
    hide Belongs, ValidNames, Content, Join, MetadataSize;
  }

  /** The receiver once the entry's path is recorded. */
  function Listing(r: Receiver, item: Item): Receiver
  {
    r.(paths := r.paths + {item.path}, metadataBytes := r.metadataBytes + MetadataSize(Join(item.path), KindOf(item.tree)))
  }

  lemma {:induction false} SendablePath(item: Item)
    requires Sendable(item)
    ensures ReceivedPath(Join(item.path)) == Some(item.path) && Belongs(item.path)
  {
    hide ReceivedPath, Join, Belongs;
    ReceivedJoin(item.path);
  }

  lemma {:induction false} EntryIsListed(r: Receiver, item: Item)
    requires Sendable(item) && item.path !in r.paths && IsDirectory(r.files, Parent(item.path))
    requires WithinLimits(Add(r, item))
    ensures AcceptEntry(r, Join(item.path), KindOf(item.tree), Permissions(item.tree), Works)
            == AcceptKind(Listing(r, item), item.path, KindOf(item.tree), Permissions(item.tree), Works)
  {
    var mode := Permissions(item.tree);
    hide Sendable, WithinLimits, IsDirectory, Parent, AcceptKind, AcceptEntry, Add, Join, MetadataSize, KindOf, ReceivedPath, Belongs;
    SendablePath(item);
    LimitsLeaveRoom(r, item);
    EntryReachesKind(r, Join(item.path), KindOf(item.tree), mode, item.path);
  }

  lemma {:induction false} HeaderIsAccepted(r: Receiver, item: Item)
    requires Idle(r) && Sendable(item) && item.path !in r.paths && IsDirectory(r.files, Parent(item.path))
    requires WithinLimits(Add(r, item))
    ensures Accept(r, Header(item), Works) == (Opened(r, item), true)
  {
    var idle := r.(current := None);
    assert Add(idle, item) == Add(r, item) && Opened(idle, item) == Opened(r, item) by {
      hide Sendable, WithinLimits, IsDirectory, Parent, Content, Join, MetadataSize, KindOf, InSource;
    }
    hide Sendable, WithinLimits, IsDirectory, Parent, AcceptKind, AcceptEntry, Opened, Add, Listing;
    EntryIsListed(idle, item);
    KindIsOpened(idle, item);
  }

  lemma {:induction false} LimitsLeaveRoom(r: Receiver, item: Item)
    requires item.path !in r.paths && WithinLimits(Add(r, item))
    ensures |r.paths| < ENTRY_LIMIT
    ensures r.metadataBytes + MetadataSize(Join(item.path), KindOf(item.tree)) <= PRIVATE_LIMIT
    ensures WithinLimits(Add(r.(current := None), item))
  {
    hide Content, Join, MetadataSize, KindOf, InSource;
    assert |r.paths + {item.path}| == |r.paths| + 1;
  }

  // ---- A list of entries ----

  /** Each entry can be sent, is new, and lies in a directory that is already there. */
  ghost predicate Placeable(dirs: set<Path>, paths: set<Path>, items: seq<Item>)
    decreases |items|
  {
    items == [] ||
    var p := items[0].path;
    && Sendable(items[0]) && p !in paths && Parent(p) in dirs
    && Placeable(if items[0].tree.DirTree? then dirs + {p} else dirs, paths + {p}, items[1..])
  }

  lemma {:induction false} TotalsGrow(r: Receiver, items: seq<Item>)
    ensures var after := AddAll(r, items);
      && after.phase == r.phase && r.paths <= after.paths && |r.paths| <= |after.paths|
      && r.sourceBytes <= after.sourceBytes && r.privateBytes <= after.privateBytes && r.metadataBytes <= after.metadataBytes
    decreases |items|
  {
    hide MetadataSize, Join, KindOf, Content, InSource, Wanted;
    if items != [] {
      TotalsGrow(Add(r, items[0]), items[1..]);
      Subset(r.paths, AddAll(r, items).paths);
    }
  }

  lemma {:induction false} Subset<T>(a: set<T>, b: set<T>)
    requires a <= b
    ensures |a| <= |b|
  {
    if a != {} {
      var x :| x in a;
      Subset(a - {x}, b - {x});
    }
  }

  /** Every entry of a placeable list is accepted, in order. */
  lemma {:induction false} ItemsAreAccepted(r: Receiver, dirs: set<Path>, items: seq<Item>)
    requires Idle(r) && AreDirectories(dirs, r)
    requires Placeable(dirs, r.paths, items) && WithinLimits(AddAll(r, items))
    ensures Feed(r, Frames(items)) == Some(AddAll(r, items)) && Idle(AddAll(r, items))
    decreases |items|
  {
    if items != [] {
      var next := Add(r, items[0]);
      var grown := if items[0].tree.DirTree? then dirs + {items[0].path} else dirs;
      TotalsGrow(next, items[1..]);
      ItemIsAccepted(r, items[0]);
      hide Sendable, Add, WithinLimits, IsDirectory, Parent, ItemFrames;
      ItemsAreAccepted(next, grown, items[1..]);
      FeedAppend(r, ItemFrames(items[0]), Frames(items[1..]));
    }
  }

  ghost predicate AreDirectories(dirs: set<Path>, r: Receiver)
  {
    forall d :: d in dirs ==> d == [] || (d in r.paths && d in r.files && r.files[d].Dir?)
  }

  // ---- A tree is a placeable list ----

  /** Every entry can be sent and siblings have different names. */
  ghost predicate WellFormed(path: Path, t: Tree)
    decreases t, 1
  {
    Sendable(Item(path, t)) && (t.DirTree? ==> ChildrenWellFormed(path, t.children))
  }

  ghost predicate ChildrenWellFormed(path: Path, children: seq<Child>)
    decreases children, 0
  {
    children != [] ==>
      && WellFormed(path + [children[0].name], children[0].tree)
      && (forall j :: 0 < j < |children| ==> children[j].name != children[0].name)
      && ChildrenWellFormed(path, children[1..])
  }

  function Paths(items: seq<Item>): set<Path>
  {
    if items == [] then {} else {items[0].path} + Paths(items[1..])
  }

  function DirPaths(items: seq<Item>): set<Path>
  {
    if items == [] then {} else (if items[0].tree.DirTree? then {items[0].path} else {}) + DirPaths(items[1..])
  }

  lemma {:induction false} PathsAppend(a: seq<Item>, b: seq<Item>)
    ensures Paths(a + b) == Paths(a) + Paths(b)
  {
    if a == [] {
      assert a + b == b;
    } else {
      assert (a + b)[0] == a[0] && (a + b)[1..] == a[1..] + b;
      PathsAppend(a[1..], b);
    }
  }

  lemma {:induction false} PlaceableAppend(dirs: set<Path>, paths: set<Path>, a: seq<Item>, b: seq<Item>)
    requires Placeable(dirs, paths, a) && Placeable(dirs + DirPaths(a), paths + Paths(a), b)
    ensures Placeable(dirs, paths, a + b)
    decreases |a|
  {
    hide Sendable, Parent;
    if a == [] {
      assert a + b == b;
      assert dirs + DirPaths(a) == dirs && paths + Paths(a) == paths;
    } else {
      assert (a + b)[0] == a[0] && (a + b)[1..] == a[1..] + b;
      var p := a[0].path;
      var dirs' := if a[0].tree.DirTree? then dirs + {p} else dirs;
      assert dirs' + DirPaths(a[1..]) == dirs + DirPaths(a);
      assert (paths + {p}) + Paths(a[1..]) == paths + Paths(a);
      PlaceableAppend(dirs', paths + {p}, a[1..], b);
    }
  }

  lemma {:induction false} PlaceableInMore(dirs: set<Path>, more: set<Path>, paths: set<Path>, items: seq<Item>)
    requires Placeable(dirs, paths, items) && dirs <= more
    ensures Placeable(more, paths, items)
    decreases |items|
  {
    hide Sendable, Parent;
    if items != [] {
      var p := items[0].path;
      if items[0].tree.DirTree? {
        PlaceableInMore(dirs + {p}, more + {p}, paths + {p}, items[1..]);
      } else {
        PlaceableInMore(dirs, more, paths + {p}, items[1..]);
      }
    }
  }

  /** Nothing at or below `path` has been received. */
  ghost predicate Untaken(paths: set<Path>, path: Path)
  {
    forall p :: p in paths ==> !(path <= p)
  }

  lemma {:induction false} PathsBelow(path: Path, t: Tree)
    ensures forall p :: p in Paths(Items(path, t)) ==> path <= p
    decreases t, 1
  {
    assert Items(path, t)[0].path == path;
    if t.DirTree? {
      assert Items(path, t)[1..] == ChildItems(path, t.children);
      ChildPathsBelow(path, t.children);
    } else {
      assert Items(path, t)[1..] == [];
    }
  }

  lemma {:induction false} ChildPathsBelow(path: Path, children: seq<Child>)
    ensures forall p :: p in Paths(ChildItems(path, children)) ==> path <= p && |p| > |path|
    decreases children, 0
  {
    if children != [] {
      var first := Items(path + [children[0].name], children[0].tree);
      PathsBelow(path + [children[0].name], children[0].tree);
      ChildPathsBelow(path, children[1..]);
      PathsAppend(first, ChildItems(path, children[1..]));
    }
  }

  lemma {:induction false} TreeIsPlaceable(dirs: set<Path>, paths: set<Path>, path: Path, t: Tree)
    requires WellFormed(path, t) && Parent(path) in dirs && Untaken(paths, path)
    ensures Placeable(dirs, paths, Items(path, t))
    decreases t, 1
  {
    hide Sendable, Parent;
    var items := Items(path, t);
    assert items[0] == Item(path, t);
    if t.DirTree? {
      assert items[1..] == ChildItems(path, t.children);
      assert forall p, name :: p in paths + {path} && path + [name] <= p ==> path <= p && p != path;
      ChildrenArePlaceable(dirs + {path}, paths + {path}, path, t.children);
    } else {
      assert items[1..] == [];
    }
  }

  lemma {:induction false} ChildrenArePlaceable(dirs: set<Path>, paths: set<Path>, path: Path, children: seq<Child>)
    requires ChildrenWellFormed(path, children) && path in dirs
    requires forall j :: 0 <= j < |children| ==> Untaken(paths, path + [children[j].name])
    ensures Placeable(dirs, paths, ChildItems(path, children))
    decreases children, 0
  {
    if children != [] {
      var below := path + [children[0].name];
      var first := Items(below, children[0].tree);
      assert Parent(below) == path;
      hide Sendable, Parent;
      TreeIsPlaceable(dirs, paths, below, children[0].tree);
      PathsBelow(below, children[0].tree);
      forall j | 0 <= j < |children[1..]|
        ensures Untaken(paths + Paths(first), path + [children[1..][j].name])
      {
        SiblingsApart(paths, Paths(first), path, children[0].name, children[j + 1].name);
      }
      ChildrenArePlaceable(dirs, paths + Paths(first), path, children[1..]);
      PlaceableInMore(dirs, dirs + DirPaths(first), paths + Paths(first), ChildItems(path, children[1..]));
      PlaceableAppend(dirs, paths, first, ChildItems(path, children[1..]));
    }
  }

  lemma {:induction false} SiblingsApart(paths: set<Path>, taken: set<Path>, path: Path, name: Name, other: Name)
    requires name != other && Untaken(paths, path + [other])
    requires forall p :: p in taken ==> path + [name] <= p
    ensures Untaken(paths + taken, path + [other])
  {
    forall p | p in taken
      ensures !(path + [other] <= p)
    {
      assert p[|path|] == (path + [name])[|path|] == name;
      assert (path + [other])[|path|] == other;
    }
  }

  // ---- What the receiver holds after a list of entries ----

  function SourceSize(items: seq<Item>): nat
  {
    if items == [] then 0 else (if InSource(items[0].path) then |Content(items[0].tree)| else 0) + SourceSize(items[1..])
  }

  function PrivateSize(items: seq<Item>): nat
  {
    if items == [] then 0 else (if InSource(items[0].path) then 0 else |Content(items[0].tree)|) + PrivateSize(items[1..])
  }

  function HeaderSize(items: seq<Item>): nat
  {
    if items == [] then 0 else MetadataSize(Join(items[0].path), KindOf(items[0].tree)) + HeaderSize(items[1..])
  }

  function DirectoryList(items: seq<Item>): seq<(Path, nat)>
  {
    if items == [] then []
    else (if items[0].tree.DirTree? then [(items[0].path, Wanted(items[0]).mode)] else []) + DirectoryList(items[1..])
  }

  lemma {:induction false} AddAllTotals(r: Receiver, items: seq<Item>)
    ensures var after := AddAll(r, items);
      && after.sourceBytes == r.sourceBytes + SourceSize(items) && after.privateBytes == r.privateBytes + PrivateSize(items)
      && after.metadataBytes == r.metadataBytes + HeaderSize(items)
    decreases |items|
  {
    hide MetadataSize, Join, InSource, Wanted, KindOf;
    if items != [] {
      AddAllTotals(Add(r, items[0]), items[1..]);
    }
  }

  lemma {:induction false} AddAllPaths(r: Receiver, dirs: set<Path>, items: seq<Item>)
    requires Placeable(dirs, r.paths, items)
    ensures AddAll(r, items).paths == r.paths + Paths(items) && |AddAll(r, items).paths| == |r.paths| + |items|
    decreases |items|
  {
    hide Sendable, Parent, MetadataSize, Join, InSource, Wanted, KindOf, Content;
    if items != [] {
      var grown := if items[0].tree.DirTree? then dirs + {items[0].path} else dirs;
      AddAllPaths(Add(r, items[0]), grown, items[1..]);
    }
  }

  lemma {:induction false} AddAllDirectories(r: Receiver, items: seq<Item>)
    ensures AddAll(r, items).directories == r.directories + DirectoryList(items)
    decreases |items|
  {
    hide MetadataSize, Join, InSource, KindOf, Content;
    if items != [] {
      AddAllDirectories(Add(r, items[0]), items[1..]);
    }
  }

  /** An entry not in the list is left alone. */
  lemma {:induction false} AddAllFrame(r: Receiver, items: seq<Item>, p: Path)
    requires p !in Paths(items)
    ensures p in AddAll(r, items).files <==> p in r.files
    ensures p in r.files ==> AddAll(r, items).files[p] == r.files[p]
    ensures p in AddAll(r, items).links <==> p in r.links
    ensures p in r.links ==> AddAll(r, items).links[p] == r.links[p]
    decreases |items|
  {
    hide Sendable, Parent, MetadataSize, Join, InSource, Content;
    if items != [] {
      AddAllFrame(Add(r, items[0]), items[1..], p);
    }
  }

  /** How one received entry is held until Finish. */
  ghost predicate Holds(r: Receiver, item: Item)
  {
    if item.tree.LinkTree? then item.path in r.links && r.links[item.path] == item.tree.target
    else item.path in r.files && r.files[item.path] == if item.tree.DirTree? then Dir(PRIVATE_DIR) else Wanted(item)
  }

  lemma {:induction false} PathsAreNew(dirs: set<Path>, paths: set<Path>, items: seq<Item>)
    requires Placeable(dirs, paths, items)
    ensures Paths(items) !! paths
    decreases |items|
  {
    hide Sendable, Parent;
    if items != [] {
      PathsAreNew(if items[0].tree.DirTree? then dirs + {items[0].path} else dirs, paths + {items[0].path}, items[1..]);
    }
  }

  lemma {:induction false} AddAllHolds(r: Receiver, dirs: set<Path>, items: seq<Item>, i: nat)
    requires Placeable(dirs, r.paths, items) && i < |items|
    ensures Holds(AddAll(r, items), items[i])
    decreases |items|
  {
    var grown := if items[0].tree.DirTree? then dirs + {items[0].path} else dirs;
    var next := Add(r, items[0]);
    if i == 0 {
      PathsAreNew(grown, r.paths + {items[0].path}, items[1..]);
      hide Placeable, Add, Wanted;
      AddAllFrame(next, items[1..], items[0].path);
    } else {
      hide Sendable, Parent, MetadataSize, Join, InSource, Content, Holds;
      AddAllHolds(next, grown, items[1..], i - 1);
    }
  }

  /** Without links in the list there are none in the result. */
  lemma {:induction false} AddAllOrigin(r: Receiver, items: seq<Item>, p: Path)
    requires p in AddAll(r, items).links && p !in r.links
    ensures exists i :: 0 <= i < |items| && items[i].path == p && items[i].tree.LinkTree?
    decreases |items|
  {
    hide Sendable, Parent, MetadataSize, Join, InSource, Content, Wanted;
    if items[0].path == p && items[0].tree.LinkTree? {
    } else {
      AddAllOrigin(Add(r, items[0]), items[1..], p);
      var i :| 0 <= i < |items[1..]| && items[1..][i].path == p && items[1..][i].tree.LinkTree?;
      assert items[i + 1].path == p;
    }
  }

  // ---- Directory modes ----

  /** `execute` applies the recorded directory modes, last recorded first. */
  function Restored(files: map<Path, Node>, directories: seq<(Path, nat)>): map<Path, Node>
    decreases |directories|
  {
    if directories == [] then files
    else
      var (path, mode) := directories[|directories| - 1];
      Restored(files[path := Dir(mode)], directories[..|directories| - 1])
  }

  method RestoreModes(files: map<Path, Node>, directories: seq<(Path, nat)>) returns (restored: map<Path, Node>)
    ensures restored == Restored(files, directories)
  {
    restored := files;
    var i := |directories|;
    assert directories[..i] == directories;
    while i > 0
      invariant 0 <= i <= |directories|
      invariant Restored(restored, directories[..i]) == Restored(files, directories)
    {
      i := i - 1;
      assert directories[..i + 1][..i] == directories[..i];
      var (path, mode) := directories[i];
      restored := restored[path := Dir(mode)];
    }
  }

  lemma {:induction false} RestoredOthers(files: map<Path, Node>, directories: seq<(Path, nat)>, p: Path)
    requires p !in Recorded(directories)
    ensures p in Restored(files, directories) <==> p in files
    ensures p in files ==> Restored(files, directories)[p] == files[p]
    decreases |directories|
  {
    if directories != [] {
      var (path, mode) := directories[|directories| - 1];
      RestoredOthers(files[path := Dir(mode)], directories[..|directories| - 1], p);
    }
  }

  lemma {:induction false} RestoredAt(files: map<Path, Node>, directories: seq<(Path, nat)>, i: nat)
    requires ParentsFirst(directories) && i < |directories|
    ensures var (path, mode) := directories[i];
      path in Restored(files, directories) && Restored(files, directories)[path] == Dir(mode)
    decreases |directories|
  {
    var (path, mode) := directories[|directories| - 1];
    var earlier := directories[..|directories| - 1];
    if i == |directories| - 1 {
      RestoredOthers(files[path := Dir(mode)], earlier, path);
    } else {
      RestoredAt(files[path := Dir(mode)], earlier, i);
    }
  }

  /** Every directory above a recorded one was recorded before it. */
  lemma {:induction false} AncestorsRecordedEarlier(directories: seq<(Path, nat)>, path: Path, k: nat)
    requires ParentsFirst(directories) && path in Recorded(directories) && 0 < k < |path|
    ensures path[..k] in Recorded(directories)
    ensures path == directories[|directories| - 1].0 ==> path[..k] in Recorded(directories[..|directories| - 1])
    decreases |directories|, |path|
  {
    var earlier, last := directories[..|directories| - 1], directories[|directories| - 1].0;
    if path != last {
      AncestorsRecordedEarlier(earlier, path, k);
    } else if k == |path| - 1 {
      assert path[..k] == Parent(path);
    } else {
      assert path[..k] == Parent(path)[..k];
      AncestorsRecordedEarlier(earlier, Parent(path), k);
    }
  }

  /**
   Why the modes go on last recorded first: when a directory's mode is restored, every directory above
   it still has the private mode it was created with, so it can be reached.
   */
  lemma {:induction false} AncestorsStillPrivate(files: map<Path, Node>, directories: seq<(Path, nat)>, i: nat, k: nat)
    requires ParentsFirst(directories) && i < |directories| && 0 < k < |directories[i].0|
    ensures var above := directories[i].0[..k];
      && above in Recorded(directories[..i]) && above !in Recorded(directories[i..])
      && (above in files ==> above in Restored(files, directories[i..]) && Restored(files, directories[i..])[above] == files[above])
    decreases |directories|
  {
    var n := |directories| - 1;
    var above := directories[i].0[..k];
    if i < n {
      AncestorsStillPrivate(files[directories[n].0 := Dir(directories[n].1)], directories[..n], i, k);
      assert directories[..n][i..] == directories[i..][..n - i] && directories[..n][..i] == directories[..i];
      assert directories[i..][n - i] == directories[n];
      RecordedInPrefix(directories[..n], i, above);
      assert above != directories[n].0;
    } else {
      AncestorsRecordedEarlier(directories, directories[n].0, k);
      assert directories[n..] == [directories[n]] && directories[n..][..0] == [];
      assert Restored(files, directories[n..]) == Restored(files[directories[n].0 := Dir(directories[n].1)], []);
    }
    RestoredOthers(files, directories[i..], above);
  }

  lemma {:induction false} RecordedInPrefix(directories: seq<(Path, nat)>, i: nat, path: Path)
    requires i <= |directories| && path in Recorded(directories[..i])
    ensures path in Recorded(directories)
    decreases |directories|
  {
    if i < |directories| {
      assert directories[..|directories| - 1][..i] == directories[..i];
      RecordedInPrefix(directories[..|directories| - 1], i, path);
    } else {
      assert directories[..i] == directories;
    }
  }
}
