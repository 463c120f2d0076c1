/**
 The bounded receiver for a captured build (`Upload`, core/crates/ployz-build/src/upload.rs).

 `Receiver` is the receiver's state as a value, with the staging directory it writes as a map,
 and `Accept` is what one frame does to it; the object that does it in place is in `UploadObject`.
 A frame's filesystem calls can fail; `Io` says whether one does.
 */
module UploadReceiver {
  import opened Common
  import opened PathSyntax
  import opened LinkWalk

  const SOURCE_LIMIT := 2147483648 // 2 GiB
  const PRIVATE_LIMIT := 16777216 // 16 MiB
  const ENTRY_LIMIT := 100_000
  const CHUNK_SIZE := 32768 // 32 KiB
  const MAX_PATH := 4096
  const MAX_DEPTH := 128

  // Permission bits: 0o777 + 1, 0o700 and 0o600.
  const MODE_LIMIT := 512
  const PRIVATE_DIR := 448
  const PRIVATE_FILE := 384

  const NUL: Byte := 0
  /** The octets of "private". */
  const PRIVATE: Name := [112, 114, 105, 118, 97, 116, 101]
  /** The octets of "compose.yaml". */
  const COMPOSE: Name := [99, 111, 109, 112, 111, 115, 101, 46, 121, 97, 109, 108]

  datatype Kind = Directory | File(size: nat) | Link(target: seq<Byte>)

  datatype Input =
    | Entry(path: seq<Byte>, kind: Kind, mode: nat)
    | Data(bytes: seq<Byte>)
    | Finish
    | Check
    | Start
    | Cancel

  /** What the staging directory holds. A file remembers the size its header declared. */
  datatype Node = Dir(mode: nat) | Regular(mode: nat, declared: nat, content: seq<Byte>) | Symlink(target: seq<Byte>)

  /**
   Looking at the parent directory may fail, and so may writing. A failed write leaves behind what it had
   done: some bytes, a file whose permissions could not be set (`written` is not 0), or the links `created`.
   */
  datatype Io = Works | StatFails | WriteFails(written: nat, created: set<Path>)

  datatype Phase = Receiving | Failed | Finished

  /** The file being received and the bytes it still lacks. */
  datatype Current = Current(path: Path, remaining: nat)

  datatype Receiver = Receiver(
    files: map<Path, Node>,
    paths: set<Path>,
    directories: seq<(Path, nat)>,
    links: map<Path, seq<Byte>>,
    current: Option<Current>,
    sourceBytes: nat,
    privateBytes: nat,
    metadataBytes: nat,
    phase: Phase)

  const FRESH: Receiver := Receiver(map[], {}, [], map[], None, 0, 0, 0, Receiving)

  /** `received_path`: printable staging paths only, at most 128 deep. */
  function ReceivedPath(bytes: seq<Byte>): (r: Option<Path>)
    ensures r.Some? ==> r.value != [] ==> Components(bytes) == Normals(r.value)
  {
    var parts := Components(bytes);
    if bytes == [] || |bytes| > MAX_PATH || NUL in bytes then None
    else if |parts| > MAX_DEPTH || exists i :: 0 <= i < |parts| && !parts[i].Normal? then None
    else Some(seq(|parts|, i requires 0 <= i < |parts| => parts[i].name))
  }

  predicate InSource(path: Path)
  {
    path != [] && path[0] == SOURCE
  }

  predicate Belongs(path: Path)
  {
    InSource(path) || (path != [] && path[0] == PRIVATE) || path == [COMPOSE]
  }

  function Parent(path: Path): Path
  {
    if path == [] then [] else path[..|path| - 1]
  }

  /** The staging root is always a directory. */
  predicate IsDirectory(files: map<Path, Node>, path: Path)
  {
    path == [] || (path in files && files[path].Dir?)
  }

  function MetadataSize(path: seq<Byte>, kind: Kind): nat
  {
    |path| + if kind.Link? then |kind.target| else 0
  }

  function LinkTargets(links: map<Path, seq<Byte>>): Links
  {
    map path | path in links :: Components(links[path])
  }

  // ---- One frame ----

  /** `accept`: a rejected frame closes the upload for good. */
  function Accept(r: Receiver, frame: Input, io: Io): (Receiver, bool)
  {
    if !r.phase.Receiving? then (r, false)
    else
      var (next, ok) := AcceptNext(r, frame, io);
      if ok then (next, true) else (next.(phase := Failed), false)
  }

  function AcceptNext(r: Receiver, frame: Input, io: Io): (Receiver, bool)
  {
    if frame.Data? then AcceptData(r, frame.bytes, io)
    else if r.current.Some? && r.current.value.remaining != 0 then (r, false)
    else
      var idle := r.(current := None);
      match frame
      case Entry(path, kind, mode) => AcceptEntry(idle, path, kind, mode, io)
      case Finish => AcceptFinish(idle, io)
      case _ => (idle, false)
  }

  /** How many of the bytes reach the file. */
  function Written(bytes: seq<Byte>, io: Io): (n: nat)
    ensures n <= |bytes|
  {
    if io.WriteFails? && io.written < |bytes| then io.written else |bytes|
  }

  function Appended(files: map<Path, Node>, path: Path, bytes: seq<Byte>): map<Path, Node>
    requires path in files && files[path].Regular?
  {
    files[path := files[path].(content := files[path].content + bytes)]
  }

  function AcceptData(r: Receiver, bytes: seq<Byte>, io: Io): (Receiver, bool)
  {
    if bytes == [] || |bytes| > CHUNK_SIZE || r.current.None? then (r, false)
    else
      var Current(path, remaining) := r.current.value;
      if remaining < |bytes| then (r, false)
      else
        var counted := r.(current := Some(Current(path, remaining - |bytes|)));
        if path !in r.files || !r.files[path].Regular? then (counted, false)
        else (counted.(files := Appended(r.files, path, bytes[..Written(bytes, io)])), io.Works? || io.StatFails?)
  }

  function AcceptEntry(r: Receiver, path: seq<Byte>, kind: Kind, mode: nat, io: Io): (Receiver, bool)
  {
    var metadata := r.metadataBytes + MetadataSize(path, kind);
    if metadata > PRIVATE_LIMIT then (r, false)
    else
      var counted := r.(metadataBytes := metadata);
      var received := ReceivedPath(path);
      if received.None? || !Belongs(received.value) || mode >= MODE_LIMIT then (counted, false)
      else if |r.paths| >= ENTRY_LIMIT || received.value in r.paths then (counted, false)
      else
        var relative := received.value;
        var listed := counted.(paths := r.paths + {relative});
        if io.StatFails? || !IsDirectory(r.files, Parent(relative)) then (listed, false)
        else AcceptKind(listed, relative, kind, mode, io)
  }

  function AcceptKind(r: Receiver, relative: Path, kind: Kind, mode: nat, io: Io): (Receiver, bool)
  {
    match kind
    case Directory =>
      if relative == [COMPOSE] || io.WriteFails? then (r, false)
      else
        (r.(files := r.files[relative := Dir(PRIVATE_DIR)],
            directories := r.directories + [(relative, if InSource(relative) then mode else PRIVATE_DIR)]), true)
    case File(size) =>
      var total := size + if InSource(relative) then r.sourceBytes else r.privateBytes;
      if total > (if InSource(relative) then SOURCE_LIMIT else PRIVATE_LIMIT) then (r, false)
      else
        var counted := if InSource(relative) then r.(sourceBytes := total) else r.(privateBytes := total);
        var created := counted.(files := r.files[relative := Regular(if InSource(relative) then mode else PRIVATE_FILE, size, [])]);
        if io.WriteFails? then (if InSource(relative) && io.written > 0 then created else counted, false)
        else (created.(current := Some(Current(relative, size))), true)
    case Link(target) =>
      if !InSource(relative) || target == [] || |target| > MAX_PATH || NUL in target then (r, false)
      else (r.(links := r.links[relative := target]), true)
  }

  /** The links created before one failed. */
  function Only(links: map<Path, seq<Byte>>, created: set<Path>): map<Path, seq<Byte>>
  {
    map path | path in links && path in created :: links[path]
  }

  function AcceptFinish(r: Receiver, io: Io): (Receiver, bool)
  {
    var targets := LinkTargets(r.links);
    if !AllAccepted(targets) then (r, false)
    else if io.WriteFails? && !(r.links.Keys <= io.created) then (r.(files := WithLinks(r.files, Only(r.links, io.created))), false)
    else (r.(files := WithLinks(r.files, r.links), phase := Finished), true)
  }

  /** An entry that passes the checks made before its kind matters. */
  lemma {:induction false} EntryReachesKind(r: Receiver, path: seq<Byte>, kind: Kind, mode: nat, relative: Path, io: Io := Works)
    requires ReceivedPath(path) == Some(relative) && Belongs(relative) && mode < MODE_LIMIT
    requires r.metadataBytes + MetadataSize(path, kind) <= PRIVATE_LIMIT
    requires |r.paths| < ENTRY_LIMIT && relative !in r.paths && IsDirectory(r.files, Parent(relative)) && !io.StatFails?
    ensures AcceptEntry(r, path, kind, mode, io)
            == AcceptKind(r.(metadataBytes := r.metadataBytes + MetadataSize(path, kind), paths := r.paths + {relative}),
                          relative, kind, mode, io)
  {
    hide ReceivedPath, Belongs, MetadataSize, IsDirectory, Parent, AcceptKind;
  }

  /** Finish succeeds once every link is accepted. */
  lemma {:induction false} FinishSeals(r: Receiver)
    requires r.phase.Receiving? && (r.current.Some? ==> r.current.value.remaining == 0) && AllAccepted(LinkTargets(r.links))
    ensures Accept(r, Finish, Works) == (r.(current := None, files := WithLinks(r.files, r.links), phase := Finished), true)
  {
    hide LinkTargets, WithLinks, AllAccepted;
  }

  // ---- Runs ----

  /** One frame and how its filesystem calls go. */
  type Arrival = (Input, Io)

  function Receive(r: Receiver, arrivals: seq<Arrival>): Receiver
    decreases |arrivals|
  {
    if arrivals == [] then r else Receive(Accept(r, arrivals[0].0, arrivals[0].1).0, arrivals[1..])
  }

  /** Closed receivers, failed or finished, never change and accept nothing. */
  lemma {:induction false} ClosedStaysClosed(r: Receiver, arrivals: seq<Arrival>, frame: Input, io: Io)
    requires !r.phase.Receiving?
    ensures Receive(r, arrivals) == r && !Accept(Receive(r, arrivals), frame, io).1
  {
    if arrivals != [] {
      ClosedStaysClosed(r, arrivals[1..], frame, io);
    }
  }

  // ---- What every reachable receiver satisfies ----

  ghost predicate WithinLimits(r: Receiver)
  {
    && r.sourceBytes <= SOURCE_LIMIT && r.privateBytes <= PRIVATE_LIMIT && r.metadataBytes <= PRIVATE_LIMIT
    && |r.paths| <= ENTRY_LIMIT
  }

  /** A path that every file system can list: bounded depth, proper names without NUL. */
  predicate Listable(path: Path)
  {
    |path| <= 128 && ValidNames(path) && forall i :: 0 <= i < |path| ==> NUL !in path[i]
  }

  lemma {:induction false} ReceivedIsListable(bytes: seq<Byte>)
    requires ReceivedPath(bytes).Some?
    ensures Listable(ReceivedPath(bytes).value)
  {
    var path := ReceivedPath(bytes).value;
    forall i | 0 <= i < |path|
      ensures ValidName(path[i]) && NUL !in path[i]
    {
      assert Components(bytes)[i] == Normal(path[i]);
      NamesAreListable(bytes, path[i]);
    }
  }

  /** `path` belongs to an area and lies directly in a received directory. */
  ghost predicate Placed(path: Path, files: map<Path, Node>)
  {
    Belongs(path) && Listable(path) && IsDirectory(files, Parent(path))
  }

  ghost predicate ParentClosed(paths: set<Path>, files: map<Path, Node>)
  {
    forall path {:trigger Placed(path, files)} :: path in paths ==> Placed(path, files)
  }

  /** Each file has its declared bytes, less what the file being received still lacks. */
  ghost predicate Accounted(files: map<Path, Node>, current: Option<Current>)
  {
    && (current.Some? ==> current.value.path in files && files[current.value.path].Regular?)
    && forall path :: path in files && files[path].Regular? ==>
        |files[path].content| + (if current.Some? && current.value.path == path then current.value.remaining else 0)
        == files[path].declared
  }

  ghost function Recorded(directories: seq<(Path, nat)>): set<Path>
  {
    if directories == [] then {} else Recorded(directories[..|directories| - 1]) + {directories[|directories| - 1].0}
  }

  /** Directories are recorded once each, a parent always before its children. */
  ghost predicate ParentsFirst(directories: seq<(Path, nat)>)
  {
    directories == [] ||
    var earlier, last := directories[..|directories| - 1], directories[|directories| - 1].0;
    ParentsFirst(earlier) && last !in Recorded(earlier) && (|last| > 1 ==> Parent(last) in Recorded(earlier))
  }

  ghost predicate AllRecorded(directories: seq<(Path, nat)>, files: map<Path, Node>)
  {
    forall path :: path in Recorded(directories) <==> path in files && files[path].Dir?
  }

  ghost predicate LinksInSource(links: map<Path, seq<Byte>>)
  {
    forall path :: path in links ==> InSource(path) && 0 < |links[path]| <= MAX_PATH && NUL !in links[path]
  }

  /** While receiving, links are remembered but not yet in the staging directory. */
  ghost predicate Partition(files: map<Path, Node>, paths: set<Path>, links: map<Path, seq<Byte>>)
  {
    && paths == files.Keys + links.Keys && files.Keys !! links.Keys
    && forall path :: path in files ==> !files[path].Symlink?
  }

  /** The recipe is a file, if it is there. */
  ghost predicate RecipeIsFile(files: map<Path, Node>)
  {
    [COMPOSE] in files ==> files[[COMPOSE]].Regular?
  }

  /** Permission bits only, and in the private area the owner's alone. */
  predicate ModeFits(path: Path, mode: nat, private: nat)
  {
    if InSource(path) then mode < MODE_LIMIT else mode == private
  }

  ghost predicate ModesFit(files: map<Path, Node>, directories: seq<(Path, nat)>)
  {
    && (forall path :: path in files && files[path].Regular? ==> ModeFits(path, files[path].mode, PRIVATE_FILE))
    && (forall i :: 0 <= i < |directories| ==> ModeFits(directories[i].0, directories[i].1, PRIVATE_DIR))
  }

  ghost predicate Tidy(files: map<Path, Node>, paths: set<Path>, directories: seq<(Path, nat)>, links: map<Path, seq<Byte>>, current: Option<Current>)
  {
    && Partition(files, paths, links) && ParentClosed(paths, files) && Accounted(files, current)
    && ParentsFirst(directories) && AllRecorded(directories, files) && LinksInSource(links) && RecipeIsFile(files) && ModesFit(files, directories)
  }

  /** The staging directory once every link has been created. */
  function WithLinks(files: map<Path, Node>, links: map<Path, seq<Byte>>): map<Path, Node>
  {
    files + map path | path in links :: Symlink(links[path])
  }

  /** A finished receiver is a tidy one whose links were validated and created. */
  ghost predicate Sealed(r: Receiver)
  {
    && r.current.None? && AllAccepted(LinkTargets(r.links))
    && exists files :: r.files == WithLinks(files, r.links) && Tidy(files, r.paths, r.directories, r.links, None)
  }

  ghost predicate Valid(r: Receiver)
  {
    && WithinLimits(r)
    && match r.phase
       case Receiving => Tidy(r.files, r.paths, r.directories, r.links, r.current)
       case Finished => Sealed(r)
       case Failed => true
  }

  // ---- Every frame keeps them ----

  /** Replacing or adding one entry that is no directory leaves every placed path placed. */
  lemma {:induction false} ParentClosedKept(paths: set<Path>, files: map<Path, Node>, path: Path, node: Node)
    requires ParentClosed(paths, files) && (path in files && files[path].Dir? ==> node.Dir?)
    ensures ParentClosed(paths, files[path := node])
  {
    forall p | p in paths
      ensures Placed(p, files[path := node])
    {
      assert Placed(p, files);
    }
  }

  lemma {:induction false} ParentClosedAdd(paths: set<Path>, files: map<Path, Node>, path: Path)
    requires ParentClosed(paths, files) && Placed(path, files)
    ensures ParentClosed(paths + {path}, files)
  {
  }

  lemma {:induction false} DataKeepsTidy(files: map<Path, Node>, paths: set<Path>, directories: seq<(Path, nat)>, links: map<Path, seq<Byte>>, current: Current, bytes: seq<Byte>)
    requires Tidy(files, paths, directories, links, Some(current)) && |bytes| <= current.remaining
    ensures var file := files[current.path];
            Tidy(files[current.path := file.(content := file.content + bytes)], paths, directories, links,
                 Some(Current(current.path, current.remaining - |bytes|)))
  {
    var file := files[current.path];
    var written := files[current.path := file.(content := file.content + bytes)];
    ParentClosedKept(paths, files, current.path, file.(content := file.content + bytes));
    assert written.Keys == files.Keys;
  }

  lemma {:induction false} RecordDirectory(directories: seq<(Path, nat)>, files: map<Path, Node>, path: Path, mode: nat)
    requires ParentsFirst(directories) && AllRecorded(directories, files)
    requires path != [] && path !in files && IsDirectory(files, Parent(path))
    ensures ParentsFirst(directories + [(path, mode)])
    ensures AllRecorded(directories + [(path, mode)], files[path := Dir(PRIVATE_DIR)])
  {
    var grown := directories + [(path, mode)];
    assert grown[..|grown| - 1] == directories && grown[|grown| - 1].0 == path;
  }

  lemma {:induction false} DirectoryKeepsTidy(files: map<Path, Node>, paths: set<Path>, directories: seq<(Path, nat)>, links: map<Path, seq<Byte>>, path: Path, mode: nat)
    requires Tidy(files, paths, directories, links, None) && path !in paths && Placed(path, files)
    requires path != [COMPOSE] && ModeFits(path, mode, PRIVATE_DIR)
    ensures Tidy(files[path := Dir(PRIVATE_DIR)], paths + {path}, directories + [(path, mode)], links, None)
  {
    RecordDirectory(directories, files, path, mode);
    hide ParentsFirst, AllRecorded;
    ParentClosedAdd(paths, files, path);
    ParentClosedKept(paths + {path}, files, path, Dir(PRIVATE_DIR));
  }

  lemma {:induction false} FileKeepsTidy(files: map<Path, Node>, paths: set<Path>, directories: seq<(Path, nat)>, links: map<Path, seq<Byte>>, path: Path, mode: nat, size: nat)
    requires Tidy(files, paths, directories, links, None) && path !in paths && Placed(path, files)
    requires ModeFits(path, mode, PRIVATE_FILE)
    ensures Tidy(files[path := Regular(mode, size, [])], paths + {path}, directories, links, Some(Current(path, size)))
  {
    ParentClosedAdd(paths, files, path);
    ParentClosedKept(paths + {path}, files, path, Regular(mode, size, []));
  }

  lemma {:induction false} LinkKeepsTidy(files: map<Path, Node>, paths: set<Path>, directories: seq<(Path, nat)>, links: map<Path, seq<Byte>>, path: Path, target: seq<Byte>)
    requires Tidy(files, paths, directories, links, None) && path !in paths && Placed(path, files)
    requires InSource(path) && 0 < |target| <= MAX_PATH && NUL !in target
    ensures Tidy(files, paths + {path}, directories, links[path := target], None)
  {
    ParentClosedAdd(paths, files, path);
  }

  lemma {:induction false} KindKeepsValid(r: Receiver, relative: Path, kind: Kind, mode: nat, io: Io)
    requires Valid(r) && r.phase.Receiving? && r.current.None?
    requires relative !in r.paths && |r.paths| < ENTRY_LIMIT && Placed(relative, r.files) && mode < MODE_LIMIT
    ensures var (next, ok) := AcceptKind(r.(paths := r.paths + {relative}), relative, kind, mode, io);
            WithinLimits(next) && (ok ==> Valid(next))
  {
    hide Tidy;
    match kind
    case Directory =>
      if relative != [COMPOSE] {
        DirectoryKeepsTidy(r.files, r.paths, r.directories, r.links, relative, if InSource(relative) then mode else PRIVATE_DIR);
      }
    case File(size) =>
      FileKeepsTidy(r.files, r.paths, r.directories, r.links, relative, if InSource(relative) then mode else PRIVATE_FILE, size);
    case Link(target) =>
      if InSource(relative) && 0 < |target| <= MAX_PATH && NUL !in target {
        LinkKeepsTidy(r.files, r.paths, r.directories, r.links, relative, target);
      }
  }

  lemma {:induction false} EntryKeepsValid(r: Receiver, path: seq<Byte>, kind: Kind, mode: nat, io: Io)
    requires Valid(r) && r.phase.Receiving? && r.current.None?
    ensures var (next, ok) := AcceptEntry(r, path, kind, mode, io); WithinLimits(next) && (ok ==> Valid(next))
  {
    hide Tidy, Sealed, AcceptKind, ReceivedPath, Belongs, IsDirectory, Parent, MetadataSize, Listable;
    var received := ReceivedPath(path);
    var counted := r.(metadataBytes := r.metadataBytes + MetadataSize(path, kind));
    if counted.metadataBytes <= PRIVATE_LIMIT && received.Some? && Belongs(received.value) && mode < MODE_LIMIT {
      var relative := received.value;
      if |r.paths| < ENTRY_LIMIT && relative !in r.paths {
        assert |r.paths + {relative}| == |r.paths| + 1;
        if IsDirectory(r.files, Parent(relative)) {
          ReceivedIsListable(path);
          KindKeepsValid(counted, relative, kind, mode, io);
        }
      }
    }
  }

  lemma {:induction false} DataKeepsValid(r: Receiver, bytes: seq<Byte>, io: Io)
    requires Valid(r) && r.phase.Receiving?
    ensures var (next, ok) := AcceptData(r, bytes, io); WithinLimits(next) && (ok ==> Valid(next))
  {
    hide ParentsFirst, AllRecorded, ParentClosed, Partition, LinksInSource;
    assert bytes[..|bytes|] == bytes;
    if r.current.Some? && |bytes| <= r.current.value.remaining {
      DataKeepsTidy(r.files, r.paths, r.directories, r.links, r.current.value, bytes);
    }
  }

  /** A complete file may be closed at any time. */
  lemma {:induction false} IdleIsValid(r: Receiver)
    requires Valid(r) && r.phase.Receiving? && (r.current.Some? ==> r.current.value.remaining == 0)
    ensures Valid(r.(current := None))
  {
  }

  lemma {:induction false} AcceptKeepsValid(r: Receiver, frame: Input, io: Io)
    requires Valid(r)
    ensures Valid(Accept(r, frame, io).0)
  {
    hide Tidy, AcceptEntry, AcceptData;
    if r.phase.Receiving? {
      if frame.Data? {
        DataKeepsValid(r, frame.bytes, io);
      } else if r.current.None? || r.current.value.remaining == 0 {
        var idle := r.(current := None);
        IdleIsValid(r);
        if frame.Entry? {
          EntryKeepsValid(idle, frame.path, frame.kind, frame.mode, io);
        }
      }
    }
  }

  /** Whatever arrives, in whatever order, and whichever calls fail. */
  lemma {:induction false} ReachableIsValid(r: Receiver, arrivals: seq<Arrival>)
    requires Valid(r)
    ensures Valid(Receive(r, arrivals))
    decreases |arrivals|
  {
    if arrivals != [] {
      AcceptKeepsValid(r, arrivals[0].0, arrivals[0].1);
      ReachableIsValid(Accept(r, arrivals[0].0, arrivals[0].1).0, arrivals[1..]);
    }
  }

  // ---- Consequences ----

  /** What every accepted frame is like, on its own and next to the file being received. */
  predicate Bounded(r: Receiver, frame: Input)
  {
    match frame
    case Data(bytes) => 0 < |bytes| <= 32768 && r.current.Some? && |bytes| <= r.current.value.remaining
    case Entry(path, kind, mode) =>
      && 0 < |path| <= 4096 && NUL !in path && mode < 512
      && (kind.Link? ==> 0 < |kind.target| <= 4096 && NUL !in kind.target)
      && (r.current.Some? ==> r.current.value.remaining == 0)
    case Finish => r.current.Some? ==> r.current.value.remaining == 0
    case _ => false
  }

  lemma {:induction false} AcceptedIsBounded(r: Receiver, frame: Input, io: Io)
    requires Accept(r, frame, io).1
    ensures r.phase.Receiving? && Bounded(r, frame)
  {
    hide AcceptFinish, LinkTargets, Components;
  }

  /** Header bytes of the accepted entries: paths, and targets of links. */
  function HeaderBytes(r: Receiver, arrivals: seq<Arrival>): nat
    decreases |arrivals|
  {
    if arrivals == [] then 0
    else
      var ((frame, io), (next, ok)) := (arrivals[0], Accept(r, arrivals[0].0, arrivals[0].1));
      (if ok && frame.Entry? then |frame.path| + (if frame.kind.Link? then |frame.kind.target| else 0) else 0)
      + HeaderBytes(next, arrivals[1..])
  }

  lemma {:induction false} AcceptedCountsHeader(r: Receiver, frame: Input, io: Io)
    ensures var (next, ok) := Accept(r, frame, io);
      ok ==>
        next.metadataBytes == r.metadataBytes +
          if frame.Entry? then |frame.path| + (if frame.kind.Link? then |frame.kind.target| else 0) else 0
  {
    hide ReceivedPath, Belongs, IsDirectory, AllAccepted, LinkTargets, WithLinks;
  }

  /** Unless it failed, a receiver has counted exactly the headers it accepted, and they are bounded together. */
  lemma {:induction false} HeadersAreCounted(r: Receiver, arrivals: seq<Arrival>)
    ensures var last := Receive(r, arrivals);
      !last.phase.Failed? ==> last.metadataBytes == r.metadataBytes + HeaderBytes(r, arrivals)
    decreases |arrivals|
  {
    hide AcceptNext;
    if arrivals != [] {
      var (frame, io) := (arrivals[0].0, arrivals[0].1);
      AcceptedCountsHeader(r, frame, io);
      HeadersAreCounted(Accept(r, frame, io).0, arrivals[1..]);
      if Accept(r, frame, io).0.phase.Failed? {
        ClosedStaysClosed(Accept(r, frame, io).0, arrivals[1..], frame, io);
      }
    }
  }

  function DeclaredBy(frame: Input, source: bool): nat
  {
    if frame.Entry? && frame.kind.File? && ReceivedPath(frame.path).Some? && InSource(ReceivedPath(frame.path).value) == source
    then frame.kind.size else 0
  }

  /** Sizes declared in one area by the files whose headers were accepted. */
  function Declared(r: Receiver, arrivals: seq<Arrival>, source: bool): nat
    decreases |arrivals|
  {
    if arrivals == [] then 0
    else
      var (next, ok) := Accept(r, arrivals[0].0, arrivals[0].1);
      (if ok then DeclaredBy(arrivals[0].0, source) else 0) + Declared(next, arrivals[1..], source)
  }

  lemma {:induction false} AcceptedAddsDeclared(r: Receiver, frame: Input, io: Io)
    requires Accept(r, frame, io).1
    ensures Accept(r, frame, io).0.sourceBytes == r.sourceBytes + DeclaredBy(frame, true)
    ensures Accept(r, frame, io).0.privateBytes == r.privateBytes + DeclaredBy(frame, false)
  {
    hide AllAccepted, LinkTargets, WithLinks, Belongs, IsDirectory, Parent, MetadataSize, InSource, ReceivedPath;
  }

  /** A file's header passes every check: only creating the file can still fail. */
  predicate HeaderPasses(r: Receiver, frame: Input, io: Io)
  {
    && Listed(r, frame) && frame.kind.File? && !io.StatFails?
    && var path := ReceivedPath(frame.path).value;
       && IsDirectory(r.files, Parent(path))
       && (if InSource(path) then r.sourceBytes + frame.kind.size <= SOURCE_LIMIT else r.privateBytes + frame.kind.size <= PRIVATE_LIMIT)
  }

  /** The size counted for a file whose creation failed: the one thing a total holds beyond what was accepted. */
  function Uncreated(r: Receiver, arrivals: seq<Arrival>, source: bool): nat
    decreases |arrivals|
  {
    if arrivals == [] || !r.phase.Receiving? then 0
    else
      var (next, ok) := Accept(r, arrivals[0].0, arrivals[0].1);
      if ok then Uncreated(next, arrivals[1..], source)
      else if HeaderPasses(r, arrivals[0].0, arrivals[0].1) then DeclaredBy(arrivals[0].0, source)
      else 0
  }

  lemma {:induction false} RejectedEntryAdds(r: Receiver, path: seq<Byte>, kind: Kind, mode: nat, io: Io)
    requires r.current.None? && !AcceptEntry(r, path, kind, mode, io).1
    ensures var (failed, frame) := (AcceptEntry(r, path, kind, mode, io).0, Entry(path, kind, mode));
      && failed.sourceBytes == r.sourceBytes + (if HeaderPasses(r, frame, io) then DeclaredBy(frame, true) else 0)
      && failed.privateBytes == r.privateBytes + (if HeaderPasses(r, frame, io) then DeclaredBy(frame, false) else 0)
  {
    hide Belongs, IsDirectory, Parent, MetadataSize, InSource, ReceivedPath;
  }

  /** A rejected frame adds to a total exactly when its header passed and the file could not be created. */
  lemma {:induction false} RejectedAdds(r: Receiver, frame: Input, io: Io)
    requires r.phase.Receiving? && !Accept(r, frame, io).1
    ensures var failed := Accept(r, frame, io).0;
      && failed.sourceBytes == r.sourceBytes + (if HeaderPasses(r, frame, io) then DeclaredBy(frame, true) else 0)
      && failed.privateBytes == r.privateBytes + (if HeaderPasses(r, frame, io) then DeclaredBy(frame, false) else 0)
  {
    hide AcceptEntry, AllAccepted, LinkTargets, WithLinks, Listed, DeclaredBy, Only;
    if frame.Entry? && (r.current.Some? ==> r.current.value.remaining == 0) {
      var idle := r.(current := None);
      RejectedEntryAdds(idle, frame.path, frame.kind, frame.mode, io);
      ListedIdle(r, frame);
    } else {
      ListedIdle(r, frame);
    }
  }

  /** An entry is listed only when no file is incomplete, and then as if none were open. */
  lemma {:induction false} ListedIdle(r: Receiver, frame: Input)
    ensures (r.current.Some? ==> r.current.value.remaining == 0) ==> Listed(r.(current := None), frame) == Listed(r, frame)
    ensures !frame.Entry? || (r.current.Some? && r.current.value.remaining != 0) ==> !Listed(r, frame)
  {
  }

  /**
   After any frames each total is what the accepted headers declared, plus the size of the file whose
   creation closed the upload, if one did.
   */
  lemma {:induction false} TotalsAreDeclared(r: Receiver, arrivals: seq<Arrival>)
    ensures Receive(r, arrivals).sourceBytes == r.sourceBytes + Declared(r, arrivals, true) + Uncreated(r, arrivals, true)
    ensures Receive(r, arrivals).privateBytes == r.privateBytes + Declared(r, arrivals, false) + Uncreated(r, arrivals, false)
    decreases |arrivals|
  {
    hide DeclaredBy, AcceptNext, HeaderPasses;
    if arrivals != [] {
      var (next, ok) := Accept(r, arrivals[0].0, arrivals[0].1);
      if ok {
        AcceptedAddsDeclared(r, arrivals[0].0, arrivals[0].1);
        TotalsAreDeclared(next, arrivals[1..]);
      } else {
        ClosedStaysClosed(next, arrivals[1..], Finish, Works);
        ClosedDeclaresNothing(next, arrivals[1..]);
        if r.phase.Receiving? {
          RejectedAdds(r, arrivals[0].0, arrivals[0].1);
        }
      }
    }
  }

  lemma {:induction false} ClosedDeclaresNothing(r: Receiver, arrivals: seq<Arrival>)
    requires !r.phase.Receiving?
    ensures Declared(r, arrivals, true) == 0 && Declared(r, arrivals, false) == 0
    decreases |arrivals|
  {
    hide DeclaredBy;
    if arrivals != [] {
      ClosedDeclaresNothing(r, arrivals[1..]);
    }
  }

  /** Totals and accepted headers agree exactly when no nonempty file passed every check and then could not be created. */
  lemma {:induction false} TotalsAgreeIff(arrivals: seq<Arrival>)
    ensures var r := Receive(FRESH, arrivals);
      r.sourceBytes == Declared(FRESH, arrivals, true) && r.privateBytes == Declared(FRESH, arrivals, false)
      <==> Uncreated(FRESH, arrivals, true) == 0 && Uncreated(FRESH, arrivals, false) == 0
  {
    TotalsAreDeclared(FRESH, arrivals);
  }

  const SOURCE_ENTRY := Entry(Join([SOURCE]), Directory, 448)
  const TEN_BYTES := Entry(Join([SOURCE, [97]]), File(10), 384)

  lemma {:induction false} JoinSource()
    ensures ReceivedPath(Join([SOURCE])) == Some([SOURCE]) && |Join([SOURCE])| == 6
  {
    hide ReceivedPath;
    ReceivedJoin([SOURCE]);
  }

  lemma {:induction false} JoinFile()
    ensures ReceivedPath(Join([SOURCE, [97]])) == Some([SOURCE, [97]]) && |Join([SOURCE, [97]])| == 8
  {
    hide ReceivedPath;
    ReceivedJoin([SOURCE, [97]]);
  }

  lemma {:induction false} SourceIsReceived()
    ensures var (r, ok) := Accept(FRESH, SOURCE_ENTRY, Works);
      ok && r.files == map[[SOURCE] := Dir(PRIVATE_DIR)] && r.paths == {[SOURCE]} && r.sourceBytes == 0 && r.current.None?
      && r.metadataBytes == 6 && r.phase.Receiving? && DeclaredBy(SOURCE_ENTRY, true) == 0
  {
    hide AcceptEntry, ReceivedPath, Join;
    JoinSource();
    EntryReachesKind(FRESH, Join([SOURCE]), Directory, 448, [SOURCE]);
  }

  lemma {:induction false} TenBytesAreRejected(r: Receiver, io: Io)
    requires r.files == map[[SOURCE] := Dir(PRIVATE_DIR)] && r.paths == {[SOURCE]} && r.sourceBytes == 0 && r.current.None?
    requires r.metadataBytes == 6 && r.phase.Receiving? && io == WriteFails(0, {})
    ensures var (failed, ok) := Accept(r, TEN_BYTES, io); !ok && failed.phase.Failed? && failed.sourceBytes == 10
  {
    hide AcceptEntry, ReceivedPath, Join;
    JoinFile();
    assert Parent([SOURCE, [97]]) == [SOURCE];
    EntryReachesKind(r, Join([SOURCE, [97]]), File(10), 384, [SOURCE, [97]], io);
  }

  /** A file of ten bytes that cannot be created is counted although it was rejected. */
  lemma {:induction false} UncreatedIsCounted()
    ensures var arrivals := [(SOURCE_ENTRY, Works), (TEN_BYTES, WriteFails(0, {}))];
      var r := Receive(FRESH, arrivals);
      r.phase.Failed? && r.sourceBytes == 10 && Declared(FRESH, arrivals, true) == 0
  {
    hide Accept, DeclaredBy;
    var io := WriteFails(0, {});
    var arrivals: seq<Arrival> := [(SOURCE_ENTRY, Works), (TEN_BYTES, io)];
    SourceIsReceived();
    var one := Accept(FRESH, SOURCE_ENTRY, Works).0;
    TenBytesAreRejected(one, io);
    assert arrivals[1..] == [(TEN_BYTES, io)] && arrivals[1..][1..] == [];
    assert Receive(one, arrivals[1..]) == Receive(Accept(one, TEN_BYTES, io).0, []);
    assert Declared(one, arrivals[1..], true) == 0;
  }

  /** The links that exist in the staging directory. */
  function FileLinks(files: map<Path, Node>): Links
  {
    map path | path in files && files[path].Symlink? :: Components(files[path].target)
  }

  /** Anything in `source`; files and directories in `private`; and beside them a file, the recipe. */
  predicate InItsArea(path: Path, node: Node)
  {
    path != [] &&
    (path[0] == SOURCE || (path[0] == PRIVATE && !node.Symlink?) || (path == [COMPOSE] && node.Regular?))
  }

  /**
   What a finished upload guarantees its executor: every path is proper, in its area, and was received once,
   below received directories; modes are permission bits, the owner's alone outside `source`; every file has
   all its declared bytes; and, when `source` was received as a directory, no resolution of plain names below
   it leaves it.
   */
  ghost predicate FitToExecute(r: Receiver)
  {
    && (forall path :: path in r.files ==> InItsArea(path, r.files[path]) && Listable(path))
    && ModesFit(r.files, r.directories)
    && (forall path :: path in r.files && r.files[path].Symlink? ==> 0 < |r.files[path].target| <= MAX_PATH && NUL !in r.files[path].target)
    && WithinLimits(r) && r.paths == r.files.Keys && ParentClosed(r.paths, r.files)
    && (forall path :: path in r.files && r.files[path].Regular? ==> |r.files[path].content| == r.files[path].declared)
    && AllAccepted(FileLinks(r.files))
    && (IsDirectory(r.files, [SOURCE]) ==> forall names: Path, n: nat :: n > 0 ==> StaysInside(FileLinks(r.files), names, n))
  }

  lemma {:induction false} SealedIsFit(r: Receiver)
    requires Valid(r) && r.phase.Finished?
    ensures FitToExecute(r)
  {
    var files :| r.files == WithLinks(files, r.links) && Tidy(files, r.paths, r.directories, r.links, None);
    SealedFiles(files, r.paths, r.directories, r.links);
    if IsDirectory(r.files, [SOURCE]) {
      forall names: Path, n: nat | n > 0
        ensures StaysInside(FileLinks(r.files), names, n)
      {
        ResolutionIsContained(FileLinks(r.files), names);
      }
    }
  }

  lemma {:induction false} FinishedUpload(arrivals: seq<Arrival>)
    requires Receive(FRESH, arrivals).phase.Finished?
    ensures FitToExecute(Receive(FRESH, arrivals))
  {
    hide FitToExecute;
    assert Valid(FRESH);
    ReachableIsValid(FRESH, arrivals);
    SealedIsFit(Receive(FRESH, arrivals));
  }

  /** Directories of a receiving upload are real: no part of the way to one is a link. */
  lemma {:induction false} DirectoryIsCanonical(r: Receiver, path: Path)
    requires Valid(r) && r.phase.Receiving? && IsDirectory(r.files, path)
    ensures Canonical(LinkTargets(r.links), path)
    decreases |path|
  {
    if path != [] {
      assert Placed(path, r.files);
      DirectoryIsCanonical(r, Parent(path));
      forall k | 0 < k <= |path|
        ensures path[..k] !in LinkTargets(r.links)
      {
        assert k < |path| ==> Parent(path)[..k] == path[..k];
        assert path[..|path|] == path;
      }
    }
  }

  lemma {:induction false} LeavingLinkIsRefused(r: Receiver, path: Path)
    requires Valid(r) && r.phase.Receiving? && |path| > 1 && path in r.links && Climbs(r.links[path], |path| - 1)
    ensures !AllAccepted(LinkTargets(r.links))
  {
    hide Climbs, Accepted, Canonical, ParentsFirst, AllRecorded, Accounted, Components;
    var links, directory := LinkTargets(r.links), Parent(path);
    assert Placed(path, r.files);
    DirectoryIsCanonical(r, directory);
    assert directory + [path[|path| - 1]] == path;
    ClimbingIsRead(r.links[path], |path| - 1);
    LeavingIsRefused(links, directory, path[|path| - 1]);
  }

  lemma {:induction false} FinishNeedsAll(r: Receiver, io: Io)
    requires !AllAccepted(LinkTargets(r.links))
    ensures !Accept(r, Finish, io).1
  {
    hide AllAccepted, LinkTargets;
  }

  /**
   Whatever arrived before: an upload with a link whose target is absolute, or begins with as many `..` as
   the link lies deep, cannot be finished.
   */
  lemma {:induction false} LeavingLinkIsRejected(arrivals: seq<Arrival>, path: Path, io: Io)
    requires var r := Receive(FRESH, arrivals); |path| > 1 && path in r.links && Climbs(r.links[path], |path| - 1)
    ensures !Accept(Receive(FRESH, arrivals), Finish, io).1
  {
    hide Climbs, AllAccepted, LinkTargets, AcceptNext;
    var r := Receive(FRESH, arrivals);
    assert Valid(FRESH);
    ReachableIsValid(FRESH, arrivals);
    hide Valid, Receive;
    if r.phase.Receiving? {
      LeavingLinkIsRefused(r, path);
      FinishNeedsAll(r, io);
    }
  }

  const SOURCE_LINK := Entry(Join([SOURCE]), Link([46]), 0)

  lemma {:induction false} SourceLinkIsReceived()
    ensures var (r, ok) := Accept(FRESH, SOURCE_LINK, Works);
      ok && r.phase.Receiving? && r.current.None? && r.files == map[] && r.links == map[[SOURCE] := [46]] && Components([46]) == [CurDir]
  {
    assert DOT[1..] == [] && SplitSlash([]) == [[]] && [DOT[0]] + [] == DOT;
    hide AcceptEntry, ReceivedPath, Join;
    JoinSource();
    EntryReachesKind(FRESH, Join([SOURCE]), Link([46]), 0, [SOURCE]);
  }

  /** An upload that is just the link `source -> .` is received and finished, and resolving `source` leaves it. */
  lemma {:induction false} SourceLinkFinishes()
    ensures var r := Receive(FRESH, [(SOURCE_LINK, Works), (Finish, Works)]);
      && r.phase.Finished? && FileLinks(r.files) == map[[SOURCE] := [CurDir]]
      && !(forall names: Path, n: nat :: n > 0 ==> StaysInside(FileLinks(r.files), names, n))
  {
    hide Accept, StaysInside, AllAccepted;
    var arrivals: seq<Arrival> := [(SOURCE_LINK, Works), (Finish, Works)];
    SourceLinkIsReceived();
    var one := Accept(FRESH, SOURCE_LINK, Works).0;
    assert arrivals[1..] == [(Finish, Works)] && arrivals[1..][1..] == [];
    assert LinkTargets(one.links) == map[[SOURCE] := [CurDir]];
    SourceLinkToHereIsAccepted();
    FinishSeals(one);
    var two := Accept(one, Finish, Works).0;
    assert Receive(one, arrivals[1..]) == Receive(two, []);
    assert FileLinks(two.files) == map[[SOURCE] := [CurDir]];
    ContainedIffSourceIsNoLink(FileLinks(two.files));
  }

  lemma {:induction false} SealedFiles(files: map<Path, Node>, paths: set<Path>, directories: seq<(Path, nat)>, links: map<Path, seq<Byte>>)
    requires Tidy(files, paths, directories, links, None)
    ensures var done := WithLinks(files, links);
      && paths == done.Keys && ParentClosed(paths, done)
      && (forall path :: path in done && done[path].Regular? ==> |done[path].content| == done[path].declared)
      && FileLinks(done) == LinkTargets(links)
      && (forall path :: path in done ==> InItsArea(path, done[path]) && Listable(path))
      && ModesFit(done, directories)
      && (forall path :: path in done && done[path].Symlink? ==> 0 < |done[path].target| <= MAX_PATH && NUL !in done[path].target)
  {
    SealedAreas(files, paths, links);
    hide ParentsFirst, AllRecorded, LinksInSource;
    SealedPlaced(files, paths, links);
    hide ParentClosed;
    SealedLinks(files, paths, links);
    hide FileLinks, LinkTargets;
  }

  lemma {:induction false} SealedAreas(files: map<Path, Node>, paths: set<Path>, links: map<Path, seq<Byte>>)
    requires Partition(files, paths, links) && ParentClosed(paths, files) && LinksInSource(links) && RecipeIsFile(files)
    ensures var done := WithLinks(files, links); forall path :: path in done ==> InItsArea(path, done[path]) && Listable(path)
  {
    forall path | path in WithLinks(files, links)
      ensures InItsArea(path, WithLinks(files, links)[path]) && Listable(path)
    {
      assert Placed(path, files);
    }
  }

  lemma {:induction false} SealedPlaced(files: map<Path, Node>, paths: set<Path>, links: map<Path, seq<Byte>>)
    requires ParentClosed(paths, files) && files.Keys !! links.Keys
    ensures ParentClosed(paths, WithLinks(files, links))
  {
    forall path | path in paths
      ensures Placed(path, WithLinks(files, links))
    {
      assert Placed(path, files);
    }
  }

  lemma {:induction false} SealedLinks(files: map<Path, Node>, paths: set<Path>, links: map<Path, seq<Byte>>)
    requires Partition(files, paths, links)
    ensures FileLinks(WithLinks(files, links)) == LinkTargets(links)
  {
    hide Components;
    var done := WithLinks(files, links);
    assert forall path :: path in done && done[path].Symlink? <==> path in links;
  }

  // ---- The path a rejected entry leaves behind ----

  /** The entry passes every check made before its path is recorded. */
  predicate Listed(r: Receiver, frame: Input)
  {
    && frame.Entry? && (r.current.Some? ==> r.current.value.remaining == 0)
    && r.metadataBytes + MetadataSize(frame.path, frame.kind) <= PRIVATE_LIMIT
    && ReceivedPath(frame.path).Some? && Belongs(ReceivedPath(frame.path).value) && frame.mode < MODE_LIMIT
    && |r.paths| < ENTRY_LIMIT && ReceivedPath(frame.path).value !in r.paths
  }

  /** What a rejected frame leaves in the staging directory. */
  function LeftBehind(r: Receiver, frame: Input, io: Io): map<Path, Node>
  {
    match frame
    case Data(bytes) =>
      if io.WriteFails? && DataPasses(r, bytes) then Appended(r.files, r.current.value.path, bytes[..Written(bytes, io)]) else r.files
    case Entry(path, kind, mode) =>
      if io.WriteFails? && io.written > 0 && HeaderPasses(r, frame, io) && InSource(ReceivedPath(path).value)
      then r.files[ReceivedPath(path).value := Regular(mode, kind.size, [])] else r.files
    case Finish =>
      if io.WriteFails? && (r.current.Some? ==> r.current.value.remaining == 0) && AllAccepted(LinkTargets(r.links))
      then WithLinks(r.files, Only(r.links, io.created)) else r.files
    case _ => r.files
  }

  predicate DataPasses(r: Receiver, bytes: seq<Byte>)
  {
    && bytes != [] && |bytes| <= CHUNK_SIZE && r.current.Some? && |bytes| <= r.current.value.remaining
    && r.current.value.path in r.files && r.files[r.current.value.path].Regular?
  }

  /** The file left by an entry whose creation was cut short. */
  function LeftFile(r: Receiver, relative: Path, kind: Kind, mode: nat, io: Io): map<Path, Node>
  {
    if io.WriteFails? && io.written > 0 && InSource(relative) && kind.File? && r.sourceBytes + kind.size <= SOURCE_LIMIT
    then r.files[relative := Regular(mode, kind.size, [])] else r.files
  }

  lemma {:induction false} RejectedKind(r: Receiver, relative: Path, kind: Kind, mode: nat, io: Io)
    requires !AcceptKind(r, relative, kind, mode, io).1
    ensures AcceptKind(r, relative, kind, mode, io).0.files == LeftFile(r, relative, kind, mode, io)
    ensures AcceptKind(r, relative, kind, mode, io).0.paths == r.paths
  {
    hide InSource;
  }

  lemma {:induction false} RejectedEntry(r: Receiver, path: seq<Byte>, kind: Kind, mode: nat, io: Io)
    requires r.current.None? && !AcceptEntry(r, path, kind, mode, io).1
    ensures var (failed, frame) := (AcceptEntry(r, path, kind, mode, io).0, Entry(path, kind, mode));
      && failed.files == LeftBehind(r, frame, io)
      && failed.paths == if Listed(r, frame) then r.paths + {ReceivedPath(path).value} else r.paths
  {
    hide AcceptKind, Belongs, IsDirectory, Parent, MetadataSize, InSource, ReceivedPath, AllAccepted, LinkTargets, WithLinks, Only;
    var frame := Entry(path, kind, mode);
    if Listed(r, frame) && !io.StatFails? && IsDirectory(r.files, Parent(ReceivedPath(path).value)) {
      var relative := ReceivedPath(path).value;
      var listed := r.(metadataBytes := r.metadataBytes + MetadataSize(path, kind), paths := r.paths + {relative});
      RejectedKind(listed, relative, kind, mode, io);
    }
  }

  /**
   What a rejected frame leaves in the staging directory and in the set of paths: nothing but the bytes, the
   one file or the links its failed write had already made, and its own path if the entry got that far.
   */
  lemma {:induction false} RejectedState(r: Receiver, frame: Input, io: Io)
    requires r.phase.Receiving? && !Accept(r, frame, io).1
    ensures Accept(r, frame, io).0.files == LeftBehind(r, frame, io)
    ensures Accept(r, frame, io).0.paths == if Listed(r, frame) then r.paths + {ReceivedPath(frame.path).value} else r.paths
  {
    hide AcceptEntry, AllAccepted, LinkTargets, WithLinks, Listed, Only;
    if frame.Entry? && (r.current.Some? ==> r.current.value.remaining == 0) {
      var idle := r.(current := None);
      RejectedEntry(idle, frame.path, frame.kind, frame.mode, io);
      ListedIdle(r, frame);
    } else {
      ListedIdle(r, frame);
    }
  }

  lemma {:induction false} LinksAreNoDirectories(files: map<Path, Node>, links: map<Path, seq<Byte>>, path: Path)
    requires files.Keys !! links.Keys
    ensures IsDirectory(WithLinks(files, links), path) <==> IsDirectory(files, path)
  {
  }

  lemma {:induction false} FilesAreNoDirectories(files: map<Path, Node>, added: Path, node: Node, path: Path)
    requires node.Regular? && (added in files ==> files[added].Regular?)
    ensures IsDirectory(files[added := node], path) <==> IsDirectory(files, path)
  {
  }

  /** No directory appears or goes with what is left behind. */
  lemma {:induction false} SameDirectories(r: Receiver, frame: Input, io: Io, path: Path)
    requires Partition(r.files, r.paths, r.links)
    ensures IsDirectory(LeftBehind(r, frame, io), path) <==> IsDirectory(r.files, path)
  {
    hide IsDirectory, AllAccepted, LinkTargets, ReceivedPath, Belongs, InSource, Parent, MetadataSize, Written, WithLinks;
    match frame {
      case Data(bytes) =>
        if DataPasses(r, bytes) {
          var at := r.current.value.path;
          FilesAreNoDirectories(r.files, at, Appended(r.files, at, bytes[..Written(bytes, io)])[at], path);
        }
      case Entry(bytes, kind, mode) =>
        if HeaderPasses(r, frame, io) {
          FilesAreNoDirectories(r.files, ReceivedPath(bytes).value, Regular(mode, kind.size, []), path);
        }
      case Finish =>
        if io.WriteFails? {
          LinksAreNoDirectories(r.files, Only(r.links, io.created), path);
        }
      case _ =>
    }
  }

  /**
   A path is recorded before its parent is looked at, so the rejection that closes an upload can leave
   one path behind that lies in no received directory. It does exactly when the entry got that far.
   */
  lemma {:induction false} RejectionLeavesOrphanIff(r: Receiver, frame: Input, io: Io)
    requires Valid(r) && r.phase.Receiving? && !Accept(r, frame, io).1
    ensures var failed := Accept(r, frame, io).0;
      ParentClosed(failed.paths, failed.files)
      <==> (Listed(r, frame) ==> IsDirectory(r.files, Parent(ReceivedPath(frame.path).value)))
  {
    hide Accept, LeftBehind, ParentsFirst, AllRecorded, LinksInSource, Partition, Accounted, WithinLimits, IsDirectory, Listable;
    RejectedState(r, frame, io);
    var failed := Accept(r, frame, io).0;
    assert Partition(r.files, r.paths, r.links);
    forall path
      ensures Placed(path, failed.files) <==> Placed(path, r.files)
    {
      SameDirectories(r, frame, io, Parent(path));
    }
    if Listed(r, frame) {
      var relative := ReceivedPath(frame.path).value;
      ReceivedIsListable(frame.path);
      assert Placed(relative, r.files) <==> IsDirectory(r.files, Parent(relative));
      assert relative in failed.paths;
    }
  }

  /** Such a rejection exists: `source/a` before `source`. */
  lemma {:induction false} OrphanExample()
    ensures var frame := Entry(Join([SOURCE, [97]]), Directory, 0);
      !Accept(FRESH, frame, Works).1 && Listed(FRESH, frame) && !IsDirectory(FRESH.files, Parent(ReceivedPath(frame.path).value))
  {
    var path: Path := [SOURCE, [97]];
    ComponentsOfJoin(path);
    ReceivedJoin(path);
  }

  /** Printed paths are received as themselves. */
  lemma {:induction false} ReceivedJoin(path: Path)
    requires path != [] && ValidNames(path) && |path| <= MAX_DEPTH && |Join(path)| <= MAX_PATH && NUL !in Join(path)
    ensures ReceivedPath(Join(path)) == Some(path)
  {
    ComponentsOfJoin(path);
    assert Join(path) != [];
    assert seq(|path|, i requires 0 <= i < |path| => Normals(path)[i].name) == path;
  }
}
