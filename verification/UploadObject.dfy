/**
 The receiver as the source writes it: one object whose fields each frame updates in place.
 Every method is tied to the value-level `UploadReceiver` function of the same name.
 */
module UploadObject {
  import opened Common
  import opened PathSyntax
  import opened LinkWalk
  import opened R = UploadReceiver

  class Upload {
    var files: map<Path, Node>
    var paths: set<Path>
    var directories: seq<(Path, nat)>
    var links: map<Path, seq<Byte>>
    var current: Option<Current>
    var sourceBytes: nat
    var privateBytes: nat
    var metadataBytes: nat
    var phase: Phase

    ghost function View(): Receiver
      reads this
    {
      Receiver(files, paths, directories, links, current, sourceBytes, privateBytes, metadataBytes, phase)
    }

    constructor ()
      ensures View() == FRESH && Valid(View())
    {
      files, paths, directories, links := map[], {}, [], map[];
      current := None;
      sourceBytes, privateBytes, metadataBytes := 0, 0, 0;
      phase := Receiving;
    }

    method Accept(frame: Input, io: Io) returns (ok: bool)
      modifies this
      ensures (View(), ok) == R.Accept(old(View()), frame, io)
      ensures old(Valid(View())) ==> Valid(View())
    {
      hide Valid;
      if Valid(View()) {
        AcceptKeepsValid(View(), frame, io);
      }
      if !phase.Receiving? {
        return false;
      }
      ok := AcceptNext(frame, io);
      if !ok {
        phase := Failed;
      }
    }

    method AcceptNext(frame: Input, io: Io) returns (ok: bool)
      modifies this
      ensures (View(), ok) == R.AcceptNext(old(View()), frame, io)
    {
      if frame.Data? {
        ok := AcceptData(frame.bytes, io);
        return;
      }
      if current.Some? && current.value.remaining != 0 {
        return false;
      }
      current := None;
      match frame
      case Entry(path, kind, mode) =>
        ok := AcceptEntry(path, kind, mode, io);
      case Finish =>
        ok := AcceptFinish(io);
      case _ =>
        ok := false;
    }

    method AcceptData(bytes: seq<Byte>, io: Io) returns (ok: bool)
      modifies this
      ensures (View(), ok) == R.AcceptData(old(View()), bytes, io)
    {
      if bytes == [] || |bytes| > CHUNK_SIZE {
        return false;
      }
      if current.None? {
        return false;
      }
      var Current(path, remaining) := current.value;
      if remaining < |bytes| {
        return false;
      }
      current := Some(Current(path, remaining - |bytes|));
      if path !in files || !files[path].Regular? {
        return false;
      }
      files := Appended(files, path, bytes[..Written(bytes, io)]);
      ok := !io.WriteFails?;
    }

    method AcceptEntry(path: seq<Byte>, kind: Kind, mode: nat, io: Io) returns (ok: bool)
      modifies this
      ensures (View(), ok) == R.AcceptEntry(old(View()), path, kind, mode, io)
    {
      var metadata := metadataBytes + MetadataSize(path, kind);
      if metadata > PRIVATE_LIMIT {
        return false;
      }
      metadataBytes := metadata;
      var received := ReceivedPath(path);
      if received.None? || !Belongs(received.value) || mode >= MODE_LIMIT {
        return false;
      }
      var relative := received.value;
      if |paths| >= ENTRY_LIMIT || relative in paths {
        return false;
      }
      paths := paths + {relative};
      if io.StatFails? || !IsDirectory(files, Parent(relative)) {
        return false;
      }
      ok := AcceptKind(relative, kind, mode, io);
    }

    method AcceptKind(relative: Path, kind: Kind, mode: nat, io: Io) returns (ok: bool)
      modifies this
      ensures (View(), ok) == R.AcceptKind(old(View()), relative, kind, mode, io)
    {
      var source := InSource(relative);
      match kind
      case Directory =>
        if relative == [COMPOSE] || io.WriteFails? {
          return false;
        }
        files := files[relative := Dir(PRIVATE_DIR)];
        directories := directories + [(relative, if source then mode else PRIVATE_DIR)];
        ok := true;
      case File(size) =>
        if source {
          if sourceBytes + size > SOURCE_LIMIT {
            return false;
          }
          sourceBytes := sourceBytes + size;
        } else {
          if privateBytes + size > PRIVATE_LIMIT {
            return false;
          }
          privateBytes := privateBytes + size;
        }
        if io.WriteFails? && (!source || io.written == 0) {
          return false;
        }
        files := files[relative := Regular(if source then mode else PRIVATE_FILE, size, [])];
        if io.WriteFails? {
          return false;
        }
        current := Some(Current(relative, size));
        ok := true;
      case Link(target) =>
        if !source || target == [] || |target| > MAX_PATH || NUL in target {
          return false;
        }
        links := links[relative := target];
        ok := true;
    }

    method ValidateLinks() returns (ok: bool)
      ensures ok <==> AllAccepted(LinkTargets(links))
    {
      var targets := LinkTargets(links);
      var unchecked := links.Keys;
      while unchecked != {}
        invariant unchecked <= links.Keys
        invariant forall path :: path in links && path !in unchecked ==> Accepted(path, targets)
        decreases unchecked
      {
        var path :| path in unchecked;
        var valid := ValidateLink(path, targets);
        if !valid {
          return false;
        }
        unchecked := unchecked - {path};
      }
      ok := true;
    }

    /** Creates these links, one after another. */
    method CreateLinks(some: map<Path, seq<Byte>>)
      modifies this`files
      ensures files == WithLinks(old(files), some)
    {
      var uncreated := some.Keys;
      while uncreated != {}
        invariant uncreated <= some.Keys
        invariant files.Keys == old(files).Keys + (some.Keys - uncreated)
        invariant forall path :: path in files ==>
          files[path] == if path in some && path !in uncreated then Symlink(some[path]) else old(files)[path]
        decreases uncreated
      {
        var path :| path in uncreated;
        files := files[path := Symlink(some[path])];
        uncreated := uncreated - {path};
      }
    }

    /** Validate every link first; only then create any of them. */
    method AcceptFinish(io: Io) returns (ok: bool)
      modifies this
      ensures (View(), ok) == R.AcceptFinish(old(View()), io)
    {
      ok := ValidateLinks();
      if !ok {
        return false;
      }
      if io.WriteFails? && !(links.Keys <= io.created) {
        CreateLinks(Only(links, io.created));
        return false;
      }
      CreateLinks(links);
      phase := Finished;
    }

    /**
     `complete`: only a finished upload may be executed, and then everything an execution relies on holds of
     what was received.
     */
    method Complete() returns (ok: bool)
      ensures Valid(View()) && ok ==> FitToExecute(View())
      ensures ok <==> View().phase == Finished
    {
      hide Valid, FitToExecute;
      ok := phase.Finished?;
      if ok && Valid(View()) {
        SealedIsFit(View());
      }
    }
  }
}
