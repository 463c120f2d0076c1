/**
 Unix path syntax as Rust's `Path::components` reads it. Two paths are the same
 path when their components are the same, which is how the receiver's ordered sets compare them.
 */
module PathSyntax {
  import opened Common

  /** One file name: the octets between two slashes. */
  type Name = seq<Byte>

  /** Names from the staging root downwards. */
  type Path = seq<Name>

  datatype Component = RootDir | CurDir | ParentDir | Normal(name: Name)

  const SLASH: Byte := 47
  const DOT: Name := [46]
  const DOT_DOT: Name := [46, 46]

  /** The pieces between slashes, empty ones included. */
  function SplitSlash(bytes: seq<Byte>): (pieces: seq<Name>)
    ensures |pieces| >= 1
  {
    if bytes == [] then [[]]
    else if bytes[0] == SLASH then [[]] + SplitSlash(bytes[1..])
    else
      var pieces := SplitSlash(bytes[1..]);
      [[bytes[0]] + pieces[0]] + pieces[1..]
  }

  /** Empty pieces and `.` disappear everywhere but at the very front. */
  function Body(pieces: seq<Name>): seq<Component>
  {
    if pieces == [] then []
    else if pieces[0] == [] || pieces[0] == DOT then Body(pieces[1..])
    else if pieces[0] == DOT_DOT then [ParentDir] + Body(pieces[1..])
    else [Normal(pieces[0])] + Body(pieces[1..])
  }

  function Components(bytes: seq<Byte>): seq<Component>
  {
    var pieces := SplitSlash(bytes);
    if bytes != [] && bytes[0] == SLASH then [RootDir] + Body(pieces)
    else if pieces[0] == DOT then [CurDir] + Body(pieces[1..])
    else Body(pieces)
  }

  /** A name a directory listing can hold. */
  predicate ValidName(name: Name)
  {
    name != [] && SLASH !in name && name != DOT && name != DOT_DOT
  }

  predicate ValidNames(path: Path)
  {
    forall i :: 0 <= i < |path| ==> ValidName(path[i])
  }

  function Join(path: Path): seq<Byte>
  {
    if path == [] then []
    else if |path| == 1 then path[0]
    else path[0] + [SLASH] + Join(path[1..])
  }

  function Normals(path: Path): (todo: seq<Component>)
    ensures |todo| == |path|
  {
    seq(|path|, i requires 0 <= i < |path| => Normal(path[i]))
  }

  lemma {:induction false} SplitPiece(name: Name, rest: seq<Byte>)
    requires SLASH !in name
    ensures SplitSlash(name) == [name]
    ensures SplitSlash(name + [SLASH] + rest) == [name] + SplitSlash(rest)
  {
    if name == [] {
      assert ([] + [SLASH] + rest)[1..] == rest;
    } else {
      SplitPiece(name[1..], rest);
      assert (name + [SLASH] + rest)[1..] == name[1..] + [SLASH] + rest;
      assert [name[0]] + name[1..] == name;
    }
  }

  predicate NoSlashes(path: Path)
  {
    forall i :: 0 <= i < |path| ==> SLASH !in path[i]
  }

  lemma {:induction false} SplitJoin(path: Path)
    requires path != [] && NoSlashes(path)
    ensures SplitSlash(Join(path)) == path
  {
    hide SplitSlash;
    if |path| == 1 {
      SplitPiece(path[0], []);
    } else {
      SplitPiece(path[0], Join(path[1..]));
      SplitJoin(path[1..]);
    }
  }

  lemma {:induction false} BodyOfNames(path: Path)
    requires ValidNames(path)
    ensures Body(path) == Normals(path)
  {
    if path != [] {
      BodyOfNames(path[1..]);
      assert Normals(path) == [Normal(path[0])] + Normals(path[1..]);
    }
  }

  /** Printing a path of listable names and parsing it again gives the same names. */
  lemma {:induction false} ComponentsOfJoin(path: Path)
    requires path != [] && ValidNames(path)
    ensures Components(Join(path)) == Normals(path)
  {
    SplitJoin(path);
    BodyOfNames(path);
    assert Join(path)[0] == path[0][0];
  }

  // ---- What is read ----

  /** What may stand between two slashes: nothing, `.`, `..` or a name. */
  datatype Piece = Nothing | Here | Up | Named(name: Name)

  function Text(piece: Piece): Name
  {
    match piece
    case Nothing => []
    case Here => DOT
    case Up => DOT_DOT
    case Named(name) => name
  }

  predicate Printable(pieces: seq<Piece>)
  {
    forall i :: 0 <= i < |pieces| && pieces[i].Named? ==> ValidName(pieces[i].name)
  }

  function Texts(pieces: seq<Piece>): (path: Path)
    ensures |path| == |pieces| && forall i :: 0 <= i < |pieces| ==> path[i] == Text(pieces[i])
  {
    seq(|pieces|, i requires 0 <= i < |pieces| => Text(pieces[i]))
  }

  /** The path printed with these pieces between its slashes. */
  function Printed(pieces: seq<Piece>): seq<Byte>
  {
    Join(Texts(pieces))
  }

  /** The ways up and the names, in order. */
  function Meant(pieces: seq<Piece>): seq<Component>
  {
    if pieces == [] then []
    else
      (match pieces[0]
       case Nothing => []
       case Here => []
       case Up => [ParentDir]
       case Named(name) => [Normal(name)]) + Meant(pieces[1..])
  }

  lemma {:induction false} BodyOfTexts(pieces: seq<Piece>)
    requires Printable(pieces)
    ensures Body(Texts(pieces)) == Meant(pieces)
  {
    if pieces != [] {
      BodyOfTexts(pieces[1..]);
      assert Texts(pieces)[1..] == Texts(pieces[1..]);
      assert pieces[0].Named? ==> ValidName(pieces[0].name);
    }
  }

  lemma {:induction false} JoinFront(path: Path)
    requires path != [] && NoSlashes(path)
    ensures Join(path) != [] && Join(path)[0] == SLASH <==> path[0] == [] && |path| > 1
  {
    assert path[0] != [] ==> path[0][0] in path[0];
  }

  /**
   Printing any ways up and names, with empty pieces and `.` in between, and reading the result gives them
   back in order. A leading slash and a leading `.` show in front; nothing else does.
   */
  lemma {:induction false} PrintedIsRead(pieces: seq<Piece>)
    requires pieces != [] && Printable(pieces)
    ensures Components(Printed(pieces)) ==
      (if pieces[0].Nothing? && |pieces| > 1 then [RootDir] else if pieces[0].Here? then [CurDir] else []) + Meant(pieces)
  {
    var path := Texts(pieces);
    assert forall i :: 0 <= i < |pieces| && pieces[i].Named? ==> ValidName(pieces[i].name);
    SplitJoin(path);
    JoinFront(path);
    BodyOfTexts(pieces);
    assert path[1..] == Texts(pieces[1..]);
    BodyOfTexts(pieces[1..]);
  }

  function PieceOf(text: Name): Piece
  {
    if text == [] then Nothing else if text == DOT then Here else if text == DOT_DOT then Up else Named(text)
  }

  lemma {:induction false} JoinSplit(bytes: seq<Byte>)
    ensures Join(SplitSlash(bytes)) == bytes && NoSlashes(SplitSlash(bytes))
  {
    if bytes != [] {
      var rest := SplitSlash(bytes[1..]);
      JoinSplit(bytes[1..]);
      if bytes[0] == SLASH {
        assert ([[]] + rest)[1..] == rest;
      } else {
        var all := [[bytes[0]] + rest[0]] + rest[1..];
        assert all[1..] == rest[1..] && all[0] == [bytes[0]] + rest[0];
        assert [bytes[0]] + bytes[1..] == bytes;
      }
    }
  }

  /** Every text is printed by some pieces, so `PrintedIsRead` says what is read of every text. */
  lemma {:induction false} EveryTextIsPrinted(bytes: seq<Byte>) returns (pieces: seq<Piece>)
    ensures pieces != [] && Printable(pieces) && Printed(pieces) == bytes
  {
    var path := SplitSlash(bytes);
    JoinSplit(bytes);
    pieces := seq(|path|, i requires 0 <= i < |path| => PieceOf(path[i]));
    assert Texts(pieces) == path;
  }

  lemma {:induction false} PieceIsPart(bytes: seq<Byte>, piece: Name, b: Byte)
    requires piece in SplitSlash(bytes) && b in piece
    ensures b in bytes
  {
    if bytes != [] {
      var rest := SplitSlash(bytes[1..]);
      if bytes[0] == SLASH {
        assert piece in rest;
        PieceIsPart(bytes[1..], piece, b);
      } else if piece == [bytes[0]] + rest[0] {
        if b != bytes[0] { PieceIsPart(bytes[1..], rest[0], b); }
      } else {
        PieceIsPart(bytes[1..], piece, b);
      }
    }
  }

  lemma {:induction false} BodyHoldsPieces(pieces: seq<Name>, name: Name)
    requires Normal(name) in Body(pieces)
    ensures name in pieces && name != [] && name != DOT && name != DOT_DOT
  {
    if !(pieces[0] == name && name != [] && name != DOT && name != DOT_DOT) {
      BodyHoldsPieces(pieces[1..], name);
    }
  }

  /** Every name that is read is one a directory listing can hold, made of octets of the text. */
  lemma {:induction false} NamesAreListable(bytes: seq<Byte>, name: Name)
    requires Normal(name) in Components(bytes)
    ensures ValidName(name) && forall b :: b in name ==> b in bytes
  {
    var pieces := SplitSlash(bytes);
    JoinSplit(bytes);
    if Normal(name) in Body(pieces) {
      BodyHoldsPieces(pieces, name);
    } else {
      BodyHoldsPieces(pieces[1..], name);
    }
    forall b | b in name
      ensures b in bytes
    {
      PieceIsPart(bytes, name, b);
    }
  }

  predicate StartsUp(pieces: seq<Piece>, k: nat)
  {
    0 < k <= |pieces| && forall i :: 0 <= i < k ==> pieces[i].Up?
  }

  /** A target that starts with a slash, or with at least `k` ways up. */
  ghost predicate Climbs(target: seq<Byte>, k: nat)
  {
    (target != [] && target[0] == SLASH) ||
    exists pieces :: StartsUp(pieces, k) && Printable(pieces) && Printed(pieces) == target
  }

  lemma {:induction false} MeantStartsUp(pieces: seq<Piece>, k: nat)
    requires k <= |pieces| && forall i :: 0 <= i < k ==> pieces[i].Up?
    ensures |Meant(pieces)| >= k && forall i :: 0 <= i < k ==> Meant(pieces)[i] == ParentDir
  {
    if k > 0 {
      MeantStartsUp(pieces[1..], k - 1);
    }
  }

  lemma {:induction false} ClimbingIsRead(target: seq<Byte>, k: nat)
    requires Climbs(target, k)
    ensures Components(target) != [] &&
      (Components(target)[0] == RootDir || (|Components(target)| >= k > 0 && forall i :: 0 <= i < k ==> Components(target)[i] == ParentDir))
  {
    if target == [] || target[0] != SLASH {
      var pieces :| StartsUp(pieces, k) && Printable(pieces) && Printed(pieces) == target;
      PrintedIsRead(pieces);
      MeantStartsUp(pieces, k);
    }
  }
}
