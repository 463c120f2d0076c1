/**
 Length-prefixed gRPC messages, as `core/crates/ployz-core/src/framing.rs` reads and writes them:
 one compression byte, a 32-bit big-endian length, and that many payload bytes.
 */
module Framing {
  import opened Common

  const HEADER_LEN := 5
  const FRAME_LIMIT := 0x1_0000_0000

  datatype FramingError =
    | TruncatedHeader
    | InvalidCompressionFlag(flag: nat)
    | TruncatedMessage(declared: nat, available: nat)
    | ExpectedOneFrame(count: nat)

  /** The value of four octets, most significant first. */
  function FromBigEndian(b: seq<Byte>): (n: nat)
    requires |b| == 4
    ensures n < FRAME_LIMIT
  {
    ((b[0] as int * 256 + b[1] as int) * 256 + b[2] as int) * 256 + b[3] as int
  }

  function ToBigEndian(n: nat): (b: seq<Byte>)
    requires n < FRAME_LIMIT
    ensures |b| == 4 && FromBigEndian(b) == n
  {
    var upper := n / 256;
    var top := upper / 256;
    [(top / 256) as Byte, (top % 256) as Byte, (upper % 256) as Byte, (n % 256) as Byte]
  }

  /** Octets that come first count most: numbers compare as their octets do, one after another. */
  lemma {:induction false} BigEndianOrders(a: seq<Byte>, b: seq<Byte>, k: nat)
    requires |a| == |b| == 4 && k < 4 && a[..k] == b[..k] && a[k] < b[k]
    ensures FromBigEndian(a) < FromBigEndian(b)
  {
    assert forall i :: 0 <= i < k ==> a[i] == a[..k][i] && b[i] == b[..k][i];
  }

  /** Exactly one message: a legal flag and a length that accounts for every byte. */
  ghost predicate IsFrame(f: seq<Byte>)
  {
    |f| >= HEADER_LEN && f[0] <= 1 && |f| == HEADER_LEN + FromBigEndian(f[1..HEADER_LEN])
  }

  ghost predicate AllFrames(fs: seq<seq<Byte>>)
  {
    forall i :: 0 <= i < |fs| ==> IsFrame(fs[i])
  }

  /** `bytes` begins with a message, which is `length` bytes long. */
  ghost predicate StartsWithFrame(bytes: seq<Byte>, length: nat)
  {
    length <= |bytes| && IsFrame(bytes[..length])
  }

  /** What an error says of the bytes at the front. */
  predicate Explains(error: FramingError, bytes: seq<Byte>)
  {
    match error
    case TruncatedHeader => |bytes| < 5
    case InvalidCompressionFlag(flag) => |bytes| >= 5 && flag == bytes[0] as nat && flag > 1
    case TruncatedMessage(declared, available) => |bytes| == 5 + available && declared == FromBigEndian(bytes[1..5]) > available
    case ExpectedOneFrame(_) => false
  }

  function FrameLength(bytes: seq<Byte>): (r: Result<nat, FramingError>)
    ensures r.Ok? ==> StartsWithFrame(bytes, r.value) && r.value >= HEADER_LEN
    ensures r.Err? ==> forall length :: !StartsWithFrame(bytes, length)
    ensures r.Err? ==> Explains(r.error, bytes)
  {
    if |bytes| < HEADER_LEN then
      Err(TruncatedHeader)
    else if bytes[0] > 1 then
      Err(InvalidCompressionFlag(bytes[0] as nat))
    else
      var declared := FromBigEndian(bytes[1..HEADER_LEN]);
      var available := |bytes| - HEADER_LEN;
      if available < declared then
        assert forall length | HEADER_LEN <= length <= |bytes| :: bytes[..length][1..HEADER_LEN] == bytes[1..HEADER_LEN];
        Err(TruncatedMessage(declared, available))
      else
        assert bytes[..HEADER_LEN + declared][1..HEADER_LEN] == bytes[1..HEADER_LEN];
        Ok(HEADER_LEN + declared)
  }

  /** The uncompressed message with this payload. */
  function Encoded(payload: seq<Byte>): (frame: seq<Byte>)
    requires |payload| < FRAME_LIMIT
    ensures IsFrame(frame) && frame[0] == 0 && frame[HEADER_LEN..] == payload
  {
    var frame := [0 as Byte] + ToBigEndian(|payload|) + payload;
    assert frame[1..HEADER_LEN] == ToBigEndian(|payload|);
    frame
  }

  method EncodeGrpcFrame(payload: seq<Byte>) returns (frame: seq<Byte>)
    requires |payload| < FRAME_LIMIT
    ensures IsFrame(frame) && frame[0] == 0 && frame[HEADER_LEN..] == payload
    ensures frame == Encoded(payload)
  {
    frame := [0];
    frame := frame + ToBigEndian(|payload|);
    frame := frame + payload;
    assert frame[1..HEADER_LEN] == ToBigEndian(|payload|);
  }

  /** A message at the front of a byte string is determined by that byte string. */
  lemma {:induction false} FrontFrameUnique(f: seq<Byte>, g: seq<Byte>, restF: seq<Byte>, restG: seq<Byte>)
    requires IsFrame(f) && IsFrame(g) && f + restF == g + restG
    ensures f == g && restF == restG
  {
    var bytes := f + restF;
    assert f[1..HEADER_LEN] == bytes[1..HEADER_LEN] == (g + restG)[1..HEADER_LEN] == g[1..HEADER_LEN];
    assert f == bytes[..|f|] && g == bytes[..|g|];
    assert restF == bytes[|f|..] && restG == bytes[|g|..];
  }

  function Prepended(frames: seq<seq<Byte>>, later: Result<seq<seq<Byte>>, FramingError>): Result<seq<seq<Byte>>, FramingError>
  {
    if later.Ok? then Ok(frames + later.value) else later
  }

  /** Messages cut off the front until nothing is left or no message starts. */
  function Split(bytes: seq<Byte>): Result<seq<seq<Byte>>, FramingError>
    decreases |bytes|
  {
    if bytes == [] then Ok([])
    else
      var length := FrameLength(bytes);
      if length.Err? then Err(length.error) else Prepended([bytes[..length.value]], Split(bytes[length.value..]))
  }

  lemma {:induction false} SplitFront(frame: seq<Byte>, later: seq<Byte>)
    requires IsFrame(frame)
    ensures Split(frame + later) == Prepended([frame], Split(later))
  {
    var bytes := frame + later;
    assert bytes[..|frame|] == frame && StartsWithFrame(bytes, |frame|);
    var n := FrameLength(bytes).value;
    hide FrameLength, IsFrame;
    assert bytes == bytes[..n] + bytes[n..];
    FrontFrameUnique(frame, bytes[..n], later, bytes[n..]);
  }

  /** Messages at the front are cut off one by one, whatever follows them. */
  lemma {:induction false} SplitBehind(fs: seq<seq<Byte>>, rest: seq<Byte>)
    requires AllFrames(fs)
    ensures Split(Concat(fs) + rest) == Prepended(fs, Split(rest))
    decreases |fs|
  {
    hide Split, IsFrame;
    if fs == [] {
      assert Concat(fs) + rest == rest;
      assert Split(rest).Ok? ==> [] + Split(rest).value == Split(rest).value;
    } else {
      assert IsFrame(fs[0]) && Concat(fs) + rest == fs[0] + (Concat(fs[1..]) + rest);
      SplitFront(fs[0], Concat(fs[1..]) + rest);
      SplitBehind(fs[1..], rest);
      assert fs == [fs[0]] + fs[1..];
      assert Split(rest).Ok? ==> [fs[0]] + (fs[1..] + Split(rest).value) == fs + Split(rest).value;
    }
  }

  /** Splitting undoes concatenation, for all messages. */
  lemma {:induction false} SplitOfFrames(fs: seq<seq<Byte>>)
    requires AllFrames(fs)
    ensures Split(Concat(fs)) == Ok(fs)
  {
    SplitBehind(fs, []);
    assert Concat(fs) + [] == Concat(fs) && fs + [] == fs;
  }

  /** Two ways of cutting the same bytes into messages are the same way. */
  lemma {:induction false} SplitIsUnique(fs: seq<seq<Byte>>, gs: seq<seq<Byte>>)
    requires AllFrames(fs) && AllFrames(gs) && Concat(fs) == Concat(gs)
    ensures fs == gs
  {
    SplitOfFrames(fs);
    SplitOfFrames(gs);
  }

  /** Once the front cannot be a message, no cutting of the whole string exists. */
  lemma {:induction false} StuckMeansNoSplit(done: seq<seq<Byte>>, rest: seq<Byte>, fs: seq<seq<Byte>>)
    requires AllFrames(done) && AllFrames(fs)
    requires rest != [] && forall length :: !StartsWithFrame(rest, length)
    ensures Concat(fs) != Concat(done) + rest
  {
    SplitBehind(done, rest);
    SplitOfFrames(fs);
  }

  predicate Sendable(payloads: seq<seq<Byte>>)
  {
    forall i :: 0 <= i < |payloads| ==> |payloads[i]| < FRAME_LIMIT
  }

  function EncodeAll(payloads: seq<seq<Byte>>): (frames: seq<seq<Byte>>)
    requires Sendable(payloads)
    ensures |frames| == |payloads| && AllFrames(frames)
    ensures forall i :: 0 <= i < |payloads| ==> frames[i] == Encoded(payloads[i])
  {
    seq(|payloads|, i requires 0 <= i < |payloads| => Encoded(payloads[i]))
  }

  /** What is sent as messages one after another is read back as those messages, with those payloads. */
  lemma {:induction false} SplitOfEncodings(payloads: seq<seq<Byte>>)
    requires Sendable(payloads)
    ensures var wire := Concat(EncodeAll(payloads));
      && Split(wire) == Ok(EncodeAll(payloads))
      && |Split(wire).value| == |payloads|
      && forall i :: 0 <= i < |payloads| ==> Split(wire).value[i][HEADER_LEN..] == payloads[i]
  {
    SplitOfFrames(EncodeAll(payloads));
  }

  /** A place where no message starts, behind messages only. */
  ghost predicate StuckAt(input: seq<Byte>, done: seq<seq<Byte>>, rest: seq<Byte>, error: FramingError)
  {
    AllFrames(done) && rest != [] && Concat(done) + rest == input && FrameLength(rest) == Err(error)
  }

  /** Splitting succeeds exactly on concatenations of messages, with the only cutting; it fails exactly with the error of a stuck place. */
  lemma {:induction false} SplitMeans(input: seq<Byte>)
    ensures Split(input).Ok? ==> AllFrames(Split(input).value) && Concat(Split(input).value) == input
    ensures forall fs :: AllFrames(fs) && Concat(fs) == input ==> Split(input) == Ok(fs)
    ensures forall error ::
      Split(input) == Err(error) <==> exists done, rest :: StuckAt(input, done, rest, error)
  {
    forall fs | AllFrames(fs) && Concat(fs) == input
      ensures Split(input) == Ok(fs)
    {
      SplitOfFrames(fs);
    }
    forall done, rest, error | StuckAt(input, done, rest, error)
      ensures Split(input) == Err(error)
    {
      SplitBehind(done, rest);
    }
    SplitCutsFrames(input);
  }

  lemma {:induction false} SplitCutsFrames(input: seq<Byte>)
    ensures Split(input).Ok? ==> AllFrames(Split(input).value) && Concat(Split(input).value) == input
    ensures Split(input).Err? ==> exists done, rest :: StuckAt(input, done, rest, Split(input).error)
    decreases |input|
  {
    hide FrameLength, Explains, IsFrame;
    if input != [] {
      var length := FrameLength(input);
      if length.Err? {
        assert Concat([]) + input == input;
        assert StuckAt(input, [], input, length.error);
      } else {
        var first, later := input[..length.value], input[length.value..];
        SplitCutsFrames(later);
        assert input == first + later;
        if Split(later).Ok? {
          ConcatFront(first, Split(later).value);
        } else {
          var done, rest :| StuckAt(later, done, rest, Split(later).error);
          ConcatFront(first, done);
          assert first + Concat(done) + rest == first + (Concat(done) + rest);
          assert StuckAt(input, [first] + done, rest, Split(input).error);
        }
      }
    }
  }

  /** One round of splitting behind the frames cut so far. */
  lemma {:induction false} SplitStep(frames: seq<seq<Byte>>, bytes: seq<Byte>)
    ensures bytes == [] ==> Prepended(frames, Split(bytes)) == Ok(frames)
    ensures bytes != [] && FrameLength(bytes).Err? ==> Split(bytes) == Err(FrameLength(bytes).error)
    ensures bytes != [] && FrameLength(bytes).Ok? ==>
      var n := FrameLength(bytes).value; Prepended(frames, Split(bytes)) == Prepended(frames + [bytes[..n]], Split(bytes[n..]))
  {
    if bytes == [] {
      assert frames + [] == frames;
    } else if FrameLength(bytes).Ok? {
      var n := FrameLength(bytes).value;
      var later := Split(bytes[n..]);
      assert later.Ok? ==> frames + ([bytes[..n]] + later.value) == (frames + [bytes[..n]]) + later.value;
    }
  }

  /**
   Succeeds exactly on concatenations of messages, and then returns the one cutting there is.
   A failure reports what is wrong at the first place where no message starts.
   */
  method GrpcFrames(input: seq<Byte>) returns (r: Result<seq<seq<Byte>>, FramingError>)
    ensures r == Split(input)
    ensures r.Ok? ==> AllFrames(r.value) && Concat(r.value) == input
    ensures forall fs :: AllFrames(fs) && Concat(fs) == input ==> r == Ok(fs)
    ensures forall error :: r == Err(error) <==> exists done, rest :: StuckAt(input, done, rest, error)
  {
    hide Split, FrameLength;
    var bytes := input;
    var frames: seq<seq<Byte>> := [];
    assert Split(input).Ok? ==> [] + Split(input).value == Split(input).value;
    while bytes != []
      invariant Split(input) == Prepended(frames, Split(bytes))
      decreases |bytes|
    {
      var length := FrameLength(bytes);
      SplitStep(frames, bytes);
      if length.Err? {
        SplitMeans(input);
        return Err(length.error);
      }
      frames, bytes := frames + [bytes[..length.value]], bytes[length.value..];
    }
    SplitStep(frames, bytes);
    SplitMeans(input);
    r := Ok(frames);
  }

  /** Accepts exactly the byte strings that are one message. */
  method RequireOneFrame(bytes: seq<Byte>) returns (r: Result<(), FramingError>)
    ensures r.Ok? <==> IsFrame(bytes)
    ensures r.Err? && r.error.ExpectedOneFrame? ==> r.error.count != 1
  {
    var frames := GrpcFrames(bytes);
    if IsFrame(bytes) {
      assert Concat([bytes]) == bytes + Concat([]);
      assert AllFrames([bytes]);
    }
    match frames
    case Err(e) =>
      r := Err(e);
    case Ok(fs) =>
      if |fs| == 1 {
        assert fs == [fs[0]] && Concat(fs) == fs[0] + Concat(fs[1..]);
        r := Ok(());
      } else {
        r := Err(ExpectedOneFrame(|fs|));
      }
  }
}
