/**
 How `SolveParser::feed` (core/crates/ployz-build/src/solve.rs) cuts arriving chunks into lines.
 */
module ProgressLines {
  import opened Common

  const MAX_LINE := 16777216 // 16 MiB
  const NEWLINE: Byte := 10

  /** A terminated line, or unterminated bytes too long to hold back. */
  datatype Unit = Line(bytes: seq<Byte>) | Overflow(bytes: seq<Byte>)

  /** Length of the first line including its newline, or 0 when there is none. */
  function LineEnd(bytes: seq<Byte>): (n: nat)
    ensures n <= |bytes|
  {
    if bytes == [] then 0
    else if bytes[0] == NEWLINE then 1
    else
      var n := LineEnd(bytes[1..]);
      if n == 0 then 0 else n + 1
  }

  lemma {:induction false} LineEndIsFirst(bytes: seq<Byte>)
    ensures var n := LineEnd(bytes);
      if n == 0 then NEWLINE !in bytes else bytes[n - 1] == NEWLINE && NEWLINE !in bytes[..n - 1]
  {
    if bytes != [] && bytes[0] != NEWLINE {
      LineEndIsFirst(bytes[1..]);
      var n := LineEnd(bytes);
      assert n > 0 ==> bytes[..n - 1] == [bytes[0]] + bytes[1..][..n - 2];
      assert bytes == [bytes[0]] + bytes[1..];
    }
  }

  lemma {:induction false} NoNewlineNoLine(bytes: seq<Byte>)
    requires NEWLINE !in bytes
    ensures LineEnd(bytes) == 0
  {
    LineEndIsFirst(bytes);
  }

  function Lines(bytes: seq<Byte>): seq<Unit>
  {
    var n := LineEnd(bytes);
    if n == 0 then [] else [Line(bytes[..n])] + Lines(bytes[n..])
  }

  function Tail(bytes: seq<Byte>): seq<Byte>
  {
    var n := LineEnd(bytes);
    if n == 0 then bytes else Tail(bytes[n..])
  }

  lemma {:induction false} TailHasNoNewline(bytes: seq<Byte>)
    ensures NEWLINE !in Tail(bytes)
    decreases |bytes|
  {
    LineEndIsFirst(bytes);
    if LineEnd(bytes) > 0 {
      TailHasNoNewline(bytes[LineEnd(bytes)..]);
    }
  }

  /** What one `feed` passes on, given the bytes it has pending. */
  function Cut(bytes: seq<Byte>): seq<Unit>
  {
    Lines(bytes) + if |Tail(bytes)| > MAX_LINE then [Overflow(Tail(bytes))] else []
  }

  /** What it keeps. */
  function Kept(bytes: seq<Byte>): seq<Byte>
  {
    if |Tail(bytes)| > MAX_LINE then [] else Tail(bytes)
  }

  /** The units of a whole sequence of feeds, and the bytes left pending. */
  function FeedUnits(pending: seq<Byte>, chunks: seq<seq<Byte>>): (seq<Unit>, seq<Byte>)
    decreases |chunks|
  {
    if chunks == [] then ([], pending)
    else
      var (units, rest) := FeedUnits(Kept(pending + chunks[0]), chunks[1..]);
      (Cut(pending + chunks[0]) + units, rest)
  }

  function Bytes(units: seq<Unit>): seq<Byte>
  {
    if units == [] then [] else units[0].bytes + Bytes(units[1..])
  }

  lemma {:induction false} BytesAppend(a: seq<Unit>, b: seq<Unit>)
    ensures Bytes(a + b) == Bytes(a) + Bytes(b)
  {
    if a == [] {
      assert a + b == b;
    } else {
      assert (a + b)[0] == a[0] && (a + b)[1..] == a[1..] + b;
      BytesAppend(a[1..], b);
    }
  }

  lemma {:induction false} LinesConserve(bytes: seq<Byte>)
    ensures Bytes(Lines(bytes)) + Tail(bytes) == bytes
    decreases |bytes|
  {
    var n := LineEnd(bytes);
    if n > 0 {
      LinesConserve(bytes[n..]);
      assert Lines(bytes)[0] == Line(bytes[..n]) && Lines(bytes)[1..] == Lines(bytes[n..]);
      assert bytes[..n] + (Bytes(Lines(bytes[n..])) + Tail(bytes[n..])) == bytes;
    }
  }

  lemma {:induction false} CutConserves(bytes: seq<Byte>)
    ensures Bytes(Cut(bytes)) + Kept(bytes) == bytes
  {
    LinesConserve(bytes);
    if |Tail(bytes)| > MAX_LINE {
      var last := [Overflow(Tail(bytes))];
      BytesAppend(Lines(bytes), last);
      assert last[1..] == [] && Bytes(last) == Tail(bytes) + Bytes([]);
    } else {
      assert Cut(bytes) == Lines(bytes);
    }
  }

  /** Whatever the chunks, the units passed on and the bytes kept are exactly the bytes fed. */
  lemma {:induction false} FeedConserves(pending: seq<Byte>, chunks: seq<seq<Byte>>)
    ensures var (units, rest) := FeedUnits(pending, chunks); Bytes(units) + rest == pending + Concat(chunks)
    decreases |chunks|
  {
    hide Cut, Kept;
    if chunks != [] {
      var bytes := pending + chunks[0];
      var (units, rest) := FeedUnits(Kept(bytes), chunks[1..]);
      CutConserves(bytes);
      FeedConserves(Kept(bytes), chunks[1..]);
      BytesAppend(Cut(bytes), units);
      Regroup(Bytes(Cut(bytes)), Bytes(units), rest, Kept(bytes), Concat(chunks[1..]));
      assert bytes + Concat(chunks[1..]) == pending + (chunks[0] + Concat(chunks[1..]));
    }
  }

  lemma {:induction false} Regroup(a: seq<Byte>, b: seq<Byte>, rest: seq<Byte>, kept: seq<Byte>, later: seq<Byte>)
    requires b + rest == kept + later
    ensures (a + b) + rest == (a + kept) + later
  {
    assert (a + b) + rest == a + (b + rest);
    assert (a + kept) + later == a + (kept + later);
  }

  lemma {:induction false} LineEndOfPrefix(a: seq<Byte>, b: seq<Byte>)
    ensures LineEnd(a) > 0 ==> LineEnd(a + b) == LineEnd(a)
  {
    if a != [] {
      assert (a + b)[0] == a[0] && (a + b)[1..] == a[1..] + b;
      LineEndOfPrefix(a[1..], b);
    }
  }

  /** Lines already complete stay as they are when more bytes follow. */
  lemma {:induction false} LinesContinue(a: seq<Byte>, b: seq<Byte>)
    ensures Lines(a + b) == Lines(a) + Lines(Tail(a) + b) && Tail(a + b) == Tail(Tail(a) + b)
    decreases |a|
  {
    var n := LineEnd(a);
    if n > 0 {
      LineEndOfPrefix(a, b);
      assert (a + b)[..n] == a[..n] && (a + b)[n..] == a[n..] + b;
      LinesContinue(a[n..], b);
    }
  }

  /**
   Splitting one feed into two changes nothing exactly when no oversized unterminated tail ends the first
   (or the second is empty).
   */
  lemma {:induction false} SplitFeedIff(pending: seq<Byte>, a: seq<Byte>, b: seq<Byte>)
    ensures FeedUnits(pending, [a, b]) == FeedUnits(pending, [a + b]) <==> |Tail(pending + a)| <= MAX_LINE || b == []
  {
    var x := pending + a;
    OneFeed(pending, a + b);
    TwoFeeds(pending, a, b);
    assert pending + (a + b) == x + b;
    hide FeedUnits, Cut, Kept, Tail;
    if |Tail(x)| <= MAX_LINE {
      SmallTailContinues(x, b);
    } else if b == [] {
      assert x + b == x && Kept(x) + b == Kept(x) && Cut(x) + [] == Cut(x);
    } else {
      LargeTailSplits(x, b);
    }
  }

  lemma {:induction false} TwoFeeds(pending: seq<Byte>, a: seq<Byte>, b: seq<Byte>)
    ensures var x := pending + a; FeedUnits(pending, [a, b]) == (Cut(x) + Cut(Kept(x) + b), Kept(Kept(x) + b))
  {
    hide Cut, Kept;
    assert [a, b][1..] == [b];
    OneFeed(Kept(pending + a), b);
  }

  lemma {:induction false} SmallTailContinues(x: seq<Byte>, b: seq<Byte>)
    requires |Tail(x)| <= MAX_LINE
    ensures Cut(x) + Cut(Kept(x) + b) == Cut(x + b) && Kept(Kept(x) + b) == Kept(x + b)
  {
    LinesContinue(x, b);
    hide Lines, Tail;
  }

  lemma {:induction false} LargeTailSplits(x: seq<Byte>, b: seq<Byte>)
    requires |Tail(x)| > MAX_LINE && b != []
    ensures Cut(x) + Cut(Kept(x) + b) != Cut(x + b)
  {
    var t, n := Tail(x), |Lines(x)|;
    TailHasNoNewline(x);
    LinesContinue(x, b);
    assert Cut(x + b) == Lines(x) + Cut(t + b);
    assert Cut(x)[n] == Overflow(t);
    hide Lines, Tail, Cut, Kept;
    assert (Cut(x) + Cut(Kept(x) + b))[n] == Overflow(t);
    assert Cut(x + b)[n] == Cut(t + b)[0];
  }

  lemma {:induction false} OneFeed(pending: seq<Byte>, chunk: seq<Byte>)
    ensures FeedUnits(pending, [chunk]) == (Cut(pending + chunk), Kept(pending + chunk))
  {
    assert [chunk][1..] == [];
    assert Cut(pending + chunk) + [] == Cut(pending + chunk);
  }

  /** No chunk ends in an oversized unterminated tail. */
  ghost predicate NoOversizedTail(pending: seq<Byte>, chunks: seq<seq<Byte>>)
    decreases |chunks|
  {
    chunks == [] || (|Tail(pending + chunks[0])| <= MAX_LINE && NoOversizedTail(Tail(pending + chunks[0]), chunks[1..]))
  }

  /** Then the units depend only on the bytes, not on how they were chunked. */
  lemma {:induction false} ChunkingIsInvisible(pending: seq<Byte>, chunks: seq<seq<Byte>>)
    requires NEWLINE !in pending && NoOversizedTail(pending, chunks)
    ensures FeedUnits(pending, chunks) == (Lines(pending + Concat(chunks)), Tail(pending + Concat(chunks)))
    decreases |chunks|
  {
    if chunks == [] {
      assert pending + Concat(chunks) == pending;
      NoNewlineNoLine(pending);
    } else {
      var x := pending + chunks[0];
      assert Kept(x) == Tail(x) && Cut(x) == Lines(x);
      TailHasNoNewline(x);
      hide Lines, Tail, Cut, Kept;
      ChunkingIsInvisible(Tail(x), chunks[1..]);
      assert pending + Concat(chunks) == x + Concat(chunks[1..]);
      LinesContinue(x, Concat(chunks[1..]));
    }
  }
}
