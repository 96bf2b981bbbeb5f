/** Bounded capture of a process's output: the first bytes, the last bytes, and how many were dropped between. */
module BoundedOutput {
  import opened Prelude

  newtype byte = b: int | 0 <= b < 256

  const HeadBytes: nat := 64 * 1024
  const TailBytes: nat := 192 * 1024

  datatype Captured = Captured(head: seq<byte>, dropped: nat, tail: seq<byte>)

  function Last(bytes: seq<byte>, most: nat): seq<byte> {
    bytes[Max(0, |bytes| - most)..]
  }

  /** What is kept of a whole stream, with no mention of how it arrived. */
  function Capture(stream: seq<byte>): Captured {
    var cut := Min(HeadBytes, |stream|);
    Captured(stream[..cut], Max(0, |stream| - cut - TailBytes), Last(stream[cut..], TailBytes))
  }

  /** Short streams are kept whole, long ones lose exactly their middle, and no byte is unaccounted for. */
  lemma CaptureIsExact(stream: seq<byte>)
    ensures var c := Capture(stream);
            && |c.head| + c.dropped + |c.tail| == |stream|
            && (c.dropped == 0 <==> |stream| <= HeadBytes + TailBytes)
            && (c.dropped == 0 ==> c.head + c.tail == stream)
            && (c.dropped > 0 ==> |c.head| == HeadBytes && |c.tail| == TailBytes)
            && c.head <= stream && stream == stream[..|stream| - |c.tail|] + c.tail
  {}

  lemma LastAppend(bytes: seq<byte>, more: seq<byte>, most: nat)
    ensures Last(Last(bytes, most) + more, most) == Last(bytes + more, most)
  {}

  /** One more piece of stream for a capture: fill the head first, then keep the end of what follows it. */
  function Extend(c: Captured, more: seq<byte>): Captured
    requires |c.head| <= HeadBytes
  {
    var take := Min(HeadBytes - |c.head|, |more|);
    var rest := c.tail + more[take..];
    Captured(c.head + more[..take], c.dropped + Max(0, |rest| - TailBytes), Last(rest, TailBytes))
  }

  /** The capture of a longer stream is computed from the capture of its beginning: chunks can be taken one by one. */
  lemma CaptureAppend(stream: seq<byte>, more: seq<byte>)
    ensures Capture(stream + more) == Extend(Capture(stream), more)
  {
    if |stream| < HeadBytes {
      StillInHead(stream, more);
    } else {
      PastHead(stream, more);
    }
  }

  lemma StillInHead(stream: seq<byte>, more: seq<byte>)
    requires |stream| < HeadBytes
    ensures Capture(stream + more) == Extend(Capture(stream), more)
  {
    var take := Min(HeadBytes - |stream|, |more|);
    var all, rest := stream + more, more[take..];
    assert Min(HeadBytes, |all|) == |stream| + take;
    HeadAndBody(stream, more, |stream|, take);
    assert stream[..|stream|] == stream && stream[|stream|..] + rest == rest && [] + rest == rest;
    assert Capture(all) == Captured(stream + more[..take], Max(0, |rest| - TailBytes), Last(rest, TailBytes));
    assert Capture(stream) == Captured(stream, 0, []);
  }

  lemma PastHead(stream: seq<byte>, more: seq<byte>)
    requires HeadBytes <= |stream|
    ensures Capture(stream + more) == Extend(Capture(stream), more)
  {
    HeadAndBody(stream, more, HeadBytes, 0);
    LastAppend(stream[HeadBytes..], more, TailBytes);
    assert more[0..] == more && stream[..HeadBytes] + more[..0] == stream[..HeadBytes];
  }

  lemma LastOfShort(bytes: seq<byte>, more: seq<byte>, most: nat)
    requires |bytes| <= most
    ensures more == [] ==> Last(bytes + more, most) == bytes
  {}

  const Nothing := Captured([], 0, [])

  function ExtendAll(chunks: seq<seq<byte>>): (c: Captured)
    ensures |c.head| <= HeadBytes
  {
    if chunks == [] then Nothing
    else Extend(ExtendAll(chunks[..|chunks| - 1]), chunks[|chunks| - 1])
  }

  /** However a stream is cut into chunks, empty ones included, its capture is a function of its bytes alone. */
  lemma {:induction false} ChunkingIsInvisible(chunks: seq<seq<byte>>)
    ensures ExtendAll(chunks) == Capture(Concat(chunks))
  {
    if chunks != [] {
      var front, last := chunks[..|chunks| - 1], chunks[|chunks| - 1];
      assert chunks == front + [last];
      ChunkingIsInvisible(front);
      ConcatAppend(front, last);
      CaptureAppend(Concat(front), last);
    }
  }

  lemma HeadAndBody(stream: seq<byte>, more: seq<byte>, cut: nat, take: nat)
    requires cut <= |stream| && take <= |more| && (take > 0 ==> cut == |stream|)
    ensures (stream + more)[..cut + take] == stream[..cut] + more[..take]
    ensures (stream + more)[cut + take..] == stream[cut..] + more[take..]
  {}

  function Concat(chunks: seq<seq<byte>>): seq<byte> {
    if chunks == [] then [] else chunks[0] + Concat(chunks[1..])
  }

  lemma {:induction false} ConcatAppend(chunks: seq<seq<byte>>, chunk: seq<byte>)
    ensures Concat(chunks + [chunk]) == Concat(chunks) + chunk
  {
    if chunks == [] {
      assert Concat([chunk]) == chunk;
    } else {
      ConcatAppend(chunks[1..], chunk);
      assert (chunks + [chunk])[1..] == chunks[1..] + [chunk];
    }
  }

  class Reader {
    var head: seq<seq<byte>>
    var tail: seq<seq<byte>>
    var headBytes: nat
    var tailBytes: nat
    var droppedBytes: nat
    ghost function Now(): Captured
      reads this`head, this`tail, this`droppedBytes
    {
      Captured(Concat(head), droppedBytes, Concat(tail))
    }

    ghost predicate Counted()
      reads this`head, this`tail, this`headBytes, this`tailBytes
    {
      headBytes == |Concat(head)| <= HeadBytes && tailBytes == |Concat(tail)| <= TailBytes
    }

    constructor ()
      ensures Counted() && Now() == Nothing
    {
      head, tail := [], [];
      headBytes, tailBytes, droppedBytes := 0, 0, 0;
    }

    /** Takes in one chunk; afterwards no more than the two bounds together is held. */
    method Read(value: seq<byte>)
      requires Counted()
      modifies this
      ensures Counted() && Now() == Extend(old(Now()), value)
      ensures |Concat(head)| + |Concat(tail)| <= HeadBytes + TailBytes
    {
      var chunk := value;
      if headBytes < HeadBytes {
        chunk := FillHead(value);
      } else {
        assert Concat(head) + value[..0] == Concat(head) && value[0..] == value;
      }
      if |chunk| == 0 {
        LastOfShort(Concat(tail), chunk, TailBytes);
      } else {
        AddToTail(chunk);
      }
    }

    method AddToTail(chunk: seq<byte>)
      requires tailBytes == |Concat(tail)|
      modifies this`tail, this`tailBytes, this`droppedBytes
      ensures Concat(tail) == Last(Concat(old(tail)) + chunk, TailBytes)
      ensures droppedBytes == old(droppedBytes) + Max(0, |Concat(old(tail)) + chunk| - TailBytes)
      ensures tailBytes == |Concat(tail)|
    {
      ConcatAppend(tail, chunk);
      tail := tail + [chunk];
      tailBytes := tailBytes + |chunk|;
      TrimTail();
    }

    /** Moves as much of a chunk as fits into the head and returns the rest. */
    method FillHead(value: seq<byte>) returns (rest: seq<byte>)
      requires headBytes == |Concat(head)| < HeadBytes
      modifies this`head, this`headBytes
      ensures var take := Min(HeadBytes - |Concat(old(head))|, |value|);
              Concat(head) == Concat(old(head)) + value[..take] && rest == value[take..]
      ensures headBytes == |Concat(head)|
    {
      var taken := value[..Min(HeadBytes - headBytes, |value|)];
      ConcatAppend(head, taken);
      head := head + [taken];
      headBytes := headBytes + |taken|;
      rest := value[|taken|..];
    }

    /** Drops bytes from the front of the tail, whole chunks first, until the tail fits its bound. */
    method TrimTail()
      requires tailBytes == |Concat(tail)|
      modifies this`tail, this`tailBytes, this`droppedBytes
      ensures Concat(tail) == Last(Concat(old(tail)), TailBytes)
      ensures droppedBytes == old(droppedBytes) + Max(0, |Concat(old(tail))| - TailBytes)
      ensures tailBytes == |Concat(tail)|
    {
      ghost var all, gone := Concat(tail), 0;
      while tailBytes > TailBytes
        invariant 0 <= gone <= Max(0, |all| - TailBytes)
        invariant Concat(tail) == all[gone..] && tailBytes == |all| - gone
        invariant droppedBytes == old(droppedBytes) + gone
        decreases |tail|, tailBytes
      {
        if |tail| == 0 {
          break;
        }
        var first := tail[0];
        var excess := tailBytes - TailBytes;
        if |first| <= excess {
          tail := tail[1..];
          tailBytes := tailBytes - |first|;
          droppedBytes := droppedBytes + |first|;
          gone := gone + |first|;
        } else {
          assert tail[0 := first[excess..]][1..] == tail[1..];
          tail := tail[0 := first[excess..]];
          tailBytes := tailBytes - excess;
          droppedBytes := droppedBytes + excess;
          gone := gone + excess;
        }
      }
    }
  }

  method ReadBoundedOutput(chunks: seq<seq<byte>>) returns (captured: Captured)
    ensures captured == Capture(Concat(chunks))
  {
    var reader := new Reader();
    for i := 0 to |chunks|
      invariant reader.Counted() && fresh(reader)
      invariant reader.Now() == ExtendAll(chunks[..i])
    {
      assert chunks[..i + 1][..i] == chunks[..i];
      reader.Read(chunks[i]);
    }
    assert chunks[..|chunks|] == chunks;
    ChunkingIsInvisible(chunks);
    captured := Captured(Concat(reader.head), reader.droppedBytes, Concat(reader.tail));
  }
}
