/** Big-endian numbers and length-prefixed frames (src/stream-protocol.ts). */
module StreamBytes {
  import opened Prelude

  type Byte = x: int | 0 <= x < 256
  type Bytes = seq<Byte>
  type Chunks = seq<Bytes>

  const U16_LIMIT: nat := 0x10000
  const U32_LIMIT: nat := 0x1_0000_0000

  /** How many numbers `width` bytes can hold. */
  function Limit(width: nat): (n: nat)
    ensures n > 0
  {
    if width == 0 then 1 else 256 * Limit(width - 1)
  }

  /** The low `width` bytes of a number, most significant first. */
  function BigEndian(n: nat, width: nat): (b: Bytes)
    ensures |b| == width
    decreases width, n
  {
    if width == 0 then [] else BigEndian(n / 256, width - 1) + [n % 256]
  }

  function Number(b: Bytes): nat {
    if b == [] then 0 else Number(b[..|b| - 1]) * 256 + b[|b| - 1] as nat
  }

  lemma {:induction false} NumberBound(b: Bytes)
    ensures Number(b) < Limit(|b|)
    decreases |b|
  {
    if b != [] { NumberBound(b[..|b| - 1]); }
  }

  lemma {:induction false} NumberOfBytes(n: nat, width: nat)
    requires n < Limit(width)
    ensures Number(BigEndian(n, width)) == n
    decreases width
  {
    if width > 0 {
      var b := BigEndian(n, width);
      NumberOfBytes(n / 256, width - 1);
      assert b[..width - 1] == BigEndian(n / 256, width - 1);
    }
  }

  lemma DigitSplits(high: nat, low: nat)
    requires low < 256
    ensures (high * 256 + low) / 256 == high && (high * 256 + low) % 256 == low
  {
  }

  lemma {:induction false} BytesOfNumber(b: Bytes)
    ensures BigEndian(Number(b), |b|) == b
    decreases |b|
  {
    if b != [] {
      BytesOfNumber(b[..|b| - 1]);
      DigitSplits(Number(b[..|b| - 1]), b[|b| - 1] as nat);
    }
  }

  lemma Limits()
    ensures Limit(2) == U16_LIMIT && Limit(4) == U32_LIMIT
  {
  }

  /** The bytes of this width that stand for a number. */
  ghost function BytesOf(n: nat, width: nat): (b: Bytes)
    requires n < Limit(width)
    ensures |b| == width && Number(b) == n
  {
    NumberOfBytes(n, width);
    assert |BigEndian(n, width)| == width;
    var b: Bytes :| |b| == width && Number(b) == n;
    b
  }

  lemma BytesOfIsBigEndian(n: nat, width: nat)
    requires n < Limit(width)
    ensures BytesOf(n, width) == BigEndian(n, width)
  {
    BytesOfNumber(BytesOf(n, width));
  }

  ghost function U16(n: nat): (b: Bytes)
    requires n < U16_LIMIT
    ensures |b| == 2
  {
    Limits();
    BytesOf(n, 2)
  }

  ghost function U32(n: nat): (b: Bytes)
    requires n < U32_LIMIT
    ensures |b| == 4
  {
    Limits();
    BytesOf(n, 4)
  }

  /** The `n` bytes from `at` on; recursive, so that proofs about offsets need not look into slices. */
  function Sub(b: Bytes, at: nat, n: nat): (part: Bytes)
    requires at + n <= |b|
    ensures |part| == n
    decreases n, at
  {
    if n == 0 then [] else Sub(b, at, n - 1) + [b[at + n - 1]]
  }

  lemma {:induction false} SubIsSlice(b: Bytes, at: nat, n: nat)
    requires at + n <= |b|
    ensures Sub(b, at, n) == b[at..at + n]
    decreases n
  {
    if n > 0 {
      SubIsSlice(b, at, n - 1);
      assert b[at..at + n] == b[at..at + n - 1] + [b[at + n - 1]];
    }
  }

  function GetU16(b: Bytes, at: nat): (n: nat)
    requires at + 2 <= |b|
    ensures n < U16_LIMIT
  {
    Limits();
    NumberBound(Sub(b, at, 2));
    Number(Sub(b, at, 2))
  }

  function GetU32(b: Bytes, at: nat): (n: nat)
    requires at + 4 <= |b|
    ensures n < U32_LIMIT
  {
    Limits();
    NumberBound(Sub(b, at, 4));
    Number(Sub(b, at, 4))
  }

  /** Two's complement. */
  ghost function I32(n: int): (b: Bytes)
    requires -(U32_LIMIT / 2) <= n < U32_LIMIT / 2
    ensures |b| == 4
  {
    U32(Unsigned(n))
  }

  function Unsigned(n: int): (u: nat)
    requires -(U32_LIMIT / 2) <= n < U32_LIMIT / 2
    ensures u < U32_LIMIT
  {
    if n < 0 then n + U32_LIMIT else n
  }

  function GetI32(b: Bytes, at: nat): (n: int)
    requires at + 4 <= |b|
    ensures -(U32_LIMIT / 2) <= n < U32_LIMIT / 2
  {
    var n := GetU32(b, at);
    if n >= U32_LIMIT / 2 then n - U32_LIMIT else n
  }

  /** `part` stands in `b` at an offset. */
  predicate At(b: Bytes, at: nat, part: Bytes) { at + |part| <= |b| && Sub(b, at, |part|) == part }

  lemma AtIsSlice(b: Bytes, at: nat, part: Bytes)
    ensures At(b, at, part) <==> at + |part| <= |b| && b[at..at + |part|] == part
  {
    if at + |part| <= |b| { SubIsSlice(b, at, |part|); }
  }

  lemma ReadU16(b: Bytes, at: nat, n: nat)
    requires n < U16_LIMIT && at + 2 <= |b|
    ensures At(b, at, U16(n)) <==> GetU16(b, at) == n
  {
    Limits();
    BytesOfNumber(Sub(b, at, 2));
    BytesOfIsBigEndian(n, 2);
  }

  lemma ReadU32(b: Bytes, at: nat, n: nat)
    requires n < U32_LIMIT && at + 4 <= |b|
    ensures At(b, at, U32(n)) <==> GetU32(b, at) == n
  {
    Limits();
    BytesOfNumber(Sub(b, at, 4));
    BytesOfIsBigEndian(n, 4);
  }

  lemma ReadI32(b: Bytes, at: nat, n: int)
    requires -(U32_LIMIT / 2) <= n < U32_LIMIT / 2 && at + 4 <= |b|
    ensures At(b, at, I32(n)) <==> GetI32(b, at) == n
  {
    ReadU32(b, at, Unsigned(n));
  }

  /** Bytes are their header followed by the rest. */
  lemma HeaderAndRest(b: Bytes, head: Bytes, rest: Bytes)
    ensures b == head + rest <==> |b| == |head| + |rest| && At(b, 0, head) && At(b, |head|, rest)
  {
    CutAt(b, 0, head, rest);
    AtIsSlice(b, 0, head + rest);
    assert b[0..|b|] == b;
  }

  // ---- frames --------------------------------------------------------------------

  function Total(chunks: Chunks): nat {
    if chunks == [] then 0 else |chunks[0]| + Total(chunks[1..])
  }

  predicate Framable(chunks: Chunks) { forall c :: c in chunks ==> |c| < U32_LIMIT }

  /** Every chunk behind its length. */
  ghost function Frames(chunks: Chunks): (b: Bytes)
    requires Framable(chunks)
    ensures |b| == Total(chunks) + 4 * |chunks|
  {
    if chunks == [] then [] else U32(|chunks[0]|) + chunks[0] + Frames(chunks[1..])
  }

  /** The chunk framed at an offset. */
  function FrameAt(b: Bytes, at: nat): (chunk: Option<Bytes>)
    ensures chunk.Some? ==> at + 4 + |chunk.value| <= |b|
  {
    if at + 4 > |b| || at + 4 + GetU32(b, at) > |b| then None
    else Some(Sub(b, at + 4, GetU32(b, at)))
  }

  /** `count` chunks framed from an offset on, and the offset behind them. */
  datatype Parsed = Parsed(chunks: Chunks, end: nat)

  function Prepend(done: Chunks, more: Option<Parsed>): Option<Parsed> {
    match more
    case None => None
    case Some(m) => Some(Parsed(done + m.chunks, m.end))
  }

  function ParseFrames(b: Bytes, at: nat, count: nat): Option<Parsed>
    decreases count
  {
    if count == 0 then Some(Parsed([], at))
    else
      match FrameAt(b, at)
      case None => None
      case Some(c) => Prepend([c], ParseFrames(b, at + 4 + |c|, count - 1))
  }

  lemma FramesCons(c: Bytes, chunks: Chunks)
    requires |c| < U32_LIMIT && Framable(chunks)
    ensures Framable([c] + chunks) && Frames([c] + chunks) == U32(|c|) + c + Frames(chunks)
  {
    assert ([c] + chunks)[1..] == chunks;
  }

  lemma CutAt(b: Bytes, at: nat, x: Bytes, y: Bytes)
    ensures At(b, at, x + y) <==> At(b, at, x) && At(b, at + |x|, y)
  {
    AtIsSlice(b, at, x + y);
    AtIsSlice(b, at, x);
    AtIsSlice(b, at + |x|, y);
    if at + |x + y| <= |b| {
      var part, z := b[at..at + |x + y|], x + y;
      assert b[at..at + |x|] == part[..|x|] && b[at + |x|..at + |x| + |y|] == part[|x|..];
      assert part == part[..|x|] + part[|x|..] && z[..|x|] == x && z[|x|..] == y;
    }
  }

  lemma FrameFound(b: Bytes, at: nat, c: Bytes)
    requires |c| < U32_LIMIT && At(b, at, U32(|c|) + c)
    ensures FrameAt(b, at) == Some(c)
  {
    CutAt(b, at, U32(|c|), c);
    ReadU32(b, at, |c|);
  }

  lemma FirstFrame(b: Bytes, at: nat, chunks: Chunks)
    requires chunks != [] && Framable(chunks) && At(b, at, Frames(chunks))
    ensures FrameAt(b, at) == Some(chunks[0])
    ensures At(b, at + 4 + |chunks[0]|, Frames(chunks[1..]))
    ensures |Frames(chunks)| == 4 + |chunks[0]| + |Frames(chunks[1..])|
  {
    var c, rest := chunks[0], Frames(chunks[1..]);
    var framed := U32(|c|) + c;
    assert at + |framed| == at + 4 + |c|;
    CutAt(b, at, framed, rest);
    FrameFound(b, at, c);
  }

  /** Reading frames finds exactly what was framed. */
  lemma {:induction false} ParseFramed(b: Bytes, at: nat, chunks: Chunks)
    requires Framable(chunks) && At(b, at, Frames(chunks))
    ensures ParsesTo(b, at, chunks, at + |Frames(chunks)|)
    decreases |chunks|
  {
    if chunks != [] {
      var c, more := chunks[0], chunks[1..];
      FirstFrame(b, at, chunks);
      var next := at + 4 + |c|;
      ParseFramed(b, next, more);
      ParseCons(b, at, c, next, more, next + |Frames(more)|);
      assert [c] + more == chunks;
    }
  }

  ghost predicate ParsesTo(b: Bytes, at: nat, chunks: Chunks, end: nat) {
    match ParseFrames(b, at, |chunks|)
    case None => false
    case Some(parsed) => parsed == Parsed(chunks, end)
  }

  lemma ParseCons(b: Bytes, at: nat, c: Bytes, next: nat, more: Chunks, end: nat)
    requires FrameAt(b, at) == Some(c) && next == at + 4 + |c| && ParsesTo(b, next, more, end)
    ensures ParsesTo(b, at, [c] + more, end)
  {
    ParseStep(b, at, c, |more|);
  }

  lemma ParseStep(b: Bytes, at: nat, c: Bytes, count: nat)
    requires FrameAt(b, at) == Some(c)
    ensures ParseFrames(b, at, count + 1) == Prepend([c], ParseFrames(b, at + 4 + |c|, count))
  {
  }

  lemma FrameBytes(b: Bytes, at: nat, c: Bytes)
    requires FrameAt(b, at) == Some(c)
    ensures |c| < U32_LIMIT && At(b, at, U32(|c|) + c)
  {
    ReadU32(b, at, |c|);
    CutAt(b, at, U32(|c|), c);
  }

  /** If anything was read, framing it again gives the bytes that were read. */
  ghost predicate FramesBack(b: Bytes, at: nat, count: nat, parsed: Option<Parsed>) {
    match parsed
    case None => true
    case Some(p) =>
      && |p.chunks| == count && Framable(p.chunks)
      && p.end == at + |Frames(p.chunks)| && At(b, at, Frames(p.chunks))
  }

  lemma {:induction false} FramesOfParsed(b: Bytes, at: nat, count: nat)
    requires at <= |b|
    ensures FramesBack(b, at, count, ParseFrames(b, at, count))
    decreases count
  {
    if count > 0 && FrameAt(b, at).Some? {
      var c := FrameAt(b, at).value;
      FramesOfParsed(b, at + 4 + |c|, count - 1);
      ParseStep(b, at, c, count - 1);
      OneMoreBack(b, at, c, count - 1, ParseFrames(b, at + 4 + |c|, count - 1));
    }
  }

  lemma OneMoreBack(b: Bytes, at: nat, c: Bytes, count: nat, more: Option<Parsed>)
    requires FrameAt(b, at) == Some(c) && FramesBack(b, at + 4 + |c|, count, more)
    ensures FramesBack(b, at, count + 1, Prepend([c], more))
  {
    if more.Some? { FrameJoins(b, at, c, more.value.chunks); }
  }

  lemma FrameJoins(b: Bytes, at: nat, c: Bytes, more: Chunks)
    requires FrameAt(b, at) == Some(c) && Framable(more) && At(b, at + 4 + |c|, Frames(more))
    ensures Framable([c] + more) && At(b, at, Frames([c] + more)) && |Frames([c] + more)| == 4 + |c| + |Frames(more)|
  {
    FrameBytes(b, at, c);
    FramesCons(c, more);
    CutAt(b, at, U32(|c|) + c, Frames(more));
  }

  lemma {:induction false} TotalAppend(a: Chunks, b: Chunks)
    ensures Total(a + b) == Total(a) + Total(b)
    decreases |a|
  {
    if a == [] { assert a + b == b; }
    else {
      assert (a + b)[1..] == a[1..] + b;
      TotalAppend(a[1..], b);
    }
  }

  lemma TotalSnoc(a: Chunks, c: Bytes)
    ensures Total(a + [c]) == Total(a) + |c|
  {
    TotalAppend(a, [c]);
    assert [c][1..] == [];
  }

  lemma Reassociate(x: Bytes, y: Bytes, z: Bytes, w: Bytes)
    ensures x + (y + z + w) == x + y + z + w
  {
  }

  lemma {:induction false} FramesSnoc(a: Chunks, c: Bytes)
    requires Framable(a) && |c| < U32_LIMIT
    ensures Framable(a + [c]) && Frames(a + [c]) == Frames(a) + U32(|c|) + c
    decreases |a|
  {
    if a == [] {
      assert a + [c] == [c] && [c][1..] == [];
    } else {
      FramesSnoc(a[1..], c);
      FramesCons(a[0], a[1..] + [c]);
      FramesCons(a[0], a[1..]);
      assert a + [c] == [a[0]] + (a[1..] + [c]) && a == [a[0]] + a[1..];
      Reassociate(U32(|a[0]|) + a[0], Frames(a[1..]), U32(|c|), c);
    }
  }

  // ---- writing into a buffer -------------------------------------------------------

  /** Copy `part` to position `at`; every other byte stays. */
  method Put(buffer: array<Byte>, at: nat, part: Bytes)
    requires at + |part| <= buffer.Length
    modifies buffer
    ensures buffer[..at] == old(buffer[..at])
    ensures buffer[at..at + |part|] == part
    ensures buffer[at + |part|..] == old(buffer[at + |part|..])
  {
    var i := 0;
    while i < |part|
      invariant 0 <= i <= |part|
      invariant buffer[..at] == old(buffer[..at])
      invariant buffer[at..at + i] == part[..i]
      invariant buffer[at + i..] == old(buffer[at + i..])
    {
      buffer[at + i] := part[i];
      i := i + 1;
    }
  }

  /** Copy `part` to the end of a filled prefix. */
  method Fill(buffer: array<Byte>, offset: nat, part: Bytes) returns (next: nat)
    requires offset + |part| <= buffer.Length
    modifies buffer
    ensures next == offset + |part|
    ensures buffer[..next] == old(buffer[..offset]) + part
  {
    Put(buffer, offset, part);
    next := offset + |part|;
    assert buffer[..next] == buffer[..offset] + buffer[offset..next];
  }

  /** setUint16 and setUint32 at the end of a filled prefix. */
  method FillNumber(buffer: array<Byte>, offset: nat, n: nat, width: nat) returns (next: nat)
    requires n < Limit(width) && offset + width <= buffer.Length
    modifies buffer
    ensures next == offset + width
    ensures buffer[..next] == old(buffer[..offset]) + BytesOf(n, width)
  {
    BytesOfIsBigEndian(n, width);
    next := Fill(buffer, offset, BigEndian(n, width));
  }

  method FillU16(buffer: array<Byte>, offset: nat, n: nat) returns (next: nat)
    requires n < U16_LIMIT && offset + 2 <= buffer.Length
    modifies buffer
    ensures next == offset + 2 && buffer[..next] == old(buffer[..offset]) + U16(n)
  {
    Limits();
    next := FillNumber(buffer, offset, n, 2);
  }

  method FillU32(buffer: array<Byte>, offset: nat, n: nat) returns (next: nat)
    requires n < U32_LIMIT && offset + 4 <= buffer.Length
    modifies buffer
    ensures next == offset + 4 && buffer[..next] == old(buffer[..offset]) + U32(n)
  {
    Limits();
    next := FillNumber(buffer, offset, n, 4);
  }

  method FillI32(buffer: array<Byte>, offset: nat, n: int) returns (next: nat)
    requires -(U32_LIMIT / 2) <= n < U32_LIMIT / 2 && offset + 4 <= buffer.Length
    modifies buffer
    ensures next == offset + 4 && buffer[..next] == old(buffer[..offset]) + I32(n)
  {
    next := FillU32(buffer, offset, Unsigned(n));
  }
}
