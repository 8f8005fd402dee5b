/** Chunked transfer coding (section 7.1 of RFC 9112): the sender's formatting and the decoder. */
module Chunked {
  import opened Arithmetic
  import opened Bytes
  import opened Streams

  const SIZE_LIMIT: nat := 0x1_0000_0000_0000_0000

  // ---------------------------------------------------------------- chunk sizes

  function Digit(v: nat): byte
    requires v < 16
  {
    if v < 10 then 48 + v else 97 + (v - 10)
  }

  function Hex(n: nat): (ds: seq<byte>)
    ensures ds != []
  {
    if n < 16 then [Digit(n)] else Hex(n / 16) + [Digit(n % 16)]
  }

  function DigitValue(c: byte): (v: Option<nat>)
    ensures v.Some? ==> v.value < 16
  {
    if 48 <= c <= 57 then Some(c - 48)
    else if 97 <= c <= 102 then Some(c - 97 + 10)
    else if 65 <= c <= 70 then Some(c - 65 + 10)
    else None
  }

  /** Number of leading hexadecimal digits. */
  function DigitCount(line: seq<byte>): (n: nat)
    ensures n <= |line| && forall i :: 0 <= i < n ==> DigitValue(line[i]).Some?
    ensures n < |line| ==> DigitValue(line[n]).None?
  {
    if line == [] || DigitValue(line[0]).None? then 0 else 1 + DigitCount(line[1..])
  }

  function HexValue(ds: seq<byte>): nat
    requires AllDigits(ds)
  {
    if ds == [] then 0 else HexValue(ds[..|ds| - 1]) * 16 + DigitValue(ds[|ds| - 1]).value
  }

  /** What a size line announces: None without any digit, and sizes wrap at 64 bits. */
  function LineSize(line: seq<byte>): (r: Option<nat>)
    ensures r.Some? ==> r.value < SIZE_LIMIT
  {
    var n := DigitCount(line);
    if n == 0 then None else Some(HexValue(line[..n]) % SIZE_LIMIT)
  }

  lemma {:induction false} HexRoundTrip(n: nat)
    ensures AllDigits(Hex(n)) && HexValue(Hex(n)) == n
  {
    if n >= 16 {
      HexRoundTrip(n / 16);
      assert Hex(n)[..|Hex(n)| - 1] == Hex(n / 16);
    } else {
      assert Hex(n)[..0] == [];
    }
  }

  /** An extension, or nothing, may follow the size. */
  predicate GoodExtension(ext: seq<byte>) {
    LF !in ext && (ext != [] ==> DigitValue(ext[0]).None?)
  }

  lemma {:induction false} DigitCountOf(ds: seq<byte>, ext: seq<byte>)
    requires AllDigits(ds) && GoodExtension(ext)
    ensures DigitCount(ds + ext) == |ds|
  {
    if ds == [] {
      assert ds + ext == ext;
    } else {
      assert (ds + ext)[1..] == ds[1..] + ext;
      DigitCountOf(ds[1..], ext);
    }
  }

  /** A size is read back exactly if and only if it is a 64-bit number. */
  lemma SizeExactIffFits(n: nat, ext: seq<byte>)
    requires GoodExtension(ext)
    ensures LineSize(Hex(n) + ext) == Some(n) <==> n < SIZE_LIMIT
  {
    HexRoundTrip(n);
    SizeLineOf(Hex(n), ext);
  }

  predicate AllDigits(ds: seq<byte>) { forall i :: 0 <= i < |ds| ==> DigitValue(ds[i]).Some? }

  lemma SizeLineOf(ds: seq<byte>, ext: seq<byte>)
    requires ds != [] && AllDigits(ds) && GoodExtension(ext)
    ensures LineSize(ds + ext) == Some(HexValue(ds)) <==> HexValue(ds) < SIZE_LIMIT
  {
    DigitCountOf(ds, ext);
    assert (ds + ext)[..|ds|] == ds;
  }

  lemma SizeLineRoundTrip(n: nat, ext: seq<byte>)
    requires n < SIZE_LIMIT && GoodExtension(ext)
    ensures LineSize(Hex(n) + ext) == Some(n) && LF !in Hex(n) + ext
  {
    HexRoundTrip(n);
    SizeLineOf(Hex(n), ext);
  }

  /** The digits are produced from the last to the first and then reversed. */
  method FormatChunkHeader(length: nat) returns (line: seq<byte>)
    ensures line == Hex(length) + CRLF
  {
    if length == 0 {
      assert Hex(length) == [48];
      return [48] + CRLF;
    }
    var hex: seq<byte> := [];
    var v: nat := length;
    while v > 0
      invariant v > 0 ==> Hex(v) + Reverse(hex) == Hex(length)
      invariant v == 0 ==> Reverse(hex) == Hex(length)
    {
      var d := Digit(v % 16);
      ReverseSnoc(hex, d);
      assert v >= 16 ==> Hex(v) + Reverse(hex) == Hex(v / 16) + ([d] + Reverse(hex));
      hex := hex + [d];
      v := v / 16;
    }
    line := Reverse(hex) + CRLF;
  }

  function Reverse(s: seq<byte>): seq<byte> {
    if s == [] then [] else [s[|s| - 1]] + Reverse(s[..|s| - 1])
  }

  lemma ReverseSnoc(s: seq<byte>, d: byte)
    ensures Reverse(s + [d]) == [d] + Reverse(s)
  {
    assert (s + [d])[..|s|] == s;
  }

  // ---------------------------------------------------------------- decoding, the whole input at once

  function SkipTwo(input: seq<byte>): seq<byte> { if |input| >= 2 then input[2..] else input }

  /** The body from a size line on. */
  function FromSizeLine(input: seq<byte>): (body: seq<byte>)
    decreases |input|, 1
  {
    match FirstLine(input)
    case None => []
    case Some((line, rest)) =>
      match LineSize(line)
      case None => []
      case Some(size) => if size == 0 then [] else InChunk(rest, size)
  }

  /** The body inside a chunk with `left` bytes to go; a source that ends early ends the body. */
  function InChunk(input: seq<byte>, left: nat): (body: seq<byte>)
    requires left > 0
    decreases |input|, 2
  {
    if |input| < left then input else input[..left] + FromSizeLine(SkipTwo(input[left..]))
  }

  /** What follows the trailers and the empty line after them. */
  function AfterTrailers(input: seq<byte>): seq<byte>
    decreases |input|
  {
    match FirstLine(input)
    case None => input
    case Some((line, rest)) => if line == [] then rest else AfterTrailers(rest)
  }

  // ---------------------------------------------------------------- the decoder

  class Decoder {
    const input: Buffered
    var finished: bool
    var remaining: nat
    var needChunk: bool

    ghost predicate Valid() reads this, input, input.source {
      input.Valid() && remaining < SIZE_LIMIT && (!needChunk ==> remaining > 0)
    }

    /** What is still to be delivered. */
    ghost function Rest(): seq<byte>
      requires Valid()
      reads this, input, input.source
    {
      if finished then [] else if needChunk then FromSizeLine(input.Remaining())
      else InChunk(input.Remaining(), remaining)
    }

    constructor (source: Source)
      ensures Valid() && fresh(input) && input.source == source && Rest() == FromSizeLine(source.data)
    {
      input := new Buffered(source, []);
      finished, remaining, needChunk := false, 0, true;
      new;
      assert [] + source.data == source.data;
    }

    /** Reads a size line; the last chunk's trailers are discarded. */
    method BeginNextChunk() returns (more: bool)
      requires Valid() && !finished && needChunk
      modifies this, input, input.source
      ensures Valid() && Rest() == old(Rest())
      ensures more <==> !finished
      ensures more ==> !needChunk && |input.Remaining()| < old(|input.Remaining()|)
    {
      var line := input.ReadLine();
      if line.None? {
        finished := true;
        return false;
      }
      var size := ParseSize(line.value);
      if size.None? {
        finished := true;
        return false;
      }
      if size.value == 0 {
        SkipTrailers();
        finished := true;
        return false;
      }
      remaining := size.value;
      needChunk := false;
      more := true;
    }

    method SkipTrailers()
      requires input.Valid()
      modifies input, input.source
      ensures input.Valid() && input.Remaining() == AfterTrailers(old(input.Remaining()))
    {
      while true
        invariant input.Valid() && AfterTrailers(input.Remaining()) == AfterTrailers(old(input.Remaining()))
        decreases |input.Remaining()|
      {
        var line := input.ReadLine();
        if line.None? || line.value == [] { break; }
      }
    }

    static method ParseSize(line: seq<byte>) returns (r: Option<nat>)
      ensures r == LineSize(line)
    {
      var size, i := 0, 0;
      while i < |line| && DigitValue(line[i]).Some?
        invariant i <= DigitCount(line) && size == HexValue(line[..i]) % SIZE_LIMIT
      {
        assert line[..i + 1][..i] == line[..i];
        WrapStep(HexValue(line[..i]), DigitValue(line[i]).value);
        size := (size * 16 + DigitValue(line[i]).value) % SIZE_LIMIT;
        i := i + 1;
      }
      r := if i == 0 then None else Some(size);
    }

    /** Whatever the source's pieces and the sizes asked for: the bytes are the next of the body,
        none exactly at its end, and then none for ever. A read of zero bytes ends the body. */
    method Read(n: nat) returns (bytes: seq<byte>)
      requires Valid()
      modifies this, input, input.source
      ensures Valid() && |bytes| <= n
      ensures n >= 1 ==> bytes + Rest() == old(Rest()) && (bytes == [] <==> old(Rest()) == [])
      ensures n == 0 ==> Rest() == []
    {
      while true
        invariant Valid() && (n >= 1 ==> Rest() == old(Rest()))
        decreases |input.Remaining()|, !needChunk
      {
        if finished { return []; }
        if needChunk {
          var more := BeginNextChunk();
          if !more { return []; }
        }
        var any := input.Fill(1);
        if !any {
          finished := true;
          return [];
        }
        var count := Min(n, Min(remaining, |input.buffer|));
        if count > 0 {
          bytes := TakeFromChunk(count);
          return;
        }
        needChunk := true;
      }
    }

    /** Takes bytes of the current chunk, and its line end after the last one. */
    method TakeFromChunk(count: nat) returns (bytes: seq<byte>)
      requires Valid() && !finished && !needChunk && 0 < count <= remaining && count <= |input.buffer|
      modifies this, input, input.source
      ensures Valid() && |bytes| == count && bytes + Rest() == old(Rest())
    {
      ghost var start := input.Remaining();
      InChunkStep(start, remaining, count);
      bytes := input.Take(count);
      assert bytes == start[..count] && input.Remaining() == start[count..];
      remaining := remaining - count;
      if remaining == 0 { FinishChunk(); }
    }

    method FinishChunk()
      requires input.Valid() && remaining == 0 && !finished
      modifies this`needChunk, input, input.source
      ensures Valid() && Rest() == FromSizeLine(SkipTwo(old(input.Remaining())))
    {
      var enough := input.Fill(2);
      if enough { var _ := input.Take(2); }
      needChunk := true;
    }
  }

  lemma WrapStep(x: nat, v: nat)
    ensures (x % SIZE_LIMIT * 16 + v) % SIZE_LIMIT == (x * 16 + v) % SIZE_LIMIT
  {
    var q, r := x / SIZE_LIMIT, x % SIZE_LIMIT;
    assert x * 16 + v == (16 * q) * SIZE_LIMIT + (r * 16 + v);
    ModAddMultiple(16 * q, SIZE_LIMIT, r * 16 + v);
  }

  lemma InChunkStep(input: seq<byte>, left: nat, count: nat)
    requires 0 < count <= left && count <= |input|
    ensures InChunk(input, left) ==
            input[..count] + (if count < left then InChunk(input[count..], left - count)
                              else FromSizeLine(SkipTwo(input[left..])))
  {
    if count < left {
      var rest := input[count..];
      if |input| < left {
        assert input == input[..count] + rest;
      } else {
        assert input[..left] == input[..count] + rest[..left - count] && rest[left - count..] == input[left..];
      }
    }
  }

  // ---------------------------------------------------------------- round trip

  datatype Chunk = Chunk(data: seq<byte>, ext: seq<byte>)

  predicate GoodChunk(c: Chunk) { 0 < |c.data| < SIZE_LIMIT && GoodExtension(c.ext) }

  function ChunkWire(c: Chunk): seq<byte> { Hex(|c.data|) + c.ext + CRLF + c.data + CRLF }

  function ChunksWire(chunks: seq<Chunk>): seq<byte> {
    if chunks == [] then [] else ChunkWire(chunks[0]) + ChunksWire(chunks[1..])
  }

  function Payload(chunks: seq<Chunk>): seq<byte> {
    if chunks == [] then [] else chunks[0].data + Payload(chunks[1..])
  }

  lemma OneChunk(c: Chunk, rest: seq<byte>)
    requires GoodChunk(c)
    ensures FromSizeLine(ChunkWire(c) + rest) == c.data + FromSizeLine(rest)
  {
    var line, inside := Hex(|c.data|) + c.ext, c.data + (CRLF + rest);
    assert ChunkWire(c) + rest == line + (CRLF + inside);
    SizeLineRoundTrip(|c.data|, c.ext);
    SizeLineStarts(line, |c.data|, inside);
    ChunkEnds(c.data, rest);
  }

  lemma SizeLineStarts(line: seq<byte>, size: nat, inside: seq<byte>)
    requires LF !in line && LineSize(line) == Some(size) && size > 0
    ensures FromSizeLine(line + (CRLF + inside)) == InChunk(inside, size)
  {
    FirstLineOf(line, inside);
  }

  lemma ChunkEnds(data: seq<byte>, rest: seq<byte>)
    requires data != []
    ensures InChunk(data + (CRLF + rest), |data|) == data + FromSizeLine(rest)
  {
    var inside := data + (CRLF + rest);
    assert inside[..|data|] == data && inside[|data|..] == CRLF + rest && SkipTwo(CRLF + rest) == rest;
    InChunkStep(inside, |data|, |data|);
  }

  /** Any chunking of the data, with extensions, decodes to the data; `tail` may hold trailers, the
      final line end and other messages. */
  lemma {:induction false} ChunkedRoundTrip(chunks: seq<Chunk>, lastExt: seq<byte>, tail: seq<byte>)
    requires (forall i :: 0 <= i < |chunks| ==> GoodChunk(chunks[i])) && GoodExtension(lastExt)
    ensures FromSizeLine(ChunksWire(chunks) + (Hex(0) + lastExt + (CRLF + tail))) == Payload(chunks)
  {
    var last := Hex(0) + lastExt + (CRLF + tail);
    if chunks == [] {
      SizeLineRoundTrip(0, lastExt);
      FirstLineOf(Hex(0) + lastExt, tail);
      assert [] + last == last;
    } else {
      OneChunk(chunks[0], ChunksWire(chunks[1..]) + last);
      assert ChunksWire(chunks) + last == ChunkWire(chunks[0]) + (ChunksWire(chunks[1..]) + last);
      ChunkedRoundTrip(chunks[1..], lastExt, tail);
    }
  }

  const TERMINATOR: seq<byte> := [48, 13, 10, 13, 10]

  lemma TerminatorIs(after: seq<byte>)
    ensures TERMINATOR + after == Hex(0) + [] + (CRLF + (CRLF + after))
  {
    assert Hex(0) + [] == [48];
  }

  lemma PlainRoundTrip(chunks: seq<Chunk>, after: seq<byte>)
    requires forall i :: 0 <= i < |chunks| ==> GoodChunk(chunks[i])
    ensures FromSizeLine(ChunksWire(chunks) + TERMINATOR + after) == Payload(chunks)
  {
    ChunkedRoundTrip(chunks, [], CRLF + after);
    TerminatorIs(after);
    assert ChunksWire(chunks) + TERMINATOR + after == ChunksWire(chunks) + (TERMINATOR + after);
  }

  lemma {:induction false} ChunksSnoc(chunks: seq<Chunk>, c: Chunk)
    ensures ChunksWire(chunks + [c]) == ChunksWire(chunks) + ChunkWire(c)
  {
    if chunks == [] {
      assert chunks + [c] == [c] && [c][1..] == [];
      assert ChunkWire(c) + [] == ChunkWire(c) == [] + ChunkWire(c);
    } else {
      assert (chunks + [c])[1..] == chunks[1..] + [c];
      ChunksSnoc(chunks[1..], c);
      assert ChunkWire(chunks[0]) + (ChunksWire(chunks[1..]) + ChunkWire(c)) == ChunksWire(chunks) + ChunkWire(c);
    }
  }

  lemma {:induction false} PayloadSnoc(chunks: seq<Chunk>, c: Chunk)
    ensures Payload(chunks + [c]) == Payload(chunks) + c.data
  {
    if chunks == [] {
      assert chunks + [c] == [c] && [c][1..] == [];
      assert c.data + [] == c.data == [] + c.data;
    } else {
      assert (chunks + [c])[1..] == chunks[1..] + [c];
      PayloadSnoc(chunks[1..], c);
      assert chunks[0].data + (Payload(chunks[1..]) + c.data) == Payload(chunks) + c.data;
    }
  }

  /** Sends a body of unknown length, in whatever pieces it comes; it decodes to that body, whatever
      is sent after it. */
  method WriteChunkedBody(body: Source) returns (wire: seq<byte>)
    modifies body
    ensures forall after :: FromSizeLine(wire + after) == old(body.data)
  {
    wire := [];
    ghost var chunks: seq<Chunk> := [];
    while true
      invariant Payload(chunks) + body.data == old(body.data)
      invariant forall i :: 0 <= i < |chunks| ==> GoodChunk(chunks[i])
      invariant wire == ChunksWire(chunks)
      decreases |body.data|
    {
      var piece := body.Read(CHUNK);
      if piece == [] { break; }
      var head := FormatChunkHeader(|piece|);
      ChunksSnoc(chunks, Chunk(piece, []));
      PayloadSnoc(chunks, Chunk(piece, []));
      assert head + piece + CRLF == ChunkWire(Chunk(piece, []));
      assert Payload(chunks) + (piece + body.data) == Payload(chunks) + piece + body.data;
      wire := wire + (head + piece + CRLF);
      chunks := chunks + [Chunk(piece, [])];
    }
    wire := wire + TERMINATOR;
    assert Payload(chunks) + [] == old(body.data);
    forall after ensures FromSizeLine(wire + after) == old(body.data) { PlainRoundTrip(chunks, after); }
  }
}
