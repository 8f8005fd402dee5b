/** Multipart bodies (section 5.1.1 of RFC 2046), read part by part from a stream. */
module Multipart {
  import opened Arithmetic
  import opened Bytes
  import opened Streams

  const DASHES: seq<byte> := [45, 45]

  const SCRATCH: nat := 512

  // ---------------------------------------------------------------- the whole input at once

  /** The bytes before the first marker, or all of them. */
  function Body(input: seq<byte>, marker: seq<byte>): (body: seq<byte>)
    ensures body <= input
  {
    match Find(input, marker)
    case None => input
    case Some(i) => input[..i]
  }

  datatype Next = End | Part(lines: seq<seq<byte>>, rest: seq<byte>)

  function Prepend(lines: seq<seq<byte>>, next: Next): (r: Next)
    ensures r.Part? <==> next.Part?
  {
    match next
    case End => End
    case Part(more, rest) => Part(lines + more, rest)
  }

  /** The header lines up to the empty one, and what follows it. */
  function HeaderLines(input: seq<byte>): (r: Next)
    ensures r.Part? ==> |r.rest| < |input|
    decreases |input|
  {
    match FirstLine(input)
    case None => End
    case Some((line, rest)) => if line == [] then Part([], rest) else Prepend([line], HeaderLines(rest))
  }

  function AfterMarker(input: seq<byte>): (r: Next)
    ensures r.Part? ==> |r.rest| < |input|
  {
    if |input| < 2 || input[..2] == DASHES then End else HeaderLines(input[2..])
  }

  /** The next part: whatever precedes the marker is skipped. */
  function PartAfter(input: seq<byte>, marker: seq<byte>): (r: Next)
    ensures r.Part? ==> |r.rest| < |input|
  {
    match Find(input, marker)
    case None => End
    case Some(i) => AfterMarker(input[i + |marker|..])
  }

  /** All parts of an input, each with its header lines and its body. */
  function Parts(input: seq<byte>, marker: seq<byte>): seq<PartData>
    decreases |input|
  {
    match PartAfter(input, marker)
    case End => []
    case Part(lines, rest) => [(lines, Body(rest, marker))] + Parts(rest, marker)
  }

  // ---------------------------------------------------------------- reading does not matter

  /** Reading some of a body leaves the rest of it. */
  lemma BodyDrop(input: seq<byte>, marker: seq<byte>, k: nat)
    requires k <= |Body(input, marker)|
    ensures Body(input[k..], marker) == Body(input, marker)[k..]
  {
    FindDrop(input, marker, k);
  }

  /** What reads of a part return until the first empty one, each as `ReadPartBody` promises. */
  predicate Reads(input: seq<byte>, marker: seq<byte>, pieces: seq<seq<byte>>)
    decreases |pieces|
  {
    && pieces != [] && pieces[0] <= Body(input, marker)
    && (pieces[0] == [] <==> Body(input, marker) == [])
    && (if pieces[0] == [] then |pieces| == 1 else Reads(input[|pieces[0]|..], marker, pieces[1..]))
  }

  function Concat(pieces: seq<seq<byte>>): seq<byte> {
    if pieces == [] then [] else pieces[0] + Concat(pieces[1..])
  }

  /** Together they are exactly the bytes before the marker. */
  lemma {:induction false} ReadsMakeTheBody(input: seq<byte>, marker: seq<byte>, pieces: seq<seq<byte>>)
    requires Reads(input, marker, pieces)
    ensures Concat(pieces) == Body(input, marker)
    decreases |pieces|
  {
    if pieces[0] == [] {
    } else {
      BodyDrop(input, marker, |pieces[0]|);
      ReadsMakeTheBody(input[|pieces[0]|..], marker, pieces[1..]);
    }
  }

  lemma MarkerTaken(input: seq<byte>, marker: seq<byte>, rest: seq<byte>)
    requires Find(input, marker).Some? && rest == input[Find(input, marker).value + |marker|..]
    ensures PartAfter(input, marker) == AfterMarker(rest)
  {
  }

  /** However much of a part is read, the next part is the same. */
  lemma SkippingIsReading(input: seq<byte>, marker: seq<byte>, k: nat)
    requires k <= |Body(input, marker)|
    ensures PartAfter(input[k..], marker) == PartAfter(input, marker)
    ensures Find(input[k..], marker).Some? <==> Find(input, marker).Some?
  {
    FindDrop(input, marker, k);
    if Find(input, marker).Some? {
      var i := Find(input, marker).value;
      var rest := input[i + |marker|..];
      assert input[k..][i - k + |marker|..] == rest;
      MarkerTaken(input, marker, rest);
      MarkerTaken(input[k..], marker, rest);
    }
  }

  /** The input after the rest of an active part. */
  function Skipped(input: seq<byte>, marker: seq<byte>, active: bool): seq<byte> {
    if active then input[|Body(input, marker)|..] else input
  }

  lemma SkippedSame(input: seq<byte>, marker: seq<byte>, active: bool)
    ensures PartAfter(Skipped(input, marker, active), marker) == PartAfter(input, marker)
    ensures Find(Skipped(input, marker, active), marker).Some? <==> Find(input, marker).Some?
  {
    if active { SkippingIsReading(input, marker, |Body(input, marker)|); }
  }

  lemma SkipStep(input: seq<byte>, marker: seq<byte>, bytes: seq<byte>)
    requires bytes <= Body(input, marker) && (bytes == [] ==> Body(input, marker) == [])
    ensures Skipped(input[|bytes|..], marker, bytes != []) == Skipped(input, marker, true)
  {
    BodyDrop(input, marker, |bytes|);
    if bytes != [] { DropDrop(input, |bytes|, |Body(input, marker)| - |bytes|); }
  }

  /** The buffered bytes already decide the start of the body. */
  lemma BufferedBody(buffer: seq<byte>, data: seq<byte>, marker: seq<byte>, k: nat)
    requires marker != [] && k <= |buffer|
    requires if Find(buffer, marker).Some? then k <= Find(buffer, marker).value
             else k + |marker| <= |buffer| + 1 || data == []
    ensures buffer[..k] <= Body(buffer + data, marker)
    ensures Find(buffer, marker).Some? ==> |Body(buffer + data, marker)| == Find(buffer, marker).value
  {
    if Find(buffer, marker).Some? {
      FindAppend(buffer, data, marker);
    } else if data == [] {
      assert buffer + data == buffer;
    } else if Find(buffer + data, marker).Some? {
      FindBeyond(buffer, data, marker);
    }
  }

  // ---------------------------------------------------------------- the reader

  class Reader {
    const input: Buffered
    const marker: seq<byte>
    var finished: bool
    var active: bool

    ghost predicate Valid() reads this, input, input.source { marker != [] && input.Valid() }

    /** All input not yet consumed. */
    ghost function Remaining(): seq<byte> reads this, input, input.source { input.Remaining() }

    constructor (source: Source, boundary: seq<byte>)
      ensures Valid() && fresh(input) && input.source == source && marker == Marker(boundary)
      ensures Remaining() == CRLF + source.data && !finished && !active
    {
      input := new Buffered(source, CRLF);
      marker := Marker(boundary);
      finished, active := false, false;
    }

    /** Reads until the marker or the end of the input is in the buffer. */
    method EnsureDelimiterOrEof() returns (position: Option<nat>)
      requires Valid()
      modifies input, input.source
      ensures Valid() && Remaining() == old(Remaining())
      ensures position == Find(Remaining(), marker) && (position.Some? ==> At(input.buffer, marker, position.value))
    {
      while true
        invariant Valid() && Remaining() == old(Remaining())
        decreases |input.source.data|, !input.eof
      {
        var pos := Find(input.buffer, marker);
        if pos.Some? {
          FindAppend(input.buffer, input.source.data, marker);
          return pos;
        }
        if input.eof {
          assert Remaining() == input.buffer;
          return None;
        }
        var _ := input.FillMore();
      }
    }

    /** Takes bytes that cannot belong to a marker. */
    method Yield(k: nat) returns (bytes: seq<byte>)
      requires Valid() && k <= |input.buffer|
      requires if Find(input.buffer, marker).Some? then k <= Find(input.buffer, marker).value
               else k + |marker| <= |input.buffer| + 1 || input.source.data == []
      modifies input`buffer
      ensures Valid() && |bytes| == k && bytes <= Body(old(Remaining()), marker) && Remaining() == old(Remaining())[k..]
      ensures Find(old(input.buffer), marker).Some? ==>
                |Body(old(Remaining()), marker)| == Find(old(input.buffer), marker).value
    {
      BufferedBody(input.buffer, input.source.data, marker, k);
      bytes := input.Take(k);
    }

    /** Whatever the source's pieces and the sizes asked for: the bytes yielded are the next of
        the body, none exactly when it is at its end, and meanwhile the buffer never holds more than
        at the start or one marker and one fill. A read of zero bytes gives up the rest of the
        part. */
    method ReadPartBody(n: nat) returns (bytes: seq<byte>)
      requires Valid()
      modifies this`active, input, input.source
      ensures Valid() && |bytes| <= n
      ensures !old(active) ==> bytes == [] && Remaining() == old(Remaining())
      ensures old(active) ==>
                && bytes <= Body(old(Remaining()), marker)
                && Remaining() == old(Remaining())[|bytes|..]
                && (n >= 1 ==> (bytes == [] <==> Body(old(Remaining()), marker) == []))
      ensures active <==> bytes != []
      ensures n >= 1 ==> input.peak <= Max(old(|input.buffer|), |marker| + CHUNK)
    {
      input.peak := |input.buffer|;
      if !active { return []; }
      while true
        invariant Valid() && active && Remaining() == old(Remaining())
        invariant n >= 1 ==> input.peak <= Max(old(|input.buffer|), |marker| + CHUNK)
        decreases |input.source.data|, !input.eof
      {
        var pos := Find(input.buffer, marker);
        if pos.Some? {
          bytes := Yield(Min(n, pos.value));
          if bytes == [] { active := false; }
          return;
        }
        if |input.buffer| > |marker| && n > 0 {
          bytes := Yield(Min(n, |input.buffer| - (|marker| - 1)));
          return;
        }
        if input.eof {
          bytes := Yield(Min(n, |input.buffer|));
          if bytes == [] { active := false; }
          return;
        }
        var _ := input.FillMore();
      }
    }

    /** Discards what is left of the current part. */
    method SkipPart()
      requires Valid()
      modifies this`active, input, input.source
      ensures Valid() && !active && Remaining() == Skipped(old(Remaining()), marker, old(active))
    {
      while active
        invariant Valid() && Skipped(Remaining(), marker, active) == Skipped(old(Remaining()), marker, old(active))
        decreases active, |Remaining()|
      {
        ghost var before := Remaining();
        var bytes := ReadPartBody(SCRATCH);
        SkipStep(before, marker, bytes);
      }
    }

    /** Skips the current part, and the marker after it. */
    method SkipPastMarker() returns (found: bool)
      requires Valid()
      modifies this`active, input, input.source
      ensures Valid() && !active
      ensures found <==> Find(old(Remaining()), marker).Some?
      ensures found ==> PartAfter(old(Remaining()), marker) == AfterMarker(Remaining())
    {
      SkippedSame(Remaining(), marker, active);
      SkipPart();
      ghost var rest := Remaining();
      var position := EnsureDelimiterOrEof();
      if position.None? { return false; }
      var _ := input.Take(position.value + |marker|);
      MarkerTaken(rest, marker, Remaining());
      found := true;
    }

    /** The next part of the remaining input, or none from then on. */
    method NextPart() returns (lines: Option<seq<seq<byte>>>)
      requires Valid()
      modifies this, input, input.source
      ensures Valid()
      ensures old(finished) ==> lines == None && finished
      ensures !old(finished) ==>
                match PartAfter(old(Remaining()), marker)
                case End => lines == None && finished
                case Part(headers, rest) => lines == Some(headers) && Remaining() == rest && active && !finished
    {
      if finished { return None; }
      var found := SkipPastMarker();
      if !found {
        finished := true;
        return None;
      }
      var enough := input.Fill(2);
      assert |input.buffer| >= 2 ==> Remaining()[..2] == input.buffer[..2];
      if !enough || input.buffer[..2] == DASHES {
        finished := true;
        return None;
      }
      var _ := input.Take(2);
      lines := ReadHeaderLines();
      if lines.None? { finished := true; } else { active := true; }
    }

    method ReadHeaderLines() returns (lines: Option<seq<seq<byte>>>)
      requires Valid()
      modifies input, input.source
      ensures Valid()
      ensures match HeaderLines(old(Remaining()))
              case End => lines == None
              case Part(headers, rest) => lines == Some(headers) && Remaining() == rest
    {
      var headers: seq<seq<byte>> := [];
      PrependNone(HeaderLines(Remaining()));
      while true
        invariant Valid() && HeaderLines(old(Remaining())) == Prepend(headers, HeaderLines(Remaining()))
        decreases |Remaining()|
      {
        ghost var before := Remaining();
        var line := input.ReadLine();
        if line.None? { return None; }
        if line.value == [] {
          assert HeaderLines(before) == Part([], Remaining()) && headers + [] == headers;
          return Some(headers);
        }
        assert HeaderLines(before) == Prepend([line.value], HeaderLines(Remaining()));
        PrependTwice(headers, line.value, HeaderLines(Remaining()));
        headers := headers + [line.value];
      }
    }
  }

  lemma PrependNone(next: Next)
    ensures Prepend([], next) == next
  {
    if next.Part? { assert [] + next.lines == next.lines; }
  }

  lemma PrependTwice(lines: seq<seq<byte>>, line: seq<byte>, next: Next)
    ensures Prepend(lines, Prepend([line], next)) == Prepend(lines + [line], next)
  {
    if next.Part? { assert lines + ([line] + next.lines) == lines + [line] + next.lines; }
  }

  // ---------------------------------------------------------------- round trip

  type PartData = (seq<seq<byte>>, seq<byte>)

  function HeaderWire(lines: seq<seq<byte>>): seq<byte> {
    if lines == [] then CRLF else lines[0] + CRLF + HeaderWire(lines[1..])
  }

  /** A multipart body as senders write it, the line end before the first delimiter included. */
  function Wire(parts: seq<PartData>, marker: seq<byte>, epilogue: seq<byte>): seq<byte> {
    if parts == [] then marker + (DASHES + epilogue)
    else marker + (CRLF + (HeaderWire(parts[0].0) + (parts[0].1 + Wire(parts[1..], marker, epilogue))))
  }

  predicate GoodLines(lines: seq<seq<byte>>) {
    forall i :: 0 <= i < |lines| ==> lines[i] != [] && LF !in lines[i]
  }

  /** The boundary has no line end in it, and no body contains the marker. */
  predicate Sendable(parts: seq<PartData>, boundary: seq<byte>) {
    && CR !in boundary
    && forall i :: 0 <= i < |parts| ==> GoodLines(parts[i].0) && Find(parts[i].1, Marker(boundary)).None?
  }

  function Marker(boundary: seq<byte>): seq<byte> { CRLF + DASHES + boundary }

  lemma {:induction false} HeaderLinesOfWire(lines: seq<seq<byte>>, rest: seq<byte>)
    requires GoodLines(lines)
    ensures HeaderLines(HeaderWire(lines) + rest) == Part(lines, rest)
  {
    if lines == [] {
      FirstLineOf([], rest);
      assert [] + (CRLF + rest) == CRLF + rest;
    } else {
      var more := HeaderWire(lines[1..]) + rest;
      FirstLineOf(lines[0], more);
      assert HeaderWire(lines) + rest == lines[0] + (CRLF + more);
      HeaderLinesOfWire(lines[1..], rest);
      assert [lines[0]] + lines[1..] == lines;
    }
  }

  /** A marker cannot begin inside the body and end beyond it. */
  lemma BodyOfWire(body: seq<byte>, boundary: seq<byte>, rest: seq<byte>)
    requires CR !in boundary && Find(body, Marker(boundary)).None?
    ensures Body(body + (Marker(boundary) + rest), Marker(boundary)) == body
    ensures Find(body + (Marker(boundary) + rest), Marker(boundary)) == Some(|body|)
  {
    var marker := Marker(boundary);
    var input := body + (marker + rest);
    forall j: nat | j < |body| ensures !At(input, marker, j) {
      if j + |marker| <= |body| {
        AtAppend(body, marker + rest, marker, j);
      } else if j + |marker| <= |input| {
        assert input[j..j + |marker|][|body| - j] == input[|body|] == CR;
        assert marker[|body| - j] != CR;
      }
    }
    assert input[|body|..|body| + |marker|] == marker;
    FindIs(input, marker, |body|);
  }

  lemma MarkerFirst(marker: seq<byte>, rest: seq<byte>)
    ensures Find(marker + rest, marker) == Some(0) && (marker + rest)[|marker|..] == rest
  {
    assert (marker + rest)[0..|marker|] == marker;
    FindIs(marker + rest, marker, 0);
  }

  lemma LastMarker(marker: seq<byte>, epilogue: seq<byte>)
    ensures PartAfter(marker + (DASHES + epilogue), marker) == End
  {
    MarkerFirst(marker, DASHES + epilogue);
    assert (DASHES + epilogue)[..2] == DASHES;
  }

  /** Every part comes back with its header lines and its body, whatever follows the last one. */
  lemma {:induction false} PartsOfWire(parts: seq<PartData>, boundary: seq<byte>, epilogue: seq<byte>)
    requires Sendable(parts, boundary)
    ensures Parts(Wire(parts, Marker(boundary), epilogue), Marker(boundary)) == parts
  {
    var marker := Marker(boundary);
    if parts == [] {
      LastMarker(marker, epilogue);
    } else {
      OnePart(parts, boundary, epilogue);
      PartsOfWire(parts[1..], boundary, epilogue);
      assert [parts[0]] + parts[1..] == parts;
    }
  }

  lemma OnePart(parts: seq<PartData>, boundary: seq<byte>, epilogue: seq<byte>)
    requires parts != [] && Sendable(parts, boundary)
    ensures var marker := Marker(boundary);
            Parts(Wire(parts, marker, epilogue), marker) ==
            [parts[0]] + Parts(Wire(parts[1..], marker, epilogue), marker)
  {
    var marker := Marker(boundary);
    var later := Wire(parts[1..], marker, epilogue);
    FirstPart(parts[0], later, marker);
    LaterParts(parts, boundary, epilogue);
    PartsUnfold(Wire(parts, marker, epilogue), marker, parts[0], parts[0].1 + later, Parts(later, marker));
  }

  lemma PartsUnfold(input: seq<byte>, marker: seq<byte>, part: PartData, rest: seq<byte>, more: seq<PartData>)
    requires PartAfter(input, marker) == Part(part.0, rest)
    requires Body(rest, marker) == part.1 && Parts(rest, marker) == more
    ensures Parts(input, marker) == [part] + more
  {
  }

  lemma FirstPart(part: PartData, later: seq<byte>, marker: seq<byte>)
    requires GoodLines(part.0)
    ensures PartAfter(marker + (CRLF + (HeaderWire(part.0) + (part.1 + later))), marker) == Part(part.0, part.1 + later)
  {
    var headers := HeaderWire(part.0) + (part.1 + later);
    MarkerFirst(marker, CRLF + headers);
    assert (CRLF + headers)[..2] == CRLF && (CRLF + headers)[2..] == headers;
    HeaderLinesOfWire(part.0, part.1 + later);
  }

  /** The rest of the input, seen past the body. */
  lemma LaterParts(parts: seq<PartData>, boundary: seq<byte>, epilogue: seq<byte>)
    requires parts != [] && Sendable(parts, boundary)
    ensures var marker := Marker(boundary);
            var later := Wire(parts[1..], marker, epilogue);
            && Body(parts[0].1 + later, marker) == parts[0].1
            && Parts(parts[0].1 + later, marker) == Parts(later, marker)
  {
    var marker := Marker(boundary);
    var body, later := parts[0].1, Wire(parts[1..], marker, epilogue);
    var tail := later[|marker|..];
    assert later == marker + tail;
    BodyOfWire(body, boundary, tail);
    SkippingIsReading(body + later, marker, |body|);
    assert (body + later)[|body|..] == later;
  }
}
