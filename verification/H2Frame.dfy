/** HTTP/2 framing (section 4.1 of RFC 9113): the nine-byte frame header, padding, and cutting a
    byte stream back into frames. */
module H2Frame {
  import opened Bytes

  datatype Frame = Frame(kind: byte, flags: byte, streamId: nat, payload: seq<byte>)

  const HEADER_SIZE: nat := 9
  const MAX_LENGTH: nat := 0x100_0000
  const MAX_STREAM_ID: nat := 0x8000_0000

  predicate Sized(f: Frame) { |f.payload| < MAX_LENGTH && f.streamId < MAX_STREAM_ID }

  /** `frame_header::write` followed by the payload: the length keeps 24 bits, the id 31. */
  function FrameBytes(f: Frame): (bytes: seq<byte>)
    ensures |bytes| == HEADER_SIZE + |f.payload|
  {
    BigEndian(|f.payload|, 3) + [f.kind, f.flags] + BigEndian(f.streamId % MAX_STREAM_ID, 4) + f.payload
  }

  function FramesBytes(frames: seq<Frame>): seq<byte> {
    if frames == [] then [] else FramesBytes(frames[..|frames| - 1]) + FrameBytes(frames[|frames| - 1])
  }

  /** What a reader makes of the first bytes of a stream: `frame_header::parse`, then the payload. */
  function FirstFrame(wire: seq<byte>): (r: Option<Frame>)
    ensures r.Some? ==> HEADER_SIZE + |r.value.payload| <= |wire|
  {
    if |wire| < HEADER_SIZE then None
    else
      var length := FromBigEndian(wire[..3]);
      if |wire| < HEADER_SIZE + length then None
      else Some(Frame(wire[3], wire[4], FromBigEndian(wire[5..9]) % MAX_STREAM_ID, wire[9..9 + length]))
  }

  /** All complete frames of a stream, in order. */
  function Deframe(wire: seq<byte>): seq<Frame> {
    match FirstFrame(wire)
    case None => []
    case Some(f) => [f] + Deframe(wire[HEADER_SIZE + |f.payload|..])
  }

  lemma HeaderRoundTrip(f: Frame, rest: seq<byte>)
    requires Sized(f)
    ensures FirstFrame(FrameBytes(f) + rest) == Some(f)
  {
    HeaderNumbers(f);
    HeaderSlices(f, rest);
  }

  lemma HeaderNumbers(f: Frame)
    requires Sized(f)
    ensures FromBigEndian(BigEndian(|f.payload|, 3)) == |f.payload|
    ensures FromBigEndian(BigEndian(f.streamId, 4)) == f.streamId
  {
    assert Pow256(1) == 256 && Pow256(2) == 0x1_0000 && Pow256(3) == MAX_LENGTH && Pow256(4) == 0x1_0000_0000;
    BigEndianRoundTrip(|f.payload|, 3);
    BigEndianRoundTrip(f.streamId, 4);
  }

  lemma HeaderSlices(f: Frame, rest: seq<byte>)
    requires Sized(f)
    ensures var wire := FrameBytes(f) + rest;
            && wire[..3] == BigEndian(|f.payload|, 3) && wire[3] == f.kind && wire[4] == f.flags
            && wire[5..9] == BigEndian(f.streamId, 4) && wire[9..9 + |f.payload|] == f.payload
  {
    var length, kinds, id := BigEndian(|f.payload|, 3), [f.kind, f.flags], BigEndian(f.streamId, 4);
    assert FrameBytes(f) == length + kinds + id + f.payload;
    FiveParts(length, kinds, id, f.payload, rest);
  }

  lemma FiveParts<T>(a: seq<T>, b: seq<T>, c: seq<T>, d: seq<T>, e: seq<T>)
    requires |a| == 3 && |b| == 2 && |c| == 4
    ensures var all := a + b + c + d + e;
            all[..3] == a && all[3] == b[0] && all[4] == b[1] && all[5..9] == c && all[9..9 + |d|] == d
  {
  }

  /** A proper prefix of a frame holds no complete frame. */
  lemma PartialFrame(f: Frame, n: nat)
    requires Sized(f) && n < |FrameBytes(f)|
    ensures FirstFrame(FrameBytes(f)[..n]) == None
  {
    if n >= HEADER_SIZE {
      HeaderNumbers(f);
      assert FrameBytes(f)[..n][..3] == BigEndian(|f.payload|, 3);
    }
  }

  lemma FramesBytesSnoc(frames: seq<Frame>, f: Frame)
    ensures FramesBytes(frames + [f]) == FramesBytes(frames) + FrameBytes(f)
  {
    assert (frames + [f])[..|frames|] == frames;
  }

  lemma {:induction false} FramesBytesCons(f: Frame, frames: seq<Frame>)
    ensures FramesBytes([f] + frames) == FrameBytes(f) + FramesBytes(frames)
  {
    if frames == [] {
      FramesBytesSnoc([], f);
      assert [f] + frames == [] + [f] && FrameBytes(f) + [] == [] + FrameBytes(f);
    } else {
      var init, last := frames[..|frames| - 1], frames[|frames| - 1];
      FramesBytesSnoc([f] + init, last);
      assert [f] + frames == [f] + init + [last];
      FramesBytesCons(f, init);
      Regroup(FrameBytes(f), FramesBytes(init), FrameBytes(last));
    }
  }

  /** Cutting a stream of complete frames and an unfinished one gives back exactly the complete
      frames, in order. */
  lemma {:induction false} DeframeInverts(frames: seq<Frame>, tail: seq<byte>)
    requires (forall i :: 0 <= i < |frames| ==> Sized(frames[i])) && FirstFrame(tail) == None
    ensures Deframe(FramesBytes(frames) + tail) == frames
  {
    if frames == [] {
      assert FramesBytes(frames) + tail == tail;
    } else {
      var f, rest := frames[0], frames[1..];
      assert frames == [f] + rest;
      FramesBytesCons(f, rest);
      var after := FramesBytes(rest) + tail;
      assert FramesBytes(frames) + tail == FrameBytes(f) + after;
      HeaderRoundTrip(f, after);
      assert (FrameBytes(f) + after)[|FrameBytes(f)|..] == after;
      DeframeInverts(rest, tail);
    }
  }

  /** `strip_padding`: offset and length of the content, or failure. */
  function StripPadding(payload: seq<byte>, padded: bool): (r: Option<(nat, nat)>)
    ensures r.Some? ==> r.value.0 + r.value.1 <= |payload|
    ensures r.None? <==> padded && (payload == [] || payload[0] + 1 > |payload|)
  {
    if !padded then Some((0, |payload|))
    else if |payload| < 1 then None
    else if payload[0] + 1 > |payload| then None
    else Some((1, |payload| - 1 - payload[0]))
  }

  function Padded(content: seq<byte>, padding: seq<byte>): seq<byte>
    requires |padding| < 256
  {
    [|padding|] + content + padding
  }

  /** Padding is removed exactly. */
  lemma PaddingRoundTrip(content: seq<byte>, padding: seq<byte>)
    requires |padding| < 256
    ensures var p := Padded(content, padding);
            StripPadding(p, true) == Some((1, |content|)) && p[1..1 + |content|] == content
  {
    var p := Padded(content, padding);
    assert p[1..1 + |content|] == content;
  }
}
