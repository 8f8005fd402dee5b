/** WebSocket frames and messages (sections 5.2 to 5.5 of RFC 6455). */
module WebSocket {
  import opened Arithmetic
  import opened Bytes
  import opened Streams

  const CONTINUATION: byte := 0
  const TEXT: byte := 1
  const BINARY: byte := 2
  const CLOSE: byte := 8
  const PING: byte := 9
  const PONG: byte := 10

  // ---------------------------------------------------------------- masking

  /** Exclusive or of the low `n` bits. */
  function XorBits(a: nat, b: nat, n: nat): (r: nat)
    ensures r < Pow2(n)
  {
    if n == 0 then 0 else 2 * XorBits(a / 2, b / 2, n - 1) + if a % 2 == b % 2 then 0 else 1
  }

  function Xor(a: byte, b: byte): byte {
    assert Pow2(8) == 256;
    XorBits(a, b, 8)
  }

  lemma {:induction false} XorBitsTwice(a: nat, b: nat, n: nat)
    requires a < Pow2(n)
    ensures XorBits(XorBits(a, b, n), b, n) == a
  {
    if n == 0 {
    } else {
      var r := XorBits(a, b, n);
      assert r / 2 == XorBits(a / 2, b / 2, n - 1) && r % 2 == if a % 2 == b % 2 then 0 else 1;
      XorBitsTwice(a / 2, b / 2, n - 1);
    }
  }

  predicate IsKey(key: seq<byte>) { |key| == 4 }

  function Masked(data: seq<byte>, key: seq<byte>): (r: seq<byte>)
    requires IsKey(key)
    ensures |r| == |data| && forall i :: 0 <= i < |data| ==> r[i] == Xor(data[i], key[i % 4])
  {
    seq(|data|, i requires 0 <= i < |data| => Xor(data[i], key[i % 4]))
  }

  /** Unmasking inverts masking. */
  lemma MaskedTwice(data: seq<byte>, key: seq<byte>)
    requires IsKey(key)
    ensures Masked(Masked(data, key), key) == data
  {
    var twice := Masked(Masked(data, key), key);
    forall i | 0 <= i < |data| ensures twice[i] == data[i] {
      assert Pow2(8) == 256;
      XorBitsTwice(data[i], key[i % 4], 8);
    }
  }

  /** Masks or unmasks in place. */
  method Unmask(payload: array<byte>, key: seq<byte>)
    requires IsKey(key)
    modifies payload
    ensures payload[..] == Masked(old(payload[..]), key)
  {
    for i := 0 to payload.Length
      invariant forall j :: 0 <= j < i ==> payload[j] == Xor(old(payload[j]), key[j % 4])
      invariant forall j :: i <= j < payload.Length ==> payload[j] == old(payload[j])
    {
      payload[i] := Xor(payload[i], key[i % 4]);
    }
  }

  // ---------------------------------------------------------------- frames

  datatype Frame = Frame(fin: bool, opcode: byte, payload: seq<byte>)

  predicate Fits(f: Frame) { f.opcode < 16 && |f.payload| < Pow256(8) }

  /** The length field: seven bits, or a marker and two or eight bytes. */
  function LengthWire(n: nat): seq<byte> {
    if n <= 125 then [n] else if n <= 0xFFFF then [126] + BigEndian(n, 2) else [127] + BigEndian(n, 8)
  }

  function WithMaskBit(length: seq<byte>): seq<byte>
    requires length != [] && length[0] < 128
  {
    [length[0] + 128] + length[1..]
  }

  function FirstByte(fin: bool, opcode: byte): byte { (if fin then 128 else 0) + opcode % 16 }

  /** A frame on the wire; servers send no key, clients do. */
  function FrameWire(f: Frame, key: Option<seq<byte>>): seq<byte>
    requires key.Some? ==> IsKey(key.value)
  {
    var length := LengthWire(|f.payload|);
    [FirstByte(f.fin, f.opcode)] +
    if key.Some? then WithMaskBit(length) + key.value + Masked(f.payload, key.value) else length + f.payload
  }

  /** Bytes of extended length after the second byte. */
  function ExtendedSize(lengthBits: nat): nat { if lengthBits == 126 then 2 else if lengthBits == 127 then 8 else 0 }

  /** The length, the key and what follows, given the second byte. */
  function LengthAndRest(second: byte, input: seq<byte>): (r: Option<(nat, seq<byte>)>)
    ensures r.Some? ==> |r.value.1| <= |input|
  {
    var n := ExtendedSize(second % 128);
    if |input| < n then None
    else Some((if n == 0 then second % 128 else FromBigEndian(input[..n]), input[n..]))
  }

  function KeyAndRest(second: byte, input: seq<byte>): (r: Option<(Option<seq<byte>>, seq<byte>)>)
    ensures r.Some? ==> |r.value.1| <= |input| && (r.value.0.Some? ==> IsKey(r.value.0.value))
  {
    if second < 128 then Some((None, input))
    else if |input| < 4 then None
    else Some((Some(input[..4]), input[4..]))
  }

  /** The first frame of an input and what follows it. */
  function ParseFrame(input: seq<byte>): (r: Option<(Frame, seq<byte>)>)
    ensures r.Some? ==> |r.value.1| < |input| && |r.value.0.payload| < |input|
  {
    if |input| < 2 then None
    else
      match LengthAndRest(input[1], input[2..])
      case None => None
      case Some((length, rest)) =>
        match KeyAndRest(input[1], rest)
        case None => None
        case Some((key, rest)) =>
          if |rest| < length then None else Some((FrameOf(input[0], key, rest[..length]), rest[length..]))
  }

  function FrameOf(first: byte, key: Option<seq<byte>>, data: seq<byte>): (f: Frame)
    requires key.Some? ==> IsKey(key.value)
    ensures |f.payload| == |data|
  {
    Frame(first >= 128, first % 16, if key.Some? then Masked(data, key.value) else data)
  }

  lemma LengthRoundTrip(n: nat, masked: bool, rest: seq<byte>)
    requires n < Pow256(8)
    ensures var length := LengthWire(n);
            var wire := if masked then WithMaskBit(length) else length;
            && wire != [] && (wire[0] >= 128 <==> masked)
            && LengthAndRest(wire[0], wire[1..] + rest) == Some((n, rest))
  {
    var length := LengthWire(n);
    var ext := length[1..];
    var wire := if masked then WithMaskBit(length) else length;
    assert wire[1..] == ext && wire[0] % 128 == length[0];
    var k := ExtendedSize(length[0]);
    if n > 125 {
      assert ext == BigEndian(n, k);
      assert Pow256(2) == 0x1_0000;
      BigEndianRoundTrip(n, k);
    }
    assert (ext + rest)[..k] == ext && (ext + rest)[k..] == rest;
  }

  function KeyBytes(key: Option<seq<byte>>): seq<byte> { if key.Some? then key.value else [] }

  function OnWire(data: seq<byte>, key: Option<seq<byte>>): (r: seq<byte>)
    requires key.Some? ==> IsKey(key.value)
    ensures |r| == |data|
  {
    if key.Some? then Masked(data, key.value) else data
  }

  lemma WireShape(f: Frame, key: Option<seq<byte>>, rest: seq<byte>, length: seq<byte>)
    requires (key.Some? ==> IsKey(key.value)) && length == LengthWire(|f.payload|)
    ensures var wire := if key.Some? then WithMaskBit(length) else length;
            FrameWire(f, key) + rest ==
            [FirstByte(f.fin, f.opcode)] + (wire + (KeyBytes(key) + (OnWire(f.payload, key) + rest)))
  {
  }

  lemma KeyRoundTrip(second: byte, key: Option<seq<byte>>, rest: seq<byte>)
    requires (key.Some? ==> IsKey(key.value)) && (second >= 128 <==> key.Some?)
    ensures KeyAndRest(second, KeyBytes(key) + rest) == Some((key, rest))
  {
    if key.Some? { assert (key.value + rest)[..4] == key.value && (key.value + rest)[4..] == rest; }
    else { assert [] + rest == rest; }
  }

  lemma ContentRoundTrip(f: Frame, key: Option<seq<byte>>)
    requires Fits(f) && (key.Some? ==> IsKey(key.value))
    ensures FrameOf(FirstByte(f.fin, f.opcode), key, OnWire(f.payload, key)) == f
  {
    if key.Some? { MaskedTwice(f.payload, key.value); }
  }

  lemma ParseSteps(input: seq<byte>, length: nat, afterLength: seq<byte>, key: Option<seq<byte>>, afterKey: seq<byte>)
    requires |input| >= 2 && LengthAndRest(input[1], input[2..]) == Some((length, afterLength))
    requires KeyAndRest(input[1], afterLength) == Some((key, afterKey)) && |afterKey| >= length
    ensures ParseFrame(input) == Some((FrameOf(input[0], key, afterKey[..length]), afterKey[length..]))
  {
  }

  lemma ParsedShape(first: byte, wire: seq<byte>, key: Option<seq<byte>>, data: seq<byte>, rest: seq<byte>)
    requires wire != [] && (key.Some? ==> IsKey(key.value)) && (wire[0] >= 128 <==> key.Some?)
    requires LengthAndRest(wire[0], wire[1..] + (KeyBytes(key) + (data + rest))) ==
             Some((|data|, KeyBytes(key) + (data + rest)))
    ensures ParseFrame([first] + (wire + (KeyBytes(key) + (data + rest)))) == Some((FrameOf(first, key, data), rest))
  {
    var tail := KeyBytes(key) + (data + rest);
    var input := [first] + (wire + tail);
    assert input[0] == first && input[1] == wire[0] && input[2..] == wire[1..] + tail;
    KeyRoundTrip(wire[0], key, data + rest);
    ParseSteps(input, |data|, tail, key, data + rest);
    assert (data + rest)[..|data|] == data && (data + rest)[|data|..] == rest;
  }

  /** Reading a written frame gives the frame back, for every length form and every key. */
  lemma FrameRoundTrip(f: Frame, key: Option<seq<byte>>, rest: seq<byte>)
    requires Fits(f) && (key.Some? ==> IsKey(key.value))
    ensures ParseFrame(FrameWire(f, key) + rest) == Some((f, rest))
  {
    var length := LengthWire(|f.payload|);
    var wire := if key.Some? then WithMaskBit(length) else length;
    var data := OnWire(f.payload, key);
    WireShape(f, key, rest, length);
    LengthRoundTrip(|f.payload|, key.Some?, KeyBytes(key) + (data + rest));
    ParsedShape(FirstByte(f.fin, f.opcode), wire, key, data, rest);
    ContentRoundTrip(f, key);
  }

  // ---------------------------------------------------------------- messages

  datatype Message = Message(text: bool, data: seq<byte>)

  /** What receiving does to a whole input: the message if any, what is left, and the frames sent
      in reply. */
  datatype Outcome = Outcome(message: Option<Message>, rest: seq<byte>, replies: seq<Frame>, closed: bool)

  function CloseFrame(code: nat, reason: seq<byte>): Frame {
    Frame(true, CLOSE, [code / 256 % 256, code % 256] + reason)
  }

  const PROTOCOL_ERROR: nat := 1002
  const UNEXPECTED := Ascii("unexpected continuation frame")
  const UNSUPPORTED := Ascii("unsupported opcode")

  function Replying(replies: seq<Frame>, o: Outcome): Outcome { o.(replies := replies + o.replies) }

  /** `kind` is the opcode of the message being assembled, `data` what has been seen of it. */
  function Receiving(input: seq<byte>, kind: Option<byte>, data: seq<byte>): Outcome
    decreases |input|, 0
  {
    match ParseFrame(input)
    case None => Outcome(None, input, [], true)
    case Some((f, rest)) => Reacting(f, rest, kind, data)
  }

  function Reacting(f: Frame, rest: seq<byte>, kind: Option<byte>, data: seq<byte>): Outcome
    decreases |rest|, 1
  {
    if f.opcode == CLOSE then Outcome(None, rest, [Frame(true, CLOSE, f.payload)], true)
    else if f.opcode == PING then Replying([Frame(true, PONG, f.payload)], Receiving(rest, kind, data))
    else if f.opcode == PONG then Receiving(rest, kind, data)
    else if f.opcode == CONTINUATION && kind.None? then
      Outcome(None, rest, [CloseFrame(PROTOCOL_ERROR, UNEXPECTED)], true)
    else if f.opcode > BINARY then Outcome(None, rest, [CloseFrame(PROTOCOL_ERROR, UNSUPPORTED)], true)
    else
      var kind' := if f.opcode == CONTINUATION then kind.value else f.opcode;
      var data' := if f.opcode == CONTINUATION then data + f.payload else f.payload;
      if f.fin then Outcome(Some(Message(kind' == TEXT, data')), rest, [], false)
      else Receiving(rest, Some(kind'), data')
  }

  predicate IsControl(f: Frame) { f.opcode == PING || f.opcode == PONG }

  /** One message in fragments, with pings and pongs in between; `started` after the first one. */
  predicate OneMessage(fs: seq<Frame>, started: bool) {
    && fs != [] && Fits(fs[0])
    && if IsControl(fs[0]) then OneMessage(fs[1..], started)
       else
         && OfMessage(fs[0], started)
         && if fs[0].fin then |fs| == 1 else OneMessage(fs[1..], true)
  }

  function Data(fs: seq<Frame>): seq<byte> {
    if fs == [] then [] else (if IsControl(fs[0]) then [] else fs[0].payload) + Data(fs[1..])
  }

  function Kind(fs: seq<Frame>): byte {
    if fs == [] then CONTINUATION else if IsControl(fs[0]) then Kind(fs[1..]) else fs[0].opcode
  }

  /** The answers to the pings, in order. */
  function Pongs(fs: seq<Frame>): seq<Frame> {
    if fs == [] then []
    else (if fs[0].opcode == PING then [Frame(true, PONG, fs[0].payload)] else []) + Pongs(fs[1..])
  }

  predicate Keys(keys: seq<Option<seq<byte>>>) {
    forall i :: 0 <= i < |keys| ==> keys[i].Some? ==> IsKey(keys[i].value)
  }

  function FramesWire(fs: seq<Frame>, keys: seq<Option<seq<byte>>>): seq<byte>
    requires |keys| == |fs| && Keys(keys)
  {
    if fs == [] then [] else FrameWire(fs[0], keys[0]) + FramesWire(fs[1..], keys[1..])
  }

  // Boxed, so that proofs about sequences of frames do not unfold the parser.

  ghost predicate Delivers(input: seq<byte>, kind: Option<byte>, data: seq<byte>, o: Outcome) {
    forall x :: x == input ==> Receiving(x, kind, data) == o
  }

  ghost predicate Reacts(f: Frame, rest: seq<byte>, kind: Option<byte>, data: seq<byte>, o: Outcome) {
    forall x :: x == rest ==> Reacting(f, x, kind, data) == o
  }

  lemma FirstOfFrames(fs: seq<Frame>, keys: seq<Option<seq<byte>>>, rest: seq<byte>, kind: Option<byte>,
                      data: seq<byte>, o: Outcome)
    requires fs != [] && Fits(fs[0]) && |keys| == |fs| && Keys(keys)
    requires Reacts(fs[0], FramesWire(fs[1..], keys[1..]) + rest, kind, data, o)
    ensures Delivers(FramesWire(fs, keys) + rest, kind, data, o)
  {
    var after := FramesWire(fs[1..], keys[1..]) + rest;
    Regroup(FrameWire(fs[0], keys[0]), FramesWire(fs[1..], keys[1..]), rest);
    FrameRoundTrip(fs[0], keys[0], after);
    assert Reacting(fs[0], after, kind, data) == o;
  }

  lemma ControlFrame(f: Frame, rest: seq<byte>, kind: Option<byte>, data: seq<byte>, o: Outcome)
    requires IsControl(f) && Delivers(rest, kind, data, o)
    ensures Reacts(f, rest, kind, data, Replying(if f.opcode == PING then [Frame(true, PONG, f.payload)] else [], o))
  {
    assert Receiving(rest, kind, data) == o && [] + o.replies == o.replies;
  }

  /** The opcode of the message that f begins or goes on with. */
  function KindWith(kind: Option<byte>, f: Frame): byte { if kind.Some? then kind.value else f.opcode }

  predicate OfMessage(f: Frame, started: bool) {
    if started then f.opcode == CONTINUATION else f.opcode == TEXT || f.opcode == BINARY
  }

  lemma LastDataFrame(f: Frame, rest: seq<byte>, kind: Option<byte>, data: seq<byte>)
    requires OfMessage(f, kind.Some?) && f.fin && (kind.None? ==> data == [])
    ensures Reacts(f, rest, kind, data,
                   Outcome(Some(Message(KindWith(kind, f) == TEXT, data + f.payload)), rest, [], false))
  {
    assert kind.None? ==> data + f.payload == f.payload;
  }

  lemma EarlierDataFrame(f: Frame, rest: seq<byte>, kind: Option<byte>, data: seq<byte>, o: Outcome)
    requires OfMessage(f, kind.Some?) && !f.fin && (kind.None? ==> data == [])
    requires Delivers(rest, Some(KindWith(kind, f)), data + f.payload, o)
    ensures Reacts(f, rest, kind, data, o)
  {
    assert Receiving(rest, Some(KindWith(kind, f)), data + f.payload) == o;
    assert kind.None? ==> data + f.payload == f.payload;
  }

  /** What receiving the frames of one message must give. */
  function Whole(fs: seq<Frame>, rest: seq<byte>, kind: Option<byte>, data: seq<byte>): Outcome {
    var opcode := if kind.Some? then kind.value else Kind(fs);
    Outcome(Some(Message(opcode == TEXT, data + Data(fs))), rest, Pongs(fs), false)
  }

  lemma WholeControl(fs: seq<Frame>, rest: seq<byte>, kind: Option<byte>, data: seq<byte>)
    requires fs != [] && IsControl(fs[0])
    ensures var pongs := if fs[0].opcode == PING then [Frame(true, PONG, fs[0].payload)] else [];
            Whole(fs, rest, kind, data) == Replying(pongs, Whole(fs[1..], rest, kind, data))
  {
    assert [] + Data(fs[1..]) == Data(fs[1..]);
  }

  lemma WholeData(fs: seq<Frame>, rest: seq<byte>, kind: Option<byte>, data: seq<byte>)
    requires fs != [] && !IsControl(fs[0])
    ensures Whole(fs, rest, kind, data) == Whole(fs[1..], rest, Some(KindWith(kind, fs[0])), data + fs[0].payload)
  {
    Regroup(data, fs[0].payload, Data(fs[1..]));
    assert [] + Pongs(fs[1..]) == Pongs(fs[1..]);
  }

  lemma WholeLast(f: Frame, rest: seq<byte>, kind: Option<byte>, data: seq<byte>)
    requires !IsControl(f)
    ensures Whole([f], rest, kind, data)
         == Outcome(Some(Message(KindWith(kind, f) == TEXT, data + f.payload)), rest, [], false)
  {
    WholeData([f], rest, kind, data);
    assert [f][1..] == [] && data + f.payload + [] == data + f.payload;
  }

  lemma {:induction false} FramesDeliver(fs: seq<Frame>, keys: seq<Option<seq<byte>>>, rest: seq<byte>,
                                         kind: Option<byte>, data: seq<byte>)
    requires OneMessage(fs, kind.Some?) && |keys| == |fs| && Keys(keys) && (kind.None? ==> data == [])
    ensures Delivers(FramesWire(fs, keys) + rest, kind, data, Whole(fs, rest, kind, data))
    decreases fs
  {
    var f, o, after := fs[0], Whole(fs, rest, kind, data), FramesWire(fs[1..], keys[1..]) + rest;
    if IsControl(f) {
      FramesDeliver(fs[1..], keys[1..], rest, kind, data);
      ControlFrame(f, after, kind, data, Whole(fs[1..], rest, kind, data));
      WholeControl(fs, rest, kind, data);
    } else if f.fin {
      assert fs == [f] && after == rest;
      LastDataFrame(f, rest, kind, data);
      WholeLast(f, rest, kind, data);
    } else {
      FramesDeliver(fs[1..], keys[1..], rest, Some(KindWith(kind, f)), data + f.payload);
      WholeData(fs, rest, kind, data);
      EarlierDataFrame(f, after, kind, data, o);
    }
    FirstOfFrames(fs, keys, rest, kind, data, o);
  }

  /** However a message is cut into fragments, masked and interleaved with pings and pongs, the same
      message comes out, and the pongs echo the pings in order. */
  lemma FragmentationIsInvisible(fs: seq<Frame>, keys: seq<Option<seq<byte>>>, rest: seq<byte>)
    requires OneMessage(fs, false) && |keys| == |fs| && Keys(keys)
    ensures Receiving(FramesWire(fs, keys) + rest, None, []) ==
            Outcome(Some(Message(Kind(fs) == TEXT, Data(fs))), rest, Pongs(fs), false)
  {
    FramesDeliver(fs, keys, rest, None, []);
    assert [] + Data(fs) == Data(fs);
    assert Delivers(FramesWire(fs, keys) + rest, None, [], Whole(fs, rest, None, []));
  }

  // ---------------------------------------------------------------- the connection

  function SentWire(fs: seq<Frame>): seq<byte> {
    if fs == [] then [] else SentWire(fs[..|fs| - 1]) + FrameWire(fs[|fs| - 1], None)
  }

  function CloseCount(fs: seq<Frame>): nat {
    if fs == [] then 0 else CloseCount(fs[..|fs| - 1]) + if fs[|fs| - 1].opcode == CLOSE then 1 else 0
  }

  lemma SentSnoc(fs: seq<Frame>, f: Frame)
    ensures SentWire(fs + [f]) == SentWire(fs) + FrameWire(f, None)
    ensures CloseCount(fs + [f]) == CloseCount(fs) + if f.opcode == CLOSE then 1 else 0
  {
    assert (fs + [f])[..|fs|] == fs;
  }

  /** n >> 8 * k */
  function ShiftBytes(n: nat, k: nat): nat {
    if k == 0 then n else ShiftBytes(n, k - 1) / 256
  }

  /** Eight bytes, from the most significant on. */
  method LengthBytes(n: nat) returns (bytes: seq<byte>)
    ensures bytes == BigEndian(n, 8)
  {
    bytes := [];
    for i := 0 to 8
      invariant bytes == BigEndian(ShiftBytes(n, 8 - i), i)
    {
      bytes := bytes + [ShiftBytes(n, 7 - i) % 256];
    }
  }

  lemma TwoBytes(bytes: seq<byte>)
    requires |bytes| == 2
    ensures FromBigEndian(bytes) == bytes[0] as int * 256 + bytes[1]
  {
    assert bytes[..1] == [bytes[0]] && [bytes[0]][..0] == [];
    assert FromBigEndian([bytes[0]]) == bytes[0];
  }

  method FrameHeader(fin: bool, opcode: byte, n: nat) returns (header: seq<byte>)
    ensures header == [FirstByte(fin, opcode)] + LengthWire(n)
  {
    header := [FirstByte(fin, opcode)];
    if n <= 125 {
      header := header + [n];
    } else if n <= 0xFFFF {
      header := header + [126];
      header := header + [n / 256 % 256];
      header := header + [n % 256];
      assert BigEndian(n / 256, 1) == [n / 256 % 256];
    } else {
      var length := LengthBytes(n);
      header := header + [127] + length;
    }
  }

  method LengthFrom(bytes: seq<byte>) returns (n: nat)
    ensures n == FromBigEndian(bytes)
  {
    n := 0;
    for i := 0 to |bytes|
      invariant n == FromBigEndian(bytes[..i])
    {
      assert bytes[..i + 1][..i] == bytes[..i];
      n := n * 256 + bytes[i];
    }
    assert bytes[..|bytes|] == bytes;
  }

  class Connection {
    const input: Buffered
    var sent: seq<byte>
    var closed: bool
    /** The frames that make up `sent`. */
    ghost var frames: seq<Frame>

    ghost predicate Wired() reads this, input, input.source { input.Valid() && sent == SentWire(frames) }

    /** At most one close frame has been sent, and none before the connection counts as closed. */
    ghost predicate Valid() reads this, input, input.source {
      Wired() && CloseCount(frames) <= 1 && (!closed ==> CloseCount(frames) == 0)
    }

    constructor (wire: Source, initial: seq<byte>)
      ensures Valid() && fresh(input) && input.source == wire && input.Remaining() == initial + wire.data
      ensures !closed && sent == [] && frames == []
    {
      input := new Buffered(wire, initial);
      sent, closed, frames := [], false, [];
    }

    method ReadExact(n: nat) returns (r: Option<seq<byte>>)
      requires input.Valid()
      modifies input, input.source
      ensures input.Valid()
      ensures var before := old(input.Remaining());
              if |before| < n then r == None else r == Some(before[..n]) && input.Remaining() == before[n..]
    {
      var enough := input.Fill(n);
      if !enough { return None; }
      var bytes := input.Take(n);
      r := Some(bytes);
    }

    method ReadLength(second: byte) returns (r: Option<nat>)
      requires input.Valid()
      modifies input, input.source
      ensures input.Valid()
      ensures match LengthAndRest(second, old(input.Remaining()))
              case None => r == None
              case Some((length, rest)) => r == Some(length) && input.Remaining() == rest
    {
      ghost var start := input.Remaining();
      assert start[0..] == start;
      var length := second % 128;
      if length == 126 {
        var ext := ReadExact(2);
        if ext.None? { return None; }
        TwoBytes(ext.value);
        var high: nat := ext.value[0];
        return Some(high * 256 + ext.value[1]);
      }
      if length == 127 {
        var ext := ReadExact(8);
        if ext.None? { return None; }
        var n := LengthFrom(ext.value);
        return Some(n);
      }
      r := Some(length);
    }

    method ReadKey(second: byte) returns (ok: bool, key: Option<seq<byte>>)
      requires input.Valid()
      modifies input, input.source
      ensures input.Valid() && (key.Some? ==> IsKey(key.value))
      ensures match KeyAndRest(second, old(input.Remaining()))
              case None => !ok
              case Some((k, rest)) => ok && key == k && input.Remaining() == rest
    {
      if second < 128 { return true, None; }
      key := ReadExact(4);
      ok := key.Some?;
    }

    /** Whatever pieces the bytes come in, the first frame of the input is read. */
    method ReadFrame() returns (r: Option<Frame>)
      requires input.Valid()
      modifies input, input.source
      ensures input.Valid()
      ensures match ParseFrame(old(input.Remaining()))
              case None => r == None
              case Some((f, rest)) => r == Some(f) && input.Remaining() == rest
    {
      var head := ReadExact(2);
      if head.None? { return None; }
      var length := ReadLength(head.value[1]);
      if length.None? { return None; }
      var ok, key := ReadKey(head.value[1]);
      if !ok { return None; }
      var data := ReadExact(length.value);
      if data.None? { return None; }
      var payload := data.value;
      if key.Some? {
        var a := new byte[|payload|](i requires 0 <= i < |payload| => payload[i]);
        assert a[..] == payload;
        Unmask(a, key.value);
        payload := a[..];
      }
      r := Some(Frame(head.value[0] >= 128, head.value[0] % 16, payload));
    }

    method WriteFrame(fin: bool, opcode: byte, data: seq<byte>)
      requires Wired()
      modifies this`sent, this`frames
      ensures Wired() && frames == old(frames) + [Frame(fin, opcode, data)]
    {
      var header := FrameHeader(fin, opcode, |data|);
      assert header + data == FrameWire(Frame(fin, opcode, data), None);
      SentSnoc(frames, Frame(fin, opcode, data));
      assert sent + header + data == sent + (header + data);
      sent := sent + header + data;
      frames := frames + [Frame(fin, opcode, data)];
    }

    method SendText(text: seq<byte>)
      requires Valid()
      modifies this`sent, this`frames
      ensures Valid() && frames == old(frames) + [Frame(true, TEXT, text)]
    {
      WriteFrame(true, TEXT, text);
      SentSnoc(old(frames), Frame(true, TEXT, text));
    }

    method SendBinary(data: seq<byte>)
      requires Valid()
      modifies this`sent, this`frames
      ensures Valid() && frames == old(frames) + [Frame(true, BINARY, data)]
    {
      WriteFrame(true, BINARY, data);
      SentSnoc(old(frames), Frame(true, BINARY, data));
    }

    /** Sends a close frame, unless the connection is closed already. */
    method Close(code: nat, reason: seq<byte>)
      requires Valid()
      modifies this`sent, this`frames, this`closed
      ensures Valid() && closed
      ensures frames == if old(closed) then old(frames) else old(frames) + [CloseFrame(code, reason)]
    {
      if closed { return; }
      var f := CloseFrame(code, reason);
      WriteFrame(true, CLOSE, f.payload);
      SentSnoc(old(frames), f);
      closed := true;
    }

    /** The next message of the remaining input; pings are answered on the way. */
    method Receive() returns (r: Option<Message>)
      requires Valid()
      modifies this, input, input.source
      ensures Valid()
      ensures old(closed) ==> r == None && closed && frames == old(frames)
      ensures !old(closed) ==>
                var o := Receiving(old(input.Remaining()), None, []);
                && r == o.message && closed == o.closed && frames == old(frames) + o.replies
                && (r.Some? ==> input.Remaining() == o.rest)
    {
      if closed { return None; }
      ghost var goal := Receiving(input.Remaining(), None, []);
      ReplyingNothing(goal);
      r := ReceiveOpen(goal);
    }

    method ReceiveOpen(ghost goal: Outcome) returns (r: Option<Message>)
      requires Valid() && !closed && AtInput(goal, [], input.Remaining(), None, [])
      modifies this, input, input.source
      ensures Valid() && r == goal.message && closed == goal.closed && frames == old(frames) + goal.replies
      ensures r.Some? ==> input.Remaining() == goal.rest
    {
      var data: seq<byte> := [];
      var kind: Option<byte> := None;
      ghost var replies: seq<Frame> := [];
      while true
        invariant Valid() && !closed && frames == old(frames) + replies
        invariant AtInput(goal, replies, input.Remaining(), kind, data)
        decreases |input.Remaining()|
      {
        var read := NextFrame(goal, replies, kind, data);
        if read.None? {
          closed := true;
          return None;
        }
        var f := read.value;
        ghost var rest := input.Remaining();
        if f.opcode == CLOSE {
          CloseReaction(goal, replies, f, rest, kind, data);
          Reply(CLOSE, f.payload, old(frames), replies);
          return None;
        }
        if f.opcode == PING {
          PingReaction(goal, replies, f, rest, kind, data);
          Reply(PONG, f.payload, old(frames), replies);
          replies := replies + [Frame(true, PONG, f.payload)];
          continue;
        }
        if f.opcode == PONG {
          PongReaction(goal, replies, f, rest, kind, data);
          continue;
        }
        if f.opcode == CONTINUATION {
          if kind.None? {
            FailReaction(goal, replies, f, rest, kind, data);
            Fail(UNEXPECTED, old(frames), replies);
            return None;
          }
          DataReaction(goal, replies, f, rest, kind, data);
          data := data + f.payload;
        } else if f.opcode == TEXT || f.opcode == BINARY {
          DataReaction(goal, replies, f, rest, kind, data);
          kind := Some(f.opcode);
          data := f.payload;
        } else {
          FailReaction(goal, replies, f, rest, kind, data);
          Fail(UNSUPPORTED, old(frames), replies);
          return None;
        }
        if f.fin { return Some(Message(kind.value == TEXT, data)); }
      }
    }

    /** Answers a ping with a pong, or a close frame with a close frame. */
    method Reply(opcode: byte, payload: seq<byte>, ghost before: seq<Frame>, ghost replies: seq<Frame>)
      requires Valid() && !closed && frames == before + replies && (opcode == PONG || opcode == CLOSE)
      modifies this`sent, this`frames, this`closed
      ensures Valid() && closed == (opcode == CLOSE) && frames == before + (replies + [Frame(true, opcode, payload)])
    {
      SentSnoc(frames, Frame(true, opcode, payload));
      WriteFrame(true, opcode, payload);
      if opcode == CLOSE { closed := true; }
      assert before + replies + [Frame(true, opcode, payload)] == before + (replies + [Frame(true, opcode, payload)]);
    }

    method Fail(reason: seq<byte>, ghost before: seq<Frame>, ghost replies: seq<Frame>)
      requires Valid() && !closed && frames == before + replies
      modifies this`sent, this`frames, this`closed
      ensures Valid() && closed && frames == before + (replies + [CloseFrame(PROTOCOL_ERROR, reason)])
    {
      Close(PROTOCOL_ERROR, reason);
      ghost var f := CloseFrame(PROTOCOL_ERROR, reason);
      assert before + replies + [f] == before + (replies + [f]);
    }

    /** Reads a frame on the way to `goal`. */
    method NextFrame(ghost goal: Outcome, ghost replies: seq<Frame>, ghost kind: Option<byte>, ghost data: seq<byte>)
      returns (r: Option<Frame>)
      requires input.Valid() && AtInput(goal, replies, input.Remaining(), kind, data)
      modifies input, input.source
      ensures input.Valid()
      ensures r.None? ==> goal.message == None && goal.closed && goal.replies == replies
      ensures r.Some? ==> AtFrame(goal, replies, r.value, input.Remaining(), kind, data)
                          && |input.Remaining()| < old(|input.Remaining()|)
    {
      assert goal == Replying(replies, Receiving(input.Remaining(), kind, data));
      assert replies + [] == replies;
      r := ReadFrame();
    }
  }

  /** Receiving gets from here to `goal`, with some replies sent already. */
  ghost predicate AtInput(goal: Outcome, replies: seq<Frame>, input: seq<byte>, kind: Option<byte>, data: seq<byte>) {
    forall x :: x == input ==> goal == Replying(replies, Receiving(x, kind, data))
  }

  ghost predicate AtFrame(goal: Outcome, replies: seq<Frame>, f: Frame, rest: seq<byte>, kind: Option<byte>,
                          data: seq<byte>) {
    forall x :: x == rest ==> goal == Replying(replies, Reacting(f, x, kind, data))
  }

  /** The cases of the reaction to one frame. */
  lemma CloseReaction(goal: Outcome, replies: seq<Frame>, f: Frame, rest: seq<byte>, kind: Option<byte>,
                      data: seq<byte>)
    requires AtFrame(goal, replies, f, rest, kind, data) && f.opcode == CLOSE
    ensures goal == Outcome(None, rest, replies + [Frame(true, CLOSE, f.payload)], true)
  {
    assert goal == Replying(replies, Reacting(f, rest, kind, data));
  }

  lemma PingReaction(goal: Outcome, replies: seq<Frame>, f: Frame, rest: seq<byte>, kind: Option<byte>, data: seq<byte>)
    requires AtFrame(goal, replies, f, rest, kind, data) && f.opcode == PING
    ensures AtInput(goal, replies + [Frame(true, PONG, f.payload)], rest, kind, data)
  {
    assert goal == Replying(replies, Reacting(f, rest, kind, data));
    ReplyingTwice(replies, Frame(true, PONG, f.payload), Receiving(rest, kind, data));
  }

  lemma PongReaction(goal: Outcome, replies: seq<Frame>, f: Frame, rest: seq<byte>, kind: Option<byte>, data: seq<byte>)
    requires AtFrame(goal, replies, f, rest, kind, data) && f.opcode == PONG
    ensures AtInput(goal, replies, rest, kind, data)
  {
    assert goal == Replying(replies, Reacting(f, rest, kind, data));
  }

  /** A continuation of nothing, or an unknown opcode. */
  lemma FailReaction(goal: Outcome, replies: seq<Frame>, f: Frame, rest: seq<byte>, kind: Option<byte>, data: seq<byte>)
    requires AtFrame(goal, replies, f, rest, kind, data) && !IsControl(f) && f.opcode != CLOSE
    requires f.opcode > BINARY || (f.opcode == CONTINUATION && kind.None?)
    ensures var reason := if f.opcode == CONTINUATION then UNEXPECTED else UNSUPPORTED;
            goal == Outcome(None, rest, replies + [CloseFrame(PROTOCOL_ERROR, reason)], true)
  {
    assert goal == Replying(replies, Reacting(f, rest, kind, data));
  }

  lemma DataReaction(goal: Outcome, replies: seq<Frame>, f: Frame, rest: seq<byte>, kind: Option<byte>, data: seq<byte>)
    requires AtFrame(goal, replies, f, rest, kind, data)
    requires f.opcode <= BINARY && (f.opcode == CONTINUATION ==> kind.Some?)
    ensures var kind' := if f.opcode == CONTINUATION then kind.value else f.opcode;
            var data' := if f.opcode == CONTINUATION then data + f.payload else f.payload;
            Continues(goal, replies, f.fin, rest, kind', data')
  {
    assert goal == Replying(replies, Reacting(f, rest, kind, data));
    assert replies + [] == replies;
  }

  ghost predicate Continues(goal: Outcome, replies: seq<Frame>, fin: bool, rest: seq<byte>, kind: byte,
                            data: seq<byte>) {
    if fin then goal == Outcome(Some(Message(kind == TEXT, data)), rest, replies, false)
    else AtInput(goal, replies, rest, Some(kind), data)
  }

  lemma ReplyingNothing(o: Outcome)
    ensures Replying([], o) == o
  {
    assert [] + o.replies == o.replies;
  }

  lemma ReplyingTwice(replies: seq<Frame>, f: Frame, o: Outcome)
    ensures Replying(replies, Replying([f], o)) == Replying(replies + [f], o)
  {
    assert replies + ([f] + o.replies) == replies + [f] + o.replies;
  }
}
