/** HPACK prefix integers (section 5.1 of RFC 7541): the decoder reads into a 64-bit unsigned
    accumulator and gives up after ten continuation bytes. */
module HpackInteger {
  import opened Arithmetic
  import opened Bytes

  const TWO64: nat := 0x1_0000_0000_0000_0000

  /** The value a 64-bit unsigned integer keeps of x. */
  function Wrap64(x: nat): (r: nat)
    ensures r < TWO64
  {
    if x < TWO64 then x else Wrap64(x - TWO64)
  }

  function Shl64(x: nat, m: nat): nat { Wrap64(x * Pow2(m)) }

  lemma {:induction false} WrapAdd(a: nat, b: nat)
    ensures Wrap64(Wrap64(a) + Wrap64(b)) == Wrap64(a + b)
  {
    if a >= TWO64 { WrapAdd(a - TWO64, b); }
    else if b >= TWO64 { WrapAdd(a, b - TWO64); }
  }

  /** The largest value a prefix of the given width holds; also the mask for reading it. */
  function PrefixMax(prefixBits: nat): (m: nat)
    requires 1 <= prefixBits <= 8
    ensures 1 <= m <= 255
  {
    match prefixBits
    case 1 => 1 case 2 => 3 case 3 => 7 case 4 => 15 case 5 => 31 case 6 => 63 case 7 => 127 case _ => 255
  }

  /** b & mask, for the mask of a prefix. */
  function LowBits(b: byte, prefixBits: nat): (v: nat)
    requires 1 <= prefixBits <= 8
    ensures v <= PrefixMax(prefixBits)
  {
    match prefixBits
    case 1 => b % 2 case 2 => b % 4 case 3 => b % 8 case 4 => b % 16
    case 5 => b % 32 case 6 => b % 64 case 7 => b % 128 case _ => b
  }

  function PrefixMultiple(k: nat, prefixBits: nat): nat
    requires 1 <= prefixBits <= 8
  {
    k * (PrefixMax(prefixBits) + 1)
  }

  /** The instruction pattern occupies only bits above the prefix, so that `|` adds. */
  ghost predicate AbovePrefix(pattern: byte, prefixBits: nat)
    requires 1 <= prefixBits <= 8
  {
    pattern + PrefixMax(prefixBits) <= 255 && exists k: nat :: pattern == PrefixMultiple(k, prefixBits)
  }

  // ------------------------------------------------ the format, declaratively

  /** Little-endian base 128, seven bits to a byte, high bit set on all but the last. */
  function Varint(v: nat): (bytes: seq<byte>)
    ensures |bytes| >= 1
  {
    if v < 128 then [v] else [v % 128 + 128] + Varint(v / 128)
  }

  function VarintValue(bytes: seq<byte>): nat {
    if bytes == [] then 0 else bytes[0] % 128 + 128 * VarintValue(bytes[1..])
  }

  /** How many bytes the varint at the start of `data` takes, if it ends at all. */
  function VarintSpan(data: seq<byte>): (n: Option<nat>)
    ensures n.Some? ==> 1 <= n.value <= |data| && data[n.value - 1] < 128
    ensures n.Some? ==> forall i :: 0 <= i < n.value - 1 ==> data[i] >= 128
    ensures n.None? ==> forall i :: 0 <= i < |data| ==> data[i] >= 128
  {
    if data == [] then None
    else if data[0] < 128 then Some(1)
    else match VarintSpan(data[1..]) { case None => None case Some(n) => Some(n + 1) }
  }

  function Encoded(value: nat, prefixBits: nat, pattern: byte): seq<byte>
    requires 1 <= prefixBits <= 8 && pattern + PrefixMax(prefixBits) <= 255
  {
    var max := PrefixMax(prefixBits);
    if value < max then [pattern + value] else [pattern + max] + Varint(value - max)
  }

  /** What is left of the loop after i continuation bytes. */
  function Accumulate(rest: seq<byte>, i: nat, value: nat): (r: Option<(nat, nat)>)
    requires i <= |rest| && i < 10
    ensures r.Some? ==> r.value.1 <= |rest|
    decreases |rest| - i
  {
    if i == |rest| then None
    else
      var v := Wrap64(value + Shl64(rest[i] % 128, 7 * i));
      if rest[i] < 128 then Some((v, i + 1))
      else if i + 1 >= 10 then None
      else Accumulate(rest, i + 1, v)
  }

  /** What `read_integer` yields for the bytes after a first byte whose prefix field is `first`:
      the value and the number of further bytes used. */
  function Decoded(first: nat, rest: seq<byte>, prefixBits: nat): (r: Option<(nat, nat)>)
    requires 1 <= prefixBits <= 8
    ensures r.Some? ==> r.value.1 <= |rest|
  {
    if first < PrefixMax(prefixBits) then Some((first, 0)) else Accumulate(rest, 0, first)
  }

  // ---------------------------------------------------------------- the code

  /** `bit_reader`: the input of one header block and a read position. */
  class BitReader {
    const data: seq<byte>
    var pos: nat

    ghost predicate Valid() reads this { pos <= |data| }

    constructor (data: seq<byte>)
      ensures this.data == data && pos == 0 && Valid()
    {
      this.data := data;
      pos := 0;
    }

    method Take() returns (b: byte)
      requires Valid() && pos < |data|
      modifies this`pos
      ensures Valid() && b == data[old(pos)] && pos == old(pos) + 1
    {
      b := data[pos];
      pos := pos + 1;
    }

    /** `read_integer`: the first byte has been taken already and is looked at again. */
    method ReadInteger(prefixBits: nat) returns (r: Option<nat>)
      requires Valid() && 1 <= pos && 1 <= prefixBits <= 8
      modifies this`pos
      ensures Valid() && old(pos) <= pos
      ensures var d := Decoded(LowBits(data[old(pos) - 1], prefixBits), data[old(pos)..], prefixBits);
              if d.None? then r.None? else r == Some(d.value.0) && pos == old(pos) + d.value.1
    {
      ghost var rest, start := data[pos..], pos;
      var mask := PrefixMax(prefixBits);
      var value: nat := LowBits(data[pos - 1], prefixBits);
      if value < mask { return Some(value); }
      var m: nat := 0;
      while true
        invariant Valid() && start <= pos && m == 7 * (pos - start) <= 63
        invariant Accumulate(rest, pos - start, value) == Accumulate(rest, 0, mask)
        decreases |data| - pos
      {
        if pos >= |data| { return None; }
        var b := data[pos];
        pos := pos + 1;
        value := Wrap64(value + Shl64(b % 128, m));
        m := m + 7;
        if b < 128 { return Some(value); }
        if m > 63 { return None; }
      }
    }
  }

  /** The loop computes the declarative value: the sum of all septets, reduced to 64 bits. */
  lemma {:induction false} AccumulateIsVarint(rest: seq<byte>, i: nat, value: nat, mask: nat)
    requires i <= |rest| && i < 10 && mask < TWO64
    requires value == Wrap64(mask + VarintValue(rest[..i])) && forall k :: 0 <= k < i ==> rest[k] >= 128
    ensures Accumulate(rest, i, value) ==
            match VarintSpan(rest)
            case None => None
            case Some(n) => if n > 10 then None else Some((Wrap64(mask + VarintValue(rest[..n])), n))
    decreases |rest| - i
  {
    if i == |rest| {
      SpanBeyond(rest, i);
    } else {
      AccumulateByte(rest, i, mask);
      if rest[i] < 128 {
        SpanIs(rest, i);
      } else if i + 1 < 10 {
        AccumulateIsVarint(rest, i + 1, Wrap64(mask + VarintValue(rest[..i + 1])), mask);
      } else {
        SpanBeyond(rest, 10);
      }
    }
  }

  /** The first byte below 128 ends the varint. */
  lemma SpanIs(data: seq<byte>, i: nat)
    requires i < |data| && data[i] < 128 && forall k :: 0 <= k < i ==> data[k] >= 128
    ensures VarintSpan(data) == Some(i + 1)
  {
  }

  lemma SpanBeyond(data: seq<byte>, i: nat)
    requires i <= |data| && forall k :: 0 <= k < i ==> data[k] >= 128
    ensures VarintSpan(data).Some? ==> VarintSpan(data).value > i
  {
  }

  /** `write_integer`. */
  method WriteInteger(out: seq<byte>, value: nat, prefixBits: nat, pattern: byte) returns (out': seq<byte>)
    requires 1 <= prefixBits <= 8 && AbovePrefix(pattern, prefixBits)
    ensures out' == out + Encoded(value, prefixBits, pattern)
  {
    var max := PrefixMax(prefixBits);
    if value < max { return out + [pattern + value]; }
    out' := AppendVarint(out + [pattern + max], value - max);
  }

  method AppendVarint(out: seq<byte>, value: nat) returns (out': seq<byte>)
    ensures out' == out + Varint(value)
  {
    out' := out;
    var v := value;
    while v >= 128
      invariant out' + Varint(v) == out + Varint(value)
    {
      assert out' + Varint(v) == out' + [v % 128 + 128] + Varint(v / 128);
      out' := out' + [v % 128 + 128];
      v := v / 128;
    }
    out' := out' + [v];
  }

  // ------------------------------------------------------- how reading proceeds

  lemma Pow2Plus7(n: nat)
    ensures Pow2(n + 7) == 128 * Pow2(n)
  {
    assert Pow2(n + 2) == 2 * Pow2(n + 1) == 4 * Pow2(n);
    assert Pow2(n + 4) == 2 * Pow2(n + 3) == 4 * Pow2(n + 2);
    assert Pow2(n + 6) == 2 * Pow2(n + 5) == 4 * Pow2(n + 4);
  }

  lemma {:induction false} VarintValueSnoc(bytes: seq<byte>, b: byte)
    ensures VarintValue(bytes + [b]) == VarintValue(bytes) + (b % 128) * Pow2(7 * |bytes|)
  {
    if bytes == [] {
      assert [] + [b] == [b] && [b][1..] == [];
    } else {
      var tail := bytes[1..];
      assert (bytes + [b])[1..] == tail + [b];
      VarintValueSnoc(tail, b);
      var n := 7 * |tail|;
      Pow2Plus7(n);
      MulScale(b % 128, Pow2(n));
    }
  }

  lemma MulScale(c: nat, p: nat)
    ensures 128 * (c * p) == c * (128 * p)
  {
  }

  lemma AccumulateByte(rest: seq<byte>, i: nat, mask: nat)
    requires i < |rest|
    ensures Wrap64(Wrap64(mask + VarintValue(rest[..i])) + Shl64(rest[i] % 128, 7 * i)) ==
            Wrap64(mask + VarintValue(rest[..i + 1]))
  {
    assert rest[..i + 1] == rest[..i] + [rest[i]];
    VarintValueSnoc(rest[..i], rest[i]);
    WrapAdd(mask + VarintValue(rest[..i]), rest[i] % 128 * Pow2(7 * i));
  }

  /** The meaning of `read_integer`: it succeeds exactly when a varint of at most ten bytes
      follows a full prefix, and yields the sum of prefix and septets reduced to 64 bits. */
  lemma DecodedMeaning(first: nat, rest: seq<byte>, prefixBits: nat)
    requires 1 <= prefixBits <= 8 && first <= PrefixMax(prefixBits)
    ensures first < PrefixMax(prefixBits) ==> Decoded(first, rest, prefixBits) == Some((first, 0))
    ensures first == PrefixMax(prefixBits) ==>
              Decoded(first, rest, prefixBits) ==
              match VarintSpan(rest)
              case None => None
              case Some(n) => if n > 10 then None else Some((Wrap64(first + VarintValue(rest[..n])), n))
  {
    if first == PrefixMax(prefixBits) { AccumulateIsVarint(rest, 0, first, first); }
  }

  // ----------------------------------------------------------------- round trip

  lemma {:induction false} VarintValueOf(v: nat)
    ensures VarintValue(Varint(v)) == v
  {
    if v < 128 {
      assert [v][1..] == [];
    } else {
      var b: byte, more := v % 128 + 128, Varint(v / 128);
      VarintValueOf(v / 128);
      assert ([b] + more)[1..] == more;
    }
  }

  lemma {:induction false} VarintSpanOf(v: nat, tail: seq<byte>)
    ensures VarintSpan(Varint(v) + tail) == Some(|Varint(v)|)
  {
    if v >= 128 {
      VarintSpanOf(v / 128, tail);
      MoreByte(v % 128 + 128, Varint(v / 128), tail);
    }
  }

  lemma MoreByte(b: byte, more: seq<byte>, tail: seq<byte>)
    requires b >= 128
    ensures VarintSpan([b] + more + tail) ==
            if VarintSpan(more + tail).None? then None else Some(1 + VarintSpan(more + tail).value)
  {
    assert ([b] + more + tail)[1..] == more + tail;
  }

  lemma {:induction false} VarintLength(v: nat, k: nat)
    requires k >= 1 && v < Pow2(7 * k)
    ensures |Varint(v)| <= k
  {
    Pow2Plus7(7 * (k - 1));
    if v >= 128 { VarintLength(v / 128, k - 1); }
  }

  lemma SixtyFourBitsFitTenBytes(v: nat)
    requires v < TWO64
    ensures |Varint(v)| <= 10
  {
    TwoTo64();
    VarintLength(v, 10);
  }

  /** Every 64-bit value survives encoding and decoding, whatever prefix it is written with and
      whatever follows it; the decoder uses exactly the bytes the encoder wrote. */
  lemma IntegerRoundTrip(value: nat, prefixBits: nat, pattern: byte, tail: seq<byte>)
    requires value < TWO64 && 1 <= prefixBits <= 8
    requires AbovePrefix(pattern, prefixBits)
    ensures var e := Encoded(value, prefixBits, pattern) + tail;
            Decoded(LowBits(e[0], prefixBits), e[1..], prefixBits)
            == Some((value, |Encoded(value, prefixBits, pattern)| - 1))
  {
    var max := PrefixMax(prefixBits);
    LowBitsOfSum(pattern, Min(value, max), prefixBits);
    if value >= max {
      var v := value - max;
      var e := Encoded(value, prefixBits, pattern) + tail;
      assert e[1..] == Varint(v) + tail;
      LongIntegerRoundTrip(v, prefixBits, tail);
    }
  }

  lemma LongIntegerRoundTrip(v: nat, prefixBits: nat, tail: seq<byte>)
    requires 1 <= prefixBits <= 8 && v + PrefixMax(prefixBits) < TWO64
    ensures Decoded(PrefixMax(prefixBits), Varint(v) + tail, prefixBits)
         == Some((v + PrefixMax(prefixBits), |Varint(v)|))
  {
    VarintValueOf(v);
    VarintSpanOf(v, tail);
    SixtyFourBitsFitTenBytes(v);
    assert (Varint(v) + tail)[..|Varint(v)|] == Varint(v);
    DecodedMeaning(PrefixMax(prefixBits), Varint(v) + tail, prefixBits);
  }

  lemma LowBitsOfSum(pattern: byte, v: nat, prefixBits: nat)
    requires 1 <= prefixBits <= 8 && v <= PrefixMax(prefixBits) && AbovePrefix(pattern, prefixBits)
    ensures LowBits(pattern + v, prefixBits) == v
  {
    var k: nat :| pattern == PrefixMultiple(k, prefixBits);
    DivModUnique(pattern + v, PrefixMax(prefixBits) + 1, k, v);
  }

  lemma SevenMore(n: nat, m: nat, p: nat)
    requires Pow2(n) == p && m == n + 7
    ensures Pow2(m) == 128 * p
  {
    Pow2Plus7(n);
  }

  lemma TwoTo35(n: nat)
    requires n == 35
    ensures Pow2(n) == 0x8_0000_0000
  {
    SevenMore(n - 35, n - 28, 1);
    SevenMore(n - 28, n - 21, 0x80);
    SevenMore(n - 21, n - 14, 0x4000);
    SevenMore(n - 14, n - 7, 0x20_0000);
    SevenMore(n - 7, n, 0x1000_0000);
  }

  lemma TwoTo70(n: nat)
    requires n == 70
    ensures Pow2(n - 7) == 0x8000_0000_0000_0000 && Pow2(n - 6) == TWO64 && Pow2(n) == 64 * TWO64
  {
    TwoTo35(n - 35);
    SevenMore(n - 35, n - 28, 0x8_0000_0000);
    SevenMore(n - 28, n - 21, 0x400_0000_0000);
    SevenMore(n - 21, n - 14, 0x2_0000_0000_0000);
    SevenMore(n - 14, n - 7, 0x100_0000_0000_0000);
    SevenMore(n - 7, n, 0x8000_0000_0000_0000);
  }

  lemma TwoTo64()
    ensures Pow2(63) == 0x8000_0000_0000_0000 && Pow2(64) == TWO64 && Pow2(70) == 64 * TWO64
  {
    TwoTo70(70);
  }

  // ------------------------------------------------------------------ wrap-around

  lemma {:induction false} VarintBound(bytes: seq<byte>)
    ensures VarintValue(bytes) < Pow2(7 * |bytes|)
  {
    if bytes == [] {
    } else {
      VarintBound(bytes[1..]);
      Pow2Plus7(7 * (|bytes| - 1));
    }
  }

  /** The value is exact for up to nine continuation bytes. */
  lemma NoWrapUpToNineBytes(first: nat, rest: seq<byte>, prefixBits: nat)
    requires 1 <= prefixBits <= 8 && first == PrefixMax(prefixBits)
    requires VarintSpan(rest).Some? && VarintSpan(rest).value <= 9
    ensures var n := VarintSpan(rest).value;
            Decoded(first, rest, prefixBits) == Some((first + VarintValue(rest[..n]), n))
  {
    var n := VarintSpan(rest).value;
    DecodedMeaning(first, rest, prefixBits);
    VarintBound(rest[..n]);
    Pow2Monotone(7 * n, 63);
    TwoTo64();
  }

  /** With ten it wraps exactly when the sum does not fit in 64 bits. */
  lemma TenBytesExactIffFits(first: nat, rest: seq<byte>, prefixBits: nat)
    requires 1 <= prefixBits <= 8 && first == PrefixMax(prefixBits) && VarintSpan(rest) == Some(10)
    ensures Decoded(first, rest, prefixBits).Some?
    ensures Decoded(first, rest, prefixBits).value.0 == first + VarintValue(rest[..10]) <==>
            first + VarintValue(rest[..10]) < TWO64
  {
    DecodedMeaning(first, rest, prefixBits);
  }

  /** A tenth byte of 2 wraps: the ten bytes below encode 2^64 and are read as zero. */
  lemma TenthByteWraps() returns (rest: seq<byte>)
    ensures rest == seq(9, i => 128) + [2]
    ensures VarintValue(rest) == TWO64 && Decoded(127, rest, 7) == Some((127, 10))
  {
    var zeros: seq<byte> := seq(9, i => 128);
    rest := zeros + [2];
    TenSeptets(zeros);
    SpanIs(rest, 9);
    assert rest[..10] == rest;
    DecodedMeaning(127, rest, 7);
  }

  lemma TenSeptets(zeros: seq<byte>)
    requires |zeros| == 9 && forall i :: 0 <= i < 9 ==> zeros[i] == 128
    ensures VarintValue(zeros + [2]) == TWO64
  {
    ZeroSeptets(zeros);
    VarintValueSnoc(zeros, 2);
    TwoTo64();
  }

  lemma {:induction false} ZeroSeptets(bytes: seq<byte>)
    requires forall i :: 0 <= i < |bytes| ==> bytes[i] == 128
    ensures VarintValue(bytes) == 0
  {
    if bytes == [] {
    } else {
      ZeroSeptets(bytes[1..]);
    }
  }
}
