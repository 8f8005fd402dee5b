/** The HPACK header codec (RFC 7541): the decoder with all four representations and its dynamic
    table, and the encoder, which writes every field as a literal without indexing with both
    strings Huffman coded. The code table and the static table are parameters. */
module Hpack {
  import opened Arithmetic
  import opened Bytes
  import opened HpackInteger
  import opened HpackTable
  import opened Huffman

  const STATIC_SIZE: nat := 61

  // ------------------------------------------------------- what decoding means

  /** The prefix integer whose first byte is just before `pos`: value and next position. */
  function IntegerAt(data: seq<byte>, pos: nat, prefixBits: nat): (r: Option<(nat, nat)>)
    requires 1 <= pos <= |data| && 1 <= prefixBits <= 8
    ensures r.Some? ==> pos <= r.value.1 <= |data|
  {
    match Decoded(LowBits(data[pos - 1], prefixBits), data[pos..], prefixBits)
    case None => None
    case Some((v, n)) => Some((v, pos + n))
  }

  /** The text of a string literal of the given length at `pos`. */
  ghost function TextAt(code: Code, isHuffman: bool, data: seq<byte>, pos: nat, length: nat)
    : (r: Option<(seq<byte>, nat)>)
    requires pos <= |data|
    ensures r.Some? ==> pos <= r.value.1 <= |data|
  {
    if length > |data| - pos then None
    else
      var raw := data[pos..pos + length];
      if !isHuffman then Some((raw, pos + length))
      else
        match Scan(code, [], [], BytesToBits(raw))
        case None => None
        case Some(text) => Some((text, pos + length))
  }

  /** A string literal: its text and the next position. */
  ghost function StringAt(code: Code, data: seq<byte>, pos: nat): (r: Option<(seq<byte>, nat)>)
    requires pos <= |data|
    ensures r.Some? ==> pos < r.value.1 <= |data|
  {
    if pos == |data| then None
    else
      match IntegerAt(data, pos + 1, 7)
      case None => None
      case Some((length, p)) => TextAt(code, data[pos] >= 128, data, p, length)
  }

  datatype Tables = Tables(bound: nat, dynamic: seq<Field>)

  function Lookup(statics: seq<Field>, dynamic: seq<Field>, index: nat): Option<Field>
    requires |statics| == STATIC_SIZE
  {
    if index == 0 then None
    else if index <= STATIC_SIZE then Some(statics[index - 1])
    else if index - STATIC_SIZE - 1 >= |dynamic| then None
    else Some(dynamic[index - STATIC_SIZE - 1])
  }

  /** A literal field whose first byte is just before `pos`. */
  ghost function LiteralAt(code: Code, statics: seq<Field>, dynamic: seq<Field>, data: seq<byte>, pos: nat,
                           prefixBits: nat)
    : (r: Option<(Field, nat)>)
    requires |statics| == STATIC_SIZE && 1 <= pos <= |data| && 1 <= prefixBits <= 8
    ensures r.Some? ==> pos < r.value.1 <= |data|
  {
    match IntegerAt(data, pos, prefixBits)
    case None => None
    case Some((index, p)) => FieldAt(code, statics, dynamic, data, p, index)
  }

  /** What follows the integer of a literal. */
  ghost function FieldAt(code: Code, statics: seq<Field>, dynamic: seq<Field>, data: seq<byte>, pos: nat, index: nat)
    : (r: Option<(Field, nat)>)
    requires |statics| == STATIC_SIZE && pos <= |data|
    ensures r.Some? ==> pos < r.value.1 <= |data|
  {
    match NameAt(code, statics, dynamic, data, pos, index)
    case None => None
    case Some((n, q)) =>
      match StringAt(code, data, q)
      case None => None
      case Some((v, e)) => Some((Field(n, v), e))
  }

  /** A literal's name: that of an entry, or spelled out. */
  ghost function NameAt(code: Code, statics: seq<Field>, dynamic: seq<Field>, data: seq<byte>, pos: nat, index: nat)
    : (r: Option<(seq<byte>, nat)>)
    requires |statics| == STATIC_SIZE && pos <= |data|
    ensures r.Some? ==> pos <= r.value.1 <= |data|
  {
    if index == 0 then StringAt(code, data, pos)
    else match Lookup(statics, dynamic, index) { case None => None case Some(f) => Some((f.name, pos)) }
  }

  /** One representation at `pos`: the fields it emits, the next position and the new tables. */
  ghost function StepAt(code: Code, statics: seq<Field>, data: seq<byte>, pos: nat, t: Tables)
    : (r: Option<(seq<Field>, nat, Tables)>)
    requires |statics| == STATIC_SIZE && pos < |data|
    ensures r.Some? ==> pos < r.value.1 <= |data|
  {
    var first := data[pos];
    if first >= 128 then
      match IntegerAt(data, pos + 1, 7)
      case None => None
      case Some((index, p)) =>
        match Lookup(statics, t.dynamic, index) { case None => None case Some(f) => Some(([f], p, t)) }
    else if first >= 64 then
      match LiteralAt(code, statics, t.dynamic, data, pos + 1, 6)
      case None => None
      case Some((f, p)) => Some(([f], p, t.(dynamic := Evicted([f] + t.dynamic, t.bound))))
    else if first >= 32 then
      match IntegerAt(data, pos + 1, 5)
      case None => None
      case Some((n, p)) => if n > t.bound then None else Some(([], p, Tables(n, Evicted(t.dynamic, n))))
    else
      match LiteralAt(code, statics, t.dynamic, data, pos + 1, 4)
      case None => None
      case Some((f, p)) => Some(([f], p, t))
  }

  /** A block from `pos` on, after the fields `out`: whether it decodes, all fields emitted, and
      the tables afterwards. */
  ghost function BlockAt(code: Code, statics: seq<Field>, data: seq<byte>, pos: nat, t: Tables, out: seq<Field>)
    : (bool, seq<Field>, Tables)
    requires |statics| == STATIC_SIZE && pos <= |data|
    decreases |data| - pos
  {
    if pos == |data| then (true, out, t)
    else
      match StepAt(code, statics, data, pos, t)
      case None => (false, out, t)
      case Some((fields, p, t')) => BlockAt(code, statics, data, p, t', out + fields)
  }

  // -------------------------------------------------------------- the decoder

  class Decoder {
    const table: Table
    const statics: seq<Field>
    const tree: HuffmanTree
    var bound: nat
    var size: nat
    var dynamic: seq<Field>
    ghost var history: seq<Field>   // every insertion so far, newest first

    /** The table is the longest newest-first prefix of all insertions that fits, and the stored
        size is its size. */
    ghost predicate Valid()
      reads this, tree
    {
      && |statics| == STATIC_SIZE
      && TreeReady()
      && size == TotalSize(dynamic)
      && LongestFit(dynamic, history, bound)
    }

    ghost predicate TreeReady()
      reads tree
    {
      PrefixFree(CodeOf(table)) && Loaded(tree.nodes, tree.labels, CodeOf(table))
    }

    ghost function State(): Tables reads this { Tables(bound, dynamic) }

    constructor (table: Table, statics: seq<Field>, bound: nat)
      requires |statics| == STATIC_SIZE && PrefixFree(CodeOf(table))
      ensures Valid() && fresh(tree) && State() == Tables(bound, []) && history == []
      ensures this.table == table && this.statics == statics
    {
      this.table, this.statics, this.bound := table, statics, bound;
      size, dynamic, history := 0, [], [];
      tree := new HuffmanTree(table);
    }

    /** `evict_to_fit` */
    method EvictToFit()
      requires size == TotalSize(dynamic)
      modifies this`size, this`dynamic
      ensures dynamic == Evicted(old(dynamic), bound) && size == TotalSize(dynamic)
    {
      ghost var goal := Evicted(dynamic, bound);
      while size > bound && dynamic != []
        invariant size == TotalSize(dynamic) && Evicted(dynamic, bound) == goal
        decreases |dynamic|
      {
        var last := |dynamic| - 1;
        EvictOne(dynamic, bound);
        size := size - dynamic[last].Size();
        dynamic := dynamic[..last];
      }
    }

    /** `add_to_dynamic_table` */
    method AddToDynamicTable(f: Field)
      requires Valid()
      modifies this`size, this`dynamic, this`history
      ensures Valid() && history == [f] + old(history) && dynamic == Evicted([f] + old(dynamic), bound)
    {
      InsertKeepsLongestFit(dynamic, history, bound, f);
      assert ([f] + dynamic)[1..] == dynamic;
      dynamic := [f] + dynamic;
      size := size + f.Size();
      history := [f] + history;
      EvictToFit();
    }

    /** `lookup_indexed`: index 62 + i is the (i + 1)-th newest insertion. */
    method LookupIndexed(index: nat) returns (r: Option<Field>)
      requires Valid()
      ensures r == Lookup(statics, dynamic, index)
      ensures index > STATIC_SIZE && r.Some? ==>
                index - STATIC_SIZE - 1 < |history| && r.value == history[index - STATIC_SIZE - 1]
    {
      if index == 0 { return None; }
      if index <= STATIC_SIZE { return Some(statics[index - 1]); }
      var i := index - STATIC_SIZE - 1;
      if i >= |dynamic| { return None; }
      return Some(dynamic[i]);
    }

    /** `read_string` */
    method ReadString(r: BitReader) returns (s: Option<seq<byte>>)
      requires TreeReady() && r.Valid()
      modifies r`pos
      ensures r.Valid()
      ensures var d := StringAt(CodeOf(table), r.data, old(r.pos));
              if d.None? then s.None? else s == Some(d.value.0) && r.pos == d.value.1
    {
      if r.pos >= |r.data| { return None; }
      ghost var start := r.pos;
      var first := r.Take();
      var length := r.ReadInteger(7);
      assert IntegerAt(r.data, start + 1, 7) == if length.None? then None else Some((length.value, r.pos));
      if length.None? { return None; }
      s := ReadText(r, first >= 128, length.value);
    }

    method ReadText(r: BitReader, isHuffman: bool, length: nat) returns (s: Option<seq<byte>>)
      requires TreeReady() && r.Valid()
      modifies r`pos
      ensures r.Valid()
      ensures var d := TextAt(CodeOf(table), isHuffman, r.data, old(r.pos), length);
              if d.None? then s.None? else s == Some(d.value.0) && r.pos == d.value.1
    {
      if length > |r.data| - r.pos { return None; }
      var raw := r.data[r.pos..r.pos + length];
      if isHuffman {
        s := tree.Decode(raw, CodeOf(table));
        if s.None? { return None; }
      } else {
        s := Some(raw);
      }
      r.pos := r.pos + length;
    }

    /** A literal's name (indexed or spelled out) and value; its first byte has been taken. */
    method ReadLiteral(r: BitReader, prefixBits: nat) returns (f: Option<Field>)
      requires Valid() && r.Valid() && 1 <= r.pos && 1 <= prefixBits <= 8
      modifies r`pos
      ensures r.Valid()
      ensures var d := LiteralAt(CodeOf(table), statics, dynamic, r.data, old(r.pos), prefixBits);
              if d.None? then f.None? else f == Some(d.value.0) && r.pos == d.value.1
    {
      ghost var start := r.pos;
      var index := r.ReadInteger(prefixBits);
      assert IntegerAt(r.data, start, prefixBits) == if index.None? then None else Some((index.value, r.pos));
      if index.None? { return None; }
      f := ReadField(r, index.value);
    }

    method ReadField(r: BitReader, index: nat) returns (f: Option<Field>)
      requires Valid() && r.Valid()
      modifies r`pos
      ensures r.Valid()
      ensures var d := FieldAt(CodeOf(table), statics, dynamic, r.data, old(r.pos), index);
              if d.None? then f.None? else f == Some(d.value.0) && r.pos == d.value.1
    {
      var name := ReadName(r, index);
      if name.None? { return None; }
      var value := ReadString(r);
      if value.None? { return None; }
      return Some(Field(name.value, value.value));
    }

    method ReadName(r: BitReader, index: nat) returns (name: Option<seq<byte>>)
      requires Valid() && r.Valid()
      modifies r`pos
      ensures r.Valid()
      ensures var d := NameAt(CodeOf(table), statics, dynamic, r.data, old(r.pos), index);
              if d.None? then name.None? else name == Some(d.value.0) && r.pos == d.value.1
    {
      if index == 0 {
        name := ReadString(r);
        return;
      }
      var entry := LookupIndexed(index);
      if entry.None? { return None; }
      return Some(entry.value.name);
    }

    /** `read_size_update`: a bound above the current one is refused, so bounds only go down. */
    method ReadSizeUpdate(r: BitReader) returns (ok: bool)
      requires Valid() && r.Valid() && 1 <= r.pos
      modifies r`pos, this`bound, this`size, this`dynamic
      ensures Valid() && r.Valid() && history == old(history)
      ensures var d := IntegerAt(r.data, old(r.pos), 5);
              if d.None? || d.value.0 > old(bound) then !ok && State() == old(State())
              else ok && r.pos == d.value.1 && State() == Tables(d.value.0, Evicted(old(dynamic), d.value.0))
    {
      var n := r.ReadInteger(5);
      if n.None? || n.value > bound { return false; }
      LowerKeepsLongestFit(dynamic, history, bound, n.value);
      bound := n.value;
      EvictToFit();
      return true;
    }

    /** One turn of the loop in `decode`. */
    method DecodeOne(r: BitReader) returns (fields: Option<seq<Field>>)
      requires Valid() && r.Valid() && r.pos < |r.data|
      modifies r`pos, this`bound, this`size, this`dynamic, this`history
      ensures Valid() && r.Valid() && exists more :: history == more + old(history)
      ensures var d := StepAt(CodeOf(table), statics, r.data, old(r.pos), old(State()));
              if d.None? then fields.None? && State() == old(State())
              else fields == Some(d.value.0) && r.pos == d.value.1 && State() == d.value.2
    {
      assert history == [] + history;
      var first := r.Take();
      if first >= 128 {
        var index := r.ReadInteger(7);
        if index.None? || index.value == 0 { return None; }
        var entry := LookupIndexed(index.value);
        if entry.None? { return None; }
        return Some([entry.value]);
      } else if first >= 64 {
        var f := ReadLiteral(r, 6);
        if f.None? { return None; }
        AddToDynamicTable(f.value);
        return Some([f.value]);
      } else if first >= 32 {
        var ok := ReadSizeUpdate(r);
        return if ok then Some([]) else None;
      } else {
        var f := ReadLiteral(r, 4);
        if f.None? { return None; }
        return Some([f.value]);
      }
    }

    /** `decode`: a whole header block, from any table state, well formed or not. */
    method Decode(data: seq<byte>) returns (ok: bool, out: seq<Field>)
      requires Valid()
      modifies this`bound, this`size, this`dynamic, this`history
      ensures Valid() && bound <= old(bound) && exists more :: history == more + old(history)
      ensures (ok, out, State()) == BlockAt(CodeOf(table), statics, data, 0, old(State()), [])
    {
      ghost var goal := BlockAt(CodeOf(table), statics, data, 0, State(), []);
      ghost var code := CodeOf(table);
      var r := new BitReader(data);
      out := [];
      ghost var more: seq<Field> := [];
      while r.pos < |data|
        invariant Valid() && r.Valid() && r.data == data && fresh(r)
        invariant bound <= old(bound) && history == more + old(history)
        invariant AtBlock(goal, code, statics, data, r.pos, State(), out)
        decreases |data| - r.pos
      {
        ghost var before := history;
        BlockNext(goal, code, statics, data, r.pos, State(), out);
        var fields := DecodeOne(r);
        more := Longer(before, more, old(history), history);
        if fields.None? { return false, out; }
        out := out + fields.value;
      }
      assert BlockAt(code, statics, data, r.pos, State(), out) == goal;
      return true, out;
    }
  }

  lemma Longer(before: seq<Field>, more: seq<Field>, first: seq<Field>, now: seq<Field>) returns (all: seq<Field>)
    requires before == more + first && exists new_ :: now == new_ + before
    ensures now == all + first
  {
    var new_ :| now == new_ + before;
    all := new_ + more;
    assert new_ + (more + first) == new_ + more + first;
  }

  /** Decoding from here gives `goal`. */
  ghost predicate AtBlock(goal: (bool, seq<Field>, Tables), code: Code, statics: seq<Field>, data: seq<byte>,
                          pos: nat, t: Tables, out: seq<Field>)
    requires |statics| == STATIC_SIZE && pos <= |data|
  {
    forall x :: x == out ==> BlockAt(code, statics, data, pos, t, x) == goal
  }

  lemma BlockNext(goal: (bool, seq<Field>, Tables), code: Code, statics: seq<Field>, data: seq<byte>, pos: nat,
                  t: Tables, out: seq<Field>)
    requires |statics| == STATIC_SIZE && pos < |data| && AtBlock(goal, code, statics, data, pos, t, out)
    ensures var d := StepAt(code, statics, data, pos, t);
            if d.None? then goal == (false, out, t)
            else AtBlock(goal, code, statics, data, d.value.1, d.value.2, out + d.value.0)
  {
    assert BlockAt(code, statics, data, pos, t, out) == goal;
  }

  // -------------------------------------------------------------- the encoder

  function EncodedString(code: Code, text: seq<byte>): seq<byte> {
    var packed := PackBits(EncodeBits(code, text));
    Encoded(|packed|, 7, 128) + packed
  }

  /** A literal without indexing, both strings spelled out. */
  function EncodedField(code: Code, f: Field): seq<byte> {
    [0] + EncodedString(code, f.name) + EncodedString(code, f.value)
  }

  function EncodedFields(code: Code, fields: seq<Field>): seq<byte> {
    if fields == [] then [] else EncodedField(code, fields[0]) + EncodedFields(code, fields[1..])
  }

  /** `write_string` */
  method WriteString(table: Table, out: seq<byte>, value: seq<byte>) returns (out': seq<byte>)
    requires WellSized(table)
    ensures out' == out + EncodedString(CodeOf(table), value)
  {
    var encoded := EncodeString(table, value);
    assert AbovePrefix(128, 7) by { assert 128 == PrefixMultiple(1, 7); }
    out' := WriteInteger(out, |encoded|, 7, 128);
    out' := out' + encoded;
  }

  /** `encode` */
  method Encode(table: Table, headers: seq<Field>) returns (out: seq<byte>)
    requires WellSized(table)
    ensures out == EncodedFields(CodeOf(table), headers)
  {
    out := [];
    ghost var code := CodeOf(table);
    ghost var goal := EncodedFields(code, headers);
    assert headers[0..] == headers;
    for i := 0 to |headers|
      invariant out + EncodedFields(code, headers[i..]) == goal
    {
      NextField(code, headers, i, out);
      out := WriteField(table, out, headers[i]);
    }
    assert headers[|headers|..] == [] && out + [] == out;
  }

  lemma NextField(code: Code, headers: seq<Field>, i: nat, out: seq<byte>)
    requires i < |headers|
    ensures out + EncodedFields(code, headers[i..]) ==
            out + EncodedField(code, headers[i]) + EncodedFields(code, headers[i + 1..])
  {
    assert headers[i..][1..] == headers[i + 1..];
    var f, rest := EncodedField(code, headers[i]), EncodedFields(code, headers[i + 1..]);
    assert out + (f + rest) == out + f + rest;
  }

  method WriteField(table: Table, out: seq<byte>, f: Field) returns (out': seq<byte>)
    requires WellSized(table)
    ensures out' == out + EncodedField(CodeOf(table), f)
  {
    out' := out + [0];
    out' := WriteString(table, out', f.name);
    out' := WriteString(table, out', f.value);
  }

  // --------------------------------------------------------------- round trip

  /** String lengths are 64-bit sizes. */
  ghost predicate Sized(code: Code, text: seq<byte>) { |PackBits(EncodeBits(code, text))| < TWO64 }

  ghost predicate AllSized(code: Code, fields: seq<Field>) {
    forall i :: 0 <= i < |fields| ==> Sized(code, fields[i].name) && Sized(code, fields[i].value)
  }

  lemma SkipPart(data: seq<byte>, pos: nat, part: seq<byte>, rest: seq<byte>)
    requires pos <= |data| && data[pos..] == part + rest
    ensures pos + |part| <= |data| && data[pos..pos + |part|] == part && data[pos + |part|..] == rest
  {
    assert data[pos + |part|..] == data[pos..][|part|..];
    assert data[pos..pos + |part|] == data[pos..][..|part|];
  }

  lemma LengthAtEncoded(data: seq<byte>, pos: nat, n: nat, head: seq<byte>, rest: seq<byte>)
    requires n < TWO64 && (forall x :: x == n ==> head == Encoded(x, 7, 128))
    requires pos <= |data| && data[pos..] == head + rest
    ensures pos < |data| && data[pos] >= 128 && IntegerAt(data, pos + 1, 7) == Some((n, pos + |head|))
  {
    assert head == Encoded(n, 7, 128);
    assert AbovePrefix(128, 7) by { assert 128 == PrefixMultiple(1, 7); }
    IntegerRoundTrip(n, 7, 128, rest);
    var e := Encoded(n, 7, 128) + rest;
    assert data[pos] == e[0] && data[pos + 1..] == e[1..];
  }

  lemma TextAtEncoded(code: Code, data: seq<byte>, pos: nat, text: seq<byte>, packed: seq<byte>, tail: seq<byte>)
    requires Usable(code) && (forall x :: x == text ==> packed == PackBits(EncodeBits(code, x)))
    requires pos <= |data| && data[pos..] == packed + tail
    ensures TextAt(code, true, data, pos, |packed|) == Some((text, pos + |packed|))
  {
    SkipPart(data, pos, packed, tail);
    StringRoundTrip(code, text);
  }

  /** `bytes` is the encoding of `text`, boxed. */
  ghost predicate Encodes(code: Code, text: seq<byte>, bytes: seq<byte>) {
    forall x :: x == text ==> Sized(code, x) && bytes == EncodedString(code, x)
  }

  /** The string literal at `pos` is `text` and ends at `end`, boxed. */
  ghost predicate ReadsAs(code: Code, data: seq<byte>, pos: nat, text: seq<byte>, end: nat) {
    pos <= |data| && forall p: nat :: p == pos ==> StringAt(code, data, p) == Some((text, end))
  }

  lemma StringAtEncoded(code: Code, data: seq<byte>, pos: nat, text: seq<byte>, bytes: seq<byte>, tail: seq<byte>)
    requires Usable(code) && Encodes(code, text, bytes) && pos <= |data| && data[pos..] == bytes + tail
    ensures ReadsAs(code, data, pos, text, pos + |bytes|)
  {
    var packed, head := PartsOf(code, text, bytes);
    assert data[pos..] == head + (packed + tail);
    LengthAtEncoded(data, pos, |packed|, head, packed + tail);
    SkipPart(data, pos, head, packed + tail);
    TextAtEncoded(code, data, pos + |head|, text, packed, tail);
    StringOfParts(code, data, pos, |packed|, pos + |head|, text, pos + |bytes|);
  }

  /** The length prefix and the packed text of an encoded string. */
  lemma PartsOf(code: Code, text: seq<byte>, bytes: seq<byte>) returns (packed: seq<byte>, head: seq<byte>)
    requires Encodes(code, text, bytes)
    ensures bytes == head + packed && |packed| < TWO64
    ensures forall x :: x == text ==> packed == PackBits(EncodeBits(code, x))
    ensures forall n :: n == |packed| ==> head == Encoded(n, 7, 128)
  {
    assert Sized(code, text);
    packed := PackBits(EncodeBits(code, text));
    head := Encoded(|packed|, 7, 128);
  }

  lemma StringOfParts(code: Code, data: seq<byte>, pos: nat, n: nat, p: nat, text: seq<byte>, end: nat)
    requires pos < |data| && data[pos] >= 128 && p <= |data|
    requires IntegerAt(data, pos + 1, 7) == Some((n, p)) && TextAt(code, true, data, p, n) == Some((text, end))
    ensures ReadsAs(code, data, pos, text, end)
  {
  }
}
