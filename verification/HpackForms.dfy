/** Every representation of a header field (section 6 of RFC 7541), with what it is to mean, and the
    proof that the decoder gives it that meaning, in any sequence and from any table state. */
module HpackForms {
  import opened Bytes
  import opened Hpack
  import opened HpackInteger
  import opened HpackTable
  import opened Huffman
  import HuffmanTable

  /** A string literal, plain or Huffman coded (section 5.2). */
  datatype Text = Raw(text: seq<byte>) | Coded(text: seq<byte>)

  /** A name by its index in the tables, or spelled out. */
  datatype Name = ByIndex(index: nat) | Spelled(text: Text)

  datatype Form =
    | Indexed(index: nat)                      // section 6.1
    | Inserting(name: Name, value: Text)       // section 6.2.1
    | Plain(name: Name, value: Text)           // section 6.2.2
    | NeverIndexed(name: Name, value: Text)    // section 6.2.3
    | Resize(bound: nat)                       // section 6.3

  function TextBytes(code: Code, t: Text): seq<byte> {
    match t
    case Raw(text) => Encoded(|text|, 7, 0) + text
    case Coded(text) => EncodedString(code, text)
  }

  function NameIndex(name: Name): nat { if name.ByIndex? then name.index else 0 }

  function NameBytes(code: Code, name: Name): seq<byte> { if name.ByIndex? then [] else TextBytes(code, name.text) }

  /** First the integer, then what else there is. */
  function FormBytes(code: Code, f: Form): seq<byte> {
    match f
    case Indexed(index) => Encoded(index, 7, 128)
    case Inserting(name, value) => Encoded(NameIndex(name), 6, 64) + (NameBytes(code, name) + TextBytes(code, value))
    case Plain(name, value) => Encoded(NameIndex(name), 4, 0) + (NameBytes(code, name) + TextBytes(code, value))
    case NeverIndexed(name, value) => Encoded(NameIndex(name), 4, 16) + (NameBytes(code, name) + TextBytes(code, value))
    case Resize(bound) => Encoded(bound, 5, 32)
  }

  function NameMeaning(statics: seq<Field>, t: Tables, name: Name): Option<seq<byte>>
    requires |statics| == STATIC_SIZE
  {
    match name
    case Spelled(text) => Some(text.text)
    case ByIndex(index) => (match Lookup(statics, t.dynamic, index) case None => None case Some(f) => Some(f.name))
  }

  /** The fields a representation stands for, and the tables after it; None is a decoding error. */
  function Meaning(statics: seq<Field>, t: Tables, form: Form): Option<(seq<Field>, Tables)>
    requires |statics| == STATIC_SIZE
  {
    match form
    case Indexed(index) => (match Lookup(statics, t.dynamic, index) case None => None case Some(f) => Some(([f], t)))
    case Resize(bound) => if bound > t.bound then None else Some(([], Tables(bound, Evicted(t.dynamic, bound))))
    case _ =>
      match NameMeaning(statics, t, form.name)
      case None => None
      case Some(name) =>
        var f := Field(name, form.value.text);
        Some(([f], if form.Inserting? then t.(dynamic := Evicted([f] + t.dynamic, t.bound)) else t))
  }

  // ---------------------------------------------------------------- sizes

  ghost predicate TextFits(code: Code, t: Text) { if t.Raw? then |t.text| < TWO64 else Sized(code, t.text) }

  ghost predicate NameFits(code: Code, name: Name) {
    if name.ByIndex? then 0 < name.index < TWO64 else TextFits(code, name.text)
  }

  /** Integers are 64-bit sizes, and a name by index has one. */
  ghost predicate FormFits(code: Code, f: Form) {
    match f
    case Indexed(index) => index < TWO64
    case Resize(bound) => bound < TWO64
    case _ => NameFits(code, f.name) && TextFits(code, f.value)
  }

  // ---------------------------------------------------------------- integers and strings in place

  predicate IsPattern(bits: nat, pattern: byte) {
    || (bits == 7 && (pattern == 128 || pattern == 0))
    || (bits == 6 && pattern == 64) || (bits == 5 && pattern == 32)
    || (bits == 4 && (pattern == 0 || pattern == 16))
  }

  lemma PatternAbove(bits: nat, pattern: byte)
    requires IsPattern(bits, pattern)
    ensures AbovePrefix(pattern, bits)
  {
    if pattern == 0 { assert pattern == PrefixMultiple(0, bits); } else { assert pattern == PrefixMultiple(1, bits); }
  }

  // The predicates below are boxed, so that proofs about places do not unfold the codecs.

  /** From `pos` on there is `bytes`, then `rest`. */
  ghost predicate Found(data: seq<byte>, pos: nat, bytes: seq<byte>, rest: seq<byte>) {
    pos + |bytes| <= |data| && forall p: nat :: p == pos ==> data[p..] == bytes + rest
  }

  ghost predicate IsInteger(bytes: seq<byte>, n: nat, bits: nat, pattern: byte) {
    && IsPattern(bits, pattern) && n < TWO64
    && forall x :: x == n ==> AbovePrefix(pattern, bits) && bytes == Encoded(x, bits, pattern)
  }

  ghost predicate IsText(code: Code, bytes: seq<byte>, t: Text) {
    forall x :: x == t ==> TextFits(code, x) && bytes == TextBytes(code, x)
  }

  ghost predicate IsName(code: Code, bytes: seq<byte>, name: Name) {
    forall x :: x == name ==> NameFits(code, x) && bytes == NameBytes(code, x)
  }

  /** The integer after the byte at `pos` is `n`, and ends at `end`. */
  ghost predicate IntegerReads(data: seq<byte>, pos: nat, bits: nat, n: nat, end: nat) {
    && pos < end <= |data| && 1 <= bits <= 8
    && forall p: nat :: p == pos + 1 ==> IntegerAt(data, p, bits) == Some((n, end))
  }

  lemma IntegerInPlace(data: seq<byte>, pos: nat, bytes: seq<byte>, n: nat, bits: nat, pattern: byte, rest: seq<byte>)
    requires IsInteger(bytes, n, bits, pattern) && Found(data, pos, bytes, rest)
    ensures IntegerReads(data, pos, bits, n, pos + |bytes|) && pattern <= data[pos] <= pattern + PrefixMax(bits)
  {
    assert bytes == Encoded(n, bits, pattern) && data[pos..] == bytes + rest;
    IntegerRoundTrip(n, bits, pattern, rest);
    var e := bytes + rest;
    assert data[pos] == e[0] && data[pos + 1..] == e[1..];
  }

  lemma TextInPlace(code: Code, data: seq<byte>, pos: nat, bytes: seq<byte>, t: Text, tail: seq<byte>)
    requires Usable(code) && IsText(code, bytes, t) && Found(data, pos, bytes, tail)
    ensures ReadsAs(code, data, pos, t.text, pos + |bytes|)
  {
    assert bytes == TextBytes(code, t) && TextFits(code, t) && data[pos..] == bytes + tail;
    match t
    case Coded(text) => StringAtEncoded(code, data, pos, text, bytes, tail);
    case Raw(text) =>
      var head := Encoded(|text|, 7, 0);
      assert data[pos..] == head + (text + tail);
      PatternAbove(7, 0);
      RawInPlace(code, data, pos, head, text, tail);
  }

  lemma RawInPlace(code: Code, data: seq<byte>, pos: nat, head: seq<byte>, text: seq<byte>, tail: seq<byte>)
    requires IsInteger(head, |text|, 7, 0) && pos <= |data| && data[pos..] == head + (text + tail)
    ensures ReadsAs(code, data, pos, text, pos + |head| + |text|)
  {
    SkipPart(data, pos, head, text + tail);
    IntegerInPlace(data, pos, head, |text|, 7, 0, text + tail);
    SkipPart(data, pos + |head|, text, tail);
    assert IntegerAt(data, pos + 1, 7) == Some((|text|, pos + |head|));
  }

  /** The name of a literal, after its index. */
  lemma NameInPlace(code: Code, statics: seq<Field>, data: seq<byte>, pos: nat, bytes: seq<byte>, name: Name,
                    tail: seq<byte>, t: Tables)
    requires Usable(code) && |statics| == STATIC_SIZE && IsName(code, bytes, name) && Found(data, pos, bytes, tail)
    ensures NameReads(code, statics, t, data, pos, name, pos + |bytes|)
  {
    assert bytes == NameBytes(code, name) && NameFits(code, name);
    if name.Spelled? {
      assert IsText(code, bytes, name.text);
      TextInPlace(code, data, pos, bytes, name.text, tail);
      assert StringAt(code, data, pos) == Some((name.text.text, pos + |bytes|));
    }
  }

  ghost predicate NameReads(code: Code, statics: seq<Field>, t: Tables, data: seq<byte>, pos: nat, name: Name, end: nat)
    requires |statics| == STATIC_SIZE && pos <= |data|
  {
    forall p: nat :: p == pos ==>
                       NameAt(code, statics, t.dynamic, data, p, NameIndex(name)) ==
                       match NameMeaning(statics, t, name) { case None => None case Some(text) => Some((text, end)) }
  }

  ghost predicate LiteralReads(code: Code, statics: seq<Field>, t: Tables, data: seq<byte>, pos: nat, bits: nat,
                               name: Name, value: Text, end: nat)
    requires |statics| == STATIC_SIZE && pos < |data| && 1 <= bits <= 8
  {
    forall p: nat :: p == pos + 1 ==>
                       LiteralAt(code, statics, t.dynamic, data, p, bits) ==
                       match NameMeaning(statics, t, name)
                       case None => None
                       case Some(text) => Some((Field(text, value.text), end))
  }

  lemma LiteralOfParts(code: Code, statics: seq<Field>, t: Tables, data: seq<byte>, pos: nat, bits: nat, name: Name,
                       value: Text, p: nat, q: nat, end: nat)
    requires |statics| == STATIC_SIZE && IntegerReads(data, pos, bits, NameIndex(name), p)
    requires NameReads(code, statics, t, data, p, name, q) && ReadsAs(code, data, q, value.text, end)
    ensures LiteralReads(code, statics, t, data, pos, bits, name, value, end)
  {
    assert IntegerAt(data, pos + 1, bits) == Some((NameIndex(name), p));
    assert StringAt(code, data, q) == Some((value.text, end));
    assert NameAt(code, statics, t.dynamic, data, p, NameIndex(name)) ==
           match NameMeaning(statics, t, name) { case None => None case Some(text) => Some((text, q)) };
  }

  lemma LiteralInPlace(code: Code, statics: seq<Field>, data: seq<byte>, pos: nat, head: seq<byte>, n: seq<byte>,
                       v: seq<byte>, name: Name, value: Text, bits: nat, pattern: byte, tail: seq<byte>, t: Tables)
    requires Usable(code) && |statics| == STATIC_SIZE && IsInteger(head, NameIndex(name), bits, pattern)
    requires IsName(code, n, name) && IsText(code, v, value) && Found(data, pos, head + (n + v), tail)
    ensures head != [] && pos < |data| && pattern <= data[pos] <= pattern + PrefixMax(bits)
    ensures LiteralReads(code, statics, t, data, pos, bits, name, value, pos + |head| + |n| + |v|)
  {
    var p := pos + |head|;
    var r1, r2 := ThreeParts(data, pos, head, n, v, tail);
    IntegerInPlace(data, pos, head, NameIndex(name), bits, pattern, r1);
    LiteralRest(code, statics, data, pos, p, n, v, name, value, bits, r2, tail, t);
  }

  /** After the integer, which ends at p. */
  lemma LiteralRest(code: Code, statics: seq<Field>, data: seq<byte>, pos: nat, p: nat, n: seq<byte>, v: seq<byte>,
                    name: Name, value: Text, bits: nat, rest: seq<byte>, tail: seq<byte>, t: Tables)
    requires Usable(code) && |statics| == STATIC_SIZE && IntegerReads(data, pos, bits, NameIndex(name), p)
    requires IsName(code, n, name) && IsText(code, v, value) && Found(data, p, n, rest) && Found(data, p + |n|, v, tail)
    ensures LiteralReads(code, statics, t, data, pos, bits, name, value, p + |n| + |v|)
  {
    var q := p + |n|;
    NameInPlace(code, statics, data, p, n, name, rest, t);
    TextInPlace(code, data, q, v, value, tail);
    LiteralOfParts(code, statics, t, data, pos, bits, name, value, p, q, q + |v|);
  }

  lemma ThreeParts(data: seq<byte>, pos: nat, head: seq<byte>, n: seq<byte>, v: seq<byte>, tail: seq<byte>)
    returns (r1: seq<byte>, r2: seq<byte>)
    requires Found(data, pos, head + (n + v), tail)
    ensures Found(data, pos, head, r1) && Found(data, pos + |head|, n, r2) && Found(data, pos + |head| + |n|, v, tail)
  {
    r2 := v + tail;
    r1 := n + r2;
    assert data[pos..] == head + (n + v) + tail == head + r1;
    SkipPart(data, pos, head, r1);
    SkipPart(data, pos + |head|, n, r2);
  }

  // ---------------------------------------------------------------- the decoder gives each form its meaning

  /** What one step of the decoder must be for a form that ends at `end`. */
  function StepFor(statics: seq<Field>, t: Tables, form: Form, end: nat): Option<(seq<Field>, nat, Tables)>
    requires |statics| == STATIC_SIZE
  {
    match Meaning(statics, t, form)
    case None => None
    case Some((fields, t')) => Some((fields, end, t'))
  }

  ghost predicate StepReads(code: Code, statics: seq<Field>, data: seq<byte>, pos: nat, t: Tables, form: Form, end: nat)
    requires |statics| == STATIC_SIZE && pos < |data|
  {
    forall p: nat :: p == pos ==> StepAt(code, statics, data, p, t) == StepFor(statics, t, form, end)
  }

  lemma StepOfInteger(code: Code, statics: seq<Field>, data: seq<byte>, pos: nat, t: Tables, form: Form, end: nat)
    requires |statics| == STATIC_SIZE && pos < |data| && (form.Indexed? || form.Resize?)
    requires form.Indexed? ==> data[pos] >= 128 && IntegerReads(data, pos, 7, form.index, end)
    requires form.Resize? ==> 32 <= data[pos] < 64 && IntegerReads(data, pos, 5, form.bound, end)
    ensures StepReads(code, statics, data, pos, t, form, end)
  {
    if form.Indexed? { assert IntegerAt(data, pos + 1, 7) == Some((form.index, end)); }
    else { assert IntegerAt(data, pos + 1, 5) == Some((form.bound, end)); }
  }

  lemma StepOfLiteralForm(code: Code, statics: seq<Field>, data: seq<byte>, pos: nat, t: Tables, form: Form, end: nat)
    requires |statics| == STATIC_SIZE && pos < |data| && !form.Indexed? && !form.Resize?
    requires if form.Inserting? then 64 <= data[pos] < 128 else data[pos] < 32
    requires LiteralReads(code, statics, t, data, pos, if form.Inserting? then 6 else 4, form.name, form.value, end)
    ensures StepReads(code, statics, data, pos, t, form, end)
  {
    assert LiteralAt(code, statics, t.dynamic, data, pos + 1, if form.Inserting? then 6 else 4) ==
           match NameMeaning(statics, t, form.name) {
             case None => None
             case Some(text) => Some((Field(text, form.value.text), end))
           };
  }

  function Bits(form: Form): nat {
    match form
    case Indexed(_) => 7
    case Inserting(_, _) => 6
    case Resize(_) => 5
    case _ => 4
  }

  function Pattern(form: Form): byte {
    match form
    case Indexed(_) => 128
    case Inserting(_, _) => 64
    case Resize(_) => 32
    case NeverIndexed(_, _) => 16
    case Plain(_, _) => 0
  }

  ghost predicate IsForm(code: Code, bytes: seq<byte>, form: Form) {
    forall x :: x == form ==> FormFits(code, x) && bytes == FormBytes(code, x)
  }

  lemma FormInteger(code: Code, bytes: seq<byte>, form: Form)
    requires IsForm(code, bytes, form) && (form.Indexed? || form.Resize?)
    ensures IsInteger(bytes, if form.Indexed? then form.index else form.bound, Bits(form), Pattern(form))
  {
    assert bytes == FormBytes(code, form) && FormFits(code, form);
    PatternAbove(Bits(form), Pattern(form));
  }

  lemma FormParts(code: Code, bytes: seq<byte>, form: Form) returns (head: seq<byte>, n: seq<byte>, v: seq<byte>)
    requires IsForm(code, bytes, form) && !form.Indexed? && !form.Resize?
    ensures bytes == head + (n + v) && IsInteger(head, NameIndex(form.name), Bits(form), Pattern(form))
    ensures IsName(code, n, form.name) && IsText(code, v, form.value)
  {
    assert bytes == FormBytes(code, form) && FormFits(code, form);
    PatternAbove(Bits(form), Pattern(form));
    head := Encoded(NameIndex(form.name), Bits(form), Pattern(form));
    n, v := NameBytes(code, form.name), TextBytes(code, form.value);
  }

  /** One representation in place, whatever follows it. */
  lemma FormDecodes(code: Code, statics: seq<Field>, data: seq<byte>, pos: nat, bytes: seq<byte>, form: Form,
                    tail: seq<byte>, t: Tables)
    requires Usable(code) && |statics| == STATIC_SIZE && IsForm(code, bytes, form) && Found(data, pos, bytes, tail)
    ensures bytes != [] && StepReads(code, statics, data, pos, t, form, pos + |bytes|)
  {
    if form.Indexed? || form.Resize? {
      FormInteger(code, bytes, form);
      IntegerInPlace(data, pos, bytes, if form.Indexed? then form.index
                     else form.bound, Bits(form), Pattern(form), tail);
      StepOfInteger(code, statics, data, pos, t, form, pos + |bytes|);
    } else {
      LiteralDecodes(code, statics, data, pos, bytes, form, tail, t);
    }
  }

  lemma LiteralDecodes(code: Code, statics: seq<Field>, data: seq<byte>, pos: nat, bytes: seq<byte>, form: Form,
                       tail: seq<byte>, t: Tables)
    requires Usable(code) && |statics| == STATIC_SIZE && IsForm(code, bytes, form) && Found(data, pos, bytes, tail)
    requires !form.Indexed? && !form.Resize?
    ensures bytes != [] && StepReads(code, statics, data, pos, t, form, pos + |bytes|)
  {
    var head, n, v := FormParts(code, bytes, form);
    LiteralInPlace(code, statics, data, pos, head, n, v, form.name, form.value, Bits(form), Pattern(form), tail, t);
    StepOfLiteralForm(code, statics, data, pos, t, form, pos + |bytes|);
  }

  function FormsBytes(code: Code, forms: seq<Form>): seq<byte> {
    if forms == [] then [] else FormBytes(code, forms[0]) + FormsBytes(code, forms[1..])
  }

  /** What a sequence of representations means: fields and tables up to the first that is an error. */
  function Meanings(statics: seq<Field>, t: Tables, forms: seq<Form>, out: seq<Field>): (bool, seq<Field>, Tables)
    requires |statics| == STATIC_SIZE
    decreases forms
  {
    if forms == [] then (true, out, t)
    else
      match Meaning(statics, t, forms[0])
      case None => (false, out, t)
      case Some((fields, t')) => Meanings(statics, t', forms[1..], out + fields)
  }

  /** Decoding from `pos` on, after the fields `out`, gives `r`. */
  ghost predicate BlockIs(code: Code, statics: seq<Field>, data: seq<byte>, pos: nat, t: Tables, out: seq<Field>,
                          r: BlockResult)
    requires |statics| == STATIC_SIZE && pos <= |data|
  {
    forall x :: x == out ==> BlockAt(code, statics, data, pos, t, x) == r
  }

  lemma BlockOfStep(code: Code, statics: seq<Field>, data: seq<byte>, pos: nat, t: Tables, out: seq<Field>,
                    form: Form, end: nat,
                    m: Option<(seq<Field>, Tables)>, r: BlockResult)
    requires |statics| == STATIC_SIZE && pos < end <= |data|
    requires StepReads(code, statics, data, pos, t, form, end) && Means(statics, t, form, m)
    requires if m.None? then r == (false, out, t) else BlockIs(code, statics, data, end, m.value.1, out + m.value.0, r)
    ensures BlockIs(code, statics, data, pos, t, out, r)
  {
    assert StepAt(code, statics, data, pos, t) == StepFor(statics, t, form, end) && Meaning(statics, t, form) == m;
  }

  ghost predicate AreForms(code: Code, bytes: seq<byte>, forms: seq<Form>) {
    forall x :: x == forms ==> bytes == FormsBytes(code, x) && forall i :: 0 <= i < |x| ==> FormFits(code, x[i])
  }

  lemma SplitForms(code: Code, bytes: seq<byte>, forms: seq<Form>) returns (first: seq<byte>, rest: seq<byte>)
    requires AreForms(code, bytes, forms) && forms != []
    ensures bytes == first + rest && IsForm(code, first, forms[0]) && AreForms(code, rest, forms[1..])
  {
    assert bytes == FormsBytes(code, forms) && forall i :: 0 <= i < |forms| ==> FormFits(code, forms[i]);
    first, rest := FormBytes(code, forms[0]), FormsBytes(code, forms[1..]);
    assert FormFits(code, forms[0]);
  }

  /** From `pos` on there is `bytes` and nothing else. */
  ghost predicate Ends(data: seq<byte>, pos: nat, bytes: seq<byte>) {
    pos + |bytes| == |data| && forall p: nat :: p == pos ==> data[p..] == bytes
  }

  lemma SplitHere(code: Code, data: seq<byte>, pos: nat, bytes: seq<byte>,
                  forms: seq<Form>) returns (first: seq<byte>, rest: seq<byte>)
    requires AreForms(code, bytes, forms) && forms != [] && Ends(data, pos, bytes)
    ensures Found(data, pos, first, rest) && Ends(data, pos + |first|, rest)
    ensures IsForm(code, first, forms[0]) && AreForms(code, rest, forms[1..])
  {
    first, rest := SplitForms(code, bytes, forms);
    FoundThere(data, pos, first, rest);
  }

  lemma FoundThere(data: seq<byte>, pos: nat, first: seq<byte>, rest: seq<byte>)
    requires Ends(data, pos, first + rest)
    ensures Found(data, pos, first, rest) && Ends(data, pos + |first|, rest)
  {
    assert data[pos..] == first + rest;
    SkipPart(data, pos, first, rest);
  }

  type BlockResult = (bool, seq<Field>, Tables)

  ghost predicate Means(statics: seq<Field>, t: Tables, form: Form, m: Option<(seq<Field>, Tables)>)
    requires |statics| == STATIC_SIZE
  {
    forall x :: x == form ==> Meaning(statics, t, x) == m
  }

  ghost predicate AllMean(statics: seq<Field>, t: Tables, forms: seq<Form>, out: seq<Field>, r: BlockResult)
    requires |statics| == STATIC_SIZE
  {
    forall x :: x == forms ==> Meanings(statics, t, x, out) == r
  }

  lemma FirstMeaning(statics: seq<Field>, t: Tables, forms: seq<Form>, out: seq<Field>,
                     r: BlockResult) returns (m: Option<(seq<Field>, Tables)>)
    requires |statics| == STATIC_SIZE && AllMean(statics, t, forms, out, r) && forms != []
    ensures Means(statics, t, forms[0], m) && (m.None? ==> r == (false, out, t))
    ensures m.Some? ==> AllMean(statics, m.value.1, forms[1..], out + m.value.0, r)
  {
    assert Meanings(statics, t, forms, out) == r;
    m := Meaning(statics, t, forms[0]);
  }

  lemma {:induction false} BlockReads(code: Code, statics: seq<Field>, data: seq<byte>, pos: nat, bytes: seq<byte>,
                                      forms: seq<Form>,
                                      t: Tables, out: seq<Field>, r: BlockResult)
    requires Usable(code) && |statics| == STATIC_SIZE && AreForms(code, bytes, forms) && Ends(data, pos, bytes)
    requires AllMean(statics, t, forms, out, r)
    ensures BlockIs(code, statics, data, pos, t, out, r)
    decreases forms
  {
    if forms == [] {
      BlockEnds(code, statics, data, pos, bytes, forms, t, out, r);
    } else {
      var form, more := forms[0], forms[1..];
      var first, rest := SplitHere(code, data, pos, bytes, forms);
      var m := FirstMeaning(statics, t, forms, out, r);
      if m.Some? { BlockReads(code, statics, data, pos + |first|, rest, more, m.value.1, out + m.value.0, r); }
      OneForm(code, statics, data, pos, first, form, rest, t, out, m, r);
    }
  }

  lemma OneForm(code: Code, statics: seq<Field>, data: seq<byte>, pos: nat, bytes: seq<byte>, form: Form,
                tail: seq<byte>,
                t: Tables, out: seq<Field>, m: Option<(seq<Field>, Tables)>, r: BlockResult)
    requires Usable(code) && |statics| == STATIC_SIZE && IsForm(code, bytes, form)
    requires Found(data, pos, bytes, tail) && Means(statics, t, form, m)
    requires if m.None? then r == (false, out, t)
             else BlockIs(code, statics, data, pos + |bytes|, m.value.1, out + m.value.0, r)
    ensures BlockIs(code, statics, data, pos, t, out, r)
  {
    FormDecodes(code, statics, data, pos, bytes, form, tail, t);
    BlockOfStep(code, statics, data, pos, t, out, form, pos + |bytes|, m, r);
  }

  lemma BlockEnds(code: Code, statics: seq<Field>, data: seq<byte>, pos: nat, bytes: seq<byte>, forms: seq<Form>,
                  t: Tables, out: seq<Field>, r: BlockResult)
    requires |statics| == STATIC_SIZE && AreForms(code, bytes, forms) && forms == [] && Ends(data, pos, bytes)
    requires AllMean(statics, t, forms, out, r)
    ensures BlockIs(code, statics, data, pos, t, out, r)
  {
    assert data[pos..] == bytes == FormsBytes(code, forms) == [] && Meanings(statics, t, forms, out) == r;
  }

  /** A block of any representations, from any table state: fields, success and tables are those it
      is to mean. */
  lemma BlockHasItsMeaning(code: Code, statics: seq<Field>, forms: seq<Form>, t: Tables)
    requires Usable(code) && |statics| == STATIC_SIZE && forall i :: 0 <= i < |forms| ==> FormFits(code, forms[i])
    ensures BlockAt(code, statics, FormsBytes(code, forms), 0, t, []) == Meanings(statics, t, forms, [])
  {
    var data := FormsBytes(code, forms);
    assert data[0..] == data && Ends(data, 0, data) && AreForms(code, data, forms);
    var r := Meanings(statics, t, forms, []);
    BlockReads(code, statics, data, 0, data, forms, t, [], r);
    assert BlockIs(code, statics, data, 0, t, [], r);
  }

  // ---------------------------------------------------------------- the encoder's blocks

  /** The encoder writes literals without indexing, both strings Huffman coded. */
  function AsForm(f: Field): Form { Plain(Spelled(Coded(f.name)), Coded(f.value)) }

  function AsForms(fields: seq<Field>): (forms: seq<Form>)
    ensures |forms| == |fields| && forall i :: 0 <= i < |fields| ==> forms[i] == AsForm(fields[i])
  {
    if fields == [] then [] else [AsForm(fields[0])] + AsForms(fields[1..])
  }

  lemma AsFormBytes(code: Code, f: Field)
    ensures FormBytes(code, AsForm(f)) == EncodedField(code, f)
  {
    Regroup([0], EncodedString(code, f.name), EncodedString(code, f.value));
  }

  lemma {:induction false} AsFormsBytes(code: Code, fields: seq<Field>)
    ensures FormsBytes(code, AsForms(fields)) == EncodedFields(code, fields)
  {
    if fields == [] {
    } else {
      AsFormBytes(code, fields[0]);
      AsFormsBytes(code, fields[1..]);
      assert AsForms(fields)[1..] == AsForms(fields[1..]);
    }
  }

  lemma {:induction false} AsFormsMean(statics: seq<Field>, t: Tables, fields: seq<Field>, out: seq<Field>)
    requires |statics| == STATIC_SIZE
    ensures Meanings(statics, t, AsForms(fields), out) == (true, out + fields, t)
    decreases fields
  {
    if fields == [] {
      assert out + fields == out;
    } else {
      assert AsForms(fields)[1..] == AsForms(fields[1..]);
      AsFormsMean(statics, t, fields[1..], out + [fields[0]]);
      assert out + [fields[0]] + fields[1..] == out + fields;
    }
  }

  lemma AsFormsFit(code: Code, fields: seq<Field>)
    requires AllSized(code, fields)
    ensures forall i :: 0 <= i < |fields| ==> FormFits(code, AsForms(fields)[i])
  {
    forall i | 0 <= i < |fields| ensures FormFits(code, AsForms(fields)[i]) {
      assert AsForms(fields)[i] == AsForm(fields[i]);
    }
  }

  /** Decoding an encoded header list returns that list, for all byte strings, from any state of
      the dynamic table, and leaves the table as it was. */
  lemma HeaderListRoundTrip(statics: seq<Field>, fields: seq<Field>, t: Tables)
    requires |statics| == STATIC_SIZE && AllSized(CodeOf(HuffmanTable.RFC_TABLE), fields)
    ensures var code := CodeOf(HuffmanTable.RFC_TABLE);
            BlockAt(code, statics, EncodedFields(code, fields), 0, t, []) == (true, fields, t)
  {
    HuffmanTable.TableIsPrefixFree();
    HuffmanTable.TableIsPaddable();
    EncodedListDecodes(CodeOf(HuffmanTable.RFC_TABLE), statics, fields, t);
  }

  lemma EncodedListDecodes(code: Code, statics: seq<Field>, fields: seq<Field>, t: Tables)
    requires Usable(code) && |statics| == STATIC_SIZE && AllSized(code, fields)
    ensures BlockAt(code, statics, EncodedFields(code, fields), 0, t, []) == (true, fields, t)
  {
    AsFormsBytes(code, fields);
    AsFormsMean(statics, t, fields, []);
    AsFormsFit(code, fields);
    assert [] + fields == fields;
    BlockHasItsMeaning(code, statics, AsForms(fields), t);
  }
}
