/** Prefix-code compression of strings (section 5.2 of RFC 7541) over any code table: the bit
    packing encoder, the trie the decoder walks, and their agreement with a declarative reading
    of the code. */
module Huffman {
  import opened Arithmetic
  import opened Bytes

  type Code = byte -> seq<bool>

  // ----------------------------------------------------------- the declarative view

  ghost predicate PrefixFree(code: Code) {
    && (forall s: byte :: |code(s)| >= 1)
    && forall s: byte, t: byte :: code(s) <= code(t) ==> s == t
  }

  /** One-padding cannot be mistaken for a symbol nor run off the tree: no code word consists of
      up to seven ones, and some code word starts with seven ones. */
  ghost predicate Paddable(code: Code) {
    && (forall s: byte, k: nat :: k <= 7 ==> code(s) != Ones(k))
    && exists s: byte :: Ones(7) <= code(s)
  }

  function EncodeBits(code: Code, text: seq<byte>): seq<bool> {
    if text == [] then [] else code(text[0]) + EncodeBits(code, text[1..])
  }

  lemma {:induction false} EncodeBitsConcat(code: Code, a: seq<byte>, b: seq<byte>)
    ensures EncodeBits(code, a + b) == EncodeBits(code, a) + EncodeBits(code, b)
  {
    if a == [] {
      assert a + b == b;
    } else {
      assert (a + b)[1..] == a[1..] + b;
      EncodeBitsConcat(code, a[1..], b);
    }
  }

  ghost predicate Viable(code: Code, p: seq<bool>) { exists s: byte :: p <= code(s) }

  ghost predicate IsWord(code: Code, p: seq<bool>) { exists s: byte :: code(s) == p }

  ghost function WordSymbol(code: Code, p: seq<bool>): (s: byte)
    requires IsWord(code, p)
    ensures code(s) == p
  {
    var s: byte :| code(s) == p; s
  }

  /** Bit-by-bit decoding, with the bits since the last symbol pending. */
  ghost function Scan(code: Code, pending: seq<bool>, out: seq<byte>, bits: seq<bool>): Option<seq<byte>>
    decreases |bits|
  {
    if bits == [] then
      if |pending| < 8 && pending == Ones(|pending|) then Some(out) else None
    else
      var p := pending + [bits[0]];
      if !Viable(code, p) then None
      else if IsWord(code, p) then Scan(code, [], out + [WordSymbol(code, p)], bits[1..])
      else Scan(code, p, out, bits[1..])
  }

  /** Whatever the scan accepts is an encoding followed by at most seven one bits. */
  lemma {:induction false} ScanSound(code: Code, pending: seq<bool>, out: seq<byte>,
                                     bits: seq<bool>) returns (text: seq<byte>, k: nat)
    requires Scan(code, pending, out, bits).Some?
    ensures Scan(code, pending, out, bits) == Some(out + text)
    ensures k < 8 && pending + bits == EncodeBits(code, text) + Ones(k)
    decreases |bits|
  {
    if bits == [] {
      text, k := [], |pending|;
      assert pending + bits == pending && out + text == out;
    } else {
      var p := pending + [bits[0]];
      assert pending + bits == p + bits[1..];
      if IsWord(code, p) {
        var s := WordSymbol(code, p);
        text, k := ScanSound(code, [], out + [s], bits[1..]);
        assert [] + bits[1..] == bits[1..];
        assert ([s] + text)[1..] == text;
        assert out + [s] + text == out + ([s] + text);
        text := [s] + text;
      } else {
        text, k := ScanSound(code, p, out, bits[1..]);
      }
    }
  }

  lemma {:induction false} ScanWord(code: Code, c: byte, n: nat, out: seq<byte>, tail: seq<bool>)
    requires PrefixFree(code) && n < |code(c)|
    ensures Scan(code, code(c)[..n], out, code(c)[n..] + tail) == Scan(code, [], out + [c], tail)
    decreases |code(c)| - n
  {
    var w := code(c);
    var bits := w[n..] + tail;
    var p := w[..n] + [bits[0]];
    assert p == w[..n + 1] && bits[1..] == w[n + 1..] + tail;
    assert p <= w;
    if n + 1 == |w| {
      assert p == w && w[n + 1..] + tail == tail;
      assert WordSymbol(code, p) == c;
    } else {
      assert !IsWord(code, p);
      ScanWord(code, c, n + 1, out, tail);
    }
  }

  lemma {:induction false} ScanPadding(code: Code, j: nat, k: nat, out: seq<byte>)
    requires Paddable(code) && j + k <= 7
    ensures AtScan(Some(out), code, Ones(j), out, Ones(k))
    decreases k
  {
    if k == 0 {
      assert Ones(0) == [] && |Ones(j)| == j;
    } else {
      ScanPadding(code, j + 1, k - 1, out);
      PaddingStep(Some(out), code, j, k, out);
    }
  }

  lemma PaddingStep(goal: Option<seq<byte>>, code: Code, j: nat, k: nat, out: seq<byte>)
    requires Paddable(code) && k > 0 && j + k <= 7 && AtScan(goal, code, Ones(j + 1), out, Ones(k - 1))
    ensures AtScan(goal, code, Ones(j), out, Ones(k))
  {
    PaddingPrefix(code, j + 1);
    assert Ones(j) + [Ones(k)[0]] == Ones(j + 1) && Ones(k)[1..] == Ones(k - 1);
    ScanOnce(code, Ones(j), out, Ones(k));
    assert Scan(code, Ones(j + 1), out, Ones(k - 1)) == goal;
  }

  lemma PaddingPrefix(code: Code, j: nat)
    requires Paddable(code) && j <= 7
    ensures Viable(code, Ones(j)) && !IsWord(code, Ones(j))
  {
    var s: byte :| Ones(7) <= code(s);
    assert Ones(j) <= code(s);
  }

  lemma FirstWord(code: Code, text: seq<byte>, k: nat, tail: seq<bool>)
    requires text != [] && tail == EncodeBits(code, text[1..]) + Ones(k)
    ensures EncodeBits(code, text) + Ones(k) == code(text[0])[0..] + tail
  {
    var w := code(text[0]);
    assert w[0..] == w && w + EncodeBits(code, text[1..]) + Ones(k) == w + tail;
  }

  /** The scan accepts every encoding followed by at most seven one bits, and returns its text. */
  lemma {:induction false} ScanComplete(code: Code, text: seq<byte>, k: nat, out: seq<byte>)
    requires PrefixFree(code) && Paddable(code) && k < 8
    ensures AtScan(Some(out + text), code, [], out, EncodeBits(code, text) + Ones(k))
  {
    if text == [] {
      assert EncodeBits(code, text) + Ones(k) == Ones(k) && Ones(0) == [] && out + text == out;
      ScanPadding(code, 0, k, out);
    } else {
      ScanComplete(code, text[1..], k, out + [text[0]]);
      assert out + [text[0]] + text[1..] == out + text;
      ScanFirst(Some(out + text), code, text, k, out);
    }
  }

  lemma ScanFirst(goal: Option<seq<byte>>, code: Code, text: seq<byte>, k: nat, out: seq<byte>)
    requires PrefixFree(code) && text != []
    requires AtScan(goal, code, [], out + [text[0]], EncodeBits(code, text[1..]) + Ones(k))
    ensures AtScan(goal, code, [], out, EncodeBits(code, text) + Ones(k))
  {
    var tail := EncodeBits(code, text[1..]) + Ones(k);
    assert Scan(code, [], out + [text[0]], tail) == goal;
    FirstWord(code, text, k, tail);
    assert code(text[0])[..0] == [];
    ScanWord(code, text[0], 0, out, tail);
  }

  /** Decoding is exactly the inverse of encoding: `bits` decodes to `text` if and only if it is
      the encoding of `text` followed by fewer than eight one bits. */
  lemma ScanInvertsEncode(code: Code, bits: seq<bool>, text: seq<byte>)
    requires PrefixFree(code) && Paddable(code)
    ensures Scan(code, [], [], bits) == Some(text) <==>
            exists k: nat :: k < 8 && bits == EncodeBits(code, text) + Ones(k)
  {
    if Scan(code, [], [], bits) == Some(text) {
      var t, k := ScanSound(code, [], [], bits);
      assert t == text && [] + bits == bits;
    }
    if k: nat :| k < 8 && bits == EncodeBits(code, text) + Ones(k) {
      ScanComplete(code, text, k, []);
      assert [] + text == text && AtScan(Some(text), code, [], [], bits);
    }
  }

  // ------------------------------------------------------------------- the trie

  datatype Entry = Entry(code: nat, bits: nat)

  type Table = byte -> Entry

  function CodeOf(table: Table): Code {
    (s: byte) => BitsOf(table(s).code, table(s).bits)
  }

  /** `symbol` and the two children are -1 when absent. */
  datatype Node = Node(symbol: int, zero: int, one: int) {
    function Child(bit: bool): int { if bit then one else zero }
    function SetChild(bit: bool, i: int): Node { if bit then this.(one := i) else this.(zero := i) }
  }

  const BLANK := Node(-1, -1, -1)

  ghost predicate ParentKnown(labels: seq<seq<bool>>, path: seq<bool>) {
    path != [] ==> path[..|path| - 1] in labels
  }

  ghost predicate Linked(nodes: seq<Node>, labels: seq<seq<bool>>, i: nat, b: bool)
    requires i < |nodes| == |labels|
  {
    var c := nodes[i].Child(b);
    if c < 0 then c == -1 && labels[i] + [b] !in labels
    else c < |nodes| && labels[c] == labels[i] + [b]
  }

  /** Nodes and paths correspond one to one, paths are closed under prefixes, and child pointers
      follow the paths. */
  ghost predicate Shape(nodes: seq<Node>, labels: seq<seq<bool>>) {
    && |labels| == |nodes| >= 1 && labels[0] == []
    && (forall i, j :: 0 <= i < j < |labels| ==> labels[i] != labels[j])
    && (forall i {:trigger ParentKnown(labels, labels[i])} :: 0 <= i < |labels| ==> ParentKnown(labels, labels[i]))
    && (forall i, b :: 0 <= i < |nodes| ==> Linked(nodes, labels, i, b))
  }

  function Grow(nodes: seq<Node>, cur: nat, bit: bool): seq<Node>
    requires cur < |nodes|
  {
    nodes[cur := nodes[cur].SetChild(bit, |nodes|)] + [BLANK]
  }

  lemma ParentOf(nodes: seq<Node>, labels: seq<seq<bool>>, path: seq<bool>)
    requires Shape(nodes, labels) && path in labels && path != []
    ensures path[..|path| - 1] in labels
  {
    var i :| 0 <= i < |labels| && labels[i] == path;
    assert ParentKnown(labels, labels[i]);
  }

  lemma GrowShape(nodes: seq<Node>, labels: seq<seq<bool>>, cur: nat, bit: bool)
    requires Shape(nodes, labels) && cur < |nodes| && nodes[cur].Child(bit) < 0
    ensures Shape(Grow(nodes, cur, bit), labels + [labels[cur] + [bit]])
  {
    var path := labels[cur] + [bit];
    var nodes', labels' := Grow(nodes, cur, bit), labels + [path];
    assert Linked(nodes, labels, cur, bit);
    assert path[..|path| - 1] == labels[cur];
    forall i | 0 <= i < |labels'| ensures ParentKnown(labels', labels'[i]) {
      if i < |labels| { assert ParentKnown(labels, labels[i]); }
    }
    forall i, b | 0 <= i < |nodes'| ensures Linked(nodes', labels', i, b) {
      var below := labels'[i] + [b];
      assert below[..|below| - 1] == labels'[i];
      if i < |nodes| {
        assert Linked(nodes, labels, i, b);
        assert below == path ==> i == cur;
      } else if below in labels {
        ParentOf(nodes, labels, below);
        assert false;
      }
    }
  }

  lemma SymbolShape(nodes: seq<Node>, labels: seq<seq<bool>>, cur: nat, symbol: int)
    requires Shape(nodes, labels) && cur < |nodes|
    ensures Shape(nodes[cur := nodes[cur].(symbol := symbol)], labels)
  {
    var nodes' := nodes[cur := nodes[cur].(symbol := symbol)];
    forall i, b | 0 <= i < |nodes'| ensures Linked(nodes', labels, i, b) {
      assert Linked(nodes, labels, i, b);
    }
  }

  lemma {:induction false} PrefixesKnown(nodes: seq<Node>, labels: seq<seq<bool>>, path: seq<bool>, k: nat)
    requires Shape(nodes, labels) && path in labels && k <= |path|
    ensures path[..k] in labels
    decreases |path|
  {
    if k < |path| {
      ParentOf(nodes, labels, path);
      var parent := path[..|path| - 1];
      PrefixesKnown(nodes, labels, parent, k);
      assert parent[..k] == path[..k];
    } else {
      assert path[..k] == path;
    }
  }

  /** The paths are the prefixes of the first n code words, and the words carry their symbols. */
  ghost predicate Holds(nodes: seq<Node>, labels: seq<seq<bool>>, code: Code, n: nat) {
    && Shape(nodes, labels)
    && (forall i :: 0 < i < |labels| ==> OnTheWay(labels[i], code, n))
    && (forall s: byte :: s < n ==> code(s) in labels)
    && (forall i :: 0 <= i < |nodes| ==> SymbolOk(nodes, labels, code, n, i))
  }

  ghost predicate OnTheWay(path: seq<bool>, code: Code, n: nat) { exists s: byte :: s < n && path <= code(s) }

  /** A node carries a symbol exactly if its label is that symbol's word. */
  ghost predicate SymbolOk(nodes: seq<Node>, labels: seq<seq<bool>>, code: Code, n: nat, i: nat)
    requires i < |nodes| == |labels|
  {
    var symbol := nodes[i].symbol;
    && -1 <= symbol < 256
    && (symbol >= 0 ==> symbol < n && code(symbol) == labels[i])
    && forall s: byte :: s < n && labels[i] == code(s) ==> symbol == s
  }

  /** The trie of a whole table, boxed so that the decoder's proof does not unfold it. */
  ghost predicate Loaded(nodes: seq<Node>, labels: seq<seq<bool>>, code: Code) {
    && |labels| == |nodes| >= 1 && labels[0] == []
    && forall ns :: ns == nodes ==> Holds(ns, labels, code, 256)
  }

  /** The trie in a growing vector of nodes; `labels` records the path to each node. */
  class HuffmanTree {
    var nodes: seq<Node>
    ghost var labels: seq<seq<bool>>

    /** The child of a node for one bit, created if missing. */
    method ChildOrCreate(cur: nat, bit: bool) returns (next: nat)
      requires Shape(nodes, labels) && cur < |nodes|
      modifies this
      ensures Shape(nodes, labels) && next < |nodes| && labels[next] == old(labels)[cur] + [bit]
      ensures labels == old(labels) || labels == old(labels) + [labels[next]]
      ensures forall i :: 0 <= i < |nodes| ==>
                            nodes[i].symbol == if i < |old(nodes)| then old(nodes)[i].symbol else -1
    {
      if nodes[cur].Child(bit) < 0 {
        GrowShape(nodes, labels, cur, bit);
        nodes := Grow(nodes, cur, bit);
        labels := labels + [labels[cur] + [bit]];
      }
      assert Linked(nodes, labels, cur, bit);
      next := nodes[cur].Child(bit);
    }

    /** `insert`: walk down the word, most significant bit first, adding missing nodes. */
    method Insert(symbol: byte, e: Entry)
      requires Shape(nodes, labels)
      modifies this
      ensures Shape(nodes, labels)
      ensures old(labels) <= labels && forall i :: |old(labels)| <= i < |labels| ==> labels[i] <= BitsOf(e.code, e.bits)
      ensures BitsOf(e.code, e.bits) in labels
      ensures forall i :: 0 <= i < |nodes| ==>
                            nodes[i].symbol == if labels[i] == BitsOf(e.code, e.bits) then symbol
                            else if i < |old(nodes)| then old(nodes)[i].symbol else -1
    {
      ghost var word := BitsOf(e.code, e.bits);
      var cur := 0;
      var b: int := e.bits - 1;
      while b >= 0
        invariant -1 <= b < e.bits && Shape(nodes, labels)
        invariant 0 <= cur < |nodes| && labels[cur] == word[..e.bits - 1 - b]
        invariant old(labels) <= labels && forall i :: |old(labels)| <= i < |labels| ==> labels[i] <= word
        invariant forall i :: 0 <= i < |nodes| ==>
                                nodes[i].symbol == if i < |old(nodes)| then old(nodes)[i].symbol else -1
      {
        var bit := Shr(e.code, b) % 2 == 1;
        ghost var k := e.bits - 1 - b;
        BitAt(e.code, e.bits, k);
        assert word[..k + 1] == word[..k] + [bit];
        cur := ChildOrCreate(cur, bit);
        b := b - 1;
      }
      assert word[..e.bits] == word;
      SymbolShape(nodes, labels, cur, symbol);
      nodes := nodes[cur := nodes[cur].(symbol := symbol)];
    }

    /** The trie of a whole table. */
    constructor (table: Table)
      requires PrefixFree(CodeOf(table))
      ensures Loaded(nodes, labels, CodeOf(table))
    {
      nodes := [BLANK];
      labels := [[]];
      new;
      ghost var code := CodeOf(table);
      var sym := 0;
      while sym < 256
        invariant 0 <= sym <= 256
        invariant Holds(nodes, labels, code, sym)
      {
        ghost var nodes0, labels0 := nodes, labels;
        Insert(sym, table(sym));
        HoldsMore(nodes0, labels0, nodes, labels, code, sym);
        sym := sym + 1;
      }
    }

    /** `decode`: one node per bit, the root after every symbol. */
    method Decode(data: seq<byte>, ghost code: Code) returns (r: Option<seq<byte>>)
      requires Loaded(nodes, labels, code) && PrefixFree(code)
      ensures r == Scan(code, [], [], BytesToBits(data))
    {
      ghost var goal := Scan(code, [], [], BytesToBits(data));
      ghost var pending: seq<bool> := [];
      var out: seq<byte> := [];
      var cur, pendingBits, pendingAllOnes := 0, 0, true;
      var i := 0;
      assert data[0..] == data;
      while i < |data|
        invariant 0 <= i <= |data|
        invariant 0 <= cur < |nodes| && labels[cur] == pending
        invariant Tracks(pending, pendingBits, pendingAllOnes)
        invariant AtScan(goal, code, pending, out, BytesToBits(data[i..]))
      {
        var x := data[i];
        ghost var later := BytesToBits(data[i + 1..]);
        assert data[i..][1..] == data[i + 1..];
        var b := 7;
        while b >= 0
          invariant -1 <= b <= 7
          invariant 0 <= cur < |nodes| && labels[cur] == pending
          invariant Tracks(pending, pendingBits, pendingAllOnes)
          invariant AtScan(goal, code, pending, out, BitsOf(x, b + 1) + later)
        {
          var bit := Shr(x, b) % 2 == 1;
          var next := nodes[cur].Child(bit);
          NextBit(x, b, later);
          NodeStep(goal, nodes, labels, code, cur, out, BitsOf(x, b + 1) + later);
          if next < 0 { return None; }
          cur := next;
          TracksMore(pending, pendingBits, pendingAllOnes, bit);
          pending := pending + [bit];
          pendingBits := pendingBits + 1;
          if !bit { pendingAllOnes := false; }
          if nodes[cur].symbol >= 0 {
            out := out + [nodes[cur].symbol];
            pending := [];
            cur, pendingBits, pendingAllOnes := 0, 0, true;
          }
          b := b - 1;
        }
        assert BitsOf(x, 0) + later == later;
        i := i + 1;
      }
      assert data[|data|..] == [] && Scan(code, pending, out, []) == goal;
      if pendingBits >= 8 { return None; }
      return if pendingBits == 0 || pendingAllOnes then Some(out) else None;
    }
  }

  /** The count of pending bits, and whether they are all ones. */
  ghost predicate Tracks(pending: seq<bool>, count: nat, allOnes: bool) {
    count == |pending| && (allOnes <==> pending == Ones(|pending|))
  }

  lemma TracksMore(pending: seq<bool>, count: nat, allOnes: bool, bit: bool)
    requires Tracks(pending, count, allOnes)
    ensures Tracks(pending + [bit], count + 1, allOnes && bit)
  {
    var p := pending + [bit];
    if p == Ones(|p|) { assert pending == p[..|pending|] == Ones(|pending|) && p[|pending|]; }
    if pending == Ones(|pending|) && bit { assert p == Ones(|p|); }
  }

  lemma LeadingBit(x: nat, n: nat)
    requires n >= 1
    ensures BitsOf(x, n) == [Shr(x, n - 1) % 2 == 1] + BitsOf(x, n - 1)
  {
    BitsSplit(x, 1, n - 1);
    assert BitsOf(Shr(x, n - 1), 1) == [Shr(x, n - 1) % 2 == 1];
  }

  /** Scanning from here gives `goal`. */
  ghost predicate AtScan(goal: Option<seq<byte>>, code: Code, pending: seq<bool>, out: seq<byte>, bits: seq<bool>) {
    forall x :: x == out ==> Scan(code, pending, x, bits) == goal
  }

  /** The next bit of a byte, in front of what comes later. */
  lemma NextBit(x: nat, b: nat, later: seq<bool>)
    ensures var bits := BitsOf(x, b + 1) + later;
            bits[0] == (Shr(x, b) % 2 == 1) && bits[1..] == BitsOf(x, b) + later
  {
    LeadingBit(x, b + 1);
  }

  /** One iteration of the bit loop. */
  lemma NodeStep(goal: Option<seq<byte>>, nodes: seq<Node>, labels: seq<seq<bool>>, code: Code, cur: nat,
                 out: seq<byte>, bits: seq<bool>)
    requires Loaded(nodes, labels, code) && PrefixFree(code) && cur < |nodes| && bits != []
    requires AtScan(goal, code, labels[cur], out, bits)
    ensures var next := nodes[cur].Child(bits[0]);
            if next < 0 then goal == None
            else
              && next < |nodes| && labels[next] == labels[cur] + [bits[0]] && nodes[next].symbol < 256
              && if nodes[next].symbol >= 0 then AtScan(goal, code, [], out + [nodes[next].symbol], bits[1..])
                 else AtScan(goal, code, labels[next], out, bits[1..])
  {
    WalkStep(nodes, labels, code, cur, bits[0]);
    ScanStep(goal, code, labels[cur], out, bits);
  }

  lemma ScanStep(goal: Option<seq<byte>>, code: Code, pending: seq<bool>, out: seq<byte>, bits: seq<bool>)
    requires bits != [] && AtScan(goal, code, pending, out, bits)
    ensures var p := pending + [bits[0]];
            if !Viable(code, p) then goal == None
            else if IsWord(code, p) then AtScan(goal, code, [], out + [WordSymbol(code, p)], bits[1..])
            else AtScan(goal, code, p, out, bits[1..])
  {
    assert Scan(code, pending, out, bits) == goal;
    ScanOnce(code, pending, out, bits);
  }

  lemma ScanOnce(code: Code, pending: seq<bool>, out: seq<byte>, bits: seq<bool>)
    requires bits != []
    ensures var p := pending + [bits[0]];
            Scan(code, pending, out, bits) ==
            if !Viable(code, p) then None
            else if IsWord(code, p) then Scan(code, [], out + [WordSymbol(code, p)], bits[1..])
            else Scan(code, p, out, bits[1..])
  {
  }

  /** Following a child pointer is one step of the declarative scan. */
  lemma WalkStep(nodes: seq<Node>, labels: seq<seq<bool>>, code: Code, cur: nat, bit: bool)
    requires Loaded(nodes, labels, code) && PrefixFree(code) && cur < |nodes|
    ensures var p := labels[cur] + [bit];
            var next := nodes[cur].Child(bit);
            && (next >= 0 <==> Viable(code, p))
            && (next >= 0 ==>
                  && next < |nodes| && labels[next] == p && nodes[next].symbol < 256
                  && (nodes[next].symbol >= 0 <==> IsWord(code, p))
                  && (IsWord(code, p) ==> WordSymbol(code, p) == nodes[next].symbol))
  {
    var p := labels[cur] + [bit];
    assert Holds(nodes, labels, code, 256);
    assert Linked(nodes, labels, cur, bit);
    assert nodes[cur].Child(bit) >= 0 ==> SymbolOk(nodes, labels, code, 256, nodes[cur].Child(bit));
    if s: byte :| p <= code(s) {
      assert code(s) in labels;
      PrefixesKnown(nodes, labels, code(s), |p|);
      assert code(s)[..|p|] == p;
    }
  }

  lemma HoldsMore(nodes: seq<Node>, labels: seq<seq<bool>>, nodes': seq<Node>, labels': seq<seq<bool>>, code: Code,
                  n: byte)
    requires Holds(nodes, labels, code, n) && PrefixFree(code) && Shape(nodes', labels')
    requires labels <= labels' && forall i :: |labels| <= i < |labels'| ==> labels'[i] <= code(n)
    requires code(n) in labels'
    requires forall i :: 0 <= i < |nodes'| ==>
                           nodes'[i].symbol ==
                           if labels'[i] == code(n) then n else if i < |nodes| then nodes[i].symbol else -1
    ensures Holds(nodes', labels', code, n + 1)
  {
    WordsKnown(labels, labels', code, n);
    var count: nat := n + 1;
    forall i | 0 <= i < |nodes'| ensures SymbolOk(nodes', labels', code, count, i) {
      SymbolMore(nodes, labels, nodes', labels', code, n, i);
    }
  }

  lemma WordsKnown(labels: seq<seq<bool>>, labels': seq<seq<bool>>, code: Code, n: byte)
    requires labels <= labels' && code(n) in labels' && forall i :: |labels| <= i < |labels'| ==> labels'[i] <= code(n)
    requires forall i :: 0 < i < |labels| ==> OnTheWay(labels[i], code, n)
    requires forall s: byte :: s < n ==> code(s) in labels
    ensures forall i :: 0 < i < |labels'| ==> OnTheWay(labels'[i], code, n + 1)
    ensures forall s: byte :: s < n + 1 ==> code(s) in labels'
  {
    forall i | 0 < i < |labels'| ensures OnTheWay(labels'[i], code, n + 1) {
      if i >= |labels| { assert labels'[i] <= code(n); }
      else { assert OnTheWay(labels[i], code, n) && labels'[i] == labels[i]; }
    }
    forall s: byte | s < n + 1 ensures code(s) in labels' {
      if s < n { assert code(s) in labels; }
    }
  }

  lemma SymbolMore(nodes: seq<Node>, labels: seq<seq<bool>>, nodes': seq<Node>, labels': seq<seq<bool>>, code: Code,
                   n: byte, i: nat)
    requires Holds(nodes, labels, code, n) && PrefixFree(code) && labels <= labels' && i < |nodes'| == |labels'|
    requires forall j, k :: 0 <= j < k < |labels'| ==> labels'[j] != labels'[k]
    requires nodes'[i].symbol == if labels'[i] == code(n) then n else if i < |nodes| then nodes[i].symbol else -1
    ensures SymbolOk(nodes', labels', code, n + 1, i)
  {
    if i < |nodes| { assert SymbolOk(nodes, labels, code, n, i) && labels'[i] == labels[i]; }
    else { NewLabel(nodes, labels, labels', code, n, i); }
  }

  /** A new node is on the way to the new word, so no earlier word ends there. */
  lemma NewLabel(nodes: seq<Node>, labels: seq<seq<bool>>, labels': seq<seq<bool>>, code: Code, n: byte, i: nat)
    requires Holds(nodes, labels, code, n) && labels <= labels' && |labels| <= i < |labels'|
    requires forall j, k :: 0 <= j < k < |labels'| ==> labels'[j] != labels'[k]
    ensures forall s: byte :: s < n ==> labels'[i] != code(s)
  {
    forall s: byte | s < n ensures labels'[i] != code(s) {
      assert code(s) in labels;
      var j :| 0 <= j < |labels| && labels[j] == code(s);
      assert labels'[j] == labels[j];
    }
  }

  // ------------------------------------------------------------------ the encoder

  ghost predicate WellSized(table: Table) {
    forall s: byte :: 1 <= table(s).bits <= 30 && table(s).code < Pow2(table(s).bits)
  }

  /** Ones needed to fill the last byte. */
  function PadLength(n: nat): (k: nat)
    ensures k < 8 && (n + k) % 8 == 0
  {
    (8 - n % 8) % 8
  }

  /** (x << bits) | code */
  function ShiftIn(x: nat, e: Entry): nat { x * Pow2(e.bits) + e.code }

  const ACCUMULATOR_BOUND: nat := 0x20_0000_0000

  /** x & ((1 << n) - 1) */
  function KeepLow(x: nat, n: nat): (r: nat)
    ensures r < Pow2(n) && BitsOf(r, n) == BitsOf(x, n)
  {
    BitsMod(x, n);
    x % Pow2(n)
  }

  /** The packing loop of `write_string`. */
  method EncodeString(table: Table, text: seq<byte>) returns (encoded: seq<byte>)
    requires WellSized(table)
    ensures encoded == PackBits(EncodeBits(CodeOf(table), text))
  {
    ghost var code := CodeOf(table);
    encoded := [];
    var bitBuffer: nat, bitCount: nat := 0, 0;
    for idx := 0 to |text|
      invariant bitCount < 8 && bitBuffer < Pow2(bitCount)
      invariant BytesToBits(encoded) + BitsOf(bitBuffer, bitCount) == EncodeBits(code, text[..idx])
    {
      assert text[..idx + 1] == text[..idx] + [text[idx]] && [text[idx]][1..] == [];
      EncodeBitsConcat(code, text[..idx], [text[idx]]);
      encoded, bitBuffer, bitCount := PutSymbol(encoded, bitBuffer, bitCount, table(text[idx]));
    }
    assert text[..|text|] == text;
    encoded := PadLast(encoded, bitBuffer, bitCount);
    PackBitsUnique(encoded, EncodeBits(code, text));
  }

  /** The bits that are left over go into a last byte, filled up with ones. */
  method PadLast(done: seq<byte>, bitBuffer: nat, bitCount: nat) returns (encoded: seq<byte>)
    requires bitCount < 8 && bitBuffer < Pow2(bitCount)
    ensures var bits := BytesToBits(done) + BitsOf(bitBuffer, bitCount);
            BytesToBits(encoded) == bits + Ones(PadLength(|bits|))
  {
    encoded := done;
    PadLengthOf(|done|, bitCount);
    if bitCount > 0 {
      PadBits(bitBuffer, bitCount);
      var pad := PadByte(bitBuffer, bitCount);
      BytesToBitsConcat(done, [pad]);
      assert BytesToBits([pad]) == BitsOf(pad, 8);
      encoded := done + [pad];
    }
  }

  lemma PadLengthShift(n: nat)
    ensures PadLength(n + 8) == PadLength(n)
  {
  }

  lemma PadLengthOf(m: nat, count: nat)
    requires count < 8
    ensures PadLength(8 * m + count) == if count == 0 then 0 else 8 - count
  {
  }

  /** One symbol: shift its code in, emit the full bytes, keep the rest. The accumulator is a
      64-bit word; it never needs more than 37 bits. */
  method PutSymbol(done: seq<byte>, x: nat, n: nat, e: Entry)
    returns (encoded: seq<byte>, bitBuffer: nat, bitCount: nat)
    requires n < 8 && x < Pow2(n) && 1 <= e.bits <= 30 && e.code < Pow2(e.bits)
    ensures ShiftIn(x, e) < ACCUMULATOR_BOUND
    ensures bitCount < 8 && bitBuffer < Pow2(bitCount)
    ensures BytesToBits(encoded) + BitsOf(bitBuffer, bitCount) ==
            BytesToBits(done) + BitsOf(x, n) + BitsOf(e.code, e.bits)
  {
    BitsAppend(x, n, e.code, e.bits);
    ShiftInBound(x, n, e);
    bitBuffer := ShiftIn(x, e);
    encoded, bitCount := Drain(done, bitBuffer, n + e.bits);
    bitBuffer := KeepLow(bitBuffer, bitCount);
  }

  /** The inner loop: emit full bytes from the top of the accumulator. */
  method Drain(done: seq<byte>, bitBuffer: nat, count: nat) returns (encoded: seq<byte>, bitCount: nat)
    ensures bitCount < 8
    ensures BytesToBits(encoded) + BitsOf(bitBuffer, bitCount) == BytesToBits(done) + BitsOf(bitBuffer, count)
  {
    encoded, bitCount := done, count;
    while bitCount >= 8
      invariant BytesToBits(encoded) + BitsOf(bitBuffer, bitCount) == BytesToBits(done) + BitsOf(bitBuffer, count)
    {
      bitCount := bitCount - 8;
      EmitByte(encoded, bitBuffer, bitCount);
      encoded := encoded + [Shr(bitBuffer, bitCount) % 256];
    }
  }

  lemma EmitByte(encoded: seq<byte>, x: nat, count: nat)
    ensures BytesToBits(encoded + [Shr(x, count) % 256]) + BitsOf(x, count) ==
            BytesToBits(encoded) + BitsOf(x, count + 8)
  {
    var b := Shr(x, count) % 256;
    BitsSplit(x, 8, count);
    BitsMod(Shr(x, count), 8);
    BytesToBitsConcat(encoded, [b]);
    OneByteBits(b);
    Regroup(BytesToBits(encoded), BytesToBits([b]), BitsOf(x, count));
  }

  lemma OneByteBits(b: byte)
    ensures BytesToBits([b]) == BitsOf(b, 8)
  {
    assert [b][1..] == [] && BitsOf(b, 8) + [] == BitsOf(b, 8);
  }

  lemma ShiftInBound(x: nat, n: nat, e: Entry)
    requires n < 8 && x < Pow2(n) && 1 <= e.bits <= 30 && e.code < Pow2(e.bits)
    ensures ShiftIn(x, e) < ACCUMULATOR_BOUND
  {
    MulAddBound(x, e.code, Pow2(n), Pow2(e.bits));
    Pow2Sum(n, e.bits);
    Pow2Monotone(n + e.bits, 37);
    TwoTo37();
  }

  lemma TwoTo37()
    ensures Pow2(37) == ACCUMULATOR_BOUND
  {
    assert Pow2(10) == 1024;
    Pow2Sum(10, 10);
    Pow2Sum(20, 10);
    Pow2Sum(30, 7);
    assert Pow2(7) == 128;
  }

  lemma {:induction false} AllOnes(n: nat)
    ensures BitsOf(Pow2(n) - 1, n) == Ones(n)
  {
    if n == 0 {
    } else {
      AllOnes(n - 1);
      assert (Pow2(n) - 1) / 2 == Pow2(n - 1) - 1;
      assert Ones(n - 1) + [true] == Ones(n);
    }
  }

  /** The last byte: the pending bits, then ones. */
  function PadByte(x: nat, count: nat): int
    requires 0 < count < 8
  {
    x * Pow2(8 - count) + (Pow2(8 - count) - 1)
  }

  lemma PadBits(x: nat, count: nat)
    requires 0 < count < 8 && x < Pow2(count)
    ensures 0 <= PadByte(x, count) < 256 && BitsOf(PadByte(x, count), 8) == BitsOf(x, count) + Ones(8 - count)
  {
    var n := 8 - count;
    PadBound(x, count, n);
    PadOnes(x, count, n, Pow2(n) - 1);
  }

  lemma PadOnes(x: nat, count: nat, n: nat, ones: nat)
    requires ones == Pow2(n) - 1
    ensures BitsOf(x * Pow2(n) + ones, count + n) == BitsOf(x, count) + Ones(n)
  {
    BitsAppend(x, count, ones, n);
    AllOnes(n);
  }

  lemma PadBound(x: nat, count: nat, n: nat)
    requires count + n == 8 && x < Pow2(count)
    ensures 0 <= x * Pow2(n) + (Pow2(n) - 1) < 256
  {
    assert Pow2(8) == 256;
    Pow2Sum(count, n);
    MulAddBound(x, Pow2(n) - 1, Pow2(count), Pow2(n));
  }

  // ------------------------------------------------------- the bytes of a bit string

  function BitsValue(bits: seq<bool>): (x: nat)
    ensures x < Pow2(|bits|)
  {
    if bits == [] then 0 else 2 * BitsValue(bits[..|bits| - 1]) + if bits[|bits| - 1] then 1 else 0
  }

  lemma {:induction false} BitsValueInverts(bits: seq<bool>)
    ensures BitsOf(BitsValue(bits), |bits|) == bits
  {
    if bits == [] {
    } else {
      BitsValueInverts(bits[..|bits| - 1]);
      assert BitsValue(bits) / 2 == BitsValue(bits[..|bits| - 1]);
    }
  }

  /** A whole number of bytes from a bit string, the last one filled up with ones. */
  function PackBits(bits: seq<bool>): seq<byte> {
    if bits == [] then []
    else
      assert Pow2(8) == 256;
      if |bits| < 8 then [BitsValue(bits + Ones(8 - |bits|))]
      else [BitsValue(bits[..8])] + PackBits(bits[8..])
  }

  lemma {:induction false} PackBitsInverts(bits: seq<bool>)
    ensures BytesToBits(PackBits(bits)) == bits + Ones(PadLength(|bits|))
  {
    if bits == [] {
      assert Ones(0) == [];
    } else if |bits| < 8 {
      var full := bits + Ones(8 - |bits|);
      PadLengthOf(0, |bits|);
      BitsValueInverts(full);
      assert PackBits(bits) == [BitsValue(full)] + [];
      BytesToBitsConcat([BitsValue(full)], []);
      assert BytesToBits([BitsValue(full)]) == full;
    } else {
      var head, tail := bits[..8], bits[8..];
      BitsValueInverts(head);
      PackBitsInverts(tail);
      PadLengthShift(|tail|);
      BytesToBitsConcat([BitsValue(head)], PackBits(tail));
      assert BytesToBits([BitsValue(head)]) == head;
      assert bits == head + tail;
    }
  }

  lemma PackBitsUnique(data: seq<byte>, bits: seq<bool>)
    requires BytesToBits(data) == bits + Ones(PadLength(|bits|))
    ensures data == PackBits(bits)
  {
    PackBitsInverts(bits);
    BytesToBitsInjective(data, PackBits(bits));
  }

  lemma {:induction false} BytesToBitsInjective(a: seq<byte>, b: seq<byte>)
    requires BytesToBits(a) == BytesToBits(b)
    ensures a == b
  {
    if a == [] {
    } else {
      var x, y := BytesToBits(a), BytesToBits(b);
      assert x[..8] == BitsOf(a[0], 8) && y[..8] == BitsOf(b[0], 8);
      assert x[8..] == BytesToBits(a[1..]) && y[8..] == BytesToBits(b[1..]);
      assert Pow2(8) == 256;
      BitsInjective(a[0], b[0], 8);
      BytesToBitsInjective(a[1..], b[1..]);
    }
  }

  lemma {:induction false} BitsInjective(x: nat, y: nat, n: nat)
    requires x < Pow2(n) && y < Pow2(n) && BitsOf(x, n) == BitsOf(y, n)
    ensures x == y
  {
    if n == 0 {
    } else {
      var a, b := BitsOf(x, n), BitsOf(y, n);
      assert a[..n - 1] == BitsOf(x / 2, n - 1) && b[..n - 1] == BitsOf(y / 2, n - 1);
      assert a[n - 1] == b[n - 1];
      BitsInjective(x / 2, y / 2, n - 1);
    }
  }

  /** A prefix code with unambiguous padding, boxed so that proofs about callers do not unfold it. */
  ghost predicate Usable(code: Code) { forall c: Code :: c == code ==> PrefixFree(c) && Paddable(c) }

  /** Encoding and decoding a string are inverse, for every byte string. */
  lemma StringRoundTrip(code: Code, text: seq<byte>)
    requires Usable(code)
    ensures Scan(code, [], [], BytesToBits(PackBits(EncodeBits(code, text)))) == Some(text)
  {
    assert PrefixFree(code) && Paddable(code);
    var bits := EncodeBits(code, text);
    PackBitsInverts(bits);
    ScanInvertsEncode(code, bits + Ones(PadLength(|bits|)), text);
  }
}
