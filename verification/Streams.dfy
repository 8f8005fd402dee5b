/** A stream as its readers see it: the bytes still to come, handed out in pieces of any size. */
module Streams {
  import opened Arithmetic
  import opened Bytes

  const CR: byte := 13
  const LF: byte := 10
  const CRLF: seq<byte> := [13, 10]

  const CHUNK: nat := 4096

  class Source {
    var data: seq<byte>

    constructor (bytes: seq<byte>)
      ensures data == bytes
    {
      data := bytes;
    }

    /** Returns between 1 and `n` bytes, as the source likes, and none only at the end. */
    method Read(n: nat) returns (chunk: seq<byte>)
      requires n >= 1
      modifies this
      ensures old(data) == chunk + data
      ensures |chunk| <= n && (chunk == [] <==> old(data) == [])
    {
      if data == [] { return []; }
      var k: nat :| 1 <= k <= n && k <= |data|;
      chunk := data[..k];
      data := data[k..];
    }
  }

  // ---------------------------------------------------------------- searching

  predicate At(s: seq<byte>, m: seq<byte>, i: nat) {
    i + |m| <= |s| && s[i..i + |m|] == m
  }

  /** First occurrence of `m` at or after `i`. */
  function FindFrom(s: seq<byte>, m: seq<byte>, i: nat): (r: Option<nat>)
    ensures r.Some? ==> i <= r.value && At(s, m, r.value) && forall j :: i <= j < r.value ==> !At(s, m, j)
    ensures r.None? ==> forall j :: i <= j ==> !At(s, m, j)
    decreases |s| - i
  {
    if i + |m| > |s| then None
    else if At(s, m, i) then Some(i)
    else FindFrom(s, m, i + 1)
  }

  function Find(s: seq<byte>, m: seq<byte>): (r: Option<nat>)
    ensures r.Some? ==> At(s, m, r.value) && forall j :: 0 <= j < r.value ==> !At(s, m, j)
    ensures r.None? ==> forall j :: 0 <= j ==> !At(s, m, j)
  {
    FindFrom(s, m, 0)
  }

  /** The first occurrence is the only one that `Find` can return. */
  lemma FindIs(s: seq<byte>, m: seq<byte>, i: nat)
    requires At(s, m, i) && forall j :: 0 <= j < i ==> !At(s, m, j)
    ensures Find(s, m) == Some(i)
  {
  }

  /** A byte that does not occur in a prefix is found right after it. */
  lemma FindByte(prefix: seq<byte>, c: byte, rest: seq<byte>)
    requires c !in prefix
    ensures Find(prefix + ([c] + rest), [c]) == Some(|prefix|)
    ensures (prefix + ([c] + rest))[..|prefix|] == prefix && (prefix + ([c] + rest))[|prefix| + 1..] == rest
  {
    var s := prefix + ([c] + rest);
    forall j: nat | j < |prefix| ensures !At(s, [c], j) { assert s[j..j + 1] == [s[j]]; }
    assert s[|prefix|..|prefix| + 1] == [c];
    FindIs(s, [c], |prefix|);
  }

  lemma AtAppend(s: seq<byte>, t: seq<byte>, m: seq<byte>, i: nat)
    requires i + |m| <= |s|
    ensures At(s + t, m, i) <==> At(s, m, i)
  {
    assert (s + t)[i..i + |m|] == s[i..i + |m|];
  }

  /** What is found in a prefix is found first. */
  lemma FindAppend(s: seq<byte>, t: seq<byte>, m: seq<byte>)
    requires Find(s, m).Some?
    ensures Find(s + t, m) == Find(s, m)
  {
    var i := Find(s, m).value;
    forall j: nat | j <= i ensures At(s + t, m, j) <==> At(s, m, j) { AtAppend(s, t, m, j); }
    FindIs(s + t, m, i);
  }

  /** If it is not in the prefix, it ends beyond it. */
  lemma FindBeyond(s: seq<byte>, t: seq<byte>, m: seq<byte>)
    requires Find(s, m).None? && Find(s + t, m).Some?
    ensures Find(s + t, m).value + |m| > |s|
  {
    var i := Find(s + t, m).value;
    if i + |m| <= |s| { AtAppend(s, t, m, i); }
  }

  lemma AtDrop(s: seq<byte>, m: seq<byte>, k: nat, i: nat)
    requires k <= i
    ensures k <= |s| ==> (At(s, m, i) <==> At(s[k..], m, i - k))
  {
    if i + |m| <= |s| { assert s[k..][i - k..i - k + |m|] == s[i..i + |m|]; }
  }

  /** Dropping bytes before the first occurrence moves it up. */
  lemma FindDrop(s: seq<byte>, m: seq<byte>, k: nat)
    requires k <= |s| && (Find(s, m).Some? ==> k <= Find(s, m).value)
    ensures Find(s[k..], m) == if Find(s, m).Some? then Some(Find(s, m).value - k) else None
  {
    if Find(s, m).Some? {
      FoundAfterDrop(s, m, k, Find(s, m).value);
    } else if Find(s[k..], m).Some? {
      AtDrop(s, m, k, Find(s[k..], m).value + k);
    }
  }

  lemma FoundAfterDrop(s: seq<byte>, m: seq<byte>, k: nat, i: nat)
    requires k <= i && k <= |s| && At(s, m, i) && forall j :: 0 <= j < i ==> !At(s, m, j)
    ensures Find(s[k..], m) == Some(i - k)
  {
    AtDrop(s, m, k, i);
    forall j | 0 <= j < i - k ensures !At(s[k..], m, j) { AtDrop(s, m, k, j + k); }
    FindIs(s[k..], m, i - k);
  }

  // ---------------------------------------------------------------- buffered reading

  /** The line that ends at a newline, without it and without a carriage return before it. */
  function LineAt(input: seq<byte>, newline: nat): seq<byte>
    requires newline < |input|
  {
    if newline > 0 && input[newline - 1] == CR then input[..newline - 1] else input[..newline]
  }

  /** A line and what follows it, if there is a whole line. */
  function FirstLine(input: seq<byte>): (r: Option<(seq<byte>, seq<byte>)>)
    ensures r.Some? ==> |r.value.1| < |input|
  {
    match Find(input, [LF])
    case None => None
    case Some(i) => Some((LineAt(input, i), input[i + 1..]))
  }

  lemma FirstLineOf(line: seq<byte>, rest: seq<byte>)
    requires LF !in line
    ensures FirstLine(line + (CRLF + rest)) == Some((line, rest))
    ensures Find(line + (CRLF + rest), [LF]) == Some(|line| + 1)
  {
    var input := line + (CRLF + rest);
    var i := |line| + 1;
    assert input[i] == LF && input[i - 1] == CR && input[..i - 1] == line && input[i + 1..] == rest;
    forall j: nat | j < i ensures !At(input, [LF], j) { assert input[j..j + 1] == [input[j]]; }
    assert input[i..i + 1] == [LF];
    FindIs(input, [LF], i);
  }

  /** A look-ahead buffer in front of a source. */
  class Buffered {
    const source: Source
    var buffer: seq<byte>
    var eof: bool
    /** The largest the buffer has been since this was last set to its size. */
    ghost var peak: nat

    ghost predicate Valid() reads this, source {
      (eof ==> source.data == []) && |buffer| <= peak
    }

    /** All input not yet consumed. */
    ghost function Remaining(): seq<byte> reads this, source { buffer + source.data }

    constructor (source: Source, start: seq<byte>)
      ensures Valid() && this.source == source && buffer == start && peak == |start|
      ensures Remaining() == start + source.data
    {
      this.source := source;
      buffer, eof, peak := start, false, |start|;
    }

    method FillMore() returns (more: bool)
      requires Valid()
      modifies this, source
      ensures Valid() && Remaining() == old(Remaining()) && old(buffer) <= buffer
      ensures |buffer| <= |old(buffer)| + CHUNK && peak == Max(old(peak), |buffer|)
      ensures more <==> |source.data| < |old(source.data)|
      ensures !more ==> eof && buffer == old(buffer) && source.data == old(source.data)
    {
      if eof { return false; }
      var chunk := source.Read(CHUNK);
      if chunk == [] {
        eof := true;
        return false;
      }
      assert buffer + old(source.data) == (buffer + chunk) + source.data;
      buffer := buffer + chunk;
      peak := Max(peak, |buffer|);
      more := true;
    }

    /** Fills until `n` bytes are there or the source has ended. */
    method Fill(n: nat) returns (enough: bool)
      requires Valid()
      modifies this, source
      ensures Valid() && Remaining() == old(Remaining()) && old(buffer) <= buffer
      ensures enough <==> |Remaining()| >= n
      ensures enough ==> |buffer| >= n
      ensures !enough ==> eof && Remaining() == buffer
    {
      while |buffer| < n && !eof
        invariant Valid() && Remaining() == old(Remaining()) && old(buffer) <= buffer
        decreases |source.data|, !eof
      {
        var _ := FillMore();
      }
      assert eof ==> Remaining() == buffer;
      enough := |buffer| >= n;
    }

    method Take(k: nat) returns (bytes: seq<byte>)
      requires Valid() && k <= |buffer|
      modifies this`buffer
      ensures Valid() && bytes == old(buffer)[..k] == old(Remaining())[..k] && buffer == old(buffer)[k..]
      ensures Remaining() == old(Remaining())[k..]
    {
      bytes := buffer[..k];
      assert Remaining()[k..] == buffer[k..] + source.data;
      assert Remaining()[..k] == buffer[..k];
      buffer := buffer[k..];
    }

    /** One line, or None if the input ends first. */
    method ReadLine() returns (line: Option<seq<byte>>)
      requires Valid()
      modifies this, source
      ensures Valid()
      ensures match FirstLine(old(Remaining()))
              case None => line == None && Remaining() == old(Remaining())
              case Some((first, rest)) => line == Some(first) && Remaining() == rest
    {
      while true
        invariant Valid() && Remaining() == old(Remaining())
        decreases |source.data|, !eof
      {
        var nl := Find(buffer, [LF]);
        if nl.Some? {
          FindAppend(buffer, source.data, [LF]);
          var i := nl.value;
          line := Some(LineAt(buffer, i));
          assert Remaining()[..i] == buffer[..i] && (i > 0 ==> Remaining()[..i - 1] == buffer[..i - 1]);
          var _ := Take(i + 1);
          return;
        }
        if eof {
          assert Remaining() == buffer;
          return None;
        }
        var _ := FillMore();
      }
    }
  }
}
