/** Request framing on a kept-alive HTTP/1.1 connection. */
module Http1 {
  import opened Arithmetic
  import opened Bytes
  import opened Streams

  const SP: byte := 32
  const TAB: byte := 9
  const COLON: byte := 58
  const DOT: byte := 46
  const HTTP_SLASH: seq<byte> := [72, 84, 84, 80, 47]

  // ---------------------------------------------------------------- lines of a head

  datatype RequestLine = RequestLine(verb: seq<byte>, target: seq<byte>, major: nat, minor: nat)

  predicate IsDigit(c: byte) { 48 <= c <= 57 }

  /** "HTTP/", a digit, a dot, a digit. */
  predicate IsVersion(v: seq<byte>) {
    |v| == 8 && v[..5] == HTTP_SLASH && v[6] == DOT && IsDigit(v[5]) && IsDigit(v[7])
  }

  /** Cuts a line at its first two spaces. */
  function ParseRequestLine(line: seq<byte>): Option<RequestLine> {
    match Find(line, [SP])
    case None => None
    case Some(i) =>
      match Find(line[i + 1..], [SP])
      case None => None
      case Some(j) =>
        var version := line[i + 1..][j + 1..];
        if !IsVersion(version) then None
        else Some(RequestLine(line[..i], line[i + 1..][..j], version[5] - 48, version[7] - 48))
  }

  type Header = (seq<byte>, seq<byte>)

  predicate IsBlank(c: byte) { c == SP || c == TAB }

  function TrimLeft(s: seq<byte>): (r: seq<byte>)
    ensures |r| <= |s|
  {
    if s != [] && IsBlank(s[0]) then TrimLeft(s[1..]) else s
  }

  function TrimRight(s: seq<byte>): (r: seq<byte>)
    ensures |r| <= |s|
  {
    if s != [] && IsBlank(s[|s| - 1]) then TrimRight(s[..|s| - 1]) else s
  }

  function ParseHeader(line: seq<byte>): Option<Header> {
    match Find(line, [COLON])
    case None => None
    case Some(i) => if i == 0 then None else Some((line[..i], TrimRight(TrimLeft(line[i + 1..]))))
  }

  method ReadHeaderFields(line: seq<byte>) returns (r: Option<Header>)
    ensures r == ParseHeader(line)
  {
    var colon := Find(line, [COLON]);
    if colon.None? || colon.value == 0 { return None; }
    var value := Trimmed(line[colon.value + 1..]);
    r := Some((line[..colon.value], value));
  }

  /** Trims by moving two ends, as the parser does. */
  method Trimmed(value: seq<byte>) returns (r: seq<byte>)
    ensures r == TrimRight(TrimLeft(value))
  {
    var begin := 0;
    while begin < |value| && IsBlank(value[begin])
      invariant begin <= |value| && TrimLeft(value[begin..]) == TrimLeft(value)
    {
      assert value[begin..][1..] == value[begin + 1..];
      begin := begin + 1;
    }
    var left := value[begin..];
    var length: nat := |left|;
    assert left[..length] == left;
    while length > 0 && IsBlank(left[length - 1])
      invariant length <= |left| && TrimRight(left[..length]) == TrimRight(left)
    {
      assert left[..length][..length - 1] == left[..length - 1];
      length := length - 1;
    }
    r := left[..length];
  }

  function Lower(s: seq<byte>): (r: seq<byte>)
    ensures |r| == |s|
  {
    seq(|s|, i requires 0 <= i < |s| => if 65 <= s[i] <= 90 then s[i] + 32 else s[i])
  }

  /** First value under a name, compared without case. */
  function Get(headers: seq<Header>, name: seq<byte>): Option<seq<byte>> {
    if headers == [] then None
    else if Lower(headers[0].0) == Lower(name) then Some(headers[0].1)
    else Get(headers[1..], name)
  }

  predicate HasToken(value: seq<byte>, token: seq<byte>) { Find(Lower(value), Lower(token)).Some? }

  // ---------------------------------------------------------------- heads and framing

  datatype Head = Head(line: RequestLine, headers: seq<Header>)

  function HeaderBlock(input: seq<byte>): (r: Option<(seq<Header>, seq<byte>)>)
    ensures r.Some? ==> |r.value.1| < |input|
    decreases |input|
  {
    match FirstLine(input)
    case None => None
    case Some((line, rest)) =>
      if line == [] then Some(([], rest))
      else
        match ParseHeader(line)
        case None => None
        case Some(h) => Prepend([h], HeaderBlock(rest))
  }

  function Prepend(hs: seq<Header>, r: Option<(seq<Header>, seq<byte>)>): (r': Option<(seq<Header>, seq<byte>)>)
    ensures r'.Some? <==> r.Some?
    ensures r.Some? ==> r'.value.1 == r.value.1
  {
    if r.None? then None else Some((hs + r.value.0, r.value.1))
  }

  function ReadHead(input: seq<byte>): (r: Option<(Head, seq<byte>)>)
    ensures r.Some? ==> |r.value.1| < |input|
  {
    match FirstLine(input)
    case None => None
    case Some((line, rest)) =>
      match ParseRequestLine(line)
      case None => None
      case Some(request) =>
        match HeaderBlock(rest)
        case None => None
        case Some((headers, after)) => Some((Head(request, headers), after))
  }

  datatype Framing = Malformed | Chunked | Length(bytes: nat)

  function Decimal(s: seq<byte>): Option<nat> {
    if s == [] then Some(0)
    else
      match Decimal(s[..|s| - 1])
      case None => None
      case Some(n) => if IsDigit(s[|s| - 1]) then Some(n * 10 + (s[|s| - 1] - 48)) else None
  }

  function FramingOf(headers: seq<Header>): Framing {
    var te := Get(headers, Ascii("Transfer-Encoding"));
    if te.Some? && HasToken(te.value, Ascii("chunked")) then Chunked
    else
      match Get(headers, Ascii("Content-Length"))
      case None => Length(0)
      case Some(value) => (match Decimal(value) case None => Malformed case Some(n) => Length(n))
  }

  predicate KeepAlive(head: Head) {
    var conn := Get(head.headers, Ascii("Connection"));
    if conn.Some? && HasToken(conn.value, Ascii("close")) then false
    else if conn.Some? && HasToken(conn.value, Ascii("keep-alive")) then true
    else head.line.minor >= 1
  }

  datatype Request = Request(head: Head, body: seq<byte>)

  /** The requests a whole input holds, up to the first one that ends the connection. */
  function Requests(input: seq<byte>): seq<Request>
    decreases |input|
  {
    match ReadHead(input)
    case None => []
    case Some((head, rest)) =>
      match FramingOf(head.headers)
      case Malformed => []
      case Chunked => []
      case Length(n) =>
        var k := Min(n, |rest|);
        [Request(head, rest[..k])] + if KeepAlive(head) then Requests(rest[k..]) else []
  }

  // ---------------------------------------------------------------- line limits

  /** The first line, if there is one, is within the limit. */
  predicate LineFits(input: seq<byte>, limit: nat) {
    var i := Find(input, [LF]);
    i.Some? ==> i.value <= limit
  }

  predicate HeadersFit(input: seq<byte>, limit: nat)
    decreases |input|
  {
    && LineFits(input, limit)
    && match FirstLine(input)
       case None => true
       case Some((line, rest)) => line == [] || HeadersFit(rest, limit)
  }

  predicate HeadFits(input: seq<byte>, maxLine: nat, maxHeader: nat) {
    LineFits(input, maxLine) && (FirstLine(input).Some? ==> HeadersFit(FirstLine(input).value.1, maxHeader))
  }

  /** Every line that is read while serving the input is within its limit. */
  predicate Fits(input: seq<byte>, maxLine: nat, maxHeader: nat)
    decreases |input|
  {
    && HeadFits(input, maxLine, maxHeader)
    && match ReadHead(input)
       case None => true
       case Some((head, rest)) =>
         FramingOf(head.headers).Length? && KeepAlive(head) ==>
           Fits(rest[Min(FramingOf(head.headers).bytes, |rest|)..], maxLine, maxHeader)
  }

  // ---------------------------------------------------------------- the connection

  /** What a handler does with a body: the size of its next read, given the head and what it has
      read, or None when it has had enough. */
  type Handler = (Head, seq<byte>) -> Option<nat>

  const SCRATCH: nat := 4096

  class Connection {
    const input: Buffered
    const maxLine: nat
    const maxHeader: nat
    /** Bytes of the current body that are still on the wire. */
    var bodyLeft: nat

    ghost predicate Valid() reads this, input, input.source { input.Valid() }

    ghost function BodyRest(): seq<byte> reads this, input, input.source {
      input.Remaining()[..Min(bodyLeft, |input.Remaining()|)]
    }

    ghost function AfterBody(): seq<byte> reads this, input, input.source {
      input.Remaining()[Min(bodyLeft, |input.Remaining()|)..]
    }

    constructor (wire: Source, initial: seq<byte>, maxLine: nat, maxHeader: nat)
      ensures Valid() && fresh(input) && input.source == wire && input.Remaining() == initial + wire.data
      ensures this.maxLine == maxLine && this.maxHeader == maxHeader
    {
      input := new Buffered(wire, initial);
      this.maxLine, this.maxHeader := maxLine, maxHeader;
      bodyLeft := 0;
    }

    /** One line; gives up at the end of the input, or when more than `limit` bytes hold no line end. */
    method ReadLine(limit: nat) returns (line: Option<seq<byte>>)
      requires Valid()
      modifies input, input.source
      ensures Valid()
      ensures line.Some? ==> FirstLine(old(input.Remaining())) == Some((line.value, input.Remaining()))
      ensures line.None? && LineFits(old(input.Remaining()), limit) ==> FirstLine(old(input.Remaining())).None?
    {
      while true
        invariant Valid() && input.Remaining() == old(input.Remaining())
        decreases |input.source.data|, !input.eof
      {
        if Find(input.buffer, [LF]).Some? {
          FindAppend(input.buffer, input.source.data, [LF]);
          line := input.ReadLine();
          return;
        }
        if |input.buffer| > limit {
          BeyondLimit(input.buffer, input.source.data, limit);
          return None;
        }
        var more := input.FillMore();
        if !more {
          assert input.Remaining() == input.buffer;
          return None;
        }
      }
    }

    /** The header lines up to the empty one. */
    method ReadHeaders() returns (r: Option<seq<Header>>)
      requires Valid()
      modifies input, input.source
      ensures Valid()
      ensures r.Some? ==> HeaderBlock(old(input.Remaining())) == Some((r.value, input.Remaining()))
      ensures r.None? && HeadersFit(old(input.Remaining()), maxHeader) ==> HeaderBlock(old(input.Remaining())).None?
    {
      var headers: seq<Header> := [];
      PrependNone(HeaderBlock(input.Remaining()));
      while true
        invariant Valid() && HeaderBlock(old(input.Remaining())) == Prepend(headers, HeaderBlock(input.Remaining()))
        invariant HeadersFit(old(input.Remaining()), maxHeader) ==> HeadersFit(input.Remaining(), maxHeader)
        decreases |input.Remaining()|
      {
        ghost var before := input.Remaining();
        var line := ReadLine(maxHeader);
        if line.None? { return None; }
        if line.value == [] {
          assert HeaderBlock(before) == Some(([], input.Remaining())) && headers + [] == headers;
          return Some(headers);
        }
        var header := ReadHeaderFields(line.value);
        if header.None? { return None; }
        PrependTwice(headers, header.value, HeaderBlock(input.Remaining()));
        headers := headers + [header.value];
      }
    }

    /** The head of the next request. */
    method NextHead() returns (head: Option<Head>)
      requires Valid()
      modifies input, input.source
      ensures Valid()
      ensures head.Some? ==> ReadHead(old(input.Remaining())) == Some((head.value, input.Remaining()))
      ensures head.None? && HeadFits(old(input.Remaining()), maxLine, maxHeader) ==>
                ReadHead(old(input.Remaining())).None?
    {
      var line := ReadLine(maxLine);
      if line.None? { return None; }
      var request := ParseRequestLine(line.value);
      if request.None? { return None; }
      var headers := ReadHeaders();
      if headers.None? { return None; }
      head := Some(Head(request.value, headers.value));
    }

    /** Reads from the body: first what is buffered, then from the wire, never beyond its end. */
    method ReadBody(n: nat) returns (bytes: seq<byte>)
      requires Valid()
      modifies this`bodyLeft, input, input.source
      ensures Valid() && |bytes| <= n
      ensures bytes + BodyRest() == old(BodyRest()) && AfterBody() == old(AfterBody())
      ensures n >= 1 ==> (bytes == [] <==> old(BodyRest()) == [])
    {
      if bodyLeft == 0 || n == 0 { return []; }
      ghost var start := input.Remaining();
      bytes := ReadBuffered(Min(n, bodyLeft));
      BodyStep(start, bytes, input.Remaining(), bodyLeft);
      bodyLeft := bodyLeft - |bytes|;
    }

    /** `buffered_wire_stream::read`: what is buffered comes first. */
    method ReadBuffered(n: nat) returns (bytes: seq<byte>)
      requires input.Valid() && n >= 1
      modifies input, input.source
      ensures input.Valid() && old(input.Remaining()) == bytes + input.Remaining()
      ensures |bytes| <= n && (bytes == [] <==> old(input.Remaining()) == [])
    {
      if input.buffer != [] {
        bytes := input.Take(Min(n, |input.buffer|));
      } else {
        bytes := input.source.Read(n);
        assert input.Remaining() == input.source.data;
      }
    }

    /** Whatever the handler reads, the rest is drained: the body is passed over exactly. */
    method Serve(handler: Handler, head: Head) returns (body: seq<byte>)
      requires Valid()
      modifies this`bodyLeft, input, input.source
      ensures Valid() && body == old(BodyRest()) && input.Remaining() == old(AfterBody())
    {
      var read := Handle(handler, head);
      var rest := Drain();
      body := read + rest;
    }

    method Handle(handler: Handler, head: Head) returns (body: seq<byte>)
      requires Valid()
      modifies this`bodyLeft, input, input.source
      ensures Valid() && body + BodyRest() == old(BodyRest()) && AfterBody() == old(AfterBody())
    {
      body := [];
      var size := handler(head, body);
      while size.Some? && size.value >= 1
        invariant Valid() && body + BodyRest() == old(BodyRest()) && AfterBody() == old(AfterBody())
        decreases |BodyRest()|, size.Some?
      {
        var bytes := ReadBody(size.value);
        Regroup(body, bytes, BodyRest());
        body := body + bytes;
        size := if bytes == [] then None else handler(head, body);
      }
    }

    method Drain() returns (body: seq<byte>)
      requires Valid()
      modifies this`bodyLeft, input, input.source
      ensures Valid() && body == old(BodyRest()) && input.Remaining() == old(AfterBody())
    {
      body := [];
      while true
        invariant Valid() && body + BodyRest() == old(BodyRest()) && AfterBody() == old(AfterBody())
        decreases |BodyRest()|
      {
        var bytes := ReadBody(SCRATCH);
        if bytes == [] { break; }
        Regroup(body, bytes, BodyRest());
        body := body + bytes;
      }
      AllRead(input.Remaining(), bodyLeft);
    }

    /** Serves the requests of the input, for every way the wire cuts it up and whatever the handler
        reads of the bodies. Only a line over its limit can end the connection sooner. */
    method Run(handler: Handler) returns (seen: seq<Request>)
      requires Valid()
      modifies this`bodyLeft, input, input.source
      ensures Valid() && seen <= Requests(old(input.Remaining()))
      ensures Fits(old(input.Remaining()), maxLine, maxHeader) ==> seen == Requests(old(input.Remaining()))
    {
      ghost var goal := Requests(input.Remaining());
      ghost var fits := Fits(input.Remaining(), maxLine, maxHeader);
      assert [] + goal == goal;
      seen := ServeAll(handler, goal, fits);
    }

    method ServeAll(handler: Handler, ghost goal: seq<Request>, ghost fits: bool) returns (seen: seq<Request>)
      requires Valid() && Left(goal, [], input.Remaining())
      requires (fits ==> LeftFits(input.Remaining(), maxLine, maxHeader))
      modifies this`bodyLeft, input, input.source
      ensures Valid() && seen <= goal && (fits ==> seen == goal)
    {
      seen := [];
      while true
        invariant Valid() && Left(goal, seen, input.Remaining())
        invariant fits ==> LeftFits(input.Remaining(), maxLine, maxHeader)
        decreases |input.Remaining()|
      {
        var q, more := ServeOne(handler, goal, seen);
        if q.None? { return; }
        seen := seen + [q.value];
        if !more { return; }
      }
    }

    /** One request, or None when there is no further one to serve. */
    method ServeOne(handler: Handler, ghost goal: seq<Request>,
                    ghost seen: seq<Request>) returns (q: Option<Request>, more: bool)
      requires Valid() && Left(goal, seen, input.Remaining())
      modifies this`bodyLeft, input, input.source
      ensures Valid() && seen <= goal
      ensures q.Some? && !more ==> goal == seen + [q.value]
      ensures q.Some? && more ==>
                Left(goal, seen + [q.value], input.Remaining()) && |input.Remaining()| < old(|input.Remaining()|)
      ensures q.Some? && more && LeftFits(old(input.Remaining()), maxLine, maxHeader) ==>
                LeftFits(input.Remaining(), maxLine, maxHeader)
      ensures q.None? && LeftFits(old(input.Remaining()), maxLine, maxHeader) ==> goal == seen
    {
      ghost var before := input.Remaining();
      assert seen <= goal by { assert goal == seen + Requests(before); }
      var head := NextHead();
      if head.None? {
        NoRequest(goal, seen, before, maxLine, maxHeader);
        return None, false;
      }
      var framing := FramingOf(head.value.headers);
      if !framing.Length? {
        NoRequest(goal, seen, before, maxLine, maxHeader);
        return None, false;
      }
      bodyLeft := framing.bytes;
      OneRequest(goal, seen, before, head.value, input.Remaining(), framing.bytes, maxLine, maxHeader);
      var body := Serve(handler, head.value);
      more := KeepAlive(head.value);
      q := Some(Request(head.value, body));
    }
  }

  /** The requests still to come complete those seen. */
  ghost predicate Left(goal: seq<Request>, seen: seq<Request>, input: seq<byte>) {
    forall x :: x == input ==> goal == seen + Requests(x)
  }

  ghost predicate LeftFits(input: seq<byte>, maxLine: nat, maxHeader: nat) {
    forall x :: x == input ==> Fits(x, maxLine, maxHeader)
  }

  lemma NoRequest(goal: seq<Request>, seen: seq<Request>, input: seq<byte>, maxLine: nat, maxHeader: nat)
    requires Left(goal, seen, input)
    requires HeadFits(input, maxLine, maxHeader) ==>
               ReadHead(input).None? || !FramingOf(ReadHead(input).value.0.headers).Length?
    ensures LeftFits(input, maxLine, maxHeader) ==> goal == seen
  {
    assert goal == seen + Requests(input);
    if LeftFits(input, maxLine, maxHeader) {
      assert Fits(input, maxLine, maxHeader);
      assert seen + [] == seen;
    }
  }

  lemma OneRequest(goal: seq<Request>, seen: seq<Request>, input: seq<byte>, head: Head, rest: seq<byte>, n: nat,
                   maxLine: nat, maxHeader: nat)
    requires Left(goal, seen, input) && ReadHead(input) == Some((head, rest)) && FramingOf(head.headers) == Length(n)
    ensures var k := Min(n, |rest|);
            var seen' := seen + [Request(head, rest[..k])];
            && (if KeepAlive(head) then Left(goal, seen', rest[k..]) else goal == seen')
            && (KeepAlive(head) && LeftFits(input, maxLine, maxHeader) ==> LeftFits(rest[k..], maxLine, maxHeader))
  {
    var k := Min(n, |rest|);
    var q := Request(head, rest[..k]);
    assert goal == seen + Requests(input);
    FirstRequest(input, head, rest, n);
    if KeepAlive(head) {
      Shifted(goal, seen, q, rest[k..]);
      if LeftFits(input, maxLine, maxHeader) {
        assert Fits(input, maxLine, maxHeader);
        FitsRest(input, head, rest, n, maxLine, maxHeader);
      }
    } else {
      assert [q] + [] == [q];
    }
  }

  lemma FirstRequest(input: seq<byte>, head: Head, rest: seq<byte>, n: nat)
    requires ReadHead(input) == Some((head, rest)) && FramingOf(head.headers) == Length(n)
    ensures var k := Min(n, |rest|);
            Requests(input) == [Request(head, rest[..k])] + if KeepAlive(head) then Requests(rest[k..]) else []
  {
  }

  lemma FitsRest(input: seq<byte>, head: Head, rest: seq<byte>, n: nat, maxLine: nat, maxHeader: nat)
    requires ReadHead(input) == Some((head, rest)) && FramingOf(head.headers) == Length(n) && KeepAlive(head)
    requires Fits(input, maxLine, maxHeader)
    ensures LeftFits(rest[Min(n, |rest|)..], maxLine, maxHeader)
  {
  }

  lemma Shifted(goal: seq<Request>, seen: seq<Request>, q: Request, rest: seq<byte>)
    requires goal == seen + ([q] + Requests(rest))
    ensures Left(goal, seen + [q], rest)
  {
    assert seen + ([q] + Requests(rest)) == seen + [q] + Requests(rest);
  }

  // ---------------------------------------------------------------- round trip

  function LineWire(r: RequestLine): seq<byte>
    requires r.major < 10 && r.minor < 10
  {
    r.verb + ([SP] + (r.target + ([SP] + VersionWire(r))))
  }

  function HeaderLine(h: Header): seq<byte> { h.0 + ([COLON] + ([SP] + h.1)) }

  function HeadersWire(headers: seq<Header>): seq<byte> {
    if headers == [] then CRLF else HeaderLine(headers[0]) + (CRLF + HeadersWire(headers[1..]))
  }

  function RequestWire(q: Request): seq<byte>
    requires GoodLine(q.head.line)
  {
    LineWire(q.head.line) + (CRLF + (HeadersWire(q.head.headers) + q.body))
  }

  predicate GoodLine(r: RequestLine) {
    r.major < 10 && r.minor < 10 && SP !in r.verb && SP !in r.target && LF !in r.verb && LF !in r.target
  }

  predicate GoodHeader(h: Header) {
    && h.0 != [] && COLON !in h.0 && LF !in h.0 && LF !in h.1
    && (h.1 != [] ==> !IsBlank(h.1[0]) && !IsBlank(h.1[|h.1| - 1]))
  }

  /** A request whose head says how long its body is. */
  predicate GoodRequest(q: Request) {
    && GoodLine(q.head.line) && (forall i :: 0 <= i < |q.head.headers| ==> GoodHeader(q.head.headers[i]))
    && FramingOf(q.head.headers) == Length(|q.body|)
  }

  function VersionWire(r: RequestLine): (v: seq<byte>)
    requires r.major < 10 && r.minor < 10
    ensures IsVersion(v) && LF !in v
  {
    var v: seq<byte> := [72, 84, 84, 80, 47, 48 + r.major, DOT, 48 + r.minor];
    assert v[..5] == HTTP_SLASH;
    v
  }

  lemma CutLine(line: seq<byte>, verb: seq<byte>, target: seq<byte>, version: seq<byte>)
    requires line == verb + ([SP] + (target + ([SP] + version))) && SP !in verb && SP !in target && IsVersion(version)
    ensures ParseRequestLine(line) == Some(RequestLine(verb, target, version[5] - 48, version[7] - 48))
  {
    FindByte(verb, SP, target + ([SP] + version));
    FindByte(target, SP, version);
  }

  lemma RequestLineRoundTrip(r: RequestLine)
    requires GoodLine(r)
    ensures ParseRequestLine(LineWire(r)) == Some(r) && LF !in LineWire(r)
  {
    CutLine(LineWire(r), r.verb, r.target, VersionWire(r));
  }

  lemma HeaderRoundTrip(h: Header)
    requires GoodHeader(h)
    ensures ParseHeader(HeaderLine(h)) == Some(h) && LF !in HeaderLine(h) && HeaderLine(h) != []
  {
    var value := [SP] + h.1;
    FindByte(h.0, COLON, value);
    assert value[1..] == h.1 && value[0] == SP;
    assert TrimLeft(value) == TrimLeft(h.1) == h.1;
  }

  lemma {:induction false} HeaderBlockOfWire(headers: seq<Header>, rest: seq<byte>)
    requires forall i :: 0 <= i < |headers| ==> GoodHeader(headers[i])
    ensures HeaderBlock(HeadersWire(headers) + rest) == Some((headers, rest))
  {
    if headers == [] {
      FirstLineOf([], rest);
      assert [] + (CRLF + rest) == CRLF + rest;
    } else {
      var more := HeadersWire(headers[1..]) + rest;
      assert HeadersWire(headers) + rest == HeaderLine(headers[0]) + (CRLF + more);
      OneHeader(headers[0], more);
      HeaderBlockOfWire(headers[1..], rest);
      assert [headers[0]] + headers[1..] == headers;
    }
  }

  lemma OneHeader(h: Header, more: seq<byte>)
    requires GoodHeader(h)
    ensures HeaderBlock(HeaderLine(h) + (CRLF + more)) == Prepend([h], HeaderBlock(more))
    ensures FirstLine(HeaderLine(h) + (CRLF + more)) == Some((HeaderLine(h), more)) && HeaderLine(h) != []
    ensures Find(HeaderLine(h) + (CRLF + more), [LF]) == Some(|HeaderLine(h)| + 1)
  {
    HeaderRoundTrip(h);
    HeaderStep(HeaderLine(h), h, more);
  }

  lemma HeaderStep(line: seq<byte>, h: Header, more: seq<byte>)
    requires LF !in line && line != [] && ParseHeader(line) == Some(h)
    ensures HeaderBlock(line + (CRLF + more)) == Prepend([h], HeaderBlock(more))
    ensures FirstLine(line + (CRLF + more)) == Some((line, more))
    ensures Find(line + (CRLF + more), [LF]) == Some(|line| + 1)
  {
    FirstLineOf(line, more);
  }

  lemma WireShape(q: Request, rest: seq<byte>)
    requires GoodLine(q.head.line)
    ensures RequestWire(q) + rest == LineWire(q.head.line) + (CRLF + (HeadersWire(q.head.headers) + (q.body + rest)))
  {
    var line, headers := LineWire(q.head.line), HeadersWire(q.head.headers);
    assert line + (CRLF + (headers + q.body)) + rest == line + (CRLF + (headers + (q.body + rest)));
  }

  lemma HeadOfWire(q: Request, rest: seq<byte>)
    requires GoodRequest(q)
    ensures ReadHead(RequestWire(q) + rest) == Some((q.head, q.body + rest))
  {
    var after := HeadersWire(q.head.headers) + (q.body + rest);
    WireShape(q, rest);
    HeaderBlockOfWire(q.head.headers, q.body + rest);
    LineThenHeaders(q.head.line, after, q.head.headers, q.body + rest);
  }

  lemma LineThenHeaders(line: RequestLine, input: seq<byte>, headers: seq<Header>, rest: seq<byte>)
    requires GoodLine(line) && HeaderBlock(input) == Some((headers, rest))
    ensures ReadHead(LineWire(line) + (CRLF + input)) == Some((Head(line, headers), rest))
  {
    RequestLineRoundTrip(line);
    FirstLineOf(LineWire(line), input);
  }

  predicate AllGood(qs: seq<Request>) { forall i :: 0 <= i < |qs| ==> GoodRequest(qs[i]) }

  function Wire(qs: seq<Request>): seq<byte>
    requires AllGood(qs)
  {
    if qs == [] then []
    else
      assert GoodRequest(qs[0]);
      RequestWire(qs[0]) + Wire(qs[1..])
  }

  /** Requests sent one after the other are the requests served, up to and including the first that
      ends the connection. */
  lemma {:induction false} RequestsOfWire(qs: seq<Request>)
    requires AllGood(qs)
    ensures Requests(Wire(qs)) == UntilClosed(qs)
  {
    if qs == [] {
    } else {
      var q, rest := qs[0], Wire(qs[1..]);
      HeadOfWire(q, rest);
      assert (q.body + rest)[..|q.body|] == q.body && (q.body + rest)[|q.body|..] == rest;
      RequestsOfWire(qs[1..]);
    }
  }

  function UntilClosed(qs: seq<Request>): seq<Request> {
    if qs == [] then [] else [qs[0]] + if KeepAlive(qs[0].head) then UntilClosed(qs[1..]) else []
  }

  /** Every line, with the carriage return at its end, is within its limit. */
  predicate ShortLines(q: Request, maxLine: nat, maxHeader: nat)
    requires GoodLine(q.head.line)
  {
    && |LineWire(q.head.line)| < maxLine && 1 <= maxHeader
    && forall i :: 0 <= i < |q.head.headers| ==> |HeaderLine(q.head.headers[i])| < maxHeader
  }

  lemma {:induction false} HeadersWireFit(headers: seq<Header>, rest: seq<byte>, limit: nat)
    requires 1 <= limit
    requires forall i :: 0 <= i < |headers| ==> GoodHeader(headers[i]) && |HeaderLine(headers[i])| < limit
    ensures HeadersFit(HeadersWire(headers) + rest, limit)
  {
    if headers == [] {
      FirstLineOf([], rest);
      assert [] + (CRLF + rest) == CRLF + rest;
    } else {
      var more := HeadersWire(headers[1..]) + rest;
      assert HeadersWire(headers) + rest == HeaderLine(headers[0]) + (CRLF + more);
      OneHeader(headers[0], more);
      HeadersWireFit(headers[1..], rest, limit);
    }
  }

  lemma HeadWireFits(q: Request, rest: seq<byte>, maxLine: nat, maxHeader: nat)
    requires GoodRequest(q) && ShortLines(q, maxLine, maxHeader)
    ensures HeadFits(RequestWire(q) + rest, maxLine, maxHeader)
  {
    var line, after := LineWire(q.head.line), HeadersWire(q.head.headers) + (q.body + rest);
    RequestLineRoundTrip(q.head.line);
    HeadersWireFit(q.head.headers, q.body + rest, maxHeader);
    LineThenHeadersFit(line, after, maxLine, maxHeader);
    WireShape(q, rest);
  }

  lemma LineThenHeadersFit(line: seq<byte>, after: seq<byte>, maxLine: nat, maxHeader: nat)
    requires LF !in line && |line| < maxLine && HeadersFit(after, maxHeader)
    ensures HeadFits(line + (CRLF + after), maxLine, maxHeader)
  {
    FirstLineOf(line, after);
  }

  /** So that nothing cuts such a connection short. */
  lemma {:induction false} WireFits(qs: seq<Request>, maxLine: nat, maxHeader: nat)
    requires AllGood(qs) && forall i :: 0 <= i < |qs| ==> ShortLines(qs[i], maxLine, maxHeader)
    ensures Fits(Wire(qs), maxLine, maxHeader)
  {
    if qs == [] {
    } else {
      var q, rest := qs[0], Wire(qs[1..]);
      HeadOfWire(q, rest);
      HeadWireFits(q, rest, maxLine, maxHeader);
      assert (q.body + rest)[|q.body|..] == rest;
      WireFits(qs[1..], maxLine, maxHeader);
    }
  }

  // ---------------------------------------------------------------- small facts

  lemma BeyondLimit(buffer: seq<byte>, data: seq<byte>, limit: nat)
    requires Find(buffer, [LF]).None? && |buffer| > limit
    ensures !LineFits(buffer + data, limit) || FirstLine(buffer + data).None?
  {
    if Find(buffer + data, [LF]).Some? { FindBeyond(buffer, data, [LF]); }
  }

  lemma PrependNone(r: Option<(seq<Header>, seq<byte>)>)
    ensures Prepend([], r) == r
  {
    if r.Some? { assert [] + r.value.0 == r.value.0; }
  }

  lemma PrependTwice(hs: seq<Header>, h: Header, r: Option<(seq<Header>, seq<byte>)>)
    ensures Prepend(hs, Prepend([h], r)) == Prepend(hs + [h], r)
  {
    if r.Some? { assert hs + ([h] + r.value.0) == hs + [h] + r.value.0; }
  }


  lemma AllRead(input: seq<byte>, left: nat)
    requires input[..Min(left, |input|)] == []
    ensures input[Min(left, |input|)..] == input
  {
  }

  lemma BodyStep(start: seq<byte>, bytes: seq<byte>, rest: seq<byte>, left: nat)
    requires start == bytes + rest && |bytes| <= left && (bytes == [] ==> start == [])
    ensures start[..Min(left, |start|)] == bytes + rest[..Min(left - |bytes|, |rest|)]
    ensures start[Min(left, |start|)..] == rest[Min(left - |bytes|, |rest|)..]
  {
  }
}
