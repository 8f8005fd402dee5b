/** Demultiplexing an HTTP/2 connection: HEADERS, CONTINUATION and DATA frames (sections 6.1, 6.2
    and 6.10 of RFC 9113) gathered into requests, each handed to the dispatcher. What the shared
    header decoder makes of a block is a parameter, since it depends on all blocks before it. */
module H2Demux {
  import opened Bytes
  import opened H2Frame
  import opened HpackTable

  const MAX_BODY: nat := 16 * 1024 * 1024

  const DATA: byte := 0
  const HEADERS: byte := 1
  const RST_STREAM: byte := 3
  const GOAWAY: byte := 7
  const CONTINUATION: byte := 9

  predicate EndStream(f: Frame) { f.flags % 2 == 1 }
  predicate EndHeaders(f: Frame) { f.flags / 4 % 2 == 1 }
  predicate PaddedFlag(f: Frame) { f.flags / 8 % 2 == 1 }
  predicate PriorityFlag(f: Frame) { f.flags / 32 % 2 == 1 }

  /** The payload of a frame without padding and priority, or None if they do not fit. */
  function Content(f: Frame): Option<seq<byte>> {
    if f.kind == CONTINUATION then Some(f.payload)
    else
      match StripPadding(f.payload, PaddedFlag(f))
      case None => None
      case Some((offset, length)) =>
        if f.kind == HEADERS && PriorityFlag(f) then
          if length < 5 then None else Some(f.payload[offset + 5..offset + length])
        else Some(f.payload[offset..offset + length])
  }

  datatype Stream = Stream(
    block: seq<byte>,
    headers: seq<Field>,
    body: seq<byte>,
    endHeaders: bool,
    endStream: bool,
    malformed: bool)

  datatype Dispatch = Dispatch(id: nat, headers: seq<Field>, body: seq<byte>, malformed: bool)

  /** `blocks`, `dispatches` and `credits` record what was passed to the header decoder, to the
      dispatcher, and back to the peer as window credit (stream, then connection). */
  datatype Conn = Conn(
    streams: map<nat, Stream>,
    expecting: bool,
    lastHeader: nat,
    blocks: seq<seq<byte>>,
    dispatches: seq<Dispatch>,
    credits: seq<(nat, nat)>)

  /** What the last of the blocks decodes to, given those before it; None if it does not. */
  type Decoding = seq<seq<byte>> -> Option<seq<Field>>

  function FieldsOf(headers: Option<seq<Field>>): seq<Field> { if headers.Some? then headers.value else [] }

  function Dispatched(c: Conn, id: nat, s: Stream): Conn {
    c.(dispatches := c.dispatches + [Dispatch(id, s.headers, s.body, s.malformed)])
  }

  /** `finish_header_block`, and the dispatch if the request is complete or cannot be decoded. */
  function Finished(decode: Decoding, c: Conn, id: nat, s: Stream): Conn {
    var blocks := c.blocks + [s.block];
    var s' := s.(endHeaders := true, headers := FieldsOf(decode(blocks)), malformed := decode(blocks).None?);
    var c' := c.(blocks := blocks, streams := c.streams[id := s']);
    if s'.endStream || s'.malformed then Dispatched(c', id, s') else c'
  }

  /** The state after a frame, or None if the connection gives up. */
  function OnHeaders(decode: Decoding, c: Conn, f: Frame): Option<Conn> {
    if f.streamId == 0 || c.expecting || Content(f).None? then None
    else
      var s := Stream(Content(f).value, [], [], false, EndStream(f), false);
      if EndHeaders(f) then Some(Finished(decode, c, f.streamId, s))
      else Some(c.(streams := c.streams[f.streamId := s], expecting := true, lastHeader := f.streamId))
  }

  function OnContinuation(decode: Decoding, c: Conn, f: Frame): Option<Conn> {
    if !c.expecting || f.streamId != c.lastHeader || f.streamId !in c.streams then None
    else
      var s := c.streams[f.streamId].(block := c.streams[f.streamId].block + f.payload);
      if EndHeaders(f) then Some(Finished(decode, c.(expecting := false), f.streamId, s))
      else Some(c.(streams := c.streams[f.streamId := s]))
  }

  function OnData(c: Conn, f: Frame): Option<Conn> {
    if f.streamId !in c.streams then Some(c)
    else if Content(f).None? then None
    else
      var s := c.streams[f.streamId];
      if |s.body| + |Content(f).value| > MAX_BODY then None
      else
        var n := |f.payload|;
        var s' := s.(body := s.body + Content(f).value, endStream := s.endStream || EndStream(f));
        var c' := c.(streams := c.streams[f.streamId := s'],
                  credits := if n > 0 then c.credits + [(f.streamId, n), (0, n)] else c.credits);
        if EndStream(f) && s'.endHeaders then Some(Dispatched(c', f.streamId, s')) else Some(c')
  }

  /** A frame arrives, or the response to an already dispatched stream is finished. */
  datatype Event = Recv(frame: Frame) | Complete(id: nat)

  function OnEvent(decode: Decoding, c: Conn, e: Event): Option<Conn> {
    match e
    case Complete(id) => Some(c.(streams := c.streams - {id}))
    case Recv(f) =>
      if f.kind == HEADERS then OnHeaders(decode, c, f)
      else if f.kind == CONTINUATION then OnContinuation(decode, c, f)
      else if f.kind == DATA then OnData(c, f)
      else if f.kind == RST_STREAM then Some(c.(streams := c.streams - {f.streamId}))
      else if f.kind == GOAWAY then None
      else Some(c)
  }

  const INITIAL := Conn(map[], false, 0, [], [], [])

  function AfterEvents(decode: Decoding, es: seq<Event>): Option<Conn> {
    if es == [] then Some(INITIAL)
    else
      match AfterEvents(decode, es[..|es| - 1])
      case None => None
      case Some(c) => OnEvent(decode, c, es[|es| - 1])
  }

  // -------------------------------------------------------------- the handlers

  class Demultiplexer {
    const decode: Decoding
    var streams: map<nat, Stream>
    var expecting: bool
    var lastHeader: nat
    var blocks: seq<seq<byte>>
    var dispatches: seq<Dispatch>
    var credits: seq<(nat, nat)>

    ghost function State(): Conn reads this { Conn(streams, expecting, lastHeader, blocks, dispatches, credits) }

    constructor (decode: Decoding)
      ensures State() == INITIAL && this.decode == decode
    {
      this.decode := decode;
      streams, expecting, lastHeader := map[], false, 0;
      blocks, dispatches, credits := [], [], [];
    }

    method DispatchStream(id: nat)
      requires id in streams
      modifies this`dispatches
      ensures State() == Dispatched(old(State()), id, streams[id])
    {
      var s := streams[id];
      dispatches := dispatches + [Dispatch(id, s.headers, s.body, s.malformed)];
    }

    /** The common end of `handle_headers` and `handle_continuation`. */
    method FinishHeaderBlock(id: nat)
      requires id in streams
      modifies this
      ensures State() == Finished(decode, old(State()), id, old(streams)[id])
    {
      blocks := blocks + [streams[id].block];
      var headers := decode(blocks);
      var s := streams[id].(endHeaders := true, headers := FieldsOf(headers), malformed := headers.None?);
      streams := streams[id := s];
      if streams[id].endStream || streams[id].malformed { DispatchStream(id); }
    }

    /** `handle_headers` */
    method HandleHeaders(f: Frame) returns (ok: bool)
      modifies this
      ensures match OnHeaders(decode, old(State()), f)
              case None => !ok && State() == old(State())
              case Some(c) => ok && State() == c
    {
      if f.streamId == 0 || expecting { return false; }
      var content := Content(f);
      if content.None? { return false; }
      streams := streams[f.streamId := Stream(content.value, [], [], false, EndStream(f), false)];
      if EndHeaders(f) {
        FinishHeaderBlock(f.streamId);
        assert old(streams)[f.streamId := streams[f.streamId]] == streams;
      } else {
        expecting, lastHeader := true, f.streamId;
      }
      return true;
    }

    /** `handle_continuation` */
    method HandleContinuation(f: Frame) returns (ok: bool)
      modifies this
      ensures match OnContinuation(decode, old(State()), f)
              case None => !ok && State() == old(State())
              case Some(c) => ok && State() == c
    {
      if !expecting || f.streamId != lastHeader || f.streamId !in streams { return false; }
      streams := streams[f.streamId := streams[f.streamId].(block := streams[f.streamId].block + f.payload)];
      if EndHeaders(f) {
        expecting := false;
        FinishHeaderBlock(f.streamId);
        assert old(streams)[f.streamId := streams[f.streamId]] == streams;
      }
      return true;
    }

    /** `handle_data` */
    method HandleData(f: Frame) returns (ok: bool)
      modifies this
      ensures match OnData(old(State()), f)
              case None => !ok && State() == old(State())
              case Some(c) => ok && State() == c
    {
      if f.streamId !in streams { return true; }
      var content := Content(f);
      if content.None? { return false; }
      var s := streams[f.streamId];
      if |s.body| + |content.value| > MAX_BODY { return false; }
      s := s.(body := s.body + content.value);
      if |f.payload| > 0 {
        credits := credits + [(f.streamId, |f.payload|)];
        credits := credits + [(0, |f.payload|)];
      }
      if EndStream(f) { s := s.(endStream := true); }
      streams := streams[f.streamId := s];
      if EndStream(f) && s.endHeaders { DispatchStream(f.streamId); }
      return true;
    }

    /** One turn of the frame loop, or the end of a response. */
    method Handle(e: Event) returns (ok: bool)
      modifies this
      ensures match OnEvent(decode, old(State()), e)
              case None => !ok && State() == old(State())
              case Some(c) => ok && State() == c
    {
      match e
      case Complete(id) =>
        streams := streams - {id};
        return true;
      case Recv(f) =>
        if f.kind == HEADERS { ok := HandleHeaders(f); }
        else if f.kind == CONTINUATION { ok := HandleContinuation(f); }
        else if f.kind == DATA { ok := HandleData(f); }
        else if f.kind == GOAWAY { ok := false; }
        else {
          if f.kind == RST_STREAM { streams := streams - {f.streamId}; }
          ok := true;
        }
    }

    /** The frame loop of `run`, from a new connection. Whatever an orderly peer sends, it goes on,
        and every stream has been dispatched as its own frames ask for. */
    method Run(es: seq<Event>) returns (ok: bool)
      requires State() == INITIAL
      modifies this
      ensures match AfterEvents(decode, es)
              case None => !ok
              case Some(c) => ok && State() == c
      ensures Orderly(decode, es) ==>
                ok && forall id :: DispatchesOf(dispatches, id) == Requests(id, Kept(es, id), HeadersOf(decode, es, id))
    {
      ok := true;
      for i := 0 to |es|
        invariant ok && AfterEvents(decode, es[..i]) == Some(State())
      {
        assert es[..i + 1][..i] == es[..i];
        ok := Handle(es[i]);
        if !ok {
          GivesUp(decode, es, i + 1);
          return;
        }
      }
      assert es[..|es|] == es;
      if Orderly(decode, es) {
        forall id ensures DispatchesOf(dispatches, id) == Requests(id, Kept(es, id), HeadersOf(decode, es, id)) {
          DispatchesAreRequests(decode, es, id);
        }
      }
    }
  }

  /** A connection that gave up stays so; an orderly peer never makes it do so. */
  lemma {:induction false} GivesUp(decode: Decoding, es: seq<Event>, n: nat)
    requires n <= |es| && AfterEvents(decode, es[..n]).None?
    ensures AfterEvents(decode, es).None? && !Orderly(decode, es)
  {
    if n == |es| {
      assert es[..n] == es;
      if Orderly(decode, es) { EventsInv(decode, es); }
    } else {
      assert es[..|es| - 1][..n] == es[..n];
      GivesUp(decode, es[..|es| - 1], n);
    }
  }

  // ------------------------------------------- what the peer sent on one stream

  predicate CarriesHeaders(f: Frame) { f.kind == HEADERS || f.kind == CONTINUATION }

  /** The frames that make up a request. */
  predicate OfRequest(f: Frame, id: nat) { (CarriesHeaders(f) || f.kind == DATA) && f.streamId == id }

  predicate EndsBlock(e: Event) { e.Recv? && CarriesHeaders(e.frame) && EndHeaders(e.frame) }

  /** The request frames of one stream, in order. */
  function Own(es: seq<Event>, id: nat): seq<Frame> {
    if es == [] then []
    else
      var e := es[|es| - 1];
      Own(es[..|es| - 1], id) + if e.Recv? && OfRequest(e.frame, id) then [e.frame] else []
  }

  predicate Completed(es: seq<Event>, id: nat) {
    es != [] && (Completed(es[..|es| - 1], id) || es[|es| - 1] == Complete(id))
  }

  /** Those that came before a response to the stream was finished. */
  function Kept(es: seq<Event>, id: nat): seq<Frame> {
    if es == [] then []
    else
      var before, e := es[..|es| - 1], es[|es| - 1];
      Kept(before, id) + if e.Recv? && OfRequest(e.frame, id) && !Completed(before, id) then [e.frame] else []
  }

  /** The header block: the contents of HEADERS and CONTINUATION, joined. */
  function BlockOf(fs: seq<Frame>): seq<byte> {
    if fs == [] then []
    else
      var f := fs[|fs| - 1];
      BlockOf(fs[..|fs| - 1]) + if CarriesHeaders(f) && Content(f).Some? then Content(f).value else []
  }

  /** The body: the contents of DATA, joined. */
  function BodyOf(fs: seq<Frame>): seq<byte> {
    if fs == [] then []
    else
      var f := fs[|fs| - 1];
      BodyOf(fs[..|fs| - 1]) + if f.kind == DATA && Content(f).Some? then Content(f).value else []
  }

  function PayloadOf(fs: seq<Frame>): nat {
    if fs == [] then 0
    else PayloadOf(fs[..|fs| - 1]) + if fs[|fs| - 1].kind == DATA then |fs[|fs| - 1].payload| else 0
  }

  predicate Opened(fs: seq<Frame>) {
    fs != [] && (Opened(fs[..|fs| - 1]) || fs[|fs| - 1].kind == HEADERS)
  }

  predicate HeadersEnded(fs: seq<Frame>) {
    fs != [] && (HeadersEnded(fs[..|fs| - 1]) || (CarriesHeaders(fs[|fs| - 1]) && EndHeaders(fs[|fs| - 1])))
  }

  predicate StreamEnded(fs: seq<Frame>) {
    fs != [] &&
    (StreamEnded(fs[..|fs| - 1]) ||
     ((fs[|fs| - 1].kind == HEADERS || fs[|fs| - 1].kind == DATA) && EndStream(fs[|fs| - 1])))
  }

  /** The frames up to the one with END_HEADERS. */
  function HeadPart(fs: seq<Frame>): seq<Frame> {
    if fs == [] || !HeadersEnded(fs[..|fs| - 1]) then fs else HeadPart(fs[..|fs| - 1])
  }

  /** END_STREAM came after END_HEADERS. */
  predicate EndsLate(fs: seq<Frame>) { HeadersEnded(fs) && StreamEnded(fs) && !StreamEnded(HeadPart(fs)) }

  /** The requests that these frames of a stream stand for: one when it is complete; but with headers
      that do not decode one at END_HEADERS already, and one more if END_STREAM follows. */
  function Requests(id: nat, fs: seq<Frame>, headers: Option<seq<Field>>): seq<Dispatch> {
    if !HeadersEnded(fs) then []
    else
      match headers
      case Some(fields) => if StreamEnded(fs) then [Dispatch(id, fields, BodyOf(fs), false)] else []
      case None =>
        [Dispatch(id, [], BodyOf(HeadPart(fs)), true)] + if EndsLate(fs) then [Dispatch(id, [], BodyOf(fs), true)]
        else []
  }

  function TotalPayload(es: seq<Event>): nat {
    if es == [] then 0
    else
      var e := es[|es| - 1];
      TotalPayload(es[..|es| - 1]) + if e.Recv? && e.frame.kind == DATA then |e.frame.payload| else 0
  }

  /** DATA on streams whose response was already finished. */
  function LostPayload(es: seq<Event>): nat {
    if es == [] then 0
    else
      var before, e := es[..|es| - 1], es[|es| - 1];
      LostPayload(before)
      + if e.Recv? && e.frame.kind == DATA && Completed(before, e.frame.streamId) then |e.frame.payload| else 0
  }

  /** The stream whose header block is still open. */
  function Pending(es: seq<Event>): Option<nat> {
    if es == [] then None
    else
      match es[|es| - 1]
      case Complete(_) => Pending(es[..|es| - 1])
      case Recv(f) =>
        if !CarriesHeaders(f) then Pending(es[..|es| - 1])
        else if EndHeaders(f) then None else Some(f.streamId)
  }

  /** Header blocks in the order their HEADERS frames arrived, the open one left out. */
  function BlocksInOrder(es: seq<Event>): seq<seq<byte>> {
    if es == [] then []
    else
      var e := es[|es| - 1];
      BlocksInOrder(es[..|es| - 1]) + if EndsBlock(e) then [BlockOf(Own(es, e.frame.streamId))] else []
  }

  /** What the stream's block decodes to; None also before its end. */
  function HeadersOf(decode: Decoding, es: seq<Event>, id: nat): Option<seq<Field>> {
    if es == [] then None
    else
      var e := es[|es| - 1];
      if EndsBlock(e) && e.frame.streamId == id then decode(BlocksInOrder(es))
      else HeadersOf(decode, es[..|es| - 1], id)
  }

  /** One more event from a peer that opens each stream once, keeps header blocks together, sends
      no reset and nothing after END_STREAM, with bodies within the limit; responses finish only
      after a dispatch of their stream. */
  predicate Allowed(decode: Decoding, es: seq<Event>, e: Event) {
    match e
    case Complete(id) => Requests(id, Kept(es, id), HeadersOf(decode, es, id)) != []
    case Recv(f) =>
      var own := Own(es, f.streamId);
      && f.kind != RST_STREAM && f.kind != GOAWAY
      && (CarriesHeaders(f) || f.kind == DATA ==> Content(f).Some? && f.streamId != 0)
      && (f.kind == HEADERS ==> !Opened(own) && Pending(es).None?)
      && (f.kind == CONTINUATION ==> Pending(es) == Some(f.streamId))
      && (f.kind == DATA ==>
            && Opened(own) && !StreamEnded(own)
            && (Completed(es, f.streamId) || |BodyOf(own)| + |Content(f).value| <= MAX_BODY))
  }

  predicate Orderly(decode: Decoding, es: seq<Event>) {
    es == [] || (Orderly(decode, es[..|es| - 1]) && Allowed(decode, es[..|es| - 1], es[|es| - 1]))
  }

  /** All header blocks decode, too. */
  predicate Decodable(decode: Decoding, es: seq<Event>) {
    es == [] || (Decodable(decode, es[..|es| - 1]) && (EndsBlock(es[|es| - 1]) ==> decode(BlocksInOrder(es)).Some?))
  }

  // ---------------------------------------------------------------- invariant

  function DispatchesOf(ds: seq<Dispatch>, id: nat): seq<Dispatch> {
    if ds == [] then []
    else DispatchesOf(ds[..|ds| - 1], id) + if ds[|ds| - 1].id == id then [ds[|ds| - 1]] else []
  }

  function CreditOf(cs: seq<(nat, nat)>, id: nat): nat {
    if cs == [] then 0
    else CreditOf(cs[..|cs| - 1], id) + if cs[|cs| - 1].0 == id then cs[|cs| - 1].1 else 0
  }

  /** What happened on one stream. */
  datatype View = View(own: seq<Frame>, kept: seq<Frame>, completed: bool, headers: Option<seq<Field>>)

  function ViewOf(decode: Decoding, es: seq<Event>, id: nat): View {
    View(Own(es, id), Kept(es, id), Completed(es, id), HeadersOf(decode, es, id))
  }

  /** Only DATA after an undecodable block comes too late. */
  predicate ViewOk(v: View) {
    && (v.completed ==> HeadersEnded(v.kept) && HeadersEnded(v.own) && (StreamEnded(v.kept) || v.headers.None?))
    && (!v.completed || v.headers.Some? ==> v.kept == v.own)
    && (!Opened(v.own) ==> v.own == [])
    && (!HeadersEnded(v.own) ==> v.headers.None?)
  }

  function Gathered(v: View): Stream {
    Stream(BlockOf(v.own), FieldsOf(v.headers), BodyOf(v.own), HeadersEnded(v.own), StreamEnded(v.own),
           HeadersEnded(v.own) && v.headers.None?)
  }

  /** What the connection knows of one stream is what the peer sent on it. */
  predicate StreamOk(c: Conn, v: View, id: nat) {
    && (id in c.streams <==> Opened(v.own) && !v.completed)
    && (id in c.streams ==> c.streams[id] == Gathered(v))
    && DispatchesOf(c.dispatches, id) == Requests(id, v.kept, v.headers)
    && (id != 0 ==> CreditOf(c.credits, id) == PayloadOf(v.kept))
    && ViewOk(v)
  }

  /** The same, boxed so that proofs about the connection do not unfold it. */
  ghost predicate Known(c: Conn, v: View, id: nat) { forall x :: x == v ==> StreamOk(c, x, id) }

  predicate HeadersOk(c: Conn, es: seq<Event>) {
    && c.expecting == Pending(es).Some?
    && (c.expecting ==> c.lastHeader == Pending(es).value)
    && c.blocks == BlocksInOrder(es)
    && CreditOf(c.credits, 0) == TotalPayload(es) - LostPayload(es)
  }

  /** Exactly the stream with an opened but unfinished header block is pending. */
  predicate PendingOk(pending: Option<nat>, own: seq<Frame>, id: nat) {
    && (pending == Some(id) <==> Opened(own) && !HeadersEnded(own))
    && (!Opened(own) ==> !HeadersEnded(own))
  }

  ghost predicate IdOk(decode: Decoding, c: Conn, es: seq<Event>, id: nat) {
    PendingOk(Pending(es), Own(es, id), id) && Known(c, ViewOf(decode, es, id), id)
  }

  ghost predicate Inv(decode: Decoding, c: Conn, es: seq<Event>) {
    HeadersOk(c, es) && forall id: nat :: IdOk(decode, c, es, id)
  }

  function EventId(e: Event): nat { if e.Recv? then e.frame.streamId else e.id }

  /** The view after one more frame of the stream. */
  function Extended(v: View, f: Frame, headers: Option<seq<Field>>): View {
    View(v.own + [f], if v.completed then v.kept else v.kept + [f], v.completed,
         if CarriesHeaders(f) && EndHeaders(f) then headers else v.headers)
  }

  lemma ViewSnoc(decode: Decoding, es: seq<Event>, e: Event, id: nat)
    ensures ViewOf(decode, es + [e], id) ==
            if e == Complete(id) then ViewOf(decode, es, id).(completed := true)
            else if e.Recv? && OfRequest(e.frame, id) then
              Extended(ViewOf(decode, es, id), e.frame, decode(BlocksInOrder(es + [e])))
            else ViewOf(decode, es, id)
  {
    assert (es + [e])[..|es|] == es && Own(es, id) + [] == Own(es, id) && Kept(es, id) + [] == Kept(es, id);
  }

  lemma OwnSnoc(es: seq<Event>, e: Event, id: nat)
    ensures Own(es + [e], id) == if e.Recv? && OfRequest(e.frame, id) then Own(es, id) + [e.frame] else Own(es, id)
  {
    assert (es + [e])[..|es|] == es && Own(es, id) + [] == Own(es, id);
  }

  lemma FrameSnoc(fs: seq<Frame>, f: Frame)
    ensures BlockOf(fs + [f]) == BlockOf(fs) + if CarriesHeaders(f) && Content(f).Some? then Content(f).value else []
    ensures BodyOf(fs + [f]) == BodyOf(fs) + if f.kind == DATA && Content(f).Some? then Content(f).value else []
    ensures PayloadOf(fs + [f]) == PayloadOf(fs) + if f.kind == DATA then |f.payload| else 0
  {
    assert (fs + [f])[..|fs|] == fs;
  }

  lemma FlagSnoc(fs: seq<Frame>, f: Frame)
    ensures Opened(fs + [f]) <==> Opened(fs) || f.kind == HEADERS
    ensures HeadersEnded(fs + [f]) <==> HeadersEnded(fs) || (CarriesHeaders(f) && EndHeaders(f))
    ensures StreamEnded(fs + [f]) <==> StreamEnded(fs) || ((f.kind == HEADERS || f.kind == DATA) && EndStream(f))
    ensures HeadPart(fs + [f]) == if HeadersEnded(fs) then HeadPart(fs) else fs + [f]
  {
    assert (fs + [f])[..|fs|] == fs;
  }

  lemma LogSnoc(ds: seq<Dispatch>, d: Dispatch, id: nat)
    ensures DispatchesOf(ds + [d], id) == DispatchesOf(ds, id) + if d.id == id then [d] else []
  {
    assert (ds + [d])[..|ds|] == ds;
  }

  lemma CreditSnoc(cs: seq<(nat, nat)>, a: (nat, nat), b: (nat, nat), id: nat)
    ensures CreditOf(cs + [a, b], id) ==
            CreditOf(cs, id) + (if a.0 == id then a.1 else 0) + (if b.0 == id then b.1 else 0)
  {
    assert (cs + [a, b])[..|cs| + 1] == cs + [a];
    assert (cs + [a])[..|cs|] == cs;
  }

  /** END_STREAM up to END_HEADERS is END_STREAM. */
  lemma {:induction false} HeadPartEnds(fs: seq<Frame>)
    requires StreamEnded(HeadPart(fs))
    ensures StreamEnded(fs)
  {
    if fs == [] || !HeadersEnded(fs[..|fs| - 1]) {
    } else {
      HeadPartEnds(fs[..|fs| - 1]);
    }
  }

  // ------------------------------------------------ the requests after one more frame

  /** Header frames come before the block has ended, so nothing was dispatched yet. */
  lemma RequestsAfterHeaders(id: nat, fs: seq<Frame>, f: Frame, headers: Option<seq<Field>>)
    requires CarriesHeaders(f) && !HeadersEnded(fs)
    ensures Requests(id, fs + [f], headers) ==
            if EndHeaders(f) && (StreamEnded(fs + [f]) || headers.None?)
            then [Dispatch(id, FieldsOf(headers), BodyOf(fs + [f]), headers.None?)] else []
  {
    FlagSnoc(fs, f);
  }

  lemma RequestsAfterData(id: nat, fs: seq<Frame>, f: Frame, headers: Option<seq<Field>>)
    requires f.kind == DATA && !StreamEnded(fs)
    ensures Requests(id, fs + [f], headers) ==
            Requests(id, fs, headers) +
            if HeadersEnded(fs) && EndStream(f) then [Dispatch(id, FieldsOf(headers), BodyOf(fs + [f]), headers.None?)]
            else []
  {
    FlagSnoc(fs, f);
    if StreamEnded(HeadPart(fs)) { HeadPartEnds(fs); }
  }

  // ----------------------------------------------------------- the frame's own stream

  /** The stream a HEADERS frame opens. */
  lemma HeadersStream(decode: Decoding, c: Conn, f: Frame, v: View)
    requires f.kind == HEADERS && f.streamId != 0 && Content(f).Some? && !c.expecting && !Opened(v.own)
    requires StreamOk(c, v, f.streamId)
    ensures OnHeaders(decode, c, f).Some?
    ensures StreamOk(OnHeaders(decode, c, f).value, Extended(v, f, decode(c.blocks + [BlockOf(v.own + [f])])),
                     f.streamId)
  {
    var id := f.streamId;
    assert v.own == v.kept == [] && !HeadersEnded([]);
    FrameSnoc([], f);
    FlagSnoc([], f);
    assert [] + Content(f).value == Content(f).value;
    var headers := decode(c.blocks + [BlockOf(v.own + [f])]);
    RequestsAfterHeaders(id, [], f, headers);
    LogSnoc(c.dispatches, Dispatch(id, FieldsOf(headers), [], headers.None?), id);
  }

  lemma ContinuationStream(decode: Decoding, c: Conn, f: Frame, v: View)
    requires f.kind == CONTINUATION && c.expecting && c.lastHeader == f.streamId && f.streamId != 0
    requires Opened(v.own) && !HeadersEnded(v.own) && StreamOk(c, v, f.streamId)
    ensures OnContinuation(decode, c, f).Some?
    ensures StreamOk(OnContinuation(decode, c, f).value,
                     Extended(v, f, decode(c.blocks + [BlockOf(v.own + [f])])), f.streamId)
  {
    var id := f.streamId;
    assert !v.completed && v.own == v.kept && v.headers.None?;
    FrameSnoc(v.own, f);
    FlagSnoc(v.own, f);
    var headers := decode(c.blocks + [BlockOf(v.own + [f])]);
    RequestsAfterHeaders(id, v.own, f, headers);
    RequestsAfterHeaders(id, v.own, f, None);
    LogSnoc(c.dispatches, Dispatch(id, FieldsOf(headers), BodyOf(v.own), headers.None?), id);
    assert BodyOf(v.own) + [] == BodyOf(v.own);
  }

  lemma DataStream(c: Conn, f: Frame, v: View)
    requires f.kind == DATA && f.streamId != 0 && Content(f).Some? && StreamOk(c, v, f.streamId)
    requires Opened(v.own) && !StreamEnded(v.own) && !v.completed && |BodyOf(v.own)| + |Content(f).value| <= MAX_BODY
    ensures OnData(c, f).Some? && StreamOk(OnData(c, f).value, Extended(v, f, None), f.streamId)
  {
    var id := f.streamId;
    FrameSnoc(v.own, f);
    FlagSnoc(v.own, f);
    RequestsAfterData(id, v.own, f, v.headers);
    LogSnoc(c.dispatches, Dispatch(id, FieldsOf(v.headers), BodyOf(v.own + [f]), v.headers.None?), id);
    CreditSnoc(c.credits, (id, |f.payload|), (0, |f.payload|), id);
  }

  /** DATA on an answered stream is ignored. */
  lemma LateData(c: Conn, f: Frame, v: View)
    requires f.kind == DATA && StreamOk(c, v, f.streamId) && Opened(v.own) && !StreamEnded(v.own) && v.completed
    ensures OnData(c, f) == Some(c) && StreamOk(c, Extended(v, f, None), f.streamId)
  {
    FlagSnoc(v.own, f);
  }

  // ----------------------------------------------------------------- the other streams

  /** The change concerns stream `mine` only, apart from the credit for the connection. */
  ghost predicate LocalChange(c: Conn, c': Conn, mine: nat) {
    && (forall id :: id != mine ==> (id in c'.streams <==> id in c.streams))
    && (forall id :: id != mine && id in c.streams ==> c'.streams[id] == c.streams[id])
    && (c'.dispatches == c.dispatches || exists d: Dispatch :: d.id == mine && c'.dispatches == c.dispatches + [d])
    && (c'.credits == c.credits || exists n :: c'.credits == c.credits + [(mine, n), (0, n)])
  }

  lemma DataIsLocal(c: Conn, f: Frame, c': Conn)
    requires OnData(c, f) == Some(c')
    ensures LocalChange(c, c', f.streamId)
  {
    if c'.credits != c.credits {
      assert c'.credits == c.credits + [(f.streamId, |f.payload|), (0, |f.payload|)];
    }
    if c'.dispatches != c.dispatches {
      var d := c'.dispatches[|c.dispatches|];
      assert d.id == f.streamId && c'.dispatches == c.dispatches + [d];
    }
  }

  lemma FinishedIsLocal(decode: Decoding, c: Conn, id: nat, s: Stream)
    ensures LocalChange(c, Finished(decode, c, id, s), id)
  {
    var c' := Finished(decode, c, id, s);
    if c'.dispatches != c.dispatches {
      var d := c'.dispatches[|c.dispatches|];
      assert d.id == id && c'.dispatches == c.dispatches + [d];
    }
  }

  lemma EventIsLocal(decode: Decoding, c: Conn, e: Event, c': Conn)
    requires OnEvent(decode, c, e) == Some(c')
    ensures LocalChange(c, c', EventId(e))
  {
    if e.Recv? {
      var f := e.frame;
      if f.kind == DATA {
        DataIsLocal(c, f, c');
      } else if f.kind == HEADERS && EndHeaders(f) {
        FinishedIsLocal(decode, c, f.streamId, Stream(Content(f).value, [], [], false, EndStream(f), false));
      } else if f.kind == CONTINUATION && EndHeaders(f) {
        var s := c.streams[f.streamId];
        FinishedIsLocal(decode, c.(expecting := false), f.streamId, s.(block := s.block + f.payload));
      }
    }
  }

  lemma OthersUntouched(c: Conn, c': Conn, mine: nat, v: View, id: nat)
    requires LocalChange(c, c', mine) && id != mine && Known(c, v, id)
    ensures Known(c', v, id)
  {
    assert StreamOk(c, v, id);
    if d: Dispatch :| d.id == mine && c'.dispatches == c.dispatches + [d] { LogSnoc(c.dispatches, d, id); }
    if n :| c'.credits == c.credits + [(mine, n), (0, n)] { CreditSnoc(c.credits, (mine, n), (0, n), id); }
  }

  // ---------------------------------------------------------------- the whole connection

  lemma BlocksSnoc(es: seq<Event>, e: Event)
    ensures BlocksInOrder(es + [e]) ==
            BlocksInOrder(es) + if EndsBlock(e) then [BlockOf(Own(es + [e], e.frame.streamId))] else []
    ensures Pending(es + [e]) ==
            if e.Complete? || !CarriesHeaders(e.frame) then Pending(es)
            else if EndHeaders(e.frame) then None else Some(e.frame.streamId)
  {
    assert (es + [e])[..|es|] == es;
  }

  lemma PayloadSnoc(es: seq<Event>, e: Event)
    ensures TotalPayload(es + [e]) ==
            TotalPayload(es) + if e.Recv? && e.frame.kind == DATA then |e.frame.payload| else 0
    ensures LostPayload(es + [e]) ==
            LostPayload(es)
            + if e.Recv? && e.frame.kind == DATA && Completed(es, e.frame.streamId) then |e.frame.payload| else 0
  {
    assert (es + [e])[..|es|] == es;
  }

  lemma PendingStep(es: seq<Event>, f: Frame, own: seq<Frame>, id: nat)
    requires PendingOk(Pending(es), own, id)
    requires f.kind == HEADERS ==> Pending(es).None? && (f.streamId == id ==> !Opened(own))
    requires f.kind == CONTINUATION ==> Pending(es) == Some(f.streamId)
    ensures PendingOk(Pending(es + [Recv(f)]), if OfRequest(f, id) then own + [f] else own, id)
  {
    BlocksSnoc(es, Recv(f));
    FlagSnoc(own, f);
  }

  /** The event's own stream. */
  lemma OwnStream(decode: Decoding, c: Conn, f: Frame, v: View, headers: Option<seq<Field>>)
    requires Known(c, v, f.streamId) && f.kind != GOAWAY && f.kind != RST_STREAM
    requires CarriesHeaders(f) || f.kind == DATA ==> Content(f).Some? && f.streamId != 0
    requires f.kind == HEADERS ==> !Opened(v.own) && !c.expecting
    requires f.kind == CONTINUATION ==>
               c.expecting && c.lastHeader == f.streamId && Opened(v.own) && !HeadersEnded(v.own)
    requires f.kind == DATA ==>
               && Opened(v.own) && !StreamEnded(v.own)
               && (v.completed || |BodyOf(v.own)| + |Content(f).value| <= MAX_BODY)
    requires CarriesHeaders(f) && EndHeaders(f) ==> headers == decode(c.blocks + [BlockOf(v.own + [f])])
    ensures OnEvent(decode, c, Recv(f)).Some?
    ensures Known(OnEvent(decode, c, Recv(f)).value, if OfRequest(f, f.streamId) then Extended(v, f, headers) else v,
                  f.streamId)
  {
    assert StreamOk(c, v, f.streamId);
    if f.kind == HEADERS { HeadersStream(decode, c, f, v); }
    else if f.kind == CONTINUATION { ContinuationStream(decode, c, f, v); }
    else if f.kind == DATA && v.completed { LateData(c, f, v); }
    else if f.kind == DATA { DataStream(c, f, v); }
  }

  /** A finished response takes the stream away. */
  lemma CompleteStream(c: Conn, v: View, id: nat)
    requires Known(c, v, id) && Requests(id, v.kept, v.headers) != []
    ensures Known(c.(streams := c.streams - {id}), v.(completed := true), id)
  {
    assert StreamOk(c, v, id);
  }

  lemma BlocksStep(decode: Decoding, c: Conn, f: Frame, v: View, c': Conn)
    requires Known(c, v, f.streamId) && OnEvent(decode, c, Recv(f)) == Some(c')
    requires f.kind == HEADERS ==> !Opened(v.own)
    ensures c'.blocks == c.blocks + if CarriesHeaders(f) && EndHeaders(f) then [BlockOf(v.own + [f])] else []
  {
    FrameSnoc(v.own, f);
    if f.kind == HEADERS {
      assert v.own == [] by { assert StreamOk(c, v, f.streamId); }
      assert BlockOf(v.own + [f]) == Content(f).value;
      HeadersBlocks(decode, c, f, c');
    } else if f.kind == CONTINUATION {
      assert c.streams[f.streamId].block == BlockOf(v.own) by { assert StreamOk(c, v, f.streamId); }
      ContinuationBlocks(decode, c, f, c');
    }
  }

  lemma HeadersBlocks(decode: Decoding, c: Conn, f: Frame, c': Conn)
    requires OnHeaders(decode, c, f) == Some(c')
    ensures Content(f).Some? && c'.blocks == c.blocks + if EndHeaders(f) then [Content(f).value] else []
  {
  }

  lemma ContinuationBlocks(decode: Decoding, c: Conn, f: Frame, c': Conn)
    requires OnContinuation(decode, c, f) == Some(c')
    ensures f.streamId in c.streams
    ensures c'.blocks == c.blocks + if EndHeaders(f) then [c.streams[f.streamId].block + f.payload] else []
  {
  }

  /** Which header block is open after a frame. */
  lemma ExpectStep(decode: Decoding, c: Conn, f: Frame, c': Conn)
    requires OnEvent(decode, c, Recv(f)) == Some(c')
    ensures CarriesHeaders(f) ==> c'.expecting == !EndHeaders(f) && (c'.expecting ==> c'.lastHeader == f.streamId)
    ensures !CarriesHeaders(f) ==> c'.expecting == c.expecting && c'.lastHeader == c.lastHeader
  {
  }

  lemma ConnectionCredit(decode: Decoding, c: Conn, f: Frame, v: View, c': Conn)
    requires OnEvent(decode, c, Recv(f)) == Some(c') && Known(c, v, f.streamId)
    requires f.kind == DATA ==> f.streamId != 0 && Opened(v.own)
    ensures CreditOf(c'.credits, 0) ==
            CreditOf(c.credits, 0) + if f.kind == DATA && !v.completed then |f.payload| else 0
  {
    if f.kind == DATA {
      CreditSnoc(c.credits, (f.streamId, |f.payload|), (0, |f.payload|), 0);
      assert f.streamId in c.streams <==> !v.completed by { assert StreamOk(c, v, f.streamId); }
    }
  }

  lemma HeadersStep(decode: Decoding, c: Conn, es: seq<Event>, e: Event, c': Conn)
    requires HeadersOk(c, es) && Allowed(decode, es, e) && OnEvent(decode, c, e) == Some(c')
    requires IdOk(decode, c, es, EventId(e))
    ensures HeadersOk(c', es + [e])
  {
    BlocksSnoc(es, e);
    PayloadSnoc(es, e);
    if e.Recv? {
      ViewSnoc(decode, es, e, e.frame.streamId);
      BlocksStep(decode, c, e.frame, ViewOf(decode, es, e.frame.streamId), c');
      ConnectionCredit(decode, c, e.frame, ViewOf(decode, es, e.frame.streamId), c');
      ExpectStep(decode, c, e.frame, c');
    }
  }

  lemma MyStream(decode: Decoding, c: Conn, es: seq<Event>, e: Event)
    requires HeadersOk(c, es) && IdOk(decode, c, es, EventId(e)) && Allowed(decode, es, e)
    ensures OnEvent(decode, c, e).Some? && IdOk(decode, OnEvent(decode, c, e).value, es + [e], EventId(e))
  {
    var mine := EventId(e);
    ViewSnoc(decode, es, e, mine);
    BlocksSnoc(es, e);
    if e.Recv? {
      OwnStream(decode, c, e.frame, ViewOf(decode, es, mine), decode(BlocksInOrder(es + [e])));
      PendingStep(es, e.frame, Own(es, mine), mine);
    } else {
      CompleteStream(c, ViewOf(decode, es, mine), mine);
    }
  }

  lemma OtherStreams(decode: Decoding, c: Conn, es: seq<Event>, e: Event, c': Conn, id: nat)
    requires LocalChange(c, c', EventId(e)) && IdOk(decode, c, es, id) && id != EventId(e) && Allowed(decode, es, e)
    ensures IdOk(decode, c', es + [e], id)
  {
    ViewSnoc(decode, es, e, id);
    BlocksSnoc(es, e);
    if e.Recv? { PendingStep(es, e.frame, Own(es, id), id); }
    OthersUntouched(c, c', EventId(e), ViewOf(decode, es, id), id);
  }

  lemma EventInv(decode: Decoding, c: Conn, es: seq<Event>, e: Event)
    requires Inv(decode, c, es) && Allowed(decode, es, e)
    ensures OnEvent(decode, c, e).Some?
    ensures forall c' :: Some(c') == OnEvent(decode, c, e) ==> Inv(decode, c', es + [e])
  {
    var mine := EventId(e);
    assert IdOk(decode, c, es, mine);
    MyStream(decode, c, es, e);
    var c' := OnEvent(decode, c, e).value;
    HeadersStep(decode, c, es, e, c');
    EventIsLocal(decode, c, e, c');
    forall id: nat ensures IdOk(decode, c', es + [e], id) {
      if id != mine {
        assert IdOk(decode, c, es, id);
        OtherStreams(decode, c, es, e, c', id);
      }
    }
  }

  lemma {:induction false} EventsInv(decode: Decoding, es: seq<Event>)
    requires Orderly(decode, es)
    ensures AfterEvents(decode, es).Some? && forall c :: Some(c) == AfterEvents(decode, es) ==> Inv(decode, c, es)
  {
    if es == [] {
      InitialInv(decode);
    } else {
      var before, e := es[..|es| - 1], es[|es| - 1];
      EventsInv(decode, before);
      EventInv(decode, AfterEvents(decode, before).value, before, e);
      assert before + [e] == es;
    }
  }

  lemma InitialInv(decode: Decoding)
    ensures Inv(decode, INITIAL, [])
  {
  }

  // ------------------------------------------------------------------ main results

  /** For every interleaving of streams of an orderly peer, decodable headers or not: the connection
      accepts everything, hands over the requests of each stream as its own frames ask for, and
      returns credit for all DATA but that on streams already answered. */
  lemma DispatchesAreRequests(decode: Decoding, es: seq<Event>, id: nat)
    requires Orderly(decode, es)
    ensures AfterEvents(decode, es).Some?
    ensures var c := AfterEvents(decode, es).value;
            && DispatchesOf(c.dispatches, id) == Requests(id, Kept(es, id), HeadersOf(decode, es, id))
            && (id != 0 ==> CreditOf(c.credits, id) == PayloadOf(Kept(es, id)))
            && CreditOf(c.credits, 0) == TotalPayload(es) - LostPayload(es)
            && c.blocks == BlocksInOrder(es)
  {
    EventsInv(decode, es);
    var c := AfterEvents(decode, es).value;
    assert Inv(decode, c, es);
    assert IdOk(decode, c, es, id) && StreamOk(c, ViewOf(decode, es, id), id);
  }

  /** A DATA frame with END_STREAM came after END_HEADERS and before the response was finished. */
  predicate EndedLate(es: seq<Event>, id: nat) {
    if es == [] then false
    else
      var before, e := es[..|es| - 1], es[|es| - 1];
      || EndedLate(before, id)
      || (&& e.Recv? && e.frame.kind == DATA && e.frame.streamId == id && EndStream(e.frame)
          && HeadersEnded(Own(before, id)) && !Completed(before, id))
  }

  lemma EndsLateSnoc(fs: seq<Frame>, f: Frame)
    requires !HeadersEnded(fs) || (f.kind == DATA && !StreamEnded(fs))
    ensures EndsLate(fs + [f]) <==> HeadersEnded(fs) && EndStream(f)
    ensures !EndsLate(fs)
  {
    FlagSnoc(fs, f);
    if StreamEnded(HeadPart(fs)) { HeadPartEnds(fs); }
  }

  lemma {:induction false} EndedLateIsEndsLate(decode: Decoding, es: seq<Event>, id: nat)
    requires Orderly(decode, es)
    ensures EndedLate(es, id) <==> EndsLate(Kept(es, id))
  {
    if es == [] {
    } else {
      var before, e := es[..|es| - 1], es[|es| - 1];
      EndedLateIsEndsLate(decode, before, id);
      ViewSnoc(decode, before, e, id);
      assert before + [e] == es;
      if e.Recv? && OfRequest(e.frame, id) {
        ViewsOk(decode, before, id);
        if !Completed(before, id) { EndsLateSnoc(Kept(before, id), e.frame); }
      }
    }
  }

  lemma ViewsOk(decode: Decoding, es: seq<Event>, id: nat)
    requires Orderly(decode, es)
    ensures ViewOk(ViewOf(decode, es, id)) && PendingOk(Pending(es), Own(es, id), id)
  {
    EventsInv(decode, es);
    var c := AfterEvents(decode, es).value;
    assert Inv(decode, c, es);
    assert IdOk(decode, c, es, id) && StreamOk(c, ViewOf(decode, es, id), id);
  }

  /** Exactly when a stream is dispatched twice: its headers do not decode, and END_STREAM comes on
      DATA after them while the answer is still being sent. Never more often, and otherwise at most
      once. */
  lemma DispatchedTwiceIff(decode: Decoding, es: seq<Event>, id: nat)
    requires Orderly(decode, es)
    ensures AfterEvents(decode, es).Some?
    ensures var n := |DispatchesOf(AfterEvents(decode, es).value.dispatches, id)|;
            && n <= 2
            && (n == 2 <==> HeadersEnded(Own(es, id)) && HeadersOf(decode, es, id).None? && EndedLate(es, id))
  {
    DispatchesAreRequests(decode, es, id);
    EndedLateIsEndsLate(decode, es, id);
    ViewsOk(decode, es, id);
  }

  lemma {:induction false} HeadersDecode(decode: Decoding, es: seq<Event>, id: nat)
    requires Decodable(decode, es) && HeadersEnded(Own(es, id))
    ensures HeadersOf(decode, es, id).Some?
  {
    if es == [] {
    } else {
      var before, e := es[..|es| - 1], es[|es| - 1];
      assert before + [e] == es;
      ViewSnoc(decode, before, e, id);
      if e.Recv? { FlagSnoc(Own(before, id), e.frame); }
      if HeadersEnded(Own(before, id)) { HeadersDecode(decode, before, id); }
    }
  }

  /** With decodable headers no DATA comes too late. */
  lemma {:induction false} NothingLost(decode: Decoding, es: seq<Event>)
    requires Orderly(decode, es) && Decodable(decode, es)
    ensures LostPayload(es) == 0
  {
    if es == [] {
    } else {
      var before, e := es[..|es| - 1], es[|es| - 1];
      assert before + [e] == es;
      NothingLost(decode, before);
      PayloadSnoc(before, e);
      if e.Recv? && e.frame.kind == DATA { NotTooLate(decode, before, e.frame); }
    }
  }

  lemma NotTooLate(decode: Decoding, es: seq<Event>, f: Frame)
    requires Orderly(decode, es) && Decodable(decode, es) && Allowed(decode, es, Recv(f)) && f.kind == DATA
    ensures !Completed(es, f.streamId)
  {
    ViewsOk(decode, es, f.streamId);
    if HeadersEnded(Own(es, f.streamId)) { HeadersDecode(decode, es, f.streamId); }
  }

  predicate Ready(fs: seq<Frame>) { HeadersEnded(fs) && StreamEnded(fs) }

  /** The main promise, for every interleaving of streams with decodable headers: each stream is
      dispatched exactly once, when END_HEADERS and END_STREAM have both been seen, with what its
      header block decodes to and its own unpadded DATA in order; and the credit returned, per
      stream and for the connection, is the DATA payload received. */
  lemma RequestsAreDemultiplexed(decode: Decoding, es: seq<Event>, id: nat)
    requires Orderly(decode, es) && Decodable(decode, es)
    ensures AfterEvents(decode, es).Some?
    ensures Ready(Own(es, id)) ==> HeadersOf(decode, es, id).Some?
    ensures var c, own := AfterEvents(decode, es).value, Own(es, id);
            && DispatchesOf(c.dispatches, id) ==
               (if Ready(own) then [Dispatch(id, HeadersOf(decode, es, id).value, BodyOf(own), false)] else [])
            && (id != 0 ==> CreditOf(c.credits, id) == PayloadOf(own))
            && CreditOf(c.credits, 0) == TotalPayload(es)
            && c.blocks == BlocksInOrder(es)
  {
    DispatchesAreRequests(decode, es, id);
    ViewsOk(decode, es, id);
    NothingLost(decode, es);
    if HeadersEnded(Own(es, id)) { HeadersDecode(decode, es, id); }
  }

  /** Stream ids in the order of their HEADERS frames. */
  function Starts(es: seq<Event>): seq<nat> {
    if es == [] then []
    else
      var e := es[|es| - 1];
      Starts(es[..|es| - 1]) + if e.Recv? && e.frame.kind == HEADERS then [e.frame.streamId] else []
  }

  /** One started stream per block, and one more if a block is still open. */
  predicate StartsMatch(starts: seq<nat>, blocks: seq<seq<byte>>, pending: Option<nat>) {
    && |starts| == |blocks| + (if pending.Some? then 1 else 0)
    && (pending.Some? ==> starts[|blocks|] == pending.value)
    && forall j, k :: 0 <= j < k < |starts| ==> starts[j] != starts[k]
  }

  predicate BlocksMatch(es: seq<Event>, starts: seq<nat>, blocks: seq<seq<byte>>)
    requires |blocks| <= |starts|
  {
    forall k :: 0 <= k < |blocks| ==> blocks[k] == BlockOf(Own(es, starts[k]))
  }

  predicate InStartOrder(es: seq<Event>) {
    StartsMatch(Starts(es), BlocksInOrder(es), Pending(es)) && BlocksMatch(es, Starts(es), BlocksInOrder(es))
  }

  lemma {:induction false} StartsAreOpened(es: seq<Event>, id: nat)
    ensures id in Starts(es) <==> Opened(Own(es, id))
  {
    if es == [] {
    } else {
      var before, e := es[..|es| - 1], es[|es| - 1];
      StartsAreOpened(before, id);
      OwnSnoc(before, e, id);
      StartsSnoc(before, e);
      if e.Recv? { FlagSnoc(Own(before, id), e.frame); }
      assert before + [e] == es;
    }
  }

  /** A finished block does not change any more. */
  lemma BlockIsFinal(decode: Decoding, es: seq<Event>, e: Event, id: nat)
    requires id in Starts(es) && Pending(es) != Some(id) && Allowed(decode, es, e)
    ensures BlockOf(Own(es + [e], id)) == BlockOf(Own(es, id))
  {
    StartsAreOpened(es, id);
    OwnSnoc(es, e, id);
    if e.Recv? {
      FrameSnoc(Own(es, id), e.frame);
      assert BlockOf(Own(es, id)) + [] == BlockOf(Own(es, id));
    }
  }

  lemma BlocksAreFinal(decode: Decoding, es: seq<Event>, e: Event, starts: seq<nat>, blocks: seq<seq<byte>>)
    requires starts == Starts(es) && StartsMatch(starts, blocks, Pending(es)) && BlocksMatch(es, starts, blocks)
    requires Allowed(decode, es, e)
    ensures BlocksMatch(es + [e], starts, blocks)
  {
    forall k | 0 <= k < |blocks| ensures blocks[k] == BlockOf(Own(es + [e], starts[k])) {
      BlockIsFinal(decode, es, e, starts[k]);
    }
  }

  /** A header frame starts a stream, if it is HEADERS, and ends its block, if it says so. */
  lemma StartsStep(es: seq<Event>, starts: seq<nat>, blocks: seq<seq<byte>>, pending: Option<nat>, f: Frame)
    requires StartsMatch(starts, blocks, pending) && BlocksMatch(es, starts, blocks) && CarriesHeaders(f)
    requires if f.kind == HEADERS then pending.None? && f.streamId !in starts else pending == Some(f.streamId)
    ensures var starts' := if f.kind == HEADERS then starts + [f.streamId] else starts;
            var blocks' := if EndHeaders(f) then blocks + [BlockOf(Own(es, f.streamId))] else blocks;
            StartsMatch(starts', blocks', if EndHeaders(f) then None else Some(f.streamId))
            && BlocksMatch(es, starts', blocks')
  {
  }

  lemma StartOrderStep(decode: Decoding, es: seq<Event>, e: Event)
    requires InStartOrder(es) && Allowed(decode, es, e)
    ensures InStartOrder(es + [e])
  {
    BlocksAreFinal(decode, es, e, Starts(es), BlocksInOrder(es));
    BlocksSnoc(es, e);
    StartsSnoc(es, e);
    if e.Recv? && CarriesHeaders(e.frame) {
      StartsAreOpened(es, e.frame.streamId);
      StartsStep(es + [e], Starts(es), BlocksInOrder(es), Pending(es), e.frame);
    }
  }

  lemma StartsSnoc(es: seq<Event>, e: Event)
    ensures Starts(es + [e]) ==
            if e.Recv? && e.frame.kind == HEADERS then Starts(es) + [e.frame.streamId] else Starts(es)
  {
    assert (es + [e])[..|es|] == es && Starts(es) + [] == Starts(es);
  }

  /** Header blocks reach the shared decoder in the order in which their streams were started. */
  lemma {:induction false} BlocksReachDecoderInStartOrder(decode: Decoding, es: seq<Event>)
    requires Orderly(decode, es)
    ensures InStartOrder(es)
  {
    if es == [] {
    } else {
      var before, e := es[..|es| - 1], es[|es| - 1];
      BlocksReachDecoderInStartOrder(decode, before);
      StartOrderStep(decode, before, e);
      assert before + [e] == es;
    }
  }

  lemma StartedBlock(decode: Decoding, es: seq<Event>, k: nat)
    requires Orderly(decode, es) && k < |BlocksInOrder(es)|
    ensures k < |Starts(es)| && BlockOf(Own(es, Starts(es)[k])) == BlocksInOrder(es)[k]
    ensures Starts(es)[k] in Starts(es) && Pending(es) != Some(Starts(es)[k])
  {
    BlocksReachDecoderInStartOrder(decode, es);
  }

  /** The k-th stream to be started gets what the k-th block decodes to. */
  lemma {:induction false} HeadersOfStarted(decode: Decoding, es: seq<Event>, k: nat)
    requires Orderly(decode, es) && k < |BlocksInOrder(es)|
    ensures k < |Starts(es)| && HeadersOf(decode, es, Starts(es)[k]) == decode(BlocksInOrder(es)[..k + 1])
  {
    var before, e := es[..|es| - 1], es[|es| - 1];
    assert before + [e] == es;
    if k < |BlocksInOrder(before)| {
      HeadersOfStarted(decode, before, k);
      EarlierStarted(decode, before, e, k);
    } else {
      LastStarted(decode, before, e, k);
    }
  }

  lemma EarlierStarted(decode: Decoding, es: seq<Event>, e: Event, k: nat)
    requires Orderly(decode, es) && Allowed(decode, es, e) && k < |BlocksInOrder(es)|
    ensures k < |Starts(es)| && k < |BlocksInOrder(es + [e])| && k < |Starts(es + [e])|
    ensures Starts(es + [e])[k] == Starts(es)[k] && BlocksInOrder(es + [e])[..k + 1] == BlocksInOrder(es)[..k + 1]
    ensures HeadersOf(decode, es + [e], Starts(es)[k]) == HeadersOf(decode, es, Starts(es)[k])
  {
    StartedBlock(decode, es, k);
    StartsSnoc(es, e);
    BlocksSnoc(es, e);
    SamePrefix(BlocksInOrder(es), BlocksInOrder(es + [e]), k + 1);
    HeadersAreFinal(decode, es, e, Starts(es)[k]);
  }

  lemma SamePrefix<T>(a: seq<T>, b: seq<T>, k: nat)
    requires a <= b && k <= |a|
    ensures b[..k] == a[..k]
  {
  }

  lemma LastStarted(decode: Decoding, es: seq<Event>, e: Event, k: nat)
    requires Orderly(decode, es) && Allowed(decode, es, e) && |BlocksInOrder(es)| == k < |BlocksInOrder(es + [e])|
    ensures k < |Starts(es + [e])|
    ensures HeadersOf(decode, es + [e], Starts(es + [e])[k]) == decode(BlocksInOrder(es + [e])[..k + 1])
  {
    BlocksReachDecoderInStartOrder(decode, es);
    BlocksSnoc(es, e);
    StartsSnoc(es, e);
    assert EndsBlock(e) && Starts(es + [e])[k] == e.frame.streamId;
    assert BlocksInOrder(es + [e])[..k + 1] == BlocksInOrder(es + [e]);
    ViewSnoc(decode, es, e, e.frame.streamId);
  }

  lemma HeadersAreFinal(decode: Decoding, es: seq<Event>, e: Event, id: nat)
    requires id in Starts(es) && Pending(es) != Some(id) && Allowed(decode, es, e)
    ensures HeadersOf(decode, es + [e], id) == HeadersOf(decode, es, id)
  {
    StartsAreOpened(es, id);
    ViewSnoc(decode, es, e, id);
  }
}
