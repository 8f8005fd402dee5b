/** The HTTP/2 demultiplexer with the HPACK decoder behind it: header lists written by the peer, with
    compression state shared between streams, arrive with the requests they belong to. */
module H2Requests {
  import opened Bytes
  import opened H2Demux
  import opened H2Frame
  import opened Hpack
  import opened HpackForms
  import opened HpackTable
  import opened Huffman

  const FRESH := Tables(4096, [])

  /** The decoder's tables after these blocks, decodable or not. */
  ghost function TablesAfter(code: Code, statics: seq<Field>, blocks: seq<seq<byte>>): Tables
    requires |statics| == STATIC_SIZE
    decreases |blocks|, 1
  {
    if blocks == [] then FRESH else LastBlock(code, statics, blocks).2
  }

  /** What the connection's one decoder makes of the last block. */
  ghost function LastBlock(code: Code, statics: seq<Field>, blocks: seq<seq<byte>>): BlockResult
    requires |statics| == STATIC_SIZE && blocks != []
    decreases |blocks|, 0
  {
    var n := |blocks| - 1;
    BlockAt(code, statics, blocks[n], 0, TablesAfter(code, statics, blocks[..n]), [])
  }

  ghost function Success(r: BlockResult): Option<seq<Field>> { if r.0 then Some(r.1) else None }

  ghost function HpackDecoding(code: Code, statics: seq<Field>): Decoding
    requires |statics| == STATIC_SIZE
  {
    blocks => if blocks == [] then None else Success(LastBlock(code, statics, blocks))
  }

  // ------------------------------------------------------------- what the peer means

  /** The peer's tables after it has written these header lists. */
  function PeerTables(statics: seq<Field>, lists: seq<seq<Form>>): Tables
    requires |statics| == STATIC_SIZE
    decreases |lists|, 1
  {
    if lists == [] then FRESH else LastMeaning(statics, lists).2
  }

  function LastMeaning(statics: seq<Field>, lists: seq<seq<Form>>): BlockResult
    requires |statics| == STATIC_SIZE && lists != []
    decreases |lists|, 0
  {
    var n := |lists| - 1;
    Meanings(statics, PeerTables(statics, lists[..n]), lists[n], [])
  }

  ghost predicate Writes(code: Code, lists: seq<seq<Form>>, blocks: seq<seq<byte>>) {
    && |blocks| == |lists|
    && forall k :: 0 <= k < |lists| ==> AreForms(code, blocks[k], lists[k])
  }

  /** Both ends' tables agree after every block, and each block means what it was to mean. */
  lemma {:induction false} TablesAgree(code: Code, statics: seq<Field>, lists: seq<seq<Form>>, blocks: seq<seq<byte>>)
    requires Usable(code) && |statics| == STATIC_SIZE && Writes(code, lists, blocks)
    ensures TablesAfter(code, statics, blocks) == PeerTables(statics, lists)
    ensures blocks != [] ==> LastBlock(code, statics, blocks) == LastMeaning(statics, lists)
  {
    if blocks == [] {
    } else {
      var n := |blocks| - 1;
      TablesAgree(code, statics, lists[..n], blocks[..n]);
      BlockIsMeaning(code, statics, lists[n], blocks[n], PeerTables(statics, lists[..n]));
    }
  }

  lemma BlockIsMeaning(code: Code, statics: seq<Field>, forms: seq<Form>, block: seq<byte>, t: Tables)
    requires Usable(code) && |statics| == STATIC_SIZE && AreForms(code, block, forms)
    ensures BlockAt(code, statics, block, 0, t, []) == Meanings(statics, t, forms, [])
  {
    assert block == FormsBytes(code, forms) && forall i :: 0 <= i < |forms| ==> FormFits(code, forms[i]);
    BlockHasItsMeaning(code, statics, forms, t);
  }

  /** For every interleaving of an orderly peer that writes one header list per stream, in the order
      it starts them: the k-th stream started is dispatched with exactly the k-th list, as the
      peer's own tables give it, or answered as malformed if that list is in error. */
  lemma HeaderListsArrive(code: Code, statics: seq<Field>, es: seq<Event>, lists: seq<seq<Form>>, k: nat)
    requires Usable(code) && |statics| == STATIC_SIZE && Orderly(HpackDecoding(code, statics), es)
    requires k < |lists| && Writes(code, lists, BlocksInOrder(es))
    ensures k < |Starts(es)| && AfterEvents(HpackDecoding(code, statics), es).Some?
    ensures var c, id := AfterEvents(HpackDecoding(code, statics), es).value, Starts(es)[k];
            && BlockOf(Own(es, id)) == BlocksInOrder(es)[k]
            && DispatchesOf(c.dispatches, id) ==
               Requests(id, Kept(es, id), Success(LastMeaning(statics, lists[..k + 1])))
  {
    var decode := HpackDecoding(code, statics);
    HeadersOfStarted(decode, es, k);
    StartedBlock(decode, es, k);
    ListsMean(code, statics, lists, BlocksInOrder(es), k);
    DispatchesAreRequests(decode, es, Starts(es)[k]);
  }

  lemma ListsMean(code: Code, statics: seq<Field>, lists: seq<seq<Form>>, blocks: seq<seq<byte>>, k: nat)
    requires Usable(code) && |statics| == STATIC_SIZE && Writes(code, lists, blocks) && k < |lists|
    ensures HpackDecoding(code, statics)(blocks[..k + 1]) == Success(LastMeaning(statics, lists[..k + 1]))
  {
    TablesAgree(code, statics, lists[..k + 1], blocks[..k + 1]);
  }

  // ------------------------------------------------- what undecodable headers lead to

  /** An indexed field with index 0 is refused in every table state (section 6.1 of RFC 7541). */
  const BAD_BLOCK: seq<byte> := [128]

  lemma BadBlockRefused(code: Code, statics: seq<Field>, t: Tables)
    requires |statics| == STATIC_SIZE
    ensures BlockAt(code, statics, BAD_BLOCK, 0, t, []) == (false, [], t)
  {
  }

  const BAD_FRAME := Frame(HEADERS, 4, 1, BAD_BLOCK)

  const BAD_STREAM := Stream(BAD_BLOCK, [], [], true, false, true)

  const BAD_REQUEST := Dispatch(1, [], [], true)

  /** The connection after the undecodable headers. */
  const BAD_CONN := Conn(map[1 := BAD_STREAM], false, 0, [BAD_BLOCK], [BAD_REQUEST], [])

  lemma BadDecoding(code: Code, statics: seq<Field>)
    requires |statics| == STATIC_SIZE
    ensures HpackDecoding(code, statics)([BAD_BLOCK]) == None
  {
    assert [BAD_BLOCK][..0] == [];
    BadBlockRefused(code, statics, FRESH);
  }

  lemma BadHeaders(decode: Decoding)
    requires decode([BAD_BLOCK]) == None
    ensures OnEvent(decode, INITIAL, Recv(BAD_FRAME)) == Some(BAD_CONN)
  {
    assert Content(BAD_FRAME) == Some(BAD_BLOCK) by { assert BAD_FRAME.payload[0..1] == BAD_BLOCK; }
    FinishBad(decode);
  }

  lemma FinishBad(decode: Decoding)
    requires decode([BAD_BLOCK]) == None
    ensures Finished(decode, INITIAL, 1, Stream(BAD_BLOCK, [], [], false, false, false)) == BAD_CONN
  {
    assert INITIAL.blocks + [BAD_BLOCK] == [BAD_BLOCK] && INITIAL.dispatches + [BAD_REQUEST] == [BAD_REQUEST];
  }

  lemma OneEvent(decode: Decoding, e: Event)
    requires Allowed(decode, [], e)
    ensures AfterEvents(decode, [e]) == OnEvent(decode, INITIAL, e) && Orderly(decode, [e])
  {
    assert [e][..0] == [];
  }

  lemma MoreEvents(decode: Decoding, es: seq<Event>, e: Event)
    requires AfterEvents(decode, es).Some?
    ensures AfterEvents(decode, es + [e]) == OnEvent(decode, AfterEvents(decode, es).value, e)
    ensures Orderly(decode, es + [e]) <==> Orderly(decode, es) && Allowed(decode, es, e)
  {
    assert (es + [e])[..|es|] == es;
  }

  /** The stream after its headers, as the peer sees it. */
  lemma BadStart(decode: Decoding)
    ensures Allowed(decode, [], Recv(BAD_FRAME)) && Own([Recv(BAD_FRAME)], 1) == [BAD_FRAME]
    ensures Opened([BAD_FRAME]) && !StreamEnded([BAD_FRAME]) && BodyOf([BAD_FRAME]) == []
  {
    assert BAD_FRAME.payload[0..1] == BAD_BLOCK;
    assert [Recv(BAD_FRAME)][..0] == [] && [BAD_FRAME][..0] == [];
  }

  lemma BadRun(decode: Decoding)
    requires decode([BAD_BLOCK]) == None
    ensures AfterEvents(decode, [Recv(BAD_FRAME)]) == Some(BAD_CONN) && Orderly(decode, [Recv(BAD_FRAME)])
  {
    BadHeaders(decode);
    BadStart(decode);
    OneEvent(decode, Recv(BAD_FRAME));
  }

  /** Decodability matters: such a stream is dispatched at END_HEADERS, and once more if its body
      ends before the first response is finished. */
  lemma UndecodableStreamDispatchedTwice(code: Code, statics: seq<Field>)
    requires |statics| == STATIC_SIZE
    ensures var decode, es := HpackDecoding(code, statics), [Recv(BAD_FRAME)] + [Recv(Frame(DATA, 1, 1, []))];
            && Orderly(decode, es) && AfterEvents(decode, es).Some?
            && AfterEvents(decode, es).value.dispatches == [BAD_REQUEST, BAD_REQUEST]
  {
    var decode, d := HpackDecoding(code, statics), Frame(DATA, 1, 1, []);
    BadDecoding(code, statics);
    BadRun(decode);
    BadStart(decode);
    MoreEvents(decode, [Recv(BAD_FRAME)], Recv(d));
    SecondDispatch(d);
  }

  lemma SecondDispatch(d: Frame)
    requires d == Frame(DATA, 1, 1, [])
    ensures Content(d) == Some([])
    ensures OnData(BAD_CONN, d).Some? && OnData(BAD_CONN, d).value.dispatches == [BAD_REQUEST, BAD_REQUEST]
  {
    assert BAD_STREAM.body + [] == [];
  }

  /** Once a stream has been answered, DATA on it changes nothing. */
  lemma IgnoredAfterAnswer(decode: Decoding, es: seq<Event>, c: Conn, d: Frame)
    requires Orderly(decode, es) && AfterEvents(decode, es) == Some(c) && DispatchesOf(c.dispatches, d.streamId) != []
    requires d.kind == DATA && d.streamId != 0 && Content(d).Some?
    requires Opened(Own(es, d.streamId)) && !StreamEnded(Own(es, d.streamId))
    ensures Orderly(decode, es + [Complete(d.streamId)] + [Recv(d)])
    ensures AfterEvents(decode, es + [Complete(d.streamId)] + [Recv(d)]) ==
            Some(c.(streams := c.streams - {d.streamId}))
  {
    DispatchesAreRequests(decode, es, d.streamId);
    MoreEvents(decode, es, Complete(d.streamId));
    ViewSnoc(decode, es, Complete(d.streamId), d.streamId);
    MoreEvents(decode, es + [Complete(d.streamId)], Recv(d));
  }

  /** So DATA that comes then earns no credit. */
  lemma LateDataEarnsNoCredit(code: Code, statics: seq<Field>, payload: seq<byte>)
    requires |statics| == STATIC_SIZE
    ensures var decode := HpackDecoding(code, statics);
            var es := [Recv(BAD_FRAME)] + [Complete(1)] + [Recv(Frame(DATA, 1, 1, payload))];
            && Orderly(decode, es) && TotalPayload(es) == LostPayload(es) == |payload|
            && AfterEvents(decode, es).Some? && AfterEvents(decode, es).value.credits == []
  {
    BadDecoding(code, statics);
    LateRun(HpackDecoding(code, statics), Frame(DATA, 1, 1, payload));
    LatePayload(payload);
  }

  lemma LateRun(decode: Decoding, d: Frame)
    requires decode([BAD_BLOCK]) == None && d == Frame(DATA, 1, 1, d.payload)
    ensures var es := [Recv(BAD_FRAME)] + [Complete(1)] + [Recv(d)];
            Orderly(decode, es) && AfterEvents(decode, es) == Some(BAD_CONN.(streams := BAD_CONN.streams - {1}))
  {
    BadRun(decode);
    BadStart(decode);
    assert Content(d) == Some(d.payload) by { assert d.payload[0..|d.payload|] == d.payload; }
    assert BAD_CONN.dispatches[0] == BAD_REQUEST && DispatchesOf(BAD_CONN.dispatches, 1) != [];
    IgnoredAfterAnswer(decode, [Recv(BAD_FRAME)], BAD_CONN, d);
  }

  lemma LatePayload(payload: seq<byte>)
    ensures var es := [Recv(BAD_FRAME)] + [Complete(1)] + [Recv(Frame(DATA, 1, 1, payload))];
            TotalPayload(es) == LostPayload(es) == |payload|
  {
    var h := [Recv(BAD_FRAME)];
    assert [] + h == h && (h + [Complete(1)])[..1] == h;
    PayloadSnoc([], Recv(BAD_FRAME));
    PayloadSnoc(h, Complete(1));
    PayloadSnoc(h + [Complete(1)], Recv(Frame(DATA, 1, 1, payload)));
  }
}
