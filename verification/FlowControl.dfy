/** Sending response bodies under HTTP/2 flow control (section 6.9 of RFC 9113): the coroutines
    running `write_data_frames`, one per stream, the window updates of the frame loop, and the
    gap between the window check and the debit, which follows the awaited send. Every suspension
    point is a step boundary, and runnable writers may run while the frame loop resumes others.
    Windows are unbounded integers. */
module FlowControl {
  import opened Arithmetic
  import opened Bytes

  const CHUNK: nat := 16384
  const INITIAL_WINDOW: int := 65535

  datatype Phase =
    | Fetch                       // about to read the next chunk of the body
    | Check                       // about to look at the windows
    | Parked                      // suspended, handle stored in window_waiter
    | Detached                    // suspended, handle taken by handle_window_update
    | Sending(n: nat)             // awaiting send_frame with n bytes
    | Closing                     // awaiting the empty END_STREAM frame
    | Done

  /** A DATA frame handed to `send_frame`. */
  datatype DataFrame = DataFrame(payload: seq<byte>, endStream: bool)

  const END := DataFrame([], true)

  /** `sent`, `initial`, `credited`, `parks` and `resumes` are history: what was committed to the
      stream, the window it started with, the increments received since, and how often the writer
      was suspended on its windows and resumed. */
  datatype Writer = Writer(
    body: seq<byte>,
    contentLength: int,
    remaining: int,
    pos: nat,
    chunk: seq<byte>,
    sentFromChunk: nat,
    phase: Phase,
    sendWindow: int,
    registered: bool,
    sent: seq<DataFrame>,
    initial: int,
    credited: int,
    parks: nat,
    resumes: nat)

  /** `credit` is history: what the peer has granted to the whole connection. */
  datatype State = State(
    conn: int,
    maxFrame: nat,
    writers: seq<Writer>,
    resuming: seq<nat>,
    credit: int)

  predicate Init(s: State) {
    s.conn == INITIAL_WINDOW == s.credit && s.maxFrame == 16384 && s.writers == [] && s.resuming == []
  }

  /** The payloads of some frames, joined. */
  function Join(frames: seq<DataFrame>): seq<byte> {
    if frames == [] then [] else Join(frames[..|frames| - 1]) + frames[|frames| - 1].payload
  }

  // --------------------------------------------------------------- transitions

  function Put(s: State, i: nat, w: Writer): State
    requires i < |s.writers|
  {
    s.(writers := s.writers[i := w])
  }

  ghost predicate Open(s: State, s': State) {
    exists w :: IsNew(w) && s' == s.(writers := s.writers + [w])
  }

  predicate IsNew(w: Writer) { w.sendWindow >= 0 && w == NewWriter(w.body, w.contentLength, w.sendWindow) }

  function NewWriter(body: seq<byte>, length: int, window: nat): Writer {
    Writer(body, length, length, 0, [], 0, Fetch, window, true, [], window, 0, 0, 0)
  }

  function Want(w: Writer): int { if w.remaining >= 0 then Min(w.remaining, CHUNK) else CHUNK }

  /** The body is over: the empty frame with END_STREAM is sent. */
  function Closed(w: Writer): Writer { w.(phase := Closing, sent := w.sent + [END]) }

  /** One body read; a read returns nothing only at the end of the body. */
  predicate FetchStep(w: Writer, w': Writer, got: nat) {
    && w.phase == Fetch && w.pos + got <= |w.body|
    && if w.remaining == 0 then w' == Closed(w)
       else
         && got <= Want(w) && (got == 0 <==> w.pos == |w.body|)
         && w' == if got == 0 then Closed(w)
                  else w.(chunk := w.body[w.pos..w.pos + got], pos := w.pos + got, sentFromChunk := 0, phase := Check)
  }

  function Allowed(s: State, w: Writer): int {
    Min(Min(w.sendWindow, s.conn), Min(s.maxFrame, |w.chunk| - w.sentFromChunk))
  }

  /** The next n bytes of the chunk go to `send_frame`. */
  function Committing(w: Writer, n: nat): Writer
    requires w.sentFromChunk + n <= |w.chunk|
  {
    w.(phase := Sending(n), sent := w.sent + [DataFrame(w.chunk[w.sentFromChunk..w.sentFromChunk + n], false)])
  }

  /** The window check, and the call of `send_frame` with what the windows allow. */
  predicate CheckStep(s: State, w: Writer, w': Writer) {
    && w.phase == Check && w.sentFromChunk <= |w.chunk|
    && if w.sendWindow <= 0 || s.conn <= 0 then w' == w.(phase := Parked, parks := w.parks + 1)
       else Allowed(s, w) >= 0 && w' == Committing(w, Allowed(s, w))
  }

  /** `send_frame` returned: only now are the windows debited. */
  function Debited(w: Writer, n: nat): Writer {
    var w1 := w.(sendWindow := w.sendWindow - n, sentFromChunk := w.sentFromChunk + n, phase := Check);
    if w1.sentFromChunk < |w1.chunk| then w1
    else
      w1.(phase := Fetch, chunk := [], sentFromChunk := 0,
      remaining := if w.remaining >= 0 then w.remaining - |w.chunk| else w.remaining)
  }

  ghost predicate WriterStep(s: State, s': State, i: nat) {
    && i < |s.writers|
    && var w := s.writers[i];
    || (exists w', got :: FetchStep(w, w', got) && s' == Put(s, i, w'))
    || (exists w' :: CheckStep(s, w, w') && s' == Put(s, i, w'))
    || (w.phase.Sending? && s' == Put(s, i, Debited(w, w.phase.n)).(conn := s.conn - w.phase.n))
    || (w.phase.Closing? && s' == Put(s, i, w.(phase := Done, registered := false)))
  }

  function Credited(w: Writer, increment: nat): Writer {
    w.(sendWindow := w.sendWindow + increment, credited := w.credited + increment)
  }

  /** WINDOW_UPDATE for one stream: credit it and take its waiter, if it has one. */
  predicate StreamUpdate(s: State, s': State, i: nat, increment: nat) {
    && s.resuming == [] && i < |s.writers| && s.writers[i].registered && increment > 0
    && var w := Credited(s.writers[i], increment);
    s' == if w.phase.Parked? then Put(s, i, w.(phase := Detached)).(resuming := [i]) else Put(s, i, w)
  }

  predicate Wakes(w: Writer) { w.registered && w.phase.Parked? && w.sendWindow > 0 }

  /** WINDOW_UPDATE for the connection: credit it and take all waiters whose stream window is
      positive, in whatever order the stream table yields them. */
  ghost predicate ConnUpdate(s: State, s': State, increment: nat, order: seq<nat>) {
    && s.resuming == [] && increment > 0
    && (forall i :: i in order <==> 0 <= i < |s.writers| && Wakes(s.writers[i]))
    && (forall a, b :: 0 <= a < b < |order| ==> order[a] != order[b])
    && s' == s.(conn := s.conn + increment, credit := s.credit + increment, resuming := order,
             writers := seq(|s.writers|, i requires 0 <= i < |s.writers| =>
               if Wakes(s.writers[i]) then s.writers[i].(phase := Detached) else s.writers[i]))
  }

  /** The frame loop resumes the next handle it took. */
  predicate Resume(s: State, s': State) {
    && s.resuming != [] && s.resuming[0] < |s.writers|
    && var w := s.writers[s.resuming[0]];
    s' == Put(s, s.resuming[0], w.(phase := Check, resumes := w.resumes + 1)).(resuming := s.resuming[1..])
  }

  /** RST_STREAM: the stream leaves the table, and its writer goes on. */
  predicate Reset(s: State, s': State, i: nat) {
    s.resuming == [] && i < |s.writers| && s' == Put(s, i, s.writers[i].(registered := false))
  }

  ghost predicate LoopStep(s: State, s': State) {
    || Resume(s, s')
    || (exists i, n :: StreamUpdate(s, s', i, n))
    || (exists n, order :: ConnUpdate(s, s', n, order))
    || (s.resuming == [] && exists m: nat :: m > 0 && s' == s.(maxFrame := m))   // SETTINGS
    || exists i: nat :: Reset(s, s', i)
  }

  ghost predicate Next(s: State, s': State) {
    || Open(s, s') || LoopStep(s, s')
    || exists i :: WriterStep(s, s', i)
  }

  ghost predicate IsRun(run: seq<State>) {
    && |run| >= 1 && Init(run[0])
    && forall i, j :: 0 <= i < j < |run| && j == i + 1 ==> Next(run[i], run[j])
  }

  // ------------------------------------------------------- one writer by itself

  /** Bytes committed but not debited yet. */
  function Flying(w: Writer): nat { if w.phase.Sending? then w.phase.n else 0 }

  function Committed(w: Writer): nat { |Join(w.sent)| }

  predicate HasChunk(w: Writer) { w.phase.Check? || w.phase.Parked? || w.phase.Detached? || w.phase.Sending? }

  ghost predicate BodyOk(w: Writer) {
    && |w.chunk| <= CHUNK && |w.chunk| <= w.pos <= |w.body|
    && w.chunk == w.body[w.pos - |w.chunk|..w.pos]
    && (if HasChunk(w) then w.sentFromChunk < |w.chunk| else w.chunk == [] && w.sentFromChunk == 0)
    && (if w.contentLength >= 0 then w.remaining == w.contentLength - (w.pos - |w.chunk|) && |w.chunk| <= w.remaining
        else w.remaining == w.contentLength)
    && (w.phase.Closing? || w.phase.Done? ==> w.pos == |w.body| || w.pos == w.contentLength)
  }

  ghost predicate SentOk(w: Writer)
    requires BodyOk(w)
  {
    && (w.phase.Sending? ==> 1 <= w.phase.n <= |w.chunk| - w.sentFromChunk)
    && Flying(w) <= w.sendWindow
    && Join(w.sent) == w.body[..w.pos - |w.chunk| + w.sentFromChunk + Flying(w)]
    && w.sendWindow == w.initial + w.credited - (Committed(w) - Flying(w))
    && FramesOk(w.sent, w.phase.Closing? || w.phase.Done?)
  }

  /** Frames with 1 to 16384 bytes; then, if and only if the response is over, one that is empty and
      carries END_STREAM. */
  predicate FramesOk(sent: seq<DataFrame>, over: bool) {
    && (over ==> sent != [] && sent[|sent| - 1] == END)
    && forall k :: 0 <= k < |sent| - (if over then 1 else 0) ==> 1 <= |sent[k].payload| <= CHUNK && !sent[k].endStream
  }

  /** Every suspension but the current one was resumed once. */
  predicate ParkOk(w: Writer) { w.parks == w.resumes + if w.phase.Parked? || w.phase.Detached? then 1 else 0 }

  ghost predicate WriterOk(w: Writer) { BodyOk(w) && SentOk(w) && ParkOk(w) }

  /** A consistent writer, boxed so that proofs about the connection do not unfold it. */
  ghost predicate Sound(w: Writer) { forall x :: x == w ==> WriterOk(x) }

  lemma FetchOk(w: Writer, w': Writer, got: nat)
    requires Sound(w) && FetchStep(w, w', got)
    ensures Sound(w') && Committed(w') == Committed(w) && Flying(w') == Flying(w) == 0
  {
    assert WriterOk(w);
    if w'.phase.Closing? {
      ClosedOk(w);
    } else {
      FetchedOk(w, w', got);
    }
  }

  lemma FetchedOk(w: Writer, w': Writer, got: nat)
    requires WriterOk(w) && w.phase.Fetch? && 1 <= got <= Want(w) && w.pos + got <= |w.body|
    requires w' == w.(chunk := w.body[w.pos..w.pos + got], pos := w.pos + got, sentFromChunk := 0, phase := Check)
    ensures WriterOk(w')
  {
    assert |w'.chunk| == got;
  }

  lemma ClosedOk(w: Writer)
    requires WriterOk(w) && w.phase.Fetch? && (w.pos == |w.body| || w.remaining == 0)
    ensures WriterOk(Closed(w)) && Committed(Closed(w)) == Committed(w)
  {
    JoinEnd(w.sent);
  }

  lemma JoinEnd(sent: seq<DataFrame>)
    ensures Join(sent + [END]) == Join(sent)
  {
    assert (sent + [END])[..|sent|] == sent && Join(sent) + [] == Join(sent);
  }

  lemma CheckOk(s: State, w: Writer, w': Writer)
    requires Sound(w) && CheckStep(s, w, w') && s.maxFrame >= 1
    ensures Sound(w') && Committed(w') == Committed(w) + Flying(w') && Flying(w) == 0
    ensures w'.phase.Sending? ==> 1 <= w'.phase.n <= Min(s.maxFrame, CHUNK) && w'.phase.n <= s.conn
    ensures w'.phase.Parked? <==> w.sendWindow <= 0 || s.conn <= 0
  {
    assert WriterOk(w);
    if w.sendWindow <= 0 || s.conn <= 0 {
      AdjustedOk(w, w', 0);
    } else {
      var n: nat := w'.phase.n;
      assert AllowedRight(s, w, n) by { AllowedBounds(s, w); }
      CommitOk(w, w', n);
    }
  }

  predicate AllowedRight(s: State, w: Writer, n: int) {
    1 <= n <= Min(s.maxFrame, CHUNK) && n <= s.conn && n <= w.sendWindow && n <= |w.chunk| - w.sentFromChunk
  }

  lemma AllowedBounds(s: State, w: Writer)
    requires w.sendWindow > 0 && s.conn > 0 && s.maxFrame >= 1 && 0 <= w.sentFromChunk < |w.chunk| <= CHUNK
    ensures AllowedRight(s, w, Allowed(s, w))
  {
  }

  lemma CommitOk(w: Writer, w': Writer, n: nat)
    requires WriterOk(w) && w.phase == Check && 1 <= n <= |w.chunk| - w.sentFromChunk && n <= w.sendWindow
    requires w' == Committing(w, n)
    ensures WriterOk(w') && Committed(w') == Committed(w) + n
  {
    JoinGrows(w, n);
  }

  /** Committing the next n bytes of the chunk extends what was committed by the next n bytes of
      the body. */
  lemma JoinGrows(w: Writer, n: nat)
    requires BodyOk(w) && w.sentFromChunk + n <= |w.chunk|
    requires Join(w.sent) == w.body[..w.pos - |w.chunk| + w.sentFromChunk]
    ensures Join(Committing(w, n).sent) == w.body[..w.pos - |w.chunk| + w.sentFromChunk + n]
  {
    assert Committing(w, n).sent[..|w.sent|] == w.sent;
    SliceExtends(w.body, w.pos - |w.chunk|, w.pos, w.sentFromChunk, n);
  }

  lemma DebitOk(w: Writer)
    requires Sound(w) && w.phase.Sending?
    ensures Sound(Debited(w, w.phase.n))
    ensures Committed(Debited(w, w.phase.n)) == Committed(w) && Flying(Debited(w, w.phase.n)) == 0
  {
    assert WriterOk(w);
  }

  lemma CloseOk(w: Writer)
    requires Sound(w) && w.phase.Closing?
    ensures var w' := w.(phase := Done, registered := false);
            Sound(w') && Committed(w') == Committed(w) && Flying(w') == Flying(w)
  {
    assert WriterOk(w);
  }

  // ---------------------------------------------------------- the whole connection

  /** What is summed over all writers: bytes committed, bytes committed but not debited, and
      writers awaiting `send_frame`. */
  datatype Measure = ByCommitted | ByFlying | BySender {
    function Of(w: Writer): int {
      match this
      case ByCommitted => Committed(w)
      case ByFlying => Flying(w)
      case BySender => if w.phase.Sending? then 1 else 0
    }
  }

  function Total(ws: seq<Writer>, m: Measure): int { Sum(ws, m, |ws|) }

  /** Over the first k writers. */
  function Sum(ws: seq<Writer>, m: Measure, k: nat): int
    requires k <= |ws|
  {
    if k == 0 then 0 else Sum(ws, m, k - 1) + m.Of(ws[k - 1])
  }

  lemma {:induction false} SumUpdate(ws: seq<Writer>, i: nat, w: Writer, m: Measure, k: nat)
    requires i < |ws| && k <= |ws|
    ensures Sum(ws[i := w], m, k) == Sum(ws, m, k) + if i < k then m.Of(w) - m.Of(ws[i]) else 0
  {
    if k == 0 {
    } else {
      SumUpdate(ws, i, w, m, k - 1);
    }
  }

  lemma TotalUpdate(ws: seq<Writer>, i: nat, w: Writer, m: Measure)
    requires i < |ws|
    ensures Total(ws[i := w], m) == Total(ws, m) - m.Of(ws[i]) + m.Of(w)
  {
    SumUpdate(ws, i, w, m, |ws|);
  }

  lemma {:induction false} SumSame(ws: seq<Writer>, ws': seq<Writer>, m: Measure, k: nat)
    requires k <= |ws| && k <= |ws'| && forall i :: 0 <= i < k ==> m.Of(ws'[i]) == m.Of(ws[i])
    ensures Sum(ws', m, k) == Sum(ws, m, k)
  {
    if k == 0 {
    } else {
      SumSame(ws, ws', m, k - 1);
    }
  }

  lemma TotalAppend(ws: seq<Writer>, w: Writer, m: Measure)
    ensures Total(ws + [w], m) == Total(ws, m) + m.Of(w)
  {
    SumSame(ws, ws + [w], m, |ws|);
  }

  /** The connection window is what was granted minus what was debited. */
  ghost predicate Ledger(s: State) {
    && s.maxFrame >= 1 && s.conn == s.credit - (Total(s.writers, ByCommitted) - Total(s.writers, ByFlying))
    && forall i :: 0 <= i < |s.writers| ==> Sound(s.writers[i])
  }

  lemma PutLedger(s: State, i: nat, w: Writer, conn: int)
    requires Ledger(s) && i < |s.writers| && Sound(w)
    requires s.conn - conn == (Committed(w) - Flying(w)) - (Committed(s.writers[i]) - Flying(s.writers[i]))
    ensures Ledger(Put(s, i, w).(conn := conn))
  {
    TotalUpdate(s.writers, i, w, ByCommitted);
    TotalUpdate(s.writers, i, w, ByFlying);
  }

  lemma WriterLedger(s: State, s': State, i: nat)
    requires Ledger(s) && WriterStep(s, s', i)
    ensures Ledger(s')
  {
    var w := s.writers[i];
    assert Sound(w);
    if w', got :| FetchStep(w, w', got) && s' == Put(s, i, w') {
      FetchOk(w, w', got);
      PutLedger(s, i, w', s.conn);
    } else if w' :| CheckStep(s, w, w') && s' == Put(s, i, w') {
      CheckOk(s, w, w');
      PutLedger(s, i, w', s.conn);
    } else if w.phase.Sending? {
      DebitOk(w);
      PutLedger(s, i, Debited(w, w.phase.n), s.conn - w.phase.n);
    } else {
      CloseOk(w);
      PutLedger(s, i, w.(phase := Done, registered := false), s.conn);
    }
  }

  lemma OpenLedger(s: State, s': State)
    requires Ledger(s) && Open(s, s')
    ensures Ledger(s') && Total(s'.writers, ByCommitted) == Total(s.writers, ByCommitted)
  {
    var w :| IsNew(w) && s' == s.(writers := s.writers + [w]);
    NewWriterOk(w.body, w.contentLength, w.sendWindow);
    AppendLedger(s, w);
  }

  lemma AppendLedger(s: State, w: Writer)
    requires Ledger(s) && Sound(w) && Committed(w) == 0 && Flying(w) == 0
    ensures var s' := s.(writers := s.writers + [w]);
            Ledger(s') && Total(s'.writers, ByCommitted) == Total(s.writers, ByCommitted)
  {
    TotalAppend(s.writers, w, ByCommitted);
    TotalAppend(s.writers, w, ByFlying);
  }

  lemma NewWriterOk(body: seq<byte>, length: int, window: nat)
    ensures var w := NewWriter(body, length, window);
            WriterOk(w) && Committed(w) == 0 && Flying(w) == 0
  {
    NewBodyOk(body, length, window);
    NewSentOk(body, length, window);
  }

  lemma NewBodyOk(body: seq<byte>, length: int, window: nat)
    ensures BodyOk(NewWriter(body, length, window))
  {
    assert body[0..0] == [];
  }

  lemma NewSentOk(body: seq<byte>, length: int, window: nat)
    requires BodyOk(NewWriter(body, length, window))
    ensures SentOk(NewWriter(body, length, window)) && Committed(NewWriter(body, length, window)) == 0
  {
    assert body[..0] == [] && Join([]) == [];
  }

  // -------------------------------------------------------------------- parking

  /** A stream still in the table is parked only while one of its two windows is used up, and the
      handles being resumed are exactly the detached writers, each once. */
  ghost predicate Parks(s: State) {
    && (forall i :: 0 <= i < |s.writers| && s.writers[i].registered && s.writers[i].phase.Parked? ==>
                      s.writers[i].sendWindow <= 0 || s.conn <= 0)
    && (forall i :: i in s.resuming <==> 0 <= i < |s.writers| && s.writers[i].phase.Detached?)
    && (forall a, b :: 0 <= a < b < |s.resuming| ==> s.resuming[a] != s.resuming[b])
  }

  lemma ConnUpdateLedger(s: State, s': State, n: nat, order: seq<nat>)
    requires Ledger(s) && ConnUpdate(s, s', n, order)
    ensures Ledger(s') && Total(s'.writers, ByCommitted) == Total(s.writers, ByCommitted)
  {
    forall i | 0 <= i < |s'.writers|
      ensures Sound(s'.writers[i]) && ByCommitted.Of(s'.writers[i]) == ByCommitted.Of(s.writers[i])
              && ByFlying.Of(s'.writers[i]) == ByFlying.Of(s.writers[i])
    {
      assert Sound(s.writers[i]);
      if Wakes(s.writers[i]) { AdjustedOk(s.writers[i], s'.writers[i], 0); }
    }
    SumSame(s.writers, s'.writers, ByCommitted, |s.writers|);
    SumSame(s.writers, s'.writers, ByFlying, |s.writers|);
  }

  /** Changing the phase among the waiting ones, crediting the window and leaving the table keep a
      writer consistent. */
  predicate Adjusted(w: Writer, w': Writer, increment: nat) {
    && w' == Credited(w, increment).(phase := w'.phase, registered := w'.registered, parks := w'.parks,
             resumes := w'.resumes)
    && (w'.phase == w.phase || (HasChunk(w) && HasChunk(w') && !w.phase.Sending? && !w'.phase.Sending?))
    && (ParkOk(w) ==> ParkOk(w'))
  }

  lemma AdjustedOk(w: Writer, w': Writer, increment: nat)
    requires Sound(w) && Adjusted(w, w', increment)
    ensures Sound(w') && Committed(w') == Committed(w) && Flying(w') == Flying(w)
  {
    assert WriterOk(w);
  }

  lemma AdjustLedger(s: State, s': State, i: nat, increment: nat)
    requires Ledger(s) && i < |s.writers| && |s'.writers| == |s.writers|
    requires s' == Put(s, i, s'.writers[i]).(resuming := s'.resuming)
    requires Adjusted(s.writers[i], s'.writers[i], increment)
    ensures Ledger(s')
  {
    assert Sound(s.writers[i]);
    AdjustedOk(s.writers[i], s'.writers[i], increment);
    PutLedger(s, i, s'.writers[i], s.conn);
  }

  lemma ResumeLedger(s: State, s': State)
    requires Ledger(s) && Parks(s) && Resume(s, s')
    ensures Ledger(s')
  {
    assert s.resuming[0] in s.resuming;
    AdjustLedger(s, s', s.resuming[0], 0);
  }

  lemma StreamUpdateLedger(s: State, s': State, i: nat, n: nat)
    requires Ledger(s) && StreamUpdate(s, s', i, n)
    ensures Ledger(s')
  {
    AdjustLedger(s, s', i, n);
  }

  lemma LoopLedger(s: State, s': State)
    requires Ledger(s) && Parks(s) && LoopStep(s, s')
    ensures Ledger(s')
  {
    if n, order :| ConnUpdate(s, s', n, order) {
      ConnUpdateLedger(s, s', n, order);
    } else if Resume(s, s') {
      ResumeLedger(s, s');
    } else if i: nat, n: nat :| StreamUpdate(s, s', i, n) {
      StreamUpdateLedger(s, s', i, n);
    } else if i: nat :| Reset(s, s', i) {
      AdjustLedger(s, s', i, 0);
    }
  }

  /** A writer that neither parks nor was being resumed changes its own state, and the connection
      window does not grow. */
  lemma PutParks(s: State, s': State, i: nat, w: Writer)
    requires Parks(s) && i < |s.writers| && s'.writers == s.writers[i := w] && s'.resuming == s.resuming
    requires s'.conn <= s.conn && !s.writers[i].phase.Detached? && !w.phase.Detached?
    requires w.registered && w.phase.Parked? ==> w.sendWindow <= 0 || s'.conn <= 0
    ensures Parks(s')
  {
    forall j | 0 <= j < |s'.writers| && s'.writers[j].registered && s'.writers[j].phase.Parked?
      ensures s'.writers[j].sendWindow <= 0 || s'.conn <= 0
    {
      if j != i { assert s'.writers[j] == s.writers[j]; }
    }
    forall j: nat ensures j in s'.resuming <==> j < |s'.writers| && s'.writers[j].phase.Detached? {
      if j < |s.writers| && j != i { assert s'.writers[j] == s.writers[j]; }
    }
  }

  lemma WriterParks(s: State, s': State, i: nat)
    requires Parks(s) && WriterStep(s, s', i)
    ensures Parks(s')
  {
    var w := s.writers[i];
    if w', got :| FetchStep(w, w', got) && s' == Put(s, i, w') {
      PutParks(s, s', i, w');
    } else if w' :| CheckStep(s, w, w') && s' == Put(s, i, w') {
      PutParks(s, s', i, w');
    } else if w.phase.Sending? {
      PutParks(s, s', i, Debited(w, w.phase.n));
    } else {
      PutParks(s, s', i, w.(phase := Done, registered := false));
    }
  }

  lemma ResumeParks(s: State, s': State)
    requires Parks(s) && Resume(s, s')
    ensures Parks(s')
  {
    var first := s.resuming[0];
    assert first in s.resuming && s.resuming == [first] + s.resuming[1..];
    assert first !in s'.resuming by {
      forall a | 0 <= a < |s'.resuming| ensures s'.resuming[a] != first { assert s'.resuming[a] == s.resuming[a + 1]; }
    }
    forall j: nat ensures j in s'.resuming <==> j < |s'.writers| && s'.writers[j].phase.Detached? {
      assert j in s.resuming <==> j == first || j in s'.resuming;
      if j < |s.writers| && j != first { assert s'.writers[j] == s.writers[j]; }
    }
  }

  lemma StreamUpdateParks(s: State, s': State, i: nat, n: nat)
    requires Parks(s) && StreamUpdate(s, s', i, n)
    ensures Parks(s')
  {
    forall j: nat ensures j in s'.resuming <==> j < |s'.writers| && s'.writers[j].phase.Detached? {
      if j < |s.writers| && j != i { assert s'.writers[j] == s.writers[j]; }
      assert j !in s.resuming;
    }
  }

  lemma ConnUpdateParks(s: State, s': State, n: nat, order: seq<nat>)
    requires Parks(s) && ConnUpdate(s, s', n, order)
    ensures Parks(s')
  {
    forall j: nat ensures j in s'.resuming <==> j < |s'.writers| && s'.writers[j].phase.Detached? {
      assert j !in s.resuming;
    }
  }

  lemma ResetParks(s: State, s': State, i: nat)
    requires Parks(s) && Reset(s, s', i)
    ensures Parks(s')
  {
    forall j: nat ensures j in s'.resuming <==> j < |s'.writers| && s'.writers[j].phase.Detached? {
      if j < |s.writers| && j != i { assert s'.writers[j] == s.writers[j]; }
    }
  }

  lemma OpenParks(s: State, s': State)
    requires Parks(s) && Open(s, s')
    ensures Parks(s')
  {
    forall j: nat ensures j in s'.resuming <==> j < |s'.writers| && s'.writers[j].phase.Detached? {
      if j < |s.writers| { assert s'.writers[j] == s.writers[j]; }
    }
  }

  lemma LoopParks(s: State, s': State)
    requires Parks(s) && LoopStep(s, s')
    ensures Parks(s')
  {
    if Resume(s, s') {
      ResumeParks(s, s');
    } else if i: nat, n: nat :| StreamUpdate(s, s', i, n) {
      StreamUpdateParks(s, s', i, n);
    } else if n, order :| ConnUpdate(s, s', n, order) {
      ConnUpdateParks(s, s', n, order);
    } else if i: nat :| Reset(s, s', i) {
      ResetParks(s, s', i);
    }
  }

  // What every step keeps, boxed.

  ghost predicate Balanced(s: State) { forall x :: x == s ==> Ledger(x) }

  ghost predicate Settled(s: State) { forall x :: x == s ==> Parks(x) }

  ghost predicate Inv(s: State) { Balanced(s) && Settled(s) }

  lemma NextInv(s: State, s': State)
    requires Inv(s) && Next(s, s')
    ensures Inv(s')
  {
    assert Ledger(s) && Parks(s);
    if Open(s, s') {
      OpenLedger(s, s');
      OpenParks(s, s');
    } else if LoopStep(s, s') {
      LoopLedger(s, s');
      LoopParks(s, s');
    } else {
      var i :| WriterStep(s, s', i);
      WriterLedger(s, s', i);
      WriterParks(s, s', i);
    }
  }

  lemma InitLedger(s: State)
    requires Init(s)
    ensures Balanced(s)
  {
  }

  lemma InitParks(s: State)
    requires Init(s)
    ensures Settled(s)
  {
  }

  lemma RunPrefix(run: seq<State>)
    requires IsRun(run) && |run| >= 2
    ensures IsRun(run[..|run| - 1]) && Next(run[|run| - 2], run[|run| - 1])
  {
    var before := run[..|run| - 1];
    forall i, j | 0 <= i < j < |before| && j == i + 1 ensures Next(before[i], before[j]) {
      assert before[i] == run[i] && before[j] == run[j];
    }
  }

  lemma {:induction false} RunInv(run: seq<State>)
    requires IsRun(run)
    ensures forall s :: s in run ==> Inv(s)
  {
    var k := |run| - 1;
    if k == 0 {
      assert run == [run[0]];
      InitLedger(run[0]);
      InitParks(run[0]);
    } else {
      var before := run[..k];
      RunPrefix(run);
      RunInv(before);
      assert run[k - 1] in before;
      NextInv(run[k - 1], run[k]);
      assert forall s :: s in run ==> s in before || s == run[k];
    }
  }

  // ------------------------------------------------------------- main results

  /** What a response must carry: the body, cut to the announced length. */
  function Expected(body: seq<byte>, contentLength: int): seq<byte> {
    if 0 <= contentLength <= |body| then body[..contentLength] else body
  }

  /** For every interleaving: the bytes committed on a stream never exceed its initial window plus
      the increments it received; its frames are DATA with 1 to 16384 bytes, and then, exactly when
      the response is over, one empty frame with END_STREAM; the payloads are a prefix of the
      expected body, and exactly it once the response is over. */
  lemma StreamObeysWindow(run: seq<State>, s: State, i: nat)
    requires IsRun(run) && s in run && i < |s.writers|
    ensures var w := s.writers[i];
            var over := w.phase.Closing? || w.phase.Done?;
            && Committed(w) <= w.initial + w.credited
            && FramesOk(w.sent, over)
            && Join(w.sent) <= Expected(w.body, w.contentLength)
            && (over ==> Join(w.sent) == Expected(w.body, w.contentLength))
  {
    RunInv(run);
    assert Inv(s) && Ledger(s) && Sound(s.writers[i]) && WriterOk(s.writers[i]);
  }

  /** Every DATA frame fits the peer's frame size, and both windows, at the time of the check. */
  lemma FramesFitPeer(run: seq<State>, s: State, s': State, i: nat)
    requires IsRun(run) && s in run && WriterStep(s, s', i) && i < |s'.writers| && s'.writers[i].phase.Sending?
    ensures 1 <= s'.writers[i].phase.n <= Min(s.maxFrame, CHUNK)
    ensures s'.writers[i].phase.n <= s.conn && s'.writers[i].phase.n <= s.writers[i].sendWindow
  {
    RunInv(run);
    assert Inv(s) && Ledger(s) && Sound(s.writers[i]);
    var w' :| CheckStep(s, s.writers[i], w') && s' == Put(s, i, w');
    CheckOk(s, s.writers[i], w');
  }

  /** No missed wakeup: a stream still in the table is suspended on its windows only while one of
      them is used up, except those the frame loop is just about to resume; between frames there
      are none of the latter. Each suspension is resumed at most once: suspensions and resumptions
      alternate. */
  lemma NoStreamSleepsOnOpenWindows(run: seq<State>, s: State, i: nat)
    requires IsRun(run) && s in run && i < |s.writers| && s.writers[i].registered
    ensures s.writers[i].phase.Parked? ==> s.writers[i].sendWindow <= 0 || s.conn <= 0
    ensures s.resuming == [] ==> !s.writers[i].phase.Detached?
    ensures forall a, b :: 0 <= a < b < |s.resuming| ==> s.resuming[a] != s.resuming[b]
    ensures forall j :: j in s.resuming ==> 0 <= j < |s.writers| && s.writers[j].phase.Detached?
    ensures var w := s.writers[i];
            w.parks == w.resumes + if w.phase.Parked? || w.phase.Detached? then 1 else 0
  {
    RunInv(run);
    assert Inv(s) && Ledger(s) && Parks(s) && Sound(s.writers[i]) && WriterOk(s.writers[i]);
  }

  /** A writer is asleep although both its windows are open only if its stream was reset. */
  lemma SleepsOnOpenWindowsOnlyIfReset(run: seq<State>, s: State, i: nat)
    requires IsRun(run) && s in run && i < |s.writers|
    requires s.writers[i].phase.Parked? && s.writers[i].sendWindow > 0 && s.conn > 0
    ensures Orphan(s, i)
  {
    RunInv(run);
    assert Inv(s) && Parks(s);
  }

  /** A stream reset while its writer is parked: the writer is never resumed again. */
  lemma {:induction false} ResetWriterSleepsForever(run: seq<State>, from: nat, i: nat, j: nat)
    requires IsRun(run) && from <= j < |run| && Orphan(run[from], i)
    ensures Orphan(run[j], i)
  {
    if j == from {
    } else {
      ResetWriterSleepsForever(run, from, i, j - 1);
      assert Parks(run[j - 1]) by {
        RunInv(run);
        assert run[j - 1] in run && Inv(run[j - 1]) && Parks(run[j - 1]);
      }
      OrphanStep(run[j - 1], run[j], i);
    }
  }

  predicate Orphan(s: State, i: nat) { i < |s.writers| && !s.writers[i].registered && s.writers[i].phase.Parked? }

  lemma OrphanStep(s: State, s': State, i: nat)
    requires Parks(s) && Next(s, s') && Orphan(s, i)
    ensures Orphan(s', i)
  {
    if Open(s, s') {
    } else if LoopStep(s, s') {
      OrphanLoopStep(s, s', i);
    } else {
      var j :| WriterStep(s, s', j);
      OrphanWriterStep(s, s', i, j);
    }
  }

  lemma OrphanWriterStep(s: State, s': State, i: nat, j: nat)
    requires WriterStep(s, s', j) && Orphan(s, i)
    ensures Orphan(s', i)
  {
  }

  lemma OrphanLoopStep(s: State, s': State, i: nat)
    requires Parks(s) && LoopStep(s, s') && Orphan(s, i)
    ensures Orphan(s', i)
  {
    if Resume(s, s') { assert s.resuming[0] in s.resuming; }
  }

  // --------------------------------------------------- the connection's own window

  /** At most 16384 bytes are in flight per writer awaiting its send. */
  lemma {:induction false} FlyingBound(ws: seq<Writer>, k: nat)
    requires k <= |ws| && forall i :: 0 <= i < |ws| ==> Sound(ws[i])
    ensures 0 <= Sum(ws, ByFlying, k) <= CHUNK * Sum(ws, BySender, k) && Sum(ws, BySender, k) >= 0
  {
    if k == 0 {
    } else {
      FlyingBound(ws, k - 1);
      assert Sound(ws[k - 1]) && WriterOk(ws[k - 1]);
    }
  }

  /** What has been committed beyond what the peer granted to the connection. */
  function Overshoot(s: State): int { Total(s.writers, ByCommitted) - s.credit }

  predicate SendersAtMost(s: State, k: int) { Total(s.writers, BySender) <= k }

  predicate OvershootAtMost(s: State, bound: int) { Overshoot(s) <= bound }

  lemma OvershootStep(s: State, s': State, k: int)
    requires Inv(s) && Next(s, s') && k >= 1 && SendersAtMost(s', k) && OvershootAtMost(s, (k - 1) * CHUNK)
    ensures OvershootAtMost(s', (k - 1) * CHUNK)
  {
    assert Ledger(s);
    if Open(s, s') {
      OpenLedger(s, s');
    } else if LoopStep(s, s') {
      LoopCommits(s, s');
    } else {
      var i :| WriterStep(s, s', i);
      WriterCommits(s, s', i, k);
    }
  }

  lemma LoopCommits(s: State, s': State)
    requires Ledger(s) && LoopStep(s, s')
    ensures Overshoot(s') <= Overshoot(s)
  {
    if n, order :| ConnUpdate(s, s', n, order) {
      ConnUpdateLedger(s, s', n, order);
    } else if Resume(s, s') {
      SameCommitted(s, s', s.resuming[0]);
    } else if i: nat, n: nat :| StreamUpdate(s, s', i, n) {
      SameCommitted(s, s', i);
    } else if i: nat :| Reset(s, s', i) {
      SameCommitted(s, s', i);
    }
  }

  lemma SameCommitted(s: State, s': State, i: nat)
    requires i < |s.writers| && |s'.writers| == |s.writers| && s'.credit == s.credit
    requires s'.writers == s.writers[i := s'.writers[i]] && s'.writers[i].sent == s.writers[i].sent
    ensures Overshoot(s') == Overshoot(s)
  {
    TotalUpdate(s.writers, i, s'.writers[i], ByCommitted);
  }

  lemma WriterCommits(s: State, s': State, i: nat, k: int)
    requires Ledger(s) && WriterStep(s, s', i) && k >= 1 && Total(s'.writers, BySender) <= k
    requires Overshoot(s) <= (k - 1) * CHUNK
    ensures Overshoot(s') <= (k - 1) * CHUNK
  {
    var w, w' := s.writers[i], s'.writers[i];
    assert Sound(w);
    TotalUpdate(s.writers, i, w', ByCommitted);
    TotalUpdate(s.writers, i, w', BySender);
    if v :| CheckStep(s, w, v) && s' == Put(s, i, v) {
      CheckOk(s, w, v);
      FlyingBound(s.writers, |s.writers|);
      if v.phase.Sending? { MulMonotone(Total(s.writers, BySender), k - 1, CHUNK); }
    } else if w.phase.Sending? {
      DebitOk(w);
    } else if v, got :| FetchStep(w, v, got) && s' == Put(s, i, v) {
      FetchOk(w, v, got);
    }
  }

  /** The connection window can be overrun, because the debit follows the awaited send: with at
      most k writers awaiting a send at any time, by at most (k - 1) * 16384 bytes; so never with
      one writer. */
  lemma {:induction false} ConnectionOvershootBound(run: seq<State>, k: int)
    requires IsRun(run) && k >= 1 && forall s :: s in run ==> SendersAtMost(s, k)
    ensures forall s :: s in run ==> OvershootAtMost(s, (k - 1) * CHUNK)
  {
    var m := |run| - 1;
    if m == 0 {
      assert run == [run[0]];
    } else {
      var before := run[..m];
      RunPrefix(run);
      ConnectionOvershootBound(before, k);
      RunInv(before);
      assert run[m - 1] in before && run[m] in run;
      OvershootStep(run[m - 1], run[m], k);
      assert forall s :: s in run ==> s in before || s == run[m];
    }
  }

  // ------------------------------------------------------- the bound is reached

  /** s is the end of a run in which at most k writers await a send at any time. */
  ghost predicate Reachable(s: State, k: int) {
    exists run :: IsRun(run) && (forall x: State :: x in run ==> SendersAtMost(x, k)) && run[|run| - 1] == s
  }

  lemma ReachInit(s: State, k: nat)
    requires Init(s)
    ensures Reachable(s, k)
  {
    var run := [s];
    assert IsRun(run) && run[|run| - 1] == s;
  }

  lemma ReachNext(s: State, s': State, k: int)
    requires Reachable(s, k) && Next(s, s') && Total(s'.writers, BySender) <= k
    ensures Reachable(s', k)
  {
    var run :| IsRun(run) && (forall x: State :: x in run ==> SendersAtMost(x, k)) && run[|run| - 1] == s;
    RunSnoc(run, s');
    SendersSnoc(run, s', k);
    assert (run + [s'])[|run|] == s';
  }

  lemma SendersSnoc(run: seq<State>, s': State, k: int)
    requires (forall x: State :: x in run ==> SendersAtMost(x, k)) && Total(s'.writers, BySender) <= k
    ensures forall x: State :: x in run + [s'] ==> SendersAtMost(x, k)
  {
    forall x: State | x in run + [s'] ensures SendersAtMost(x, k) { assert x in run || x == s'; }
  }

  lemma RunSnoc(run: seq<State>, s': State)
    requires IsRun(run) && Next(run[|run| - 1], s')
    ensures IsRun(run + [s'])
  {
    var run' := run + [s'];
    forall i, j | 0 <= i < j < |run'| && j == i + 1 ensures Next(run'[i], run'[j]) {
      if j < |run| { assert Next(run[i], run[j]); }
    }
  }

  /** Fetching `got` bytes and starting to send all of them. */
  function Started(w: Writer, got: nat): Writer
    requires w.pos + got <= |w.body|
  {
    var chunk := w.body[w.pos..w.pos + got];
    w.(chunk := chunk, pos := w.pos + got, sentFromChunk := 0, phase := Sending(got),
    sent := w.sent + [DataFrame(chunk, false)])
  }

  function Fetched(w: Writer, got: nat): Writer
    requires w.pos + got <= |w.body|
  {
    w.(chunk := w.body[w.pos..w.pos + got], pos := w.pos + got, sentFromChunk := 0, phase := Check)
  }

  lemma ReachFetched(s: State, i: nat, w: Writer, got: nat, k: int)
    requires Reachable(s, k) && i < |s.writers| && s.writers[i] == w && Total(s.writers, BySender) <= k
    requires w.phase == Fetch && w.remaining >= got && 1 <= got <= CHUNK && w.pos + got <= |w.body|
    ensures Reachable(Put(s, i, Fetched(w, got)), k)
    ensures Total(Put(s, i, Fetched(w, got)).writers, BySender) == Total(s.writers, BySender)
  {
    var s1 := Put(s, i, Fetched(w, got));
    assert FetchStep(w, Fetched(w, got), got) && WriterStep(s, s1, i);
    TotalUpdate(s.writers, i, Fetched(w, got), BySender);
    ReachNext(s, s1, k);
  }

  lemma ReachStarted(s: State, w: Writer, got: nat, k: int)
    requires Reachable(s, k) && |s.writers| >= 1 && s.writers[|s.writers| - 1] == w && s.maxFrame == CHUNK
    requires w.phase == Fetch && w.remaining >= got && 1 <= got <= CHUNK && w.pos + got <= |w.body|
    requires got <= s.conn && got <= w.sendWindow && Total(s.writers, BySender) + 1 <= k
    ensures Reachable(Put(s, |s.writers| - 1, Started(w, got)), k)
    ensures Total(Put(s, |s.writers| - 1, Started(w, got)).writers, BySender) == Total(s.writers, BySender) + 1
  {
    var i := |s.writers| - 1;
    var w1 := Fetched(w, got);
    ReachFetched(s, i, w, got, k);
    var s1, s2 := Put(s, i, w1), Put(s, i, Started(w, got));
    assert w1.chunk[0..got] == w1.chunk && s2 == Put(s1, i, Started(w, got));
    assert CheckStep(s1, w1, Started(w, got));
    assert WriterStep(s1, s2, i);
    TotalUpdate(s.writers, i, Started(w, got), BySender);
    ReachNext(s1, s2, k);
  }

  lemma ReachDebited(s: State, w: Writer, k: int)
    requires Reachable(s, k) && |s.writers| >= 1 && s.writers[|s.writers| - 1] == w && w.phase.Sending?
    requires Total(s.writers, BySender) <= k
    ensures Reachable(Put(s, |s.writers| - 1, Debited(w, w.phase.n)).(conn := s.conn - w.phase.n), k)
  {
    var i := |s.writers| - 1;
    var s1 := Put(s, i, Debited(w, w.phase.n)).(conn := s.conn - w.phase.n);
    assert WriterStep(s, s1, i);
    TotalUpdate(s.writers, i, Debited(w, w.phase.n), BySender);
    ReachNext(s, s1, k);
  }

  function Zeros(n: nat): (z: seq<byte>)
    ensures |z| == n
  {
    seq(n, i => 0)
  }

  /** A first response, of 49151 bytes, after its first `sent` bytes. */
  function First(sent: nat, payloads: seq<DataFrame>): Writer {
    Writer(Zeros(49151), 49151, 49151 - sent, sent, [], 0, Fetch, 65535 - sent, true, payloads, 65535, 0, 0, 0)
  }

  function Alone(sent: nat, payloads: seq<DataFrame>): State {
    State(65535 - sent, CHUNK, [First(sent, payloads)], [], 65535)
  }

  lemma ReachAlone(sent: nat, payloads: seq<DataFrame>, got: nat, k: int) returns (more: seq<DataFrame>)
    requires k >= 1 && Reachable(Alone(sent, payloads), k) && 1 <= got <= CHUNK && sent + got <= 49151
    ensures Reachable(Alone(sent + got, more), k) && |Join(more)| == |Join(payloads)| + got
  {
    var s, w := Alone(sent, payloads), First(sent, payloads);
    more := payloads + [DataFrame(w.body[sent..sent + got], false)];
    assert more[..|payloads|] == payloads;
    assert Sum(s.writers, BySender, 1) == Sum(s.writers, BySender, 0) == 0;
    ReachStarted(s, w, got, k);
    ReachDebited(Put(s, 0, Started(w, got)), Started(w, got), k);
    AloneStep(sent, payloads, got);
  }

  lemma AloneStep(sent: nat, payloads: seq<DataFrame>, got: nat)
    requires 1 <= got <= CHUNK && sent + got <= 49151
    ensures var s, w := Alone(sent, payloads), First(sent, payloads);
            var s1 := Put(s, 0, Started(w, got));
            Put(s1, 0, Debited(Started(w, got), got)).(conn := s1.conn - got)
            == Alone(sent + got, payloads + [DataFrame(w.body[sent..sent + got], false)])
  {
  }

  /** The connection window is down to 16384 bytes, and j writers are each sending that much. */
  function Crowded(payloads: seq<DataFrame>, j: nat): State {
    State(CHUNK, CHUNK,
          [First(49151, payloads)] + seq(j, i => Started(NewWriter(Zeros(CHUNK), CHUNK, 65535), CHUNK)), [], 65535)
  }

  lemma StartedCommitted(w: Writer, got: nat)
    requires w.pos + got <= |w.body|
    ensures Committed(Started(w, got)) == Committed(w) + got
  {
    assert Started(w, got).sent[..|w.sent|] == w.sent;
  }

  lemma {:induction false} CrowdedTotals(payloads: seq<DataFrame>, j: nat)
    requires |Join(payloads)| == 49151
    ensures Total(Crowded(payloads, j).writers, BySender) == j
    ensures Total(Crowded(payloads, j).writers, ByCommitted) == 49151 + j * CHUNK
  {
    var ws := Crowded(payloads, j).writers;
    var w := Started(NewWriter(Zeros(CHUNK), CHUNK, 65535), CHUNK);
    if j == 0 {
      assert ws == [] + [First(49151, payloads)];
      TotalAppend([], First(49151, payloads), BySender);
      TotalAppend([], First(49151, payloads), ByCommitted);
    } else {
      CrowdedTotals(payloads, j - 1);
      assert ws == Crowded(payloads, j - 1).writers + [w];
      TotalAppend(Crowded(payloads, j - 1).writers, w, BySender);
      TotalAppend(Crowded(payloads, j - 1).writers, w, ByCommitted);
      StartedCommitted(NewWriter(Zeros(CHUNK), CHUNK, 65535), CHUNK);
    }
  }

  lemma {:induction false} ReachCrowded(payloads: seq<DataFrame>, j: nat, k: int)
    requires |Join(payloads)| == 49151 && Reachable(Crowded(payloads, 0), k) && j <= k
    ensures Reachable(Crowded(payloads, j), k)
  {
    if j == 0 {
    } else {
      ReachCrowded(payloads, j - 1, k);
      CrowdedTotals(payloads, j - 1);
      var s, w := Crowded(payloads, j - 1), NewWriter(Zeros(CHUNK), CHUNK, 65535);
      var s1 := s.(writers := s.writers + [w]);
      assert Open(s, s1);
      TotalAppend(s.writers, w, BySender);
      ReachNext(s, s1, k);
      ReachStarted(s1, w, CHUNK, k);
      CrowdedStep(payloads, j);
    }
  }

  lemma CrowdedStep(payloads: seq<DataFrame>, j: nat)
    requires j > 0
    ensures var s, w := Crowded(payloads, j - 1), NewWriter(Zeros(CHUNK), CHUNK, 65535);
            Put(s.(writers := s.writers + [w]), |s.writers|, Started(w, CHUNK)) == Crowded(payloads, j)
  {
  }

  /** A first response leaves 16384 bytes of the connection window. */
  lemma ReachFirst(k: nat) returns (payloads: seq<DataFrame>)
    requires k >= 1
    ensures Reachable(Crowded(payloads, 0), k) && |Join(payloads)| == 49151
  {
    var s0 := State(65535, CHUNK, [], [], 65535);
    ReachInit(s0, k);
    assert Open(s0, Alone(0, [])) by {
      assert Alone(0, []) == s0.(writers := s0.writers + [NewWriter(Zeros(49151), 49151, 65535)]);
    }
    assert Total(Alone(0, []).writers, BySender) == 0;
    ReachNext(s0, Alone(0, []), k);
    var a := ReachAlone(0, [], CHUNK, k);
    var b := ReachAlone(CHUNK, a, CHUNK, k);
    payloads := ReachAlone(2 * CHUNK, b, CHUNK - 1, k);
    assert Alone(49151, payloads) == Crowded(payloads, 0);
  }

  /** The bound is exact for every number of writers: with k of them the connection window can be
      overrun by (k - 1) * 16384 bytes. In particular it holds as a limit if and only if no two
      writers ever await a send at the same time. */
  lemma OvershootBoundIsReached(k: nat) returns (s: State)
    requires k >= 1
    ensures Reachable(s, k) && Overshoot(s) == (k - 1) * CHUNK
  {
    var c := ReachFirst(k);
    ReachCrowded(c, k, k);
    CrowdedTotals(c, k);
    s := Crowded(c, k);
  }

  // ------------------------------------------------- asleep although both windows are open

  /** Opening a stream. */
  lemma ReachOpened(s: State, w: Writer, k: int)
    requires Reachable(s, k) && IsNew(w) && Total(s.writers, BySender) <= k
    ensures Reachable(s.(writers := s.writers + [w]), k)
    ensures Total((s.writers + [w]), BySender) == Total(s.writers, BySender)
  {
    var s1 := s.(writers := s.writers + [w]);
    assert Open(s, s1);
    TotalAppend(s.writers, w, BySender);
    ReachNext(s, s1, k);
  }

  function ParkedWriter(w: Writer): Writer { w.(phase := Parked, parks := w.parks + 1) }

  lemma ReachParked(s: State, w: Writer, k: int)
    requires Reachable(s, k) && |s.writers| >= 1 && s.writers[|s.writers| - 1] == w && Total(s.writers, BySender) <= k
    requires w.phase == Check && w.sentFromChunk <= |w.chunk| && (w.sendWindow <= 0 || s.conn <= 0)
    ensures Reachable(Put(s, |s.writers| - 1, ParkedWriter(w)), k)
    ensures Total(Put(s, |s.writers| - 1, ParkedWriter(w)).writers, BySender) == Total(s.writers, BySender)
  {
    var i := |s.writers| - 1;
    var s1 := Put(s, i, ParkedWriter(w));
    assert CheckStep(s, w, ParkedWriter(w)) && WriterStep(s, s1, i);
    TotalUpdate(s.writers, i, ParkedWriter(w), BySender);
    ReachNext(s, s1, k);
  }

  lemma ReachReset(s: State, i: nat, k: int)
    requires Reachable(s, k) && s.resuming == [] && i < |s.writers| && Total(s.writers, BySender) <= k
    ensures Reachable(Put(s, i, s.writers[i].(registered := false)), k)
    ensures Total(Put(s, i, s.writers[i].(registered := false)).writers, BySender) == Total(s.writers, BySender)
  {
    var s1 := Put(s, i, s.writers[i].(registered := false));
    assert Reset(s, s1, i) && LoopStep(s, s1);
    TotalUpdate(s.writers, i, s1.writers[i], BySender);
    ReachNext(s, s1, k);
  }

  /** Credit for the connection wakes nobody if no registered stream is parked. */
  lemma ReachCredited(s: State, n: nat, k: int)
    requires Reachable(s, k) && s.resuming == [] && n > 0 && Total(s.writers, BySender) <= k
    requires forall i :: 0 <= i < |s.writers| ==> !Wakes(s.writers[i])
    ensures Reachable(s.(conn := s.conn + n, credit := s.credit + n), k)
  {
    var s1 := s.(conn := s.conn + n, credit := s.credit + n);
    assert s1.writers == seq(|s.writers|, i requires 0 <= i < |s.writers| =>
                           if Wakes(s.writers[i]) then s.writers[i].(phase := Detached) else s.writers[i]);
    assert ConnUpdate(s, s1, n, []) && LoopStep(s, s1);
    ReachNext(s, s1, k);
  }

  /** All of the connection window is used up. */
  lemma ReachUsedUp() returns (s: State)
    ensures Reachable(s, 1) && s.conn == 0 && s.resuming == [] && Total(s.writers, BySender) == 0
    ensures |s.writers| == 2 && s.writers[0].phase.Fetch? && s.writers[1].phase.Fetch?
  {
    var c := ReachFirst(1);
    ReachCrowded(c, 1, 1);
    CrowdedTotals(c, 1);
    var w := Started(NewWriter(Zeros(CHUNK), CHUNK, 65535), CHUNK);
    ReachDebited(Crowded(c, 1), w, 1);
    s := Put(Crowded(c, 1), 1, Debited(w, CHUNK)).(conn := 0);
    TotalUpdate(Crowded(c, 1).writers, 1, Debited(w, CHUNK), BySender);
  }

  /** A writer with an open window of its own is opened and parks, waiting for the connection's. */
  lemma ReachSleeper(s: State) returns (w: Writer)
    requires Reachable(s, 1) && s.conn <= 0 && Total(s.writers, BySender) <= 1
    ensures Reachable(s.(writers := s.writers + [w]), 1) && w.phase.Parked? && w.sendWindow > 0
    ensures Total(s.writers + [w], BySender) == Total(s.writers, BySender)
  {
    var v := NewWriter(Zeros(1), 1, 65535);
    ReachOpened(s, v, 1);
    SleeperParks(s, v);
    w := ParkedWriter(Fetched(v, 1));
  }

  lemma SleeperParks(s: State, w: Writer)
    requires w == NewWriter(w.body, 1, 65535) && |w.body| == 1 && s.conn <= 0 && Total(s.writers + [w], BySender) <= 1
    requires Reachable(s.(writers := s.writers + [w]), 1)
    ensures Reachable(s.(writers := s.writers + [ParkedWriter(Fetched(w, 1))]), 1)
    ensures Total(s.writers + [ParkedWriter(Fetched(w, 1))], BySender) == Total(s.writers + [w], BySender)
  {
    var n := |s.writers|;
    var s1 := s.(writers := s.writers + [w]);
    ReachFetched(s1, n, w, 1, 1);
    var s2 := s.(writers := s.writers + [Fetched(w, 1)]);
    assert s2 == Put(s1, n, Fetched(w, 1));
    ReachParked(s2, Fetched(w, 1), 1);
    assert s.writers + [ParkedWriter(Fetched(w, 1))] == s2.writers[n := ParkedWriter(Fetched(w, 1))];
  }

  lemma ReachOrphan(s: State)
    requires Reachable(s, 1) && s.resuming == [] && s.conn == 0 && |s.writers| == 3 && Total(s.writers, BySender) <= 1
    requires s.writers[0].phase.Fetch? && s.writers[1].phase.Fetch?
    ensures Reachable(Put(s, 2, s.writers[2].(registered := false)).(conn := 1, credit := s.credit + 1), 1)
  {
    ReachReset(s, 2, 1);
    ReachCredited(Put(s, 2, s.writers[2].(registered := false)), 1, 1);
  }

  /** The exception occurs: a stream is opened and parked while the connection window is used up,
      then reset, and the window opens again. */
  lemma ResetWriterSleepsOnOpenWindows() returns (s: State)
    ensures Reachable(s, 1) && Orphan(s, 2) && s.writers[2].sendWindow > 0 && s.conn > 0
  {
    var s0 := ReachUsedUp();
    var w := ReachSleeper(s0);
    var s1 := s0.(writers := s0.writers + [w]);
    ReachOrphan(s1);
    s := Put(s1, 2, w.(registered := false)).(conn := 1, credit := s1.credit + 1);
  }
}
