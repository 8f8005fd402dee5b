/** Dmitry Vyukov's bounded multi-producer/multi-consumer ring, as used for the job
    queue of the thread pool, modelled as an interleaving transition system: every
    atomic access (position load, sequence load, compare-and-swap, value move, sequence
    store) of every thread is one step.

    Assumptions: sequential consistency, and positions that never wrap.
 */
module MpmcQueue {
  import opened Arithmetic

  datatype Cell<T> = Cell(sequence: nat, value: T)

  /** Where one thread stands inside `try_push` or `try_pop`. */
  datatype Thread<T> =
    | Idle
    | PushLoad(item: T)                 // about to load enqueue_pos_
    | PushCheck(item: T, pos: nat)      // about to load the sequence of pos's cell
    | PushCas(item: T, pos: nat)        // saw sequence == pos, about to compare-and-swap
    | PushWrite(item: T, pos: nat)      // owns ticket pos, about to move the value in
    | PushPublish(item: T, pos: nat)    // about to store the sequence
    | PushDone(pos: nat)                // try_push returned true
    | PushFull                          // try_push returned false
    | PopLoad
    | PopCheck(pos: nat)
    | PopCas(pos: nat)
    | PopRead(pos: nat)                 // owns ticket pos, about to move the value out
    | PopRelease(pos: nat, out: T)      // about to store the sequence
    | PopDone(pos: nat, out: T)         // try_pop returned true
    | PopEmpty                          // try_pop returned false
  {
    predicate Owns() { PushWrite? || PushPublish? || PopRead? || PopRelease? }

    predicate AtRest() { Idle? || PushDone? || PushFull? || PopDone? || PopEmpty? }

    /** The thread won ticket p for pushing and has not published it yet. */
    predicate Pushes(p: int) { (PushWrite? || PushPublish?) && pos == p }

    /** The thread won ticket p for popping and has not released its cell yet. */
    predicate Pops(p: int) { (PopRead? || PopRelease?) && pos == p }
  }

  /** `pushed` and `popped` are history: the value of every push ticket in ticket order,
      and what the finished pop of each ticket returned. No step reads them. */
  datatype State<T> = State(
    capacity: nat,
    cells: seq<Cell<T>>,
    enqueuePos: nat,
    dequeuePos: nat,
    threads: seq<Thread<T>>,
    pushed: seq<T>,
    popped: map<nat, T>)

  // ---------------------------------------------------------------- slot index

  /** Bitwise and, as in `pos & mask_`. */
  function BitAnd(a: nat, b: nat): nat {
    if a == 0 || b == 0 then 0
    else (if a % 2 == 1 && b % 2 == 1 then 1 else 0) + 2 * BitAnd(a / 2, b / 2)
  }

  ghost predicate IsPowerOfTwo(n: int) { exists k: nat :: n == Pow2(k) }

  lemma {:induction false} MaskIsModulo(pos: nat, k: nat)
    ensures BitAnd(pos, Pow2(k) - 1) == pos % Pow2(k)
  {
    if k == 0 {
      assert pos % 1 == 0;
    } else {
      MaskIsModulo(pos / 2, k - 1);
      MaskDouble(pos, Pow2(k - 1));
    }
  }

  lemma MaskDouble(pos: nat, half: nat)
    requires half >= 1 && BitAnd(pos / 2, half - 1) == pos / 2 % half
    ensures BitAnd(pos, 2 * half - 1) == pos % (2 * half)
  {
    ModDouble(pos, half);
    MaskStep(pos, half);
  }

  lemma MaskStep(pos: nat, half: nat)
    requires half >= 1
    ensures BitAnd(pos, 2 * half - 1) == pos % 2 + 2 * BitAnd(pos / 2, half - 1)
  {
    assert (2 * half - 1) / 2 == half - 1 && (2 * half - 1) % 2 == 1;
  }

  /** The cell a position falls into; for a power-of-two capacity, position modulo capacity. */
  function Slot(pos: nat, capacity: nat): (i: nat)
    requires IsPowerOfTwo(capacity)
    ensures i < capacity
  {
    MaskBound(pos, capacity);
    BitAnd(pos, capacity - 1)
  }

  lemma MaskBound(pos: nat, capacity: nat)
    requires IsPowerOfTwo(capacity)
    ensures capacity >= 1 && BitAnd(pos, capacity - 1) == pos % capacity < capacity
  {
    var k: nat :| capacity == Pow2(k);
    MaskIsModulo(pos, k);
  }

  lemma SlotIsModulo(pos: nat, capacity: nat)
    requires IsPowerOfTwo(capacity)
    ensures Slot(pos, capacity) == pos % capacity
  {
    MaskBound(pos, capacity);
  }

  lemma SlotOfFirstLap(pos: nat, capacity: nat)
    requires IsPowerOfTwo(capacity) && pos < capacity
    ensures Slot(pos, capacity) == pos
  {
    SlotIsModulo(pos, capacity);
    DivModUnique(pos, capacity, 0, pos);
  }

  lemma SlotGap(a: nat, b: nat, capacity: nat)
    requires IsPowerOfTwo(capacity) && Slot(a, capacity) == Slot(b, capacity) && a < b
    ensures a + capacity <= b
  {
    SlotIsModulo(a, capacity);
    SlotIsModulo(b, capacity);
    SameRemainderGap(a, b, capacity);
  }

  lemma SlotNext(a: nat, capacity: nat)
    requires IsPowerOfTwo(capacity)
    ensures Slot(a + capacity, capacity) == Slot(a, capacity)
    ensures capacity >= 2 ==> Slot(a + 1, capacity) != Slot(a, capacity)
  {
    SlotIsModulo(a, capacity);
    SlotIsModulo(a + 1, capacity);
    SlotIsModulo(a + capacity, capacity);
    NextPeriod(a, capacity);
  }

  // --------------------------------------------------------------- transitions

  ghost predicate Init<T>(s: State<T>) {
    && IsPowerOfTwo(s.capacity)
    && |s.cells| == s.capacity
    && (forall i :: 0 <= i < s.capacity ==> s.cells[i].sequence == i)
    && s.enqueuePos == 0 && s.dequeuePos == 0
    && (forall t :: 0 <= t < |s.threads| ==> s.threads[t] == Idle)
    && s.pushed == [] && s.popped == map[]
  }

  function Goto<T>(s: State<T>, t: nat, th: Thread<T>): State<T>
    requires t < |s.threads|
  {
    s.(threads := s.threads[t := th])
  }

  ghost predicate WellSized<T>(s: State<T>) {
    IsPowerOfTwo(s.capacity) && |s.cells| == s.capacity
  }

  function SeqAt<T>(s: State<T>, pos: nat): nat
    requires WellSized(s)
  {
    s.cells[Slot(pos, s.capacity)].sequence
  }

  function SetCell<T>(s: State<T>, pos: nat, c: Cell<T>): State<T>
    requires WellSized(s)
  {
    s.(cells := s.cells[Slot(pos, s.capacity) := c])
  }

  function CellAt<T>(s: State<T>, pos: nat): Cell<T>
    requires WellSized(s)
  {
    s.cells[Slot(pos, s.capacity)]
  }

  /** One step of a thread that is inside `try_push` (or starting it). */
  ghost predicate PushStep<T(!new)>(s: State<T>, s': State<T>, t: nat)
    requires WellSized(s) && t < |s.threads|
  {
    match s.threads[t]
    case PushLoad(v) =>
      s' == Goto(s, t, PushCheck(v, s.enqueuePos))
    case PushCheck(v, pos) =>
      var seen := SeqAt(s, pos);
      if seen == pos then s' == Goto(s, t, PushCas(v, pos))
      else if seen < pos then s' == Goto(s, t, PushFull)
      else s' == Goto(s, t, PushLoad(v))
    case PushCas(v, pos) =>
      // a weak compare-and-swap may fail although the values agree
      || s' == Goto(s, t, PushCheck(v, s.enqueuePos))
      || (s.enqueuePos == pos
          && s' == Goto(s, t, PushWrite(v, pos)).(enqueuePos := pos + 1, pushed := s.pushed + [v]))
    case PushWrite(v, pos) =>
      s' == Goto(SetCell(s, pos, CellAt(s, pos).(value := v)), t, PushPublish(v, pos))
    case PushPublish(v, pos) =>
      s' == Goto(SetCell(s, pos, CellAt(s, pos).(sequence := pos + 1)), t, PushDone(pos))
    case _ =>
      s.threads[t].AtRest() && exists v :: s' == Goto(s, t, PushLoad(v))
  }

  /** One step of a thread that is inside `try_pop` (or starting it). */
  ghost predicate PopStep<T(!new)>(s: State<T>, s': State<T>, t: nat)
    requires WellSized(s) && t < |s.threads|
  {
    match s.threads[t]
    case PopLoad =>
      s' == Goto(s, t, PopCheck(s.dequeuePos))
    case PopCheck(pos) =>
      var seen := SeqAt(s, pos);
      if seen == pos + 1 then s' == Goto(s, t, PopCas(pos))
      else if seen < pos + 1 then s' == Goto(s, t, PopEmpty)
      else s' == Goto(s, t, PopLoad)
    case PopCas(pos) =>
      || s' == Goto(s, t, PopCheck(s.dequeuePos))
      || (s.dequeuePos == pos && s' == Goto(s, t, PopRead(pos)).(dequeuePos := pos + 1))
    case PopRead(pos) =>
      // moving the value out leaves an unspecified value behind
      exists junk :: s' ==
                     Goto(SetCell(s, pos, CellAt(s, pos).(value := junk)), t, PopRelease(pos, CellAt(s, pos).value))
    case PopRelease(pos, out) =>
      s' == Goto(SetCell(s, pos, CellAt(s, pos).(sequence := pos + s.capacity)), t, PopDone(pos, out))
      .(popped := s.popped[pos := out])
    case _ =>
      s.threads[t].AtRest() && s' == Goto(s, t, PopLoad)
  }

  ghost predicate Step<T(!new)>(s: State<T>, s': State<T>, t: nat) {
    WellSized(s) && t < |s.threads| && (PushStep(s, s', t) || PopStep(s, s', t))
  }

  ghost predicate Next<T(!new)>(s: State<T>, s': State<T>) { exists t: nat :: Step(s, s', t) }

  ghost predicate IsRun<T(!new)>(run: seq<State<T>>) {
    && |run| >= 1 && Init(run[0])
    && forall i, j :: 0 <= i < j < |run| && j == i + 1 ==> Next(run[i], run[j])
  }

  // ---------------------------------------------------------------- invariant

  /** The ticket whose life cycle cell i is in: free for it, or holding its value. */
  function TicketOf<T>(s: State<T>, i: nat): int
    requires i < |s.cells| && IsPowerOfTwo(s.capacity)
  {
    if Slot(s.cells[i].sequence, s.capacity) == i then s.cells[i].sequence else s.cells[i].sequence - 1
  }

  ghost predicate CellInv<T>(s: State<T>, i: nat)
    requires i < |s.cells| && IsPowerOfTwo(s.capacity) && |s.pushed| == s.enqueuePos
  {
    var c := TicketOf(s, i);
    && c >= 0 && Slot(c, s.capacity) == i
    && c < s.dequeuePos + s.capacity
    && s.enqueuePos <= c + s.capacity
    && (s.cells[i].sequence == c ==>
          s.dequeuePos <= c && (c < s.enqueuePos ==> exists t :: 0 <= t < |s.threads| && s.threads[t].Pushes(c)))
    && (s.cells[i].sequence != c ==>
          && c < s.enqueuePos
          && (c < s.dequeuePos ==> exists t :: 0 <= t < |s.threads| && s.threads[t].Pops(c))
          && (s.dequeuePos <= c ==> s.cells[i].value == s.pushed[c]))
  }

  ghost predicate ThreadInv<T>(s: State<T>, th: Thread<T>)
    requires WellSized(s) && |s.pushed| == s.enqueuePos && s.dequeuePos <= s.enqueuePos
  {
    match th
    case PushCheck(_, pos) => pos <= s.enqueuePos
    case PushCas(_, pos) => pos <= s.enqueuePos && pos <= SeqAt(s, pos)
    case PushWrite(v, pos) => pos < s.enqueuePos && SeqAt(s, pos) == pos && s.pushed[pos] == v
    case PushPublish(v, pos) =>
      pos < s.enqueuePos && SeqAt(s, pos) == pos && s.pushed[pos] == v && CellAt(s, pos).value == v
    case PushDone(pos) => pos < s.enqueuePos && pos < SeqAt(s, pos)
    case PopCheck(pos) => pos <= s.dequeuePos
    case PopCas(pos) => pos <= s.dequeuePos && pos + 1 <= SeqAt(s, pos)
    case PopRead(pos) =>
      pos < s.dequeuePos && SeqAt(s, pos) == pos + 1 && CellAt(s, pos).value == s.pushed[pos] && pos !in s.popped
    case PopRelease(pos, out) =>
      pos < s.dequeuePos && SeqAt(s, pos) == pos + 1 && out == s.pushed[pos] && pos !in s.popped
    case PopDone(pos, out) => pos in s.popped && s.popped[pos] == out
    case _ => true
  }

  /** No ticket has two owners. */
  ghost predicate OwnersUnique<T>(s: State<T>) {
    forall t, u, p :: 0 <= t < u < |s.threads| ==>
                        && !(s.threads[t].Pushes(p) && s.threads[u].Pushes(p))
                        && !(s.threads[t].Pops(p) && s.threads[u].Pops(p))
  }

  /** A claimed pop ticket either has its result recorded or is in the hands of a thread. */
  ghost predicate PopAccounted<T>(s: State<T>, p: nat)
    requires |s.pushed| == s.enqueuePos && s.dequeuePos <= s.enqueuePos
  {
    && (p in s.popped ==> p < s.dequeuePos && s.popped[p] == s.pushed[p])
    && (p < s.dequeuePos && p !in s.popped ==> exists t :: 0 <= t < |s.threads| && s.threads[t].Pops(p))
  }

  ghost predicate Inv<T>(s: State<T>) {
    && WellSized(s) && s.capacity >= 2
    && |s.pushed| == s.enqueuePos && s.dequeuePos <= s.enqueuePos
    && (forall i :: 0 <= i < s.capacity ==> CellInv(s, i))
    && (forall t :: 0 <= t < |s.threads| ==> ThreadInv(s, s.threads[t]))
    && OwnersUnique(s)
    && (forall p: nat :: PopAccounted(s, p))
  }

  lemma InitInv<T>(s: State<T>)
    requires Init(s) && s.capacity >= 2
    ensures Inv(s)
  {
    forall i | 0 <= i < s.capacity ensures CellInv(s, i) {
      SlotOfFirstLap(i, s.capacity);
    }
  }

  /** Owners other than the stepping thread are still owners. */
  lemma KeepOwners<T>(s: State<T>, s': State<T>, t: nat, p: int)
    requires t < |s.threads| == |s'.threads|
    requires forall u :: 0 <= u < |s.threads| && u != t ==> s'.threads[u] == s.threads[u]
    requires s.threads[t].Pushes(p) ==> s'.threads[t].Pushes(p)
    requires s.threads[t].Pops(p) ==> s'.threads[t].Pops(p)
    ensures (exists u :: 0 <= u < |s.threads| && s.threads[u].Pushes(p)) ==>
              exists u :: 0 <= u < |s'.threads| && s'.threads[u].Pushes(p)
    ensures (exists u :: 0 <= u < |s.threads| && s.threads[u].Pops(p)) ==>
              exists u :: 0 <= u < |s'.threads| && s'.threads[u].Pops(p)
  {
    if u :| 0 <= u < |s.threads| && s.threads[u].Pushes(p) { assert s'.threads[u].Pushes(p); }
    if u :| 0 <= u < |s.threads| && s.threads[u].Pops(p) { assert s'.threads[u].Pops(p); }
  }

  /** A cell that a step does not touch, and whose ticket keeps its owners. */
  lemma KeptCell<T>(s: State<T>, s': State<T>, t: nat, i: nat)
    requires WellSized(s) && |s.pushed| == s.enqueuePos && i < s.capacity && CellInv(s, i)
    requires s'.capacity == s.capacity && |s'.cells| == |s.cells| && s'.cells[i] == s.cells[i]
    requires s'.enqueuePos == s.enqueuePos && s'.dequeuePos == s.dequeuePos && s'.pushed == s.pushed
    requires t < |s.threads| == |s'.threads|
    requires forall u :: 0 <= u < |s.threads| && u != t ==> s'.threads[u] == s.threads[u]
    requires s.threads[t].Pushes(TicketOf(s, i)) ==> s'.threads[t].Pushes(TicketOf(s, i))
    requires s.threads[t].Pops(TicketOf(s, i)) ==> s'.threads[t].Pops(TicketOf(s, i))
    ensures CellInv(s', i)
  {
    KeepOwners(s, s', t, TicketOf(s, i));
  }

  /** A step that changes only which non-owning state the thread is in. */
  lemma GotoInv<T>(s: State<T>, t: nat, th: Thread<T>)
    requires Inv(s) && t < |s.threads| && ThreadInv(s, th)
    requires !s.threads[t].Owns() && !th.Owns()
    ensures Inv(Goto(s, t, th))
  {
    var s' := Goto(s, t, th);
    forall i | 0 <= i < s.capacity ensures CellInv(s', i) {
      assert CellInv(s, i);
      KeptCell(s, s', t, i);
    }
    forall p: nat ensures PopAccounted(s', p) {
      assert PopAccounted(s, p);
      KeepOwners(s, s', t, p);
    }
    forall u | 0 <= u < |s'.threads| ensures ThreadInv(s', s'.threads[u]) {
      assert u != t ==> ThreadInv(s, s.threads[u]);
    }
    StillUnique(s, s', t);
  }

  /** A successful compare-and-swap finds the cell of the tail ticket free for it. */
  lemma TailCellFree<T>(s: State<T>, pos: nat)
    requires Inv(s) && pos == s.enqueuePos && pos <= SeqAt(s, pos)
    ensures SeqAt(s, pos) == pos
  {
    var i := Slot(pos, s.capacity);
    assert CellInv(s, i);
    var c := TicketOf(s, i);
    SlotNext(pos, s.capacity);
    if c < pos { SlotGap(c, pos, s.capacity); }
    if pos < c { SlotGap(pos, c, s.capacity); }
  }

  /** A successful compare-and-swap finds the cell of the head ticket full. */
  lemma HeadCellFull<T>(s: State<T>, pos: nat)
    requires Inv(s) && pos == s.dequeuePos && pos + 1 <= SeqAt(s, pos)
    ensures SeqAt(s, pos) == pos + 1 && pos < s.enqueuePos && CellAt(s, pos).value == s.pushed[pos]
  {
    var i := Slot(pos, s.capacity);
    assert CellInv(s, i);
    var c := TicketOf(s, i);
    SlotNext(pos, s.capacity);
    if pos < c { SlotGap(pos, c, s.capacity); }
  }

  lemma ClaimPushCell<T>(s: State<T>, s': State<T>, t: nat, v: T, pos: nat, i: nat)
    requires WellSized(s) && |s.pushed| == s.enqueuePos && i < s.capacity && CellInv(s, i) && s.capacity >= 2
    requires t < |s.threads| && s.threads[t] == PushCas(v, pos) && pos == s.enqueuePos && SeqAt(s, pos) == pos
    requires s' == Goto(s, t, PushWrite(v, pos)).(enqueuePos := pos + 1, pushed := s.pushed + [v])
    ensures CellInv(s', i)
  {
    var c := TicketOf(s, i);
    SlotNext(c, s.capacity);
    KeepOwners(s, s', t, c);
    assert s'.threads[t].Pushes(pos);
  }

  lemma ClaimPushInv<T>(s: State<T>, t: nat, v: T, pos: nat)
    requires Inv(s) && t < |s.threads| && s.threads[t] == PushCas(v, pos) && pos == s.enqueuePos
    ensures Inv(Goto(s, t, PushWrite(v, pos)).(enqueuePos := pos + 1, pushed := s.pushed + [v]))
  {
    var s' := Goto(s, t, PushWrite(v, pos)).(enqueuePos := pos + 1, pushed := s.pushed + [v]);
    assert ThreadInv(s, s.threads[t]);
    TailCellFree(s, pos);
    forall i | 0 <= i < s.capacity ensures CellInv(s', i) {
      assert CellInv(s, i);
      ClaimPushCell(s, s', t, v, pos, i);
    }
    forall p: nat ensures PopAccounted(s', p) {
      assert PopAccounted(s, p);
      KeepOwners(s, s', t, p);
    }
    forall u | 0 <= u < |s'.threads| ensures ThreadInv(s', s'.threads[u]) {
      assert ThreadInv(s, s.threads[u]);
    }
    StillUnique(s, s', t);
  }

  lemma StillUnique<T>(s: State<T>, s': State<T>, t: nat)
    requires t < |s.threads| == |s'.threads| && OwnersUnique(s)
    requires forall u :: 0 <= u < |s.threads| && u != t ==> s'.threads[u] == s.threads[u]
    requires forall u, p :: 0 <= u < |s.threads| && u != t && s.threads[u].Pushes(p) ==>
                              s'.threads[t].Pushes(p) ==> s.threads[t].Pushes(p)
    requires forall u, p :: 0 <= u < |s.threads| && u != t && s.threads[u].Pops(p) ==>
                              s'.threads[t].Pops(p) ==> s.threads[t].Pops(p)
    ensures OwnersUnique(s')
  {
    forall u, w, p | 0 <= u < w < |s'.threads|
      ensures !(s'.threads[u].Pushes(p) && s'.threads[w].Pushes(p)) && !(s'.threads[u].Pops(p) && s'.threads[w].Pops(p))
    {
      assert !(s.threads[u].Pushes(p) && s.threads[w].Pushes(p));
      assert !(s.threads[u].Pops(p) && s.threads[w].Pops(p));
    }
  }

  lemma WriteInv<T>(s: State<T>, t: nat, v: T, pos: nat)
    requires Inv(s) && t < |s.threads| && s.threads[t] == PushWrite(v, pos)
    ensures Inv(Goto(SetCell(s, pos, CellAt(s, pos).(value := v)), t, PushPublish(v, pos)))
  {
    var s' := Goto(SetCell(s, pos, CellAt(s, pos).(value := v)), t, PushPublish(v, pos));
    assert ThreadInv(s, s.threads[t]);
    forall i | 0 <= i < s.capacity ensures CellInv(s', i) {
      assert CellInv(s, i);
      if i == Slot(pos, s.capacity) { KeepOwners(s, s', t, TicketOf(s, i)); } else { KeptCell(s, s', t, i); }
    }
    forall p: nat ensures PopAccounted(s', p) {
      assert PopAccounted(s, p);
      KeepOwners(s, s', t, p);
    }
    forall u | 0 <= u < |s'.threads| ensures ThreadInv(s', s'.threads[u]) {
      OthersKeepCell(s, t, u, pos);
    }
    StillUnique(s, s', t);
  }

  /** No other owner uses the cell of a ticket the stepping thread owns. */
  lemma OthersKeepCell<T>(s: State<T>, t: nat, u: nat, pos: nat)
    requires Inv(s) && t < |s.threads| && u < |s.threads|
    requires s.threads[t].Pushes(pos) || s.threads[t].Pops(pos)
    ensures ThreadInv(s, s.threads[u])
    ensures u != t && s.threads[u].Owns() ==>
              Slot(s.threads[u].pos, s.capacity) != Slot(pos, s.capacity)
  {
    assert ThreadInv(s, s.threads[t]) && ThreadInv(s, s.threads[u]);
    if u != t && s.threads[u].Owns() && Slot(s.threads[u].pos, s.capacity) == Slot(pos, s.capacity) {
      var p := s.threads[u].pos;
      SlotNext(pos, s.capacity);
      SlotNext(p, s.capacity);
      assert false;
    }
  }

  lemma PublishInv<T>(s: State<T>, t: nat, v: T, pos: nat)
    requires Inv(s) && t < |s.threads| && s.threads[t] == PushPublish(v, pos)
    ensures Inv(Goto(SetCell(s, pos, CellAt(s, pos).(sequence := pos + 1)), t, PushDone(pos)))
  {
    var s' := Goto(SetCell(s, pos, CellAt(s, pos).(sequence := pos + 1)), t, PushDone(pos));
    assert ThreadInv(s, s.threads[t]);
    SlotNext(pos, s.capacity);
    forall i | 0 <= i < s.capacity ensures CellInv(s', i) {
      assert CellInv(s, i);
      if i != Slot(pos, s.capacity) { KeptCell(s, s', t, i); }
    }
    forall p: nat ensures PopAccounted(s', p) {
      assert PopAccounted(s, p);
      if p != pos { KeepOwners(s, s', t, p); }
    }
    forall u | 0 <= u < |s'.threads| ensures ThreadInv(s', s'.threads[u]) {
      OthersKeepCell(s, t, u, pos);
    }
    StillUnique(s, s', t);
  }

  lemma ClaimPopCell<T>(s: State<T>, s': State<T>, t: nat, pos: nat, i: nat)
    requires WellSized(s) && |s.pushed| == s.enqueuePos && i < s.capacity && CellInv(s, i) && s.capacity >= 2
    requires t < |s.threads| && s.threads[t] == PopCas(pos) && pos == s.dequeuePos && SeqAt(s, pos) == pos + 1
    requires s' == Goto(s, t, PopRead(pos)).(dequeuePos := pos + 1)
    ensures CellInv(s', i)
  {
    SlotNext(pos, s.capacity);
    KeepOwners(s, s', t, TicketOf(s, i));
    assert s'.threads[t].Pops(pos);
  }

  lemma ClaimPopInv<T>(s: State<T>, t: nat, pos: nat)
    requires Inv(s) && t < |s.threads| && s.threads[t] == PopCas(pos) && pos == s.dequeuePos
    ensures Inv(Goto(s, t, PopRead(pos)).(dequeuePos := pos + 1))
  {
    var s' := Goto(s, t, PopRead(pos)).(dequeuePos := pos + 1);
    assert ThreadInv(s, s.threads[t]);
    HeadCellFull(s, pos);
    SlotNext(pos, s.capacity);
    assert PopAccounted(s, pos);
    assert s'.threads[t].Pops(pos);
    forall i | 0 <= i < s.capacity ensures CellInv(s', i) {
      assert CellInv(s, i);
      ClaimPopCell(s, s', t, pos, i);
    }
    forall p: nat ensures PopAccounted(s', p) {
      assert PopAccounted(s, p);
      KeepOwners(s, s', t, p);
    }
    forall u | 0 <= u < |s'.threads| ensures ThreadInv(s', s'.threads[u]) {
      assert ThreadInv(s, s.threads[u]);
    }
    StillUnique(s, s', t);
  }

  lemma ReadInv<T>(s: State<T>, t: nat, pos: nat, junk: T)
    requires Inv(s) && t < |s.threads| && s.threads[t] == PopRead(pos)
    ensures Inv(Goto(SetCell(s, pos, CellAt(s, pos).(value := junk)), t, PopRelease(pos, CellAt(s, pos).value)))
  {
    var s' := Goto(SetCell(s, pos, CellAt(s, pos).(value := junk)), t, PopRelease(pos, CellAt(s, pos).value));
    assert ThreadInv(s, s.threads[t]);
    SlotNext(pos, s.capacity);
    forall i | 0 <= i < s.capacity ensures CellInv(s', i) {
      assert CellInv(s, i);
      if i == Slot(pos, s.capacity) { KeepOwners(s, s', t, TicketOf(s, i)); } else { KeptCell(s, s', t, i); }
    }
    forall p: nat ensures PopAccounted(s', p) {
      assert PopAccounted(s, p);
      KeepOwners(s, s', t, p);
    }
    forall u | 0 <= u < |s'.threads| ensures ThreadInv(s', s'.threads[u]) {
      OthersKeepCell(s, t, u, pos);
    }
    StillUnique(s, s', t);
  }

  lemma ReleaseCells<T>(s: State<T>, s': State<T>, t: nat, pos: nat, out: T)
    requires Inv(s) && t < |s.threads| && s.threads[t] == PopRelease(pos, out)
    requires s' == Goto(SetCell(s, pos, CellAt(s, pos).(sequence := pos + s.capacity)), t,
                        PopDone(pos, out)).(popped := s.popped[pos := out])
    ensures forall i :: 0 <= i < s.capacity ==> CellInv(s', i)
  {
    assert ThreadInv(s, s.threads[t]);
    SlotNext(pos, s.capacity);
    forall i | 0 <= i < s.capacity ensures CellInv(s', i) {
      assert CellInv(s, i);
      if i == Slot(pos, s.capacity) { ReleasedCell(s, s', pos); } else { KeptCell(s, s', t, i); }
    }
  }

  /** The cell is free for the ticket one lap later. */
  lemma ReleasedCell<T>(s: State<T>, s': State<T>, pos: nat)
    requires Inv(s) && SeqAt(s, pos) == pos + 1 && pos < s.dequeuePos && WellSized(s') && s'.capacity == s.capacity
    requires SeqAt(s', pos) == pos + s.capacity && s'.pushed == s.pushed
    requires s'.enqueuePos == s.enqueuePos && s'.dequeuePos == s.dequeuePos
    ensures CellInv(s', Slot(pos, s.capacity))
  {
    SlotNext(pos, s.capacity);
    assert CellInv(s, Slot(pos, s.capacity));
    AtMostCapacity(s);
  }

  lemma ReleaseInv<T>(s: State<T>, t: nat, pos: nat, out: T)
    requires Inv(s) && t < |s.threads| && s.threads[t] == PopRelease(pos, out)
    ensures Inv(Goto(SetCell(s, pos, CellAt(s, pos).(sequence := pos + s.capacity)), t, PopDone(pos, out))
                .(popped := s.popped[pos := out]))
  {
    var s' := Goto(SetCell(s, pos, CellAt(s, pos).(sequence := pos + s.capacity)), t, PopDone(pos, out))
    .(popped := s.popped[pos := out]);
    assert ThreadInv(s, s.threads[t]);
    SlotNext(pos, s.capacity);
    ReleaseCells(s, s', t, pos, out);
    forall p: nat ensures PopAccounted(s', p) {
      assert PopAccounted(s, p);
      if p != pos { KeepOwners(s, s', t, p); }
    }
    forall u | 0 <= u < |s'.threads| ensures ThreadInv(s', s'.threads[u]) {
      OthersKeepCell(s, t, u, pos);
    }
    StillUnique(s, s', t);
  }

  lemma PushStepInv<T(!new)>(s: State<T>, s': State<T>, t: nat)
    requires Inv(s) && t < |s.threads| && PushStep(s, s', t)
    ensures Inv(s')
  {
    var th := s.threads[t];
    assert ThreadInv(s, th);
    if th.PushWrite? {
      WriteInv(s, t, th.item, th.pos);
    } else if th.PushPublish? {
      PublishInv(s, t, th.item, th.pos);
    } else if th.PushCas? && s' != Goto(s, t, PushCheck(th.item, s.enqueuePos)) {
      ClaimPushInv(s, t, th.item, th.pos);
    } else {
      PushMoveInv(s, s', t);
    }
  }

  /** The steps of a push that touch no shared state. */
  lemma PushMoveInv<T(!new)>(s: State<T>, s': State<T>, t: nat)
    requires Inv(s) && t < |s.threads| && PushStep(s, s', t) && !s.threads[t].PushWrite? && !s.threads[t].PushPublish?
    requires s.threads[t].PushCas? ==> s' == Goto(s, t, PushCheck(s.threads[t].item, s.enqueuePos))
    ensures Inv(s')
  {
    assert ThreadInv(s, s.threads[t]);
    GotoInv(s, t, s'.threads[t]);
  }

  lemma PopStepInv<T(!new)>(s: State<T>, s': State<T>, t: nat)
    requires Inv(s) && t < |s.threads| && PopStep(s, s', t)
    ensures Inv(s')
  {
    var th := s.threads[t];
    assert ThreadInv(s, th);
    if th.PopRead? {
      var junk :| s' == Goto(SetCell(s, th.pos, CellAt(s, th.pos).(value := junk)), t,
                             PopRelease(th.pos, CellAt(s, th.pos).value));
      ReadInv(s, t, th.pos, junk);
    } else if th.PopRelease? {
      ReleaseInv(s, t, th.pos, th.out);
    } else if th.PopCas? && s' != Goto(s, t, PopCheck(s.dequeuePos)) {
      ClaimPopInv(s, t, th.pos);
    } else {
      PopMoveInv(s, s', t);
    }
  }

  /** The steps of a pop that touch no shared state. */
  lemma PopMoveInv<T(!new)>(s: State<T>, s': State<T>, t: nat)
    requires Inv(s) && t < |s.threads| && PopStep(s, s', t) && !s.threads[t].PopRead? && !s.threads[t].PopRelease?
    requires s.threads[t].PopCas? ==> s' == Goto(s, t, PopCheck(s.dequeuePos))
    ensures Inv(s')
  {
    assert ThreadInv(s, s.threads[t]);
    GotoInv(s, t, s'.threads[t]);
  }

  lemma NextInv<T(!new)>(s: State<T>, s': State<T>)
    requires Inv(s) && Next(s, s')
    ensures Inv(s')
  {
    var t: nat :| Step(s, s', t);
    if PushStep(s, s', t) { PushStepInv(s, s', t); } else { PopStepInv(s, s', t); }
  }

  lemma RunPrefix<T(!new)>(run: seq<State<T>>)
    requires IsRun(run) && |run| >= 2
    ensures IsRun(run[..|run| - 1]) && Next(run[|run| - 2], run[|run| - 1])
  {
    var before := run[..|run| - 1];
    forall i, j | 0 <= i < j < |before| && j == i + 1 ensures Next(before[i], before[j]) {
      assert before[i] == run[i] && before[j] == run[j];
    }
  }

  lemma {:induction false} RunInv<T(!new)>(run: seq<State<T>>)
    requires IsRun(run) && run[0].capacity >= 2
    ensures forall s :: s in run ==> Inv(s)
  {
    var k := |run| - 1;
    if k == 0 {
      InitInv(run[0]);
    } else {
      var before := run[..k];
      RunPrefix(run);
      RunInv(before);
      assert run[k - 1] in before;
      NextInv(run[k - 1], run[k]);
      assert forall s :: s in run ==> s in before || s == run[k];
    }
  }

  // ------------------------------------------------------------- main results

  /** A ticket between the two positions is the one its cell is working on. */
  lemma LiveTicketCell<T>(s: State<T>, p: nat)
    requires Inv(s) && s.dequeuePos <= p < s.enqueuePos
    ensures TicketOf(s, Slot(p, s.capacity)) == p
  {
    var i := Slot(p, s.capacity);
    assert CellInv(s, i);
    var c := TicketOf(s, i);
    if c < p { SlotGap(c, p, s.capacity); }
    if p < c { SlotGap(p, c, s.capacity); }
  }

  lemma AtMostCapacity<T>(s: State<T>)
    requires Inv(s)
    ensures s.enqueuePos - s.dequeuePos <= s.capacity
  {
    if s.enqueuePos > s.dequeuePos {
      var i := Slot(s.enqueuePos - 1, s.capacity);
      LiveTicketCell(s, s.enqueuePos - 1);
      assert CellInv(s, i);
    }
  }

  /** The value of ticket p is published in its cell. */
  ghost predicate Published<T>(s: State<T>, p: nat)
    requires WellSized(s)
  {
    SeqAt(s, p) == p + 1
  }

  /** Safety of every reachable state of every run, for any number of threads: the ring never
      holds more than its capacity; a ticket that has not been popped is either stored intact
      in its cell or in the hands of exactly one pusher; a claimed pop ticket has either
      returned exactly the value pushed under it or is in the hands of exactly one popper. */
  lemma QueueSafety<T(!new)>(run: seq<State<T>>, s: State<T>)
    requires IsRun(run) && run[0].capacity >= 2 && s in run
    ensures WellSized(s) && |s.pushed| == s.enqueuePos
    ensures 0 <= s.enqueuePos - s.dequeuePos <= s.capacity
    ensures forall p: nat :: s.dequeuePos <= p < s.enqueuePos ==>
                               if Published(s, p) then CellAt(s, p).value == s.pushed[p]
                               else exists t :: 0 <= t < |s.threads| && s.threads[t].Pushes(p) &&
                                                s.threads[t].item == s.pushed[p]
    ensures forall p :: p in s.popped ==> p < s.dequeuePos && s.popped[p] == s.pushed[p]
    ensures forall p: nat :: p < s.dequeuePos ==>
                               (p in s.popped <==> !exists t :: 0 <= t < |s.threads| && s.threads[t].Pops(p))
    ensures forall t :: 0 <= t < |s.threads| && s.threads[t].PopDone? ==>
                          s.threads[t].pos < s.dequeuePos && s.threads[t].out == s.pushed[s.threads[t].pos]
    ensures OwnersUnique(s)
  {
    RunInv(run);
    AtMostCapacity(s);
    forall p: nat | s.dequeuePos <= p < s.enqueuePos
      ensures if Published(s, p) then CellAt(s, p).value == s.pushed[p]
              else exists t :: 0 <= t < |s.threads| && s.threads[t].Pushes(p) && s.threads[t].item == s.pushed[p]
    {
      LiveTicketCell(s, p);
      assert CellInv(s, Slot(p, s.capacity));
      if !Published(s, p) {
        var t :| 0 <= t < |s.threads| && s.threads[t].Pushes(p);
        assert ThreadInv(s, s.threads[t]);
      }
    }
    forall p: nat
      ensures p in s.popped ==> p < s.dequeuePos && s.popped[p] == s.pushed[p]
      ensures p < s.dequeuePos ==> (p in s.popped <==> !exists t :: 0 <= t < |s.threads| && s.threads[t].Pops(p))
    {
      assert PopAccounted(s, p);
      if t :| 0 <= t < |s.threads| && s.threads[t].Pops(p) { assert ThreadInv(s, s.threads[t]); }
    }
    forall t | 0 <= t < |s.threads| && s.threads[t].PopDone?
      ensures s.threads[t].pos < s.dequeuePos && s.threads[t].out == s.pushed[s.threads[t].pos]
    {
      assert ThreadInv(s, s.threads[t]);
      assert PopAccounted(s, s.threads[t].pos);
    }
  }

  /** The bounded FIFO queue a state stands for. */
  ghost function Contents<T>(s: State<T>): seq<T>
    requires |s.pushed| == s.enqueuePos && s.dequeuePos <= s.enqueuePos
  {
    s.pushed[s.dequeuePos..]
  }

  /** What one step does to the abstract queue. */
  ghost predicate FifoStep<T>(s: State<T>, s': State<T>, th: Thread<T>)
    requires |s.pushed| == s.enqueuePos && s.dequeuePos <= s.enqueuePos
    requires |s'.pushed| == s'.enqueuePos && s'.dequeuePos <= s'.enqueuePos
  {
    if th.PushWrite? then
      && |Contents(s)| < s.capacity && Contents(s') == Contents(s) + [th.item]
      && s'.popped == s.popped
    else if th.PopRead? then
      && |Contents(s)| > 0 && Contents(s') == Contents(s)[1..]
      && th.pos < |s.pushed| && s.pushed[th.pos] == Contents(s)[0]
      && s'.popped == s.popped
    else
      && Contents(s') == Contents(s)
      && (s'.popped == s.popped
          || (th.PopDone? && th.pos !in s.popped && s'.popped == s.popped[th.pos := th.out]))
  }

  lemma PushRefinesFifo<T(!new)>(s: State<T>, s': State<T>, t: nat)
    requires Inv(s) && t < |s.threads| && PushStep(s, s', t) && Inv(s') && |s'.threads| == |s.threads|
    ensures FifoStep(s, s', s'.threads[t])
  {
    PushEffect(s, s', t);
    if s'.threads[t].PushWrite? {
      AtMostCapacity(s');
      assert s'.pushed[s.dequeuePos..] == s.pushed[s.dequeuePos..] + [s'.threads[t].item];
    }
  }

  /** Only the successful compare-and-swap of a push issues a ticket. */
  lemma PushEffect<T(!new)>(s: State<T>, s': State<T>, t: nat)
    requires WellSized(s) && t < |s.threads| && PushStep(s, s', t) && |s'.threads| == |s.threads|
    ensures s'.dequeuePos == s.dequeuePos && s'.popped == s.popped && s'.capacity == s.capacity
    ensures s'.pushed == (if s'.threads[t].PushWrite? then s.pushed + [s'.threads[t].item] else s.pushed)
    ensures !s'.threads[t].PopRead? && !s'.threads[t].PopDone?
  {
  }

  lemma PopRefinesFifo<T(!new)>(s: State<T>, s': State<T>, t: nat)
    requires Inv(s) && t < |s.threads| && PopStep(s, s', t) && Inv(s') && |s'.threads| == |s.threads|
    ensures FifoStep(s, s', s'.threads[t])
  {
    assert ThreadInv(s, s.threads[t]);
    if s'.threads[t].PopRead? {
      assert ThreadInv(s', s'.threads[t]);
    }
  }

  /** Refinement of an atomic bounded FIFO queue: the successful compare-and-swap of a push
      appends its value to a queue that is not full, that of a pop removes the head, which is
      what the pop will return, no other step changes the queue, and the result of a ticket is
      recorded once. */
  lemma StepRefinesFifo<T(!new)>(run: seq<State<T>>, s: State<T>, s': State<T>, t: nat)
    requires IsRun(run) && run[0].capacity >= 2 && s in run && s' in run && Step(s, s', t)
    ensures |s.pushed| == s.enqueuePos && s.dequeuePos <= s.enqueuePos
    ensures |s'.pushed| == s'.enqueuePos && s'.dequeuePos <= s'.enqueuePos && |s'.threads| == |s.threads|
    ensures FifoStep(s, s', s'.threads[t])
  {
    RunInv(run);
    if PushStep(s, s', t) {
      PushRefinesFifo(s, s', t);
    } else {
      PopRefinesFifo(s, s', t);
    }
  }

  /** Ticket p has been won by a pusher that has not published it yet. */
  ghost predicate PushInFlight<T>(s: State<T>, p: int) { exists u :: 0 <= u < |s.threads| && s.threads[u].Pushes(p) }

  /** Ticket p has been won by a popper that has not released its cell yet. */
  ghost predicate PopInFlight<T>(s: State<T>, p: int) { exists u :: 0 <= u < |s.threads| && s.threads[u].Pops(p) }

  /** `try_pop` returns false exactly if, at the sequence load, the head ticket is unpublished, and
      that is when the queue is empty or its oldest push is still in flight. */
  lemma PopFailsIffHeadUnpublished<T(!new)>(run: seq<State<T>>, s: State<T>, s': State<T>, t: nat)
    requires IsRun(run) && run[0].capacity >= 2 && s in run && Step(s, s', t)
    requires |s'.threads| == |s.threads| && s.threads[t].PopCheck?
    ensures s'.threads[t] == PopEmpty <==> s.threads[t].pos == s.dequeuePos && !Published(s, s.dequeuePos)
    ensures !Published(s, s.dequeuePos) <==> s.dequeuePos == s.enqueuePos || PushInFlight(s, s.dequeuePos)
  {
    RunInv(run);
    HeadPublished(s);
    PoppedPosition(s, t);
  }

  lemma HeadPublished<T>(s: State<T>)
    requires Inv(s)
    ensures Published(s, s.dequeuePos) || SeqAt(s, s.dequeuePos) <= s.dequeuePos
    ensures !Published(s, s.dequeuePos) <==> s.dequeuePos == s.enqueuePos || PushInFlight(s, s.dequeuePos)
  {
    var i := Slot(s.dequeuePos, s.capacity);
    assert CellInv(s, i);
    var c := TicketOf(s, i);
    if c < s.dequeuePos { SlotGap(c, s.dequeuePos, s.capacity); }
    if s.dequeuePos < c { SlotGap(s.dequeuePos, c, s.capacity); }
    SlotNext(c, s.capacity);
    if u :| 0 <= u < |s.threads| && s.threads[u].Pushes(s.dequeuePos) { assert ThreadInv(s, s.threads[u]); }
  }

  /** Behind the head, a cell is never found unpublished. */
  lemma PoppedPosition<T>(s: State<T>, t: nat)
    requires Inv(s) && t < |s.threads| && s.threads[t].PopCheck?
    ensures s.threads[t].pos <= s.dequeuePos
    ensures s.threads[t].pos < s.dequeuePos ==> SeqAt(s, s.threads[t].pos) > s.threads[t].pos
  {
    var pos := s.threads[t].pos;
    var i := Slot(pos, s.capacity);
    assert ThreadInv(s, s.threads[t]);
    assert CellInv(s, i);
    var c := TicketOf(s, i);
    if c < pos { SlotGap(c, pos, s.capacity); }
    SlotNext(c, s.capacity);
  }

  lemma HeadOfFailedPop<T>(s: State<T>, t: nat)
    requires Inv(s) && t < |s.threads| && s.threads[t].PopCheck? && SeqAt(s, s.threads[t].pos) <= s.threads[t].pos
    ensures s.threads[t].pos == s.dequeuePos
    ensures s.dequeuePos == s.enqueuePos || PushInFlight(s, s.dequeuePos)
  {
    HeadPublished(s);
    PoppedPosition(s, t);
  }

  /** `try_push` returns false exactly if, at the sequence load, the tail's cell still belongs to the
      ticket one lap earlier, and that is when the ring is full or the pop of that ticket is in
      flight. */
  lemma PushFailsIffTailUnreleased<T(!new)>(run: seq<State<T>>, s: State<T>, s': State<T>, t: nat)
    requires IsRun(run) && run[0].capacity >= 2 && s in run && Step(s, s', t)
    requires |s'.threads| == |s.threads| && s.threads[t].PushCheck?
    ensures s'.threads[t] == PushFull <==> s.threads[t].pos == s.enqueuePos && SeqAt(s, s.enqueuePos) < s.enqueuePos
    ensures SeqAt(s, s.enqueuePos) < s.enqueuePos <==>
            s.enqueuePos == s.dequeuePos + s.capacity || PopInFlight(s, s.enqueuePos - s.capacity)
  {
    RunInv(run);
    TailReleased(s);
    PushedPosition(s, t);
  }

  lemma TailReleased<T>(s: State<T>)
    requires Inv(s)
    ensures SeqAt(s, s.enqueuePos) < s.enqueuePos <==>
            s.enqueuePos == s.dequeuePos + s.capacity || PopInFlight(s, s.enqueuePos - s.capacity)
  {
    var i := Slot(s.enqueuePos, s.capacity);
    assert CellInv(s, i);
    var c := TicketOf(s, i);
    AtMostCapacity(s);
    if c < s.enqueuePos { SlotGap(c, s.enqueuePos, s.capacity); }
    if s.enqueuePos < c { SlotGap(s.enqueuePos, c, s.capacity); }
    SlotNext(c, s.capacity);
    if u :| 0 <= u < |s.threads| && s.threads[u].Pops(s.enqueuePos - s.capacity) {
      assert ThreadInv(s, s.threads[u]);
      SlotNext(s.threads[u].pos, s.capacity);
    }
  }

  /** Behind the tail, a cell is never found unreleased. */
  lemma PushedPosition<T>(s: State<T>, t: nat)
    requires Inv(s) && t < |s.threads| && s.threads[t].PushCheck?
    ensures s.threads[t].pos <= s.enqueuePos
    ensures s.threads[t].pos < s.enqueuePos ==> SeqAt(s, s.threads[t].pos) >= s.threads[t].pos
  {
    var pos := s.threads[t].pos;
    assert ThreadInv(s, s.threads[t]);
    assert CellInv(s, Slot(pos, s.capacity));
    var c := TicketOf(s, Slot(pos, s.capacity));
    if c < pos { SlotGap(c, pos, s.capacity); }
    SlotNext(c, s.capacity);
  }

  // ------------------------------------- failing while neither empty nor full

  ghost predicate Reachable<T(!new)>(s: State<T>, capacity: nat) {
    exists run: seq<State<T>> :: IsRun(run) && run[0].capacity == capacity && run[|run| - 1] == s
  }

  lemma ReachNext<T(!new)>(s: State<T>, s': State<T>, t: nat, capacity: nat)
    requires Reachable(s, capacity) && Step(s, s', t)
    ensures Reachable(s', capacity)
  {
    var run: seq<State<T>> :| IsRun(run) && run[0].capacity == capacity && run[|run| - 1] == s;
    var run' := run + [s'];
    assert Next(s, s');
    forall i, j | 0 <= i < j < |run'| && j == i + 1 ensures Next(run'[i], run'[j]) {
      if j < |run| { assert Next(run[i], run[j]); }
    }
    assert IsRun(run') && run'[|run'| - 1] == s';
  }

  /** Thread t, at rest, may start a call on a ring of capacity n that some run leads to. */
  ghost predicate MayStart<T(!new)>(s: State<T>, t: nat, n: nat) {
    Reachable(s, n) && WellSized(s) && t < |s.threads| && s.threads[t].AtRest()
  }

  lemma ReachPushCheck<T(!new)>(s: State<T>, t: nat, n: nat, v: T)
    requires MayStart(s, t, n)
    ensures Reachable(Goto(s, t, PushCheck(v, s.enqueuePos)), n)
  {
    var s1 := Goto(s, t, PushLoad(v));
    ReachNext(s, s1, t, n);
    var s2 := Goto(s1, t, PushCheck(v, s.enqueuePos));
    ReachNext(s1, s2, t, n);
    assert s2 == Goto(s, t, PushCheck(v, s.enqueuePos));
  }

  lemma ReachPopCheck<T(!new)>(s: State<T>, t: nat, n: nat)
    requires MayStart(s, t, n)
    ensures Reachable(Goto(s, t, PopCheck(s.dequeuePos)), n)
  {
    var s1 := Goto(s, t, PopLoad);
    ReachNext(s, s1, t, n);
    var s2 := Goto(s1, t, PopCheck(s.dequeuePos));
    ReachNext(s1, s2, t, n);
    assert s2 == Goto(s, t, PopCheck(s.dequeuePos));
  }

  lemma ReachPushFull<T(!new)>(s: State<T>, t: nat, n: nat, v: T)
    requires MayStart(s, t, n) && SeqAt(s, s.enqueuePos) < s.enqueuePos
    ensures Reachable(Goto(s, t, PushFull), n)
  {
    ReachPushCheck(s, t, n, v);
    var s1 := Goto(s, t, PushCheck(v, s.enqueuePos));
    ReachNext(s1, Goto(s1, t, PushFull), t, n);
    assert Goto(s1, t, PushFull) == Goto(s, t, PushFull);
  }

  lemma ReachPopEmpty<T(!new)>(s: State<T>, t: nat, n: nat)
    requires MayStart(s, t, n) && SeqAt(s, s.dequeuePos) <= s.dequeuePos
    ensures Reachable(Goto(s, t, PopEmpty), n)
  {
    ReachPopCheck(s, t, n);
    var s1 := Goto(s, t, PopCheck(s.dequeuePos));
    ReachNext(s1, Goto(s1, t, PopEmpty), t, n);
    assert Goto(s1, t, PopEmpty) == Goto(s, t, PopEmpty);
  }

  /** Thread t has won the next push ticket. */
  function PushWon<T>(s: State<T>, t: nat, v: T): State<T>
    requires t < |s.threads|
  {
    Goto(s, t, PushWrite(v, s.enqueuePos)).(enqueuePos := s.enqueuePos + 1, pushed := s.pushed + [v])
  }

  lemma ReachPushWon<T(!new)>(s: State<T>, t: nat, n: nat, v: T)
    requires MayStart(s, t, n) && SeqAt(s, s.enqueuePos) == s.enqueuePos
    ensures Reachable(PushWon(s, t, v), n)
  {
    ReachPushCheck(s, t, n, v);
    var s1 := Goto(s, t, PushCheck(v, s.enqueuePos));
    var s2 := Goto(s1, t, PushCas(v, s.enqueuePos));
    ReachNext(s1, s2, t, n);
    ReachNext(s2, PushWon(s2, t, v), t, n);
    assert PushWon(s2, t, v) == PushWon(s, t, v);
  }

  /** And its value is in the cell. */
  function PushFinished<T>(s: State<T>, t: nat, v: T): State<T>
    requires WellSized(s) && t < |s.threads|
  {
    Goto(SetCell(s, s.enqueuePos, Cell(s.enqueuePos + 1, v)), t, PushDone(s.enqueuePos))
    .(enqueuePos := s.enqueuePos + 1, pushed := s.pushed + [v])
  }

  lemma ReachPushFinished<T(!new)>(s: State<T>, t: nat, n: nat, v: T)
    requires MayStart(s, t, n) && SeqAt(s, s.enqueuePos) == s.enqueuePos
    ensures Reachable(PushFinished(s, t, v), n)
  {
    var pos := s.enqueuePos;
    ReachPushWon(s, t, n, v);
    var s1 := PushWon(s, t, v);
    var s2 := Goto(SetCell(s1, pos, CellAt(s1, pos).(value := v)), t, PushPublish(v, pos));
    ReachNext(s1, s2, t, n);
    var s3 := Goto(SetCell(s2, pos, CellAt(s2, pos).(sequence := pos + 1)), t, PushDone(pos));
    ReachNext(s2, s3, t, n);
    assert s3 == PushFinished(s, t, v);
  }

  /** Thread t has won the next pop ticket. */
  function PopWon<T>(s: State<T>, t: nat): State<T>
    requires t < |s.threads|
  {
    Goto(s, t, PopRead(s.dequeuePos)).(dequeuePos := s.dequeuePos + 1)
  }

  lemma ReachPopWon<T(!new)>(s: State<T>, t: nat, n: nat)
    requires MayStart(s, t, n) && Published(s, s.dequeuePos)
    ensures Reachable(PopWon(s, t), n)
  {
    ReachPopCheck(s, t, n);
    var s1 := Goto(s, t, PopCheck(s.dequeuePos));
    var s2 := Goto(s1, t, PopCas(s.dequeuePos));
    ReachNext(s1, s2, t, n);
    ReachNext(s2, PopWon(s2, t), t, n);
    assert PopWon(s2, t) == PopWon(s, t);
  }

  /** And has returned the value of its cell. */
  function PopFinished<T>(s: State<T>, t: nat): State<T>
    requires WellSized(s) && t < |s.threads|
  {
    var pos, v := s.dequeuePos, CellAt(s, s.dequeuePos).value;
    Goto(SetCell(s, pos, Cell(pos + s.capacity, v)), t, PopDone(pos, v))
    .(dequeuePos := pos + 1, popped := s.popped[pos := v])
  }

  lemma ReachPopFinished<T(!new)>(s: State<T>, t: nat, n: nat)
    requires MayStart(s, t, n) && Published(s, s.dequeuePos)
    ensures Reachable(PopFinished(s, t), n)
  {
    var pos, v := s.dequeuePos, CellAt(s, s.dequeuePos).value;
    ReachPopMoved(s, t, n);
    var s1 := Goto(s, t, PopRelease(pos, v)).(dequeuePos := pos + 1);
    var s2 := Goto(SetCell(s1, pos, CellAt(s1, pos).(sequence := pos + s.capacity)), t, PopDone(pos, v))
    .(popped := s.popped[pos := v]);
    ReachNext(s1, s2, t, n);
    assert s2 == PopFinished(s, t);
  }

  /** The value has been moved out; here it leaves an equal one behind. */
  lemma ReachPopMoved<T(!new)>(s: State<T>, t: nat, n: nat)
    requires MayStart(s, t, n) && Published(s, s.dequeuePos)
    ensures Reachable(Goto(s, t, PopRelease(s.dequeuePos, CellAt(s, s.dequeuePos).value)).(dequeuePos := s.dequeuePos
                      + 1), n)
  {
    var pos, v := s.dequeuePos, CellAt(s, s.dequeuePos).value;
    ReachPopWon(s, t, n);
    var s1 := PopWon(s, t);
    var s2 := Goto(SetCell(s1, pos, CellAt(s1, pos).(value := v)), t, PopRelease(pos, v));
    ReachNext(s1, s2, t, n);
    assert s2.cells == s.cells;
    assert s2 == Goto(s, t, PopRelease(pos, v)).(dequeuePos := pos + 1);
  }

  lemma PairSlots()
    ensures IsPowerOfTwo(2) && Slot(0, 2) == 0 && Slot(1, 2) == 1 && Slot(2, 2) == 0
  {
    assert Pow2(0) == 1 && Pow2(1) == 2;
    SlotIsModulo(0, 2);
    SlotIsModulo(1, 2);
    SlotIsModulo(2, 2);
  }

  /** A fresh ring of two cells, with three threads. */
  lemma PairStart<T(!new)>(a: T) returns (s: State<T>)
    ensures s == State(2, [Cell(0, a), Cell(1, a)], 0, 0, [Idle, Idle, Idle], [], map[]) && Reachable(s, 2)
  {
    PairSlots();
    s := State(2, [Cell(0, a), Cell(1, a)], 0, 0, [Idle, Idle, Idle], [], map[]);
    assert IsRun([s]);
  }

  /** A pop can fail on a queue that is not empty, even behind a finished push: the first pusher
      stalls with its ticket, the second one finishes, and a popper finds nothing. */
  lemma PopFailsBehindSlowPush<T(!new)>(a: T, b: T) returns (s: State<T>)
    ensures Reachable(s, 2) && WellSized(s) && Published(s, 1)
    ensures s.pushed == [a, b] && s.enqueuePos == 2 && s.dequeuePos == 0
    ensures s.threads == [PushWrite(a, 0), PushDone(1), PopEmpty]
  {
    PairSlots();
    s := PairStart(a);
    ReachPushWon(s, 0, 2, a);
    s := PushWon(s, 0, a);
    ReachPushFinished(s, 1, 2, b);
    s := PushFinished(s, 1, b);
    assert s == State(2, [Cell(0, a), Cell(2, b)], 2, 0, [PushWrite(a, 0), PushDone(1), Idle], [a, b], map[]);
    ReachPopEmpty(s, 2, 2);
    s := Goto(s, 2, PopEmpty);
  }

  lemma PairFilled<T(!new)>(a: T, b: T) returns (s: State<T>)
    ensures s == State(2, [Cell(1, a), Cell(2, b)], 2, 0, [PushDone(1), Idle, Idle], [a, b], map[]) && Reachable(s, 2)
  {
    PairSlots();
    s := PairStart(a);
    ReachPushFinished(s, 0, 2, a);
    s := PushFinished(s, 0, a);
    assert s == State(2, [Cell(1, a), Cell(1, a)], 1, 0, [PushDone(0), Idle, Idle], [a], map[]);
    ReachPushFinished(s, 0, 2, b);
    s := PushFinished(s, 0, b);
  }

  /** A push can fail on a ring that is not full, even an empty one: the first popper stalls with its
      ticket, the second one finishes, and the next push finds no room. */
  lemma PushFailsBehindSlowPop<T(!new)>(a: T, b: T, c: T) returns (s: State<T>)
    ensures Reachable(s, 2) && s.pushed == [a, b] && s.enqueuePos == s.dequeuePos == 2
    ensures s.threads == [PushFull, PopRead(0), PopDone(1, b)]
  {
    PairSlots();
    s := PairFilled(a, b);
    ReachPopWon(s, 1, 2);
    s := PopWon(s, 1);
    ReachPopFinished(s, 2, 2);
    s := PopFinished(s, 2);
    assert s.threads == [PushDone(1), PopRead(0), PopDone(1, b)] && s.cells == [Cell(1, a), Cell(3, b)];
    ReachPushFull(s, 0, 2, c);
    s := Goto(s, 0, PushFull);
  }

  // ---------------------------------------------------------- capacity one

  predicate StuckThread<T>(th: Thread<T>) {
    match th
    case PushCas(_, pos) => pos >= 1
    case PushWrite(_, pos) => pos >= 1
    case PushPublish(_, pos) => pos >= 1
    case PopCheck(pos) => pos == 0
    case _ => !th.PopCas? && !th.PopRead? && !th.PopRelease? && !th.PopDone?
  }

  /** With a single cell, a published ticket looks like a free one of the next lap: the ring
      has accepted a second push and nobody will ever find the first ticket published. */
  ghost predicate Wedged<T>(s: State<T>) {
    && s.capacity == 1 && WellSized(s)
    && s.cells[0].sequence >= 2 && s.dequeuePos == 0 && s.popped == map[]
    && forall t :: 0 <= t < |s.threads| ==> StuckThread(s.threads[t])
  }

  lemma WedgedPush<T(!new)>(s: State<T>, s': State<T>, t: nat)
    requires Wedged(s) && t < |s.threads| && PushStep(s, s', t)
    ensures Wedged(s')
  {
    PowerOfTwoOne();
    assert StuckThread(s.threads[t]);
  }

  lemma WedgedPop<T(!new)>(s: State<T>, s': State<T>, t: nat)
    requires Wedged(s) && t < |s.threads| && PopStep(s, s', t)
    ensures Wedged(s')
  {
    PowerOfTwoOne();
    assert StuckThread(s.threads[t]);
  }

  lemma WedgedStep<T(!new)>(s: State<T>, s': State<T>)
    requires Wedged(s) && Next(s, s')
    ensures Wedged(s')
  {
    var t: nat :| Step(s, s', t);
    if PushStep(s, s', t) { WedgedPush(s, s', t); } else { WedgedPop(s, s', t); }
  }

  /** The same, boxed so that proofs about runs do not unfold it. */
  ghost predicate StaysWedged<T(!new)>(s: State<T>) { forall x :: x == s ==> Wedged(x) }

  lemma BoxedWedgedStep<T(!new)>(s: State<T>, s': State<T>)
    requires StaysWedged(s) && Next(s, s')
    ensures StaysWedged(s')
  {
    assert Wedged(s);
    WedgedStep(s, s');
  }

  lemma {:induction false} WedgedLater<T(!new)>(run: seq<State<T>>, from: nat, j: nat)
    requires IsRun(run) && from <= j < |run| && StaysWedged(run[from])
    ensures StaysWedged(run[j])
  {
    if j == from {
    } else {
      WedgedLater(run, from, j - 1);
      WedgedAtNext(run, j - 1, j);
    }
  }

  lemma WedgedAtNext<T(!new)>(run: seq<State<T>>, i: nat, j: nat)
    requires IsRun(run) && j == i + 1 < |run| && StaysWedged(run[i])
    ensures StaysWedged(run[j])
  {
    assert Next(run[i], run[j]);
    BoxedWedgedStep(run[i], run[j]);
  }

  /** Once the ring is wedged, no pop of any continuation ever succeeds again. */
  lemma WedgedForever<T(!new)>(run: seq<State<T>>, from: nat, j: nat)
    requires IsRun(run) && from <= j < |run| && Wedged(run[from])
    ensures Wedged(run[j]) && run[j].popped == map[]
  {
    WedgedLater(run, from, j);
    assert StaysWedged(run[j]);
  }

  lemma PowerOfTwoOne()
    ensures IsPowerOfTwo(1)
    ensures forall pos: nat :: Slot(pos, 1) == 0
  {
    assert Pow2(0) == 1;
  }

  lemma SoloSteps<T(!new)>(s: State<T>, v: T, s1: State<T>, s2: State<T>, s3: State<T>, s4: State<T>, s5: State<T>,
                           s6: State<T>)
    requires s.capacity == 1 && WellSized(s) && |s.threads| == 1 && s.threads[0].AtRest()
    requires s.cells[0].sequence == s.enqueuePos && Slot(s.enqueuePos, 1) == 0
    requires s1 == Goto(s, 0, PushLoad(v)) && s2 == Goto(s1, 0, PushCheck(v, s.enqueuePos))
    requires s3 == Goto(s2, 0, PushCas(v, s.enqueuePos))
    requires s4 == Goto(s3, 0, PushWrite(v, s.enqueuePos)).(enqueuePos := s.enqueuePos + 1, pushed := s.pushed + [v])
    requires s5 == Goto(SetCell(s4, s.enqueuePos, CellAt(s4, s.enqueuePos).(value := v)), 0,
                        PushPublish(v, s.enqueuePos))
    requires s6 == Goto(SetCell(s5, s.enqueuePos, CellAt(s5, s.enqueuePos).(sequence := s.enqueuePos + 1)), 0,
                        PushDone(s.enqueuePos))
    ensures Step(s, s1, 0) && Step(s1, s2, 0) && Step(s2, s3, 0)
    ensures Step(s3, s4, 0) && Step(s4, s5, 0) && Step(s5, s6, 0)
  {
  }

  /** The five steps of an undisturbed push by the only thread of a one-cell ring whose cell
      carries the sequence number the pusher expects. */
  lemma SoloPush<T(!new)>(s: State<T>, v: T) returns (states: seq<State<T>>)
    requires s.capacity == 1 && WellSized(s) && |s.threads| == 1 && s.threads[0].AtRest()
    requires s.cells[0].sequence == s.enqueuePos
    ensures |states| == 7 && states[0] == s
    ensures forall i, j :: 0 <= i < j < 7 && j == i + 1 ==> Next(states[i], states[j])
    ensures states[6] == State(1, [Cell(s.enqueuePos + 1, v)], s.enqueuePos + 1, s.dequeuePos,
                               [PushDone(s.enqueuePos)], s.pushed + [v], s.popped)
  {
    PowerOfTwoOne();
    var pos := s.enqueuePos;
    var s1 := Goto(s, 0, PushLoad(v));
    var s2 := Goto(s1, 0, PushCheck(v, pos));
    var s3 := Goto(s2, 0, PushCas(v, pos));
    var s4 := Goto(s3, 0, PushWrite(v, pos)).(enqueuePos := pos + 1, pushed := s.pushed + [v]);
    var s5 := Goto(SetCell(s4, pos, CellAt(s4, pos).(value := v)), 0, PushPublish(v, pos));
    var s6 := Goto(SetCell(s5, pos, CellAt(s5, pos).(sequence := pos + 1)), 0, PushDone(pos));
    SoloSteps(s, v, s1, s2, s3, s4, s5, s6);
    states := [s, s1, s2, s3, s4, s5, s6];
  }

  /** Capacity one violates the ring's promise: a run in which a second push overwrites the
      first value before it was popped, after which every pop fails forever. */
  lemma CapacityOneLosesValues<T(!new)>(a: T, b: T) returns (run: seq<State<T>>)
    ensures IsRun(run) && run[0].capacity == 1
    ensures var s := run[|run| - 1];
            Wedged(s) && s.pushed == [a, b] && s.enqueuePos - s.dequeuePos == 2 && s.cells == [Cell(2, b)]
  {
    PowerOfTwoOne();
    var s := State(1, [Cell(0, a)], 0, 0, [Idle], [], map[]);
    var first := SoloPush(s, a);
    var second := SoloPush(first[6], b);
    run := first + second[1..];
    forall i, j | 0 <= i < j < |run| && j == i + 1 ensures Next(run[i], run[j]) {
      if i < 6 { assert run[i] == first[i] && run[j] == first[j]; }
      else { assert run[i] == second[i - 6] && run[j] == second[j - 6]; }
    }
  }
}
