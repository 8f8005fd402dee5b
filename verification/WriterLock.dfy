/** `send_frame` under the cooperative writer lock of an HTTP/2 connection, as a transition system
    over its suspension points. A task is one call of `send_frame`; the wire takes any non-empty
    part of what is offered at each write, and writes do not fail. */
module WriterLock {
  import opened Bytes
  import opened H2Frame

  datatype Phase =
    | Unsent                      // has not asked for the lock yet
    | Queued                      // suspended in the waiters' list
    | Writing(written: nat)       // holds the lock
    | Sent

  /** One call: the frame, its bytes on the wire, and where the call stands. */
  datatype Task = Task(frame: Frame, bytes: seq<byte>, phase: Phase)

  /** `arrivals` and `done` are history: the tasks in the order they asked for the lock, and how
      many of them have finished. */
  datatype State = State(
    locked: bool,
    waiters: seq<nat>,
    tasks: seq<Task>,
    wire: seq<byte>,
    arrivals: seq<nat>,
    done: nat)

  predicate Init(s: State) {
    !s.locked && s.waiters == [] && s.tasks == [] && s.wire == [] && s.arrivals == [] && s.done == 0
  }

  function SetPhase(s: State, t: nat, p: Phase): State
    requires t < |s.tasks|
  {
    s.(tasks := s.tasks[t := s.tasks[t].(phase := p)])
  }

  /** A coroutine somewhere calls `send_frame`. */
  ghost predicate Spawn(s: State, s': State) {
    exists f :: s' == s.(tasks := s.tasks + [Task(f, FrameBytes(f), Unsent)])
  }

  /** `co_await lock()` */
  predicate Lock(s: State, s': State, t: nat) {
    && t < |s.tasks| && s.tasks[t].phase == Unsent
    && s' == if !s.locked then SetPhase(s, t, Writing(0)).(locked := true, arrivals := s.arrivals + [t])
             else SetPhase(s, t, Queued).(waiters := s.waiters + [t], arrivals := s.arrivals + [t])
  }

  /** One `co_await write(...)` that accepted k bytes. */
  predicate Write(s: State, s': State, t: nat, k: nat) {
    && t < |s.tasks| && s.tasks[t].phase.Writing?
    && var w, bytes := s.tasks[t].phase.written, s.tasks[t].bytes;
    && 1 <= k && w + k <= |bytes|
    && s' == SetPhase(s, t, Writing(w + k)).(wire := s.wire + bytes[w..w + k])
  }

  /** `unlock()`: hand the lock to the first waiter, without ever setting it free, if there is one. */
  predicate Unlock(s: State, s': State, t: nat) {
    && t < |s.tasks| && s.tasks[t].phase == Writing(|s.tasks[t].bytes|)
    && var s1 := SetPhase(s, t, Sent).(done := s.done + 1);
    if s.waiters != [] then
      s.waiters[0] < |s.tasks| && s' == SetPhase(s1, s.waiters[0], Writing(0)).(waiters := s.waiters[1..])
    else s' == s1.(locked := false)
  }

  ghost predicate Next(s: State, s': State) {
    || Spawn(s, s')
    || (exists t :: Lock(s, s', t))
    || (exists t, k :: Write(s, s', t, k))
    || (exists t :: Unlock(s, s', t))
  }

  ghost predicate IsRun(run: seq<State>) {
    && |run| >= 1 && Init(run[0])
    && forall i, j :: 0 <= i < j < |run| && j == i + 1 ==> Next(run[i], run[j])
  }

  // ---------------------------------------------------------------- invariant

  ghost predicate ArrivalsOk(s: State) {
    && s.done <= |s.arrivals|
    && (forall i :: 0 <= i < |s.arrivals| ==> s.arrivals[i] < |s.tasks|)
    && (forall i, j :: 0 <= i < j < |s.arrivals| ==> s.arrivals[i] != s.arrivals[j])
  }

  /** Finished tasks, then the holder, then the waiters, in the order of arrival. */
  ghost predicate PhasesOk(s: State)
    requires ArrivalsOk(s)
  {
    && (forall i :: 0 <= i < s.done ==> s.tasks[s.arrivals[i]].phase == Sent)
    && (forall i :: s.done < i < |s.arrivals| ==> s.tasks[s.arrivals[i]].phase == Queued)
    && (s.locked <==> s.done < |s.arrivals|)
    && (forall t :: 0 <= t < |s.tasks| && s.tasks[t].phase.Writing? ==> s.locked && t == s.arrivals[s.done])
    && s.waiters == (if s.locked then s.arrivals[s.done + 1..] else [])
    && (s.locked ==>
          var h := s.tasks[s.arrivals[s.done]];
          h.phase.Writing? && h.phase.written <= |h.bytes|)
  }

  /** The bytes of the first n tasks to arrive, one after the other. */
  function Arrived(s: State, n: nat): seq<byte>
    requires n <= |s.arrivals| && forall i :: 0 <= i < n ==> s.arrivals[i] < |s.tasks|
  {
    if n == 0 then [] else Arrived(s, n - 1) + s.tasks[s.arrivals[n - 1]].bytes
  }

  lemma {:induction false} ArrivedSame(s: State, s': State, n: nat)
    requires n <= |s.arrivals| && n <= |s'.arrivals| && forall i :: 0 <= i < n ==> s.arrivals[i] < |s.tasks|
    requires forall i :: 0 <= i < n ==>
                           && s'.arrivals[i] == s.arrivals[i] < |s'.tasks|
                           && s'.tasks[s.arrivals[i]].bytes == s.tasks[s.arrivals[i]].bytes
    ensures Arrived(s', n) == Arrived(s, n)
  {
    if n == 0 {
    } else {
      ArrivedSame(s, s', n - 1);
    }
  }

  /** What the holder has written of its frame. */
  function Partial(s: State): seq<byte>
    requires ArrivalsOk(s) && PhasesOk(s)
  {
    if s.locked then
      var h := s.tasks[s.arrivals[s.done]];
      h.bytes[..h.phase.written]
    else []
  }

  ghost predicate Inv(s: State) {
    Shape(s) && s.wire == Arrived(s, s.done) + Partial(s)
  }

  ghost predicate Shape(s: State) { ArrivalsOk(s) && PhasesOk(s) }

  lemma SpawnInv(s: State, s': State)
    requires Inv(s) && Spawn(s, s')
    ensures Inv(s')
  {
    SpawnShape(s, s');
    ArrivedSame(s, s', s.done);
    assert Partial(s') == Partial(s);
  }

  lemma SpawnShape(s: State, s': State)
    requires Shape(s) && Spawn(s, s')
    ensures Shape(s') && s'.locked == s.locked && s'.done == s.done && s'.arrivals == s.arrivals && s'.wire == s.wire
    ensures forall i :: 0 <= i < |s.tasks| ==> i < |s'.tasks| && s'.tasks[i] == s.tasks[i]
  {
    OneMoreTask(s, s');
    MoreTasksShape(s, s');
  }

  lemma OneMoreTask(s: State, s': State)
    requires Spawn(s, s')
    ensures s' == s.(tasks := s'.tasks) && |s'.tasks| == |s.tasks| + 1 && s'.tasks[|s.tasks|].phase == Unsent
    ensures forall i :: 0 <= i < |s.tasks| ==> s'.tasks[i] == s.tasks[i]
  {
  }

  lemma MoreTasksShape(s: State, s': State)
    requires Shape(s) && s' == s.(tasks := s'.tasks)
    requires |s'.tasks| == |s.tasks| + 1 && s'.tasks[|s.tasks|].phase == Unsent
    requires forall i :: 0 <= i < |s.tasks| ==> s'.tasks[i] == s.tasks[i]
    ensures Shape(s')
  {
    assert ArrivalsOk(s');
  }

  lemma LockShape(s: State, s': State, t: nat)
    requires Shape(s) && Lock(s, s', t)
    ensures Shape(s')
  {
    forall i | 0 <= i < |s.arrivals| ensures s.arrivals[i] != t { NotUnsent(s, i); }
    assert s'.arrivals == s.arrivals + [t] && ArrivalsOk(s');
    forall i | 0 <= i < |s.arrivals|
      ensures s'.arrivals[i] == s.arrivals[i] && s'.tasks[s.arrivals[i]] == s.tasks[s.arrivals[i]]
    {
    }
    if s.locked { JoinsQueue(s, s', t); } else { TakesLock(s, s', t); }
  }

  lemma JoinsQueue(s: State, s': State, t: nat)
    requires Shape(s) && Lock(s, s', t) && s.locked && ArrivalsOk(s')
    requires forall i :: 0 <= i < |s.arrivals| ==>
                           s'.arrivals[i] == s.arrivals[i] && s'.tasks[s.arrivals[i]] == s.tasks[s.arrivals[i]]
    ensures PhasesOk(s')
  {
    assert s'.arrivals[s.done + 1..] == s.arrivals[s.done + 1..] + [t];
  }

  lemma TakesLock(s: State, s': State, t: nat)
    requires Shape(s) && Lock(s, s', t) && !s.locked && ArrivalsOk(s')
    requires forall i :: 0 <= i < |s.arrivals| ==>
                           s'.arrivals[i] == s.arrivals[i] && s'.tasks[s.arrivals[i]] == s.tasks[s.arrivals[i]]
    ensures PhasesOk(s')
  {
    assert s.done == |s.arrivals| && s'.arrivals[s.done + 1..] == [];
  }

  /** Who has arrived is no longer unsent. */
  lemma NotUnsent(s: State, i: nat)
    requires Shape(s) && i < |s.arrivals|
    ensures s.tasks[s.arrivals[i]].phase != Unsent
  {
  }

  lemma LockInv(s: State, s': State, t: nat)
    requires Inv(s) && Lock(s, s', t)
    ensures Inv(s')
  {
    LockShape(s, s', t);
    ArrivedSame(s, s', s.done);
  }

  lemma WriteShape(s: State, s': State, t: nat, k: nat)
    requires Shape(s) && Write(s, s', t, k)
    ensures Shape(s')
  {
    assert t == s.arrivals[s.done];
  }

  lemma WriteInv(s: State, s': State, t: nat, k: nat)
    requires Inv(s) && Write(s, s', t, k)
    ensures Inv(s')
  {
    WriteShape(s, s', t, k);
    assert t == s.arrivals[s.done] && s'.arrivals == s.arrivals;
    SameBytes(s, s', t, Writing(s.tasks[t].phase.written + k));
    ArrivedSame(s, s', s.done);
    PartialGrows(Arrived(s, s.done), s.tasks[t].bytes, s.tasks[t].phase.written, k);
  }

  lemma PartialGrows(before: seq<byte>, bytes: seq<byte>, w: nat, k: nat)
    requires w + k <= |bytes|
    ensures before + bytes[..w] + bytes[w..w + k] == before + bytes[..w + k]
  {
    assert bytes[..w] + bytes[w..w + k] == bytes[..w + k];
  }

  lemma UnlockShape(s: State, s': State, t: nat)
    requires Shape(s) && Unlock(s, s', t)
    ensures ArrivalsOk(s') && PhasesOk(s')
  {
    assert t == s.arrivals[s.done];
    if s.waiters == [] {
      assert |s.arrivals| == s.done + 1;
    } else {
      HandOffShape(s, s', t, s.arrivals[s.done + 1]);
    }
  }

  /** The lock passes from `t` to the next in line. */
  lemma HandOffShape(s: State, s': State, t: nat, next: nat)
    requires Shape(s) && Unlock(s, s', t) && s.waiters != []
    requires t == s.arrivals[s.done] && next == s.arrivals[s.done + 1]
    ensures Shape(s')
  {
    assert s.waiters[0] == next && s.arrivals[s.done + 1..][1..] == s.arrivals[s.done + 2..];
    assert t != next && ArrivalsOk(s');
    forall i | 0 <= i < |s.arrivals| ensures s'.tasks[s.arrivals[i]].phase == HandedOff(s, i) {
      assert i != s.done ==> s.arrivals[i] != t;
      assert i != s.done + 1 ==> s.arrivals[i] != next;
    }
    HandOffPhases(s, s', t, next);
  }

  /** The phase of the i-th task to arrive, after the lock was handed on. */
  function HandedOff(s: State, i: nat): Phase
    requires ArrivalsOk(s) && i < |s.arrivals|
  {
    if i == s.done then Sent else if i == s.done + 1 then Writing(0) else s.tasks[s.arrivals[i]].phase
  }

  lemma HandOffPhases(s: State, s': State, t: nat, next: nat)
    requires Shape(s) && s.done + 1 < |s.arrivals| && t == s.arrivals[s.done]
    requires next == s.arrivals[s.done + 1] && s.locked
    requires ArrivalsOk(s') && s'.arrivals == s.arrivals && s'.done == s.done + 1 && s'.locked
    requires s'.waiters == s.arrivals[s.done + 2..] && |s'.tasks| == |s.tasks|
    requires forall i :: 0 <= i < |s.arrivals| ==> s'.tasks[s.arrivals[i]].phase == HandedOff(s, i)
    requires forall u :: 0 <= u < |s.tasks| && u != t && u != next ==> s'.tasks[u] == s.tasks[u]
    ensures PhasesOk(s')
  {
    assert s'.tasks[t].phase == Sent && s'.tasks[next].phase == Writing(0);
  }

  lemma UnlockBytes(s: State, s': State, t: nat)
    requires Shape(s) && Unlock(s, s', t)
    ensures s'.arrivals == s.arrivals && s'.wire == s.wire && s'.done == s.done + 1 && t == s.arrivals[s.done]
    ensures |s'.tasks| == |s.tasks| && forall i :: 0 <= i < |s.tasks| ==> s'.tasks[i].bytes == s.tasks[i].bytes
  {
    SameBytes(s, SetPhase(s, t, Sent), t, Sent);
    if s.waiters != [] { SameBytes(SetPhase(s, t, Sent), s', s.waiters[0], Writing(0)); }
  }

  lemma UnlockPartial(s: State, s': State, t: nat)
    requires Shape(s) && Unlock(s, s', t) && Shape(s')
    ensures t == s.arrivals[s.done] && Partial(s) == s.tasks[t].bytes && Partial(s') == []
  {
    assert s'.locked ==> s'.tasks[s'.arrivals[s'.done]].phase == Writing(0);
  }

  lemma UnlockInv(s: State, s': State, t: nat)
    requires Inv(s) && Unlock(s, s', t)
    ensures Inv(s')
  {
    UnlockShape(s, s', t);
    UnlockBytes(s, s', t);
    UnlockPartial(s, s', t);
    ArrivedSame(s, s', s.done);
    assert Arrived(s', s.done + 1) == Arrived(s', s.done) + s.tasks[t].bytes;
    assert s.wire + [] == s.wire;
  }

  lemma SameBytes(s: State, s': State, t: nat, p: Phase)
    requires t < |s.tasks| && s'.tasks == SetPhase(s, t, p).tasks
    ensures |s'.tasks| == |s.tasks| && forall i :: 0 <= i < |s.tasks| ==> s'.tasks[i].bytes == s.tasks[i].bytes
  {
  }

  lemma NextInv(s: State, s': State)
    requires Inv(s) && Next(s, s')
    ensures Inv(s')
  {
    if Spawn(s, s') { SpawnInv(s, s'); }
    else if t :| Lock(s, s', t) { LockInv(s, s', t); }
    else if t, k :| Write(s, s', t, k) { WriteInv(s, s', t, k); }
    else { var t :| Unlock(s, s', t); UnlockInv(s, s', t); }
  }

  lemma {:induction false} RunInv(run: seq<State>)
    requires IsRun(run)
    ensures forall s :: s in run ==> Inv(s)
  {
    var k := |run| - 1;
    if k > 0 {
      var before := run[..k];
      RunInv(before);
      assert run[k - 1] in before;
      NextInv(run[k - 1], run[k]);
      assert forall s :: s in run ==> s in before || s == run[k];
    } else {
      assert run == [run[0]];
    }
  }

  // ------------------------------------------------------------- main results

  /** Tasks carry the bytes of their frames. */
  ghost predicate BytesOk(s: State) {
    forall t :: 0 <= t < |s.tasks| ==> s.tasks[t].bytes == FrameBytes(s.tasks[t].frame)
  }

  lemma {:induction false} RunBytes(run: seq<State>)
    requires IsRun(run)
    ensures forall s :: s in run ==> BytesOk(s)
  {
    var k := |run| - 1;
    if k > 0 {
      var before := run[..k];
      RunBytes(before);
      assert run[k - 1] in before && Next(run[k - 1], run[k]);
      NextBytes(run[k - 1], run[k]);
      assert forall s :: s in run ==> s in before || s == run[k];
    } else {
      assert run == [run[0]];
    }
  }

  lemma NextBytes(s: State, s': State)
    requires BytesOk(s) && Next(s, s')
    ensures BytesOk(s')
  {
    if Spawn(s, s') { SpawnBytes(s, s'); }
    else if t: nat :| Lock(s, s', t) { LockBytes(s, s', t); }
    else if t: nat, k: nat :| Write(s, s', t, k) { SameBytes(s, s', t, s'.tasks[t].phase); }
    else { var t: nat :| Unlock(s, s', t); HandedBytes(s, s', t); }
  }

  lemma SpawnBytes(s: State, s': State)
    requires BytesOk(s) && Spawn(s, s')
    ensures BytesOk(s')
  {
  }

  lemma LockBytes(s: State, s': State, t: nat)
    requires BytesOk(s) && Lock(s, s', t)
    ensures BytesOk(s')
  {
  }

  lemma HandedBytes(s: State, s': State, t: nat)
    requires BytesOk(s) && Unlock(s, s', t)
    ensures BytesOk(s')
  {
  }

  /** The frames of the first n tasks to arrive. */
  function Frames(s: State, n: nat): (frames: seq<Frame>)
    requires n <= |s.arrivals| && forall i :: 0 <= i < n ==> s.arrivals[i] < |s.tasks|
    ensures |frames| == n
  {
    seq(n, i requires 0 <= i < n => s.tasks[s.arrivals[i]].frame)
  }

  lemma {:induction false} ArrivedIsFrames(s: State, n: nat)
    requires BytesOk(s) && n <= |s.arrivals| && forall i :: 0 <= i < n ==> s.arrivals[i] < |s.tasks|
    ensures Arrived(s, n) == FramesBytes(Frames(s, n))
  {
    if n == 0 {
    } else {
      ArrivedIsFrames(s, n - 1);
      FramesSnoc(s, n - 1);
      FramesBytesSnoc(Frames(s, n - 1), s.tasks[s.arrivals[n - 1]].frame);
    }
  }

  /** Frames never interleave: in every reachable state the wire holds the complete frames of the
      first callers in the order they asked for the lock, then a prefix of the current holder's
      frame and nothing else; there is at most one holder, and callers wait only while it writes. */
  lemma FramesNeverInterleave(run: seq<State>, s: State)
    requires IsRun(run) && s in run
    ensures Shape(s) && s.wire == FramesBytes(Frames(s, s.done)) + Partial(s)
    ensures forall t, u :: 0 <= t < |s.tasks| && 0 <= u < |s.tasks| ==>
                             s.tasks[t].phase.Writing? && s.tasks[u].phase.Writing? ==> t == u
    ensures s.waiters != [] ==> exists t :: 0 <= t < |s.tasks| && s.tasks[t].phase.Writing?
  {
    RunInv(run);
    RunBytes(run);
    assert Inv(s);
    ArrivedIsFrames(s, s.done);
    if s.locked { assert s.tasks[s.arrivals[s.done]].phase.Writing?; }
  }

  /** How many frames are on the wire as a whole: the finished ones, and the holder's if it has
      written all of it and not unlocked yet. */
  function Whole(s: State): (n: nat)
    requires ArrivalsOk(s) && PhasesOk(s)
    ensures n <= |s.arrivals|
  {
    if s.locked && Partial(s) == s.tasks[s.arrivals[s.done]].bytes then s.done + 1 else s.done
  }

  /** So a reader that cuts the wire into frames gets exactly those frames, in lock-arrival order,
      whatever the interleaving and however the writes were split. */
  lemma PeerReadsFramesInOrder(run: seq<State>, s: State)
    requires IsRun(run) && s in run
    requires forall t :: 0 <= t < |s.tasks| ==> Sized(s.tasks[t].frame)
    ensures Shape(s) && Deframe(s.wire) == Frames(s, Whole(s))
  {
    FramesNeverInterleave(run, s);
    RunBytes(run);
    assert BytesOk(s);
    if Whole(s) == s.done {
      if s.locked { HolderPartial(s, s.tasks[s.arrivals[s.done]]); }
      DeframeInverts(Frames(s, s.done), Partial(s));
    } else {
      WholeWire(s);
      DeframeInverts(Frames(s, s.done + 1), []);
    }
  }

  lemma HolderPartial(s: State, h: Task)
    requires Shape(s) && s.locked && h == s.tasks[s.arrivals[s.done]] && Partial(s) != h.bytes
    requires h.bytes == FrameBytes(h.frame) && Sized(h.frame)
    ensures FirstFrame(Partial(s)) == None
  {
    assert h.bytes[..|h.bytes|] == h.bytes;
    PartialFrame(h.frame, h.phase.written);
  }

  lemma WholeWire(s: State)
    requires Shape(s) && BytesOk(s) && Whole(s) == s.done + 1 && s.wire == FramesBytes(Frames(s, s.done)) + Partial(s)
    ensures s.wire == FramesBytes(Frames(s, s.done + 1)) + []
  {
    var f := s.tasks[s.arrivals[s.done]].frame;
    assert Partial(s) == FrameBytes(f);
    FramesSnoc(s, s.done);
    WireSnoc(Frames(s, s.done), f, s.wire);
  }

  lemma FramesSnoc(s: State, n: nat)
    requires n < |s.arrivals| && forall i :: 0 <= i <= n ==> s.arrivals[i] < |s.tasks|
    ensures Frames(s, n + 1) == Frames(s, n) + [s.tasks[s.arrivals[n]].frame]
  {
  }

  lemma WireSnoc(frames: seq<Frame>, f: Frame, wire: seq<byte>)
    requires wire == FramesBytes(frames) + FrameBytes(f)
    ensures wire == FramesBytes(frames + [f]) + []
  {
    FramesBytesSnoc(frames, f);
  }

  /** A newcomer cannot overtake: what has arrived keeps its place in every later state. */
  lemma {:induction false} ArrivalOrderIsFinal(run: seq<State>, i: nat, j: nat)
    requires IsRun(run) && i <= j < |run|
    ensures run[i].arrivals <= run[j].arrivals && run[i].done <= run[j].done
    decreases j
  {
    if i == j {
    } else {
      ArrivalOrderIsFinal(run, i, j - 1);
      assert Next(run[j - 1], run[j]);
    }
  }
}
