/** The thread pool: workers draining the lock-free job queue, clients enqueueing jobs, and the
    destructor, with a mutex and a condition variable used only to wake idle workers. Every
    queue access, lock operation, wait, notification and flag access is one step, and the
    condition variable may wake a waiter spuriously.

    Assumption on the callers: no `enqueue` overlaps the destructor. */
module ThreadPool {
  import Q = MpmcQueue

  datatype Worker<T> =
    | Top                              // about to call try_pop outside the lock
    | FirstTry                         // inside that try_pop
    | WantLock
    | RecheckTop                       // holds wake_mutex_, about to call try_pop again
    | Recheck                          // inside the second try_pop, holding the lock
    | CheckStop                        // recheck failed, about to load stopping_
    | AboutToWait                      // about to call wait(), still holding the lock
    | Waiting                          // in the condition variable's wait set
    | Woken                            // notified, has to get the lock back
    | Reacquired
    | UnlockThenRun(ticket: nat, job: T)
    | Run(ticket: nat, job: T)
    | Exiting                          // returning, the lock is released on the way out
    | Exited
  {
    predicate HoldsLock() {
      RecheckTop? || Recheck? || CheckStop? || AboutToWait? || Reacquired? || UnlockThenRun? || Exiting?
    }
    predicate Popping() { FirstTry? || Recheck? }
    predicate Awake() { !Waiting? && !Exited? }
  }

  datatype Client<T> =
    | Outside
    | Pushing(job: T)                  // inside the try_push loop
    | WantNotify                       // pushed, about to take wake_mutex_
    | Notifying                        // holds the lock, about to notify_one
    | Unlocking
  {
    predicate HoldsLock() { Notifying? || Unlocking? }
  }

  datatype Destructor = NotStarted | StopWantsLock | StopHolds | NotifyAll | Joining | Done

  datatype Holder = Free | HeldByWorker(i: nat) | HeldByClient(j: nat) | HeldByDestructor

  /** `ran` is history: the queue tickets of the jobs that were run, in order. */
  datatype Pool<T> = Pool(
    q: Q.State<T>,
    workers: seq<Worker<T>>,
    clients: seq<Client<T>>,
    mutex: Holder,
    stopping: bool,
    destructor: Destructor,
    ran: seq<nat>)

  // --------------------------------------------------------------- transitions

  ghost predicate Init<T>(s: Pool<T>) {
    && Q.Init(s.q) && s.q.capacity >= 2
    && |s.workers| >= 1 && |s.q.threads| == |s.workers| + |s.clients|
    && (forall i :: 0 <= i < |s.workers| ==> s.workers[i] == Top)
    && (forall j :: 0 <= j < |s.clients| ==> s.clients[j] == Outside)
    && s.mutex == Free && !s.stopping && s.destructor == NotStarted && s.ran == []
  }

  function WorkerTo<T>(s: Pool<T>, i: nat, w: Worker<T>): Pool<T>
    requires i < |s.workers|
  {
    s.(workers := s.workers[i := w])
  }

  function ClientTo<T>(s: Pool<T>, j: nat, c: Client<T>): Pool<T>
    requires j < |s.clients|
  {
    s.(clients := s.clients[j := c])
  }

  ghost predicate Sized<T>(s: Pool<T>) {
    |s.q.threads| == |s.workers| + |s.clients| && Q.WellSized(s.q)
  }

  /** One step of `worker_loop`; while the worker is inside `try_pop`, what the queue may do is
      given by `popMoves`. */
  ghost predicate WorkerMove<T>(s: Pool<T>, s': Pool<T>, i: nat, popMoves: bool)
    requires |s.q.threads| == |s.workers| + |s.clients| && i < |s.workers|
  {
    var th := s.q.threads[i];
    match s.workers[i]
    case Top => s' == WorkerTo(s, i, FirstTry).(q := Q.Goto(s.q, i, Q.PopLoad))
    case FirstTry =>
      if th.PopDone? then s' == WorkerTo(s, i, Run(th.pos, th.out)).(q := Q.Goto(s.q, i, Q.Idle))
      else if th.PopEmpty? then s' == WorkerTo(s, i, WantLock)
      else s' == s.(q := s'.q) && popMoves
    case WantLock => s.mutex == Free && s' == WorkerTo(s, i, RecheckTop).(mutex := HeldByWorker(i))
    case RecheckTop => s' == WorkerTo(s, i, Recheck).(q := Q.Goto(s.q, i, Q.PopLoad))
    case Recheck =>
      if th.PopDone? then s' == WorkerTo(s, i, UnlockThenRun(th.pos, th.out)).(q := Q.Goto(s.q, i, Q.Idle))
      else if th.PopEmpty? then s' == WorkerTo(s, i, CheckStop)
      else s' == s.(q := s'.q) && popMoves
    case UnlockThenRun(p, v) => s' == WorkerTo(s, i, Run(p, v)).(mutex := Free)
    case Run(p, v) => s' == WorkerTo(s, i, Top).(ran := s.ran + [p])
    case CheckStop => s' == WorkerTo(s, i, if s.stopping then Exiting else AboutToWait)
    case AboutToWait => s' == WorkerTo(s, i, Waiting).(mutex := Free)
    case Waiting => s' == WorkerTo(s, i, Woken)       // spurious wakeup
    case Woken => s.mutex == Free && s' == WorkerTo(s, i, Reacquired).(mutex := HeldByWorker(i))
    case Reacquired => s' == WorkerTo(s, i, Top).(mutex := Free)
    case Exiting => s' == WorkerTo(s, i, Exited).(mutex := Free)
    case Exited => false
  }

  ghost predicate WorkerStep<T(!new)>(s: Pool<T>, s': Pool<T>, i: nat)
    requires Sized(s) && i < |s.workers|
  {
    WorkerMove(s, s', i, Q.PopStep(s.q, s'.q, i))
  }

  /** One step of a thread calling `enqueue`. */
  ghost predicate ClientMove<T(!new)>(s: Pool<T>, s': Pool<T>, j: nat, pushMoves: bool)
    requires |s.q.threads| == |s.workers| + |s.clients| && j < |s.clients|
  {
    var t := |s.workers| + j;
    var th := s.q.threads[t];
    match s.clients[j]
    case Outside =>
      s.destructor == NotStarted
      && exists v :: s' == ClientTo(s, j, Pushing(v)).(q := Q.Goto(s.q, t, Q.PushLoad(v)))
    case Pushing(v) =>
      if th.PushDone? then s' == ClientTo(s, j, WantNotify)
      else if th.PushFull? then s' == s.(q := Q.Goto(s.q, t, Q.PushLoad(v)))
      else s' == s.(q := s'.q) && pushMoves
    case WantNotify => s.mutex == Free && s' == ClientTo(s, j, Notifying).(mutex := HeldByClient(j))
    case Notifying =>
      var t := ClientTo(s, j, Unlocking);
      if exists i :: 0 <= i < |s.workers| && s.workers[i].Waiting? then
        exists i :: 0 <= i < |s.workers| && s.workers[i].Waiting? && s' == WorkerTo(t, i, Woken)
      else s' == t
    case Unlocking => s' == ClientTo(s, j, Outside).(mutex := Free)
  }

  ghost predicate ClientStep<T(!new)>(s: Pool<T>, s': Pool<T>, j: nat)
    requires Sized(s) && j < |s.clients|
  {
    ClientMove(s, s', j, Q.PushStep(s.q, s'.q, |s.workers| + j))
  }

  /** One step of `~thread_pool`. */
  ghost predicate DestructorStep<T>(s: Pool<T>, s': Pool<T>) {
    match s.destructor
    case NotStarted =>
      (forall j :: 0 <= j < |s.clients| ==> s.clients[j] == Outside)
      && s' == s.(stopping := true, destructor := StopWantsLock)
    case StopWantsLock => s.mutex == Free && s' == s.(mutex := HeldByDestructor, destructor := StopHolds)
    case StopHolds => s' == s.(mutex := Free, destructor := NotifyAll)
    case NotifyAll =>
      s' == s.(destructor := Joining,
               workers := seq(|s.workers|, i requires 0 <= i < |s.workers| =>
                              if s.workers[i].Waiting? then Woken else s.workers[i]))
    case Joining =>
      (forall i :: 0 <= i < |s.workers| ==> s.workers[i].Exited?) && s' == s.(destructor := Done)
    case Done => false
  }

  ghost predicate Next<T(!new)>(s: Pool<T>, s': Pool<T>) {
    && Sized(s)
    && ((exists i: nat :: i < |s.workers| && WorkerStep(s, s', i))
        || (exists j: nat :: j < |s.clients| && ClientStep(s, s', j))
        || DestructorStep(s, s'))
  }

  ghost predicate IsRun<T(!new)>(run: seq<Pool<T>>) {
    && |run| >= 1 && Init(run[0])
    && forall i, j :: 0 <= i < j < |run| && j == i + 1 ==> Next(run[i], run[j])
  }

  // ----------------------------------------------------- what the queue promises

  predicate PopKind<T>(th: Q.Thread<T>) {
    th.PopLoad? || th.PopCheck? || th.PopCas? || th.PopRead? || th.PopRelease? || th.PopDone? || th.PopEmpty?
  }

  ghost predicate PushKind<T>(th: Q.Thread<T>, v: T) {
    || ((th.PushLoad? || th.PushCheck? || th.PushCas? || th.PushWrite? || th.PushPublish?) && th.item == v)
    || th.PushDone? || th.PushFull?
  }

  /** The push has its ticket. */
  predicate Ticketed<T>(th: Q.Thread<T>) { th.PushWrite? || th.PushPublish? || th.PushDone? }

  ghost predicate SameButThread<T>(q: Q.State<T>, q': Q.State<T>, t: nat) {
    && t < |q.threads| == |q'.threads|
    && forall u :: 0 <= u < |q.threads| && u != t ==> q'.threads[u] == q.threads[u]
  }

  ghost predicate SomeonePushes<T>(q: Q.State<T>, p: nat) {
    exists u :: 0 <= u < |q.threads| && q.threads[u].Pushes(p)
  }

  ghost predicate PopObserved<T>(q: Q.State<T>, q': Q.State<T>, t: nat)
  {
    && SameButThread(q, q', t)
    && PopKind(q'.threads[t])
    && q'.enqueuePos == q.enqueuePos && q'.pushed == q.pushed
    && q.dequeuePos <= q'.dequeuePos <= q'.enqueuePos
    && (if q'.threads[t].PopDone? then
          var p := q'.threads[t].pos;
          p !in q.popped && q'.popped == q.popped[p := q'.threads[t].out]
        else q'.popped == q.popped)
    && (q'.threads[t].PopEmpty? ==> q.dequeuePos == q.enqueuePos || SomeonePushes(q, q.dequeuePos))
  }

  lemma ObservePop<T(!new)>(q: Q.State<T>, q': Q.State<T>, t: nat)
    requires Q.Inv(q) && t < |q.threads| && Q.PopStep(q, q', t)
    requires PopKind(q.threads[t]) && !q.threads[t].PopDone? && !q.threads[t].PopEmpty?
    ensures Q.Inv(q') && PopObserved(q, q', t)
  {
    Q.PopStepInv(q, q', t);
    assert Q.ThreadInv(q, q.threads[t]);
    if q'.threads[t].PopEmpty? { Q.HeadOfFailedPop(q, t); }
  }

  ghost predicate PushObserved<T>(q: Q.State<T>, q': Q.State<T>, t: nat, v: T)
  {
    && SameButThread(q, q', t)
    && PushKind(q'.threads[t], v)
    && q'.dequeuePos == q.dequeuePos && q'.popped == q.popped
    && (Ticketed(q.threads[t]) ==> Ticketed(q'.threads[t]))
    && ((q'.enqueuePos == q.enqueuePos && q'.pushed == q.pushed)
        || (q'.enqueuePos == q.enqueuePos + 1 && Ticketed(q'.threads[t]) && q'.pushed == q.pushed + [v]))
  }

  lemma ObservePush<T(!new)>(q: Q.State<T>, q': Q.State<T>, t: nat, v: T)
    requires Q.Inv(q) && t < |q.threads| && Q.PushStep(q, q', t)
    requires PushKind(q.threads[t], v) && !q.threads[t].PushDone? && !q.threads[t].PushFull?
    ensures Q.Inv(q') && PushObserved(q, q', t, v)
  {
    Q.PushStepInv(q, q', t);
  }

  // ---------------------------------------------------------------- invariant

  /** Each thread is in the queue operation its own program counter says it is in. */
  ghost predicate Roles<T>(s: Pool<T>) {
    && |s.workers| >= 1 && |s.q.threads| == |s.workers| + |s.clients|
    && (forall i :: 0 <= i < |s.workers| ==> WorkerRole(s.workers[i], s.q.threads[i]))
    && (forall j :: 0 <= j < |s.clients| ==> ClientRole(s.clients[j], s.q.threads[|s.workers| + j]))
  }

  predicate WorkerRole<T>(w: Worker<T>, th: Q.Thread<T>) {
    if w.Popping() then PopKind(th) else th.AtRest()
  }

  ghost predicate ClientRole<T>(c: Client<T>, th: Q.Thread<T>) {
    if c.Pushing? then PushKind(th, c.job) else th.AtRest()
  }

  ghost predicate Locks<T>(s: Pool<T>) {
    && (forall i :: 0 <= i < |s.workers| ==> (s.workers[i].HoldsLock() <==> s.mutex == HeldByWorker(i)))
    && (forall j :: 0 <= j < |s.clients| ==> (s.clients[j].HoldsLock() <==> s.mutex == HeldByClient(j)))
    && (s.destructor == StopHolds <==> s.mutex == HeldByDestructor)
  }

  ghost predicate Flags<T>(s: Pool<T>) {
    && (s.stopping <==> s.destructor != NotStarted)
    && (s.stopping ==> forall j :: 0 <= j < |s.clients| ==> s.clients[j] == Outside)
    && (s.destructor == Done ==> forall i :: 0 <= i < |s.workers| ==> s.workers[i].Exited?)
    && (s.destructor in {NotifyAll, Joining, Done} ==> forall i :: 0 <= i < |s.workers| ==> !s.workers[i].AboutToWait?)
    && (s.destructor in {Joining, Done} ==> forall i :: 0 <= i < |s.workers| ==> !s.workers[i].Waiting?)
  }

  /** Client j's push has its ticket, and its notification is still to come. */
  ghost predicate InFlight<T>(s: Pool<T>, j: nat)
    requires |s.q.threads| == |s.workers| + |s.clients|
  {
    && j < |s.clients|
    && match s.clients[j]
       case Pushing(_) => Ticketed(s.q.threads[|s.workers| + j])
       case WantNotify => true
       case Notifying => true
       case _ => false
  }

  ghost predicate SomeInFlight<T>(s: Pool<T>)
    requires |s.q.threads| == |s.workers| + |s.clients|
  {
    exists j: nat :: InFlight(s, j)
  }

  ghost predicate SomeAwake<T>(s: Pool<T>) {
    exists i :: 0 <= i < |s.workers| && s.workers[i].Awake()
  }

  /** A worker that has seen the queue empty while holding the lock. */
  ghost predicate SawEmpty<T>(s: Pool<T>, i: nat)
    requires |s.q.threads| == |s.workers| + |s.clients| && i < |s.workers|
  {
    SawNothing(s.workers[i], s.q.threads[i])
  }

  predicate SawNothing<T>(w: Worker<T>, th: Q.Thread<T>) {
    (w.Recheck? && th.PopEmpty?) || w.CheckStop? || w.AboutToWait?
  }

  ghost predicate Wakeups<T>(s: Pool<T>)
    requires |s.q.threads| == |s.workers| + |s.clients|
  {
    && s.q.dequeuePos <= s.q.enqueuePos
    && (forall i :: 0 <= i < |s.workers| && SawEmpty(s, i) ==> s.q.dequeuePos == s.q.enqueuePos || SomeInFlight(s))
    && (forall i :: 0 <= i < |s.workers| && (s.workers[i].Exiting? || s.workers[i].Exited?) ==>
                      s.stopping && s.q.dequeuePos == s.q.enqueuePos)
    && (s.q.dequeuePos < s.q.enqueuePos ==> SomeInFlight(s) || SomeAwake(s))
  }

  /** Worker i has popped ticket p and not finished its job. */
  predicate HoldsJob<T>(s: Pool<T>, i: nat, p: nat)
    requires |s.q.threads| == |s.workers| + |s.clients| && i < |s.workers|
  {
    CarriesJob(s.workers[i], s.q.threads[i], p)
  }

  predicate CarriesJob<T>(w: Worker<T>, th: Q.Thread<T>, p: nat) {
    || (w.Popping() && th.PopDone? && th.pos == p)
    || ((w.UnlockThenRun? || w.Run?) && w.ticket == p)
  }

  /** The value carried is the one the queue recorded for the ticket. */
  ghost predicate ValueOk<T>(w: Worker<T>, th: Q.Thread<T>, popped: map<nat, T>) {
    && (w.Popping() && th.PopDone? ==> th.pos in popped && popped[th.pos] == th.out)
    && (w.UnlockThenRun? || w.Run? ==> w.ticket in popped && popped[w.ticket] == w.job)
  }

  ghost predicate Jobs<T>(s: Pool<T>)
    requires |s.q.threads| == |s.workers| + |s.clients|
  {
    && (forall i :: 0 <= i < |s.workers| ==> ValueOk(s.workers[i], s.q.threads[i], s.q.popped))
    && (forall k :: 0 <= k < |s.ran| ==> s.ran[k] in s.q.popped)
    && (forall k, l :: 0 <= k < l < |s.ran| ==> s.ran[k] != s.ran[l])
    && (forall p :: p in s.q.popped ==> p in s.ran || exists i :: 0 <= i < |s.workers| && HoldsJob(s, i, p))
    && (forall i, p :: 0 <= i < |s.workers| && HoldsJob(s, i, p) ==> p in s.q.popped && p !in s.ran)
    && (forall i, k, p :: 0 <= i < k < |s.workers| ==> !(HoldsJob(s, i, p) && HoldsJob(s, k, p)))
  }

  ghost predicate Inv<T>(s: Pool<T>) {
    Roles(s) && Locks(s) && Flags(s) && Wakeups(s) && Jobs(s)
  }

  /** The queue invariant, boxed so that proofs about the pool do not unfold it. */
  ghost predicate QueueOk<T>(q: Q.State<T>) { forall x :: x == q ==> Q.Inv(x) }

  lemma WorkerOnQueue<T(!new)>(s: Pool<T>, s': Pool<T>, i: nat)
    requires QueueOk(s.q) && Roles(s) && Sized(s) && i < |s.workers| && WorkerStep(s, s', i)
    ensures QueueOk(s'.q) && WorkerMove(s, s', i, PopObserved(s.q, s'.q, i))
  {
    assert Q.Inv(s.q);
    var w, th := s.workers[i], s.q.threads[i];
    if w.Popping() && !th.PopDone? && !th.PopEmpty? {
      ObservePop(s.q, s'.q, i);
    } else if s'.q != s.q {
      Q.GotoInv(s.q, i, s'.q.threads[i]);
    }
  }

  /** Everything but worker i, its queue thread, the mutex and the queue's counters is as before. */
  ghost predicate WorkerFrame<T>(s: Pool<T>, s': Pool<T>, i: nat) {
    && i < |s.workers| == |s'.workers| && s'.clients == s.clients
    && s'.stopping == s.stopping && s'.destructor == s.destructor
    && SameButThread(s.q, s'.q, i)
    && (forall k :: 0 <= k < |s.workers| && k != i ==> s'.workers[k] == s.workers[k])
    && s'.q.enqueuePos == s.q.enqueuePos
    && s.q.dequeuePos <= s'.q.dequeuePos <= s'.q.enqueuePos
  }

  /** What the step does to worker i and the mutex. */
  ghost predicate WorkerEffect<T>(s: Pool<T>, s': Pool<T>, i: nat)
    requires WorkerFrame(s, s', i)
  {
    var w, w' := s.workers[i], s'.workers[i];
    && WorkerRole(w', s'.q.threads[i])
    && s'.mutex == (if w'.HoldsLock() then HeldByWorker(i) else if w.HoldsLock() then Free else s.mutex)
    && (w'.HoldsLock() && !w.HoldsLock() ==> s.mutex == Free)
    && !w.Exited?
  }

  ghost predicate WorkerSleeps<T>(s: Pool<T>, s': Pool<T>, i: nat)
    requires WorkerFrame(s, s', i)
  {
    var w, w', th, th' := s.workers[i], s'.workers[i], s.q.threads[i], s'.q.threads[i];
    && (w'.AboutToWait? ==> !s.stopping)
    && (w'.Waiting? ==> w.AboutToWait?)
    && (SawNothing(w', th') ==>
          SawNothing(w, th) || s.q.dequeuePos == s.q.enqueuePos || SomeonePushes(s.q, s.q.dequeuePos))
    && (w'.Exiting? ==> s.stopping && SawNothing(w, th)) && (w'.Exited? ==> w.Exiting?)
  }

  ghost predicate MayStep<T>(s: Pool<T>, s': Pool<T>, i: nat) {
    && |s.q.threads| == |s.workers| + |s.clients| && i < |s.workers| && WorkerRole(s.workers[i], s.q.threads[i])
    && s.q.dequeuePos <= s.q.enqueuePos && (s.workers[i].HoldsLock() <==> s.mutex == HeldByWorker(i))
    && WorkerMove(s, s', i, PopObserved(s.q, s'.q, i))
  }

  /** A worker takes up a ticket nobody has popped before, finishes the job it carries, or
      neither. */
  ghost predicate WorkerJob<T>(s: Pool<T>, s': Pool<T>, i: nat)
    requires WorkerFrame(s, s', i)
  {
    var w, w', th, th' := s.workers[i], s'.workers[i], s.q.threads[i], s'.q.threads[i];
    (ValueOk(w, th, s.q.popped) ==> ValueOk(w', th', s'.q.popped)) &&
    if w.Run? then
      && s'.q.popped == s.q.popped && s'.ran == s.ran + [w.ticket]
      && forall p :: !CarriesJob(w', th', p)
    else if th'.PopDone? && !th.PopDone? then
      && th'.pos !in s.q.popped && s'.q.popped == s.q.popped[th'.pos := th'.out] && s'.ran == s.ran
      && forall p :: !CarriesJob(w, th, p) && (CarriesJob(w', th', p) <==> p == th'.pos)
    else
      && s'.q.popped == s.q.popped && s'.ran == s.ran
      && forall p :: CarriesJob(w', th', p) <==> CarriesJob(w, th, p)
  }

  lemma WorkerFrames<T>(s: Pool<T>, s': Pool<T>, i: nat)
    requires MayStep(s, s', i)
    ensures WorkerFrame(s, s', i)
  {
    if s.workers[i].Popping() { PoppingWorkerFrames(s, s', i); } else { OtherWorkerFrames(s, s', i); }
  }

  lemma PoppingWorkerFrames<T>(s: Pool<T>, s': Pool<T>, i: nat)
    requires MayStep(s, s', i) && s.workers[i].Popping()
    ensures WorkerFrame(s, s', i)
  {
  }

  lemma OtherWorkerFrames<T>(s: Pool<T>, s': Pool<T>, i: nat)
    requires MayStep(s, s', i) && !s.workers[i].Popping()
    ensures WorkerFrame(s, s', i)
  {
  }

  lemma WorkerEffects<T>(s: Pool<T>, s': Pool<T>, i: nat)
    requires MayStep(s, s', i) && WorkerFrame(s, s', i)
    ensures WorkerEffect(s, s', i)
  {
    if s.workers[i].Popping() { PoppingWorkerEffects(s, s', i); } else { OtherWorkerEffects(s, s', i); }
  }

  lemma PoppingWorkerEffects<T>(s: Pool<T>, s': Pool<T>, i: nat)
    requires MayStep(s, s', i) && WorkerFrame(s, s', i) && s.workers[i].Popping()
    ensures WorkerEffect(s, s', i)
  {
  }

  lemma OtherWorkerEffects<T>(s: Pool<T>, s': Pool<T>, i: nat)
    requires MayStep(s, s', i) && WorkerFrame(s, s', i) && !s.workers[i].Popping()
    ensures WorkerEffect(s, s', i)
  {
  }

  lemma WorkerSleepsSafely<T>(s: Pool<T>, s': Pool<T>, i: nat)
    requires MayStep(s, s', i) && WorkerFrame(s, s', i)
    ensures WorkerSleeps(s, s', i)
  {
    if s.workers[i].Popping() { PoppingWorkerSleepsSafely(s, s', i); } else { OtherWorkerSleepsSafely(s, s', i); }
  }

  lemma PoppingWorkerSleepsSafely<T>(s: Pool<T>, s': Pool<T>, i: nat)
    requires MayStep(s, s', i) && WorkerFrame(s, s', i) && s.workers[i].Popping()
    ensures WorkerSleeps(s, s', i)
  {
  }

  lemma OtherWorkerSleepsSafely<T>(s: Pool<T>, s': Pool<T>, i: nat)
    requires MayStep(s, s', i) && WorkerFrame(s, s', i) && !s.workers[i].Popping()
    ensures WorkerSleeps(s, s', i)
  {
  }

  lemma WorkerDoesJob<T>(s: Pool<T>, s': Pool<T>, i: nat)
    requires MayStep(s, s', i) && WorkerFrame(s, s', i)
    ensures WorkerJob(s, s', i)
  {
    if s.workers[i].Popping() { PoppingWorkerDoesJob(s, s', i); } else { OtherWorkerDoesJob(s, s', i); }
  }

  lemma PoppingWorkerDoesJob<T>(s: Pool<T>, s': Pool<T>, i: nat)
    requires MayStep(s, s', i) && WorkerFrame(s, s', i) && s.workers[i].Popping()
    ensures WorkerJob(s, s', i)
  {
  }

  lemma OtherWorkerDoesJob<T>(s: Pool<T>, s': Pool<T>, i: nat)
    requires MayStep(s, s', i) && WorkerFrame(s, s', i) && !s.workers[i].Popping()
    ensures WorkerJob(s, s', i)
  {
  }

  lemma WorkerKeepsRoles<T>(s: Pool<T>, s': Pool<T>, i: nat)
    requires Roles(s) && Locks(s) && WorkerFrame(s, s', i) && WorkerEffect(s, s', i)
    ensures Roles(s') && Locks(s')
  {
  }

  lemma WorkerKeepsFlags<T>(s: Pool<T>, s': Pool<T>, i: nat)
    requires Flags(s) && WorkerFrame(s, s', i) && WorkerEffect(s, s', i) && WorkerSleeps(s, s', i)
    ensures Flags(s')
  {
  }

  lemma PusherIsClient<T>(s: Pool<T>, p: nat)
    requires Roles(s) && SomeonePushes(s.q, p)
    ensures SomeInFlight(s)
  {
    var u: nat :| u < |s.q.threads| && s.q.threads[u].Pushes(p);
    assert u < |s.workers| ==> WorkerRole(s.workers[u], s.q.threads[u]);
    assert InFlight(s, u - |s.workers|);
  }

  lemma WorkerKeepsWakeups<T>(s: Pool<T>, s': Pool<T>, i: nat)
    requires Roles(s) && Roles(s') && Flags(s) && Wakeups(s)
    requires WorkerFrame(s, s', i) && WorkerEffect(s, s', i) && WorkerSleeps(s, s', i)
    ensures Wakeups(s')
  {
    if SomeonePushes(s.q, s.q.dequeuePos) { PusherIsClient(s, s.q.dequeuePos); }
    if j: nat :| InFlight(s, j) { assert InFlight(s', j); }
    forall k | 0 <= k < |s'.workers| && SawEmpty(s', k)
      ensures s'.q.dequeuePos == s'.q.enqueuePos || SomeInFlight(s')
    {
      if k == i {
        assert SawNothing(s'.workers[i], s'.q.threads[i]);
        assert SawNothing(s.workers[i], s.q.threads[i]) ==> SawEmpty(s, i);
      }
      else { assert SawEmpty(s, k); }
    }
    assert s.stopping ==> !SomeInFlight(s);
    if s'.workers[i].Exiting? { assert SawEmpty(s, i); }
    if s'.workers[i].Awake() { assert SomeAwake(s'); }
    else if s.workers[i].AboutToWait? { assert SawEmpty(s, i); }
  }

  lemma WorkerKeepsJobs<T>(s: Pool<T>, s': Pool<T>, i: nat)
    requires Roles(s) && Roles(s') && Jobs(s) && WorkerFrame(s, s', i) && WorkerJob(s, s', i)
    ensures Jobs(s')
  {
    if s.workers[i].Run? { FinishesJob(s, s', i); }
    else if s'.q.threads[i].PopDone? && !s.q.threads[i].PopDone? { TakesJob(s, s', i); }
    else { SameJobs(s, s', i); }
  }

  lemma FinishesJob<T>(s: Pool<T>, s': Pool<T>, i: nat)
    requires Roles(s) && Roles(s') && Jobs(s) && WorkerFrame(s, s', i) && WorkerJob(s, s', i) && s.workers[i].Run?
    ensures Jobs(s')
  {
    assert forall k, p :: 0 <= k < |s.workers| && k != i ==> (HoldsJob(s', k, p) <==> HoldsJob(s, k, p));
    assert HoldsJob(s, i, s.workers[i].ticket);
    assert forall p :: !HoldsJob(s', i, p);
  }

  lemma TakesJob<T>(s: Pool<T>, s': Pool<T>, i: nat)
    requires Roles(s) && Roles(s') && Jobs(s) && WorkerFrame(s, s', i) && WorkerJob(s, s', i) && !s.workers[i].Run?
    requires s'.q.threads[i].PopDone? && !s.q.threads[i].PopDone?
    ensures Jobs(s')
  {
    var pos := s'.q.threads[i].pos;
    assert forall k, p :: 0 <= k < |s.workers| && k != i ==> (HoldsJob(s', k, p) <==> HoldsJob(s, k, p));
    assert forall p :: !HoldsJob(s, i, p) && (HoldsJob(s', i, p) <==> p == pos);
    assert HoldsJob(s', i, pos);
  }

  lemma SameJobs<T>(s: Pool<T>, s': Pool<T>, i: nat)
    requires Roles(s) && Roles(s') && Jobs(s) && WorkerFrame(s, s', i) && WorkerJob(s, s', i) && !s.workers[i].Run?
    requires !s'.q.threads[i].PopDone? || s.q.threads[i].PopDone?
    ensures Jobs(s')
  {
    assert forall k, p :: 0 <= k < |s.workers| && k != i ==> (HoldsJob(s', k, p) <==> HoldsJob(s, k, p));
    assert forall p :: HoldsJob(s', i, p) <==> HoldsJob(s, i, p);
  }

  lemma WorkerStepInv<T(!new)>(s: Pool<T>, s': Pool<T>, i: nat)
    requires QueueOk(s.q) && Inv(s) && Sized(s) && i < |s.workers| && WorkerStep(s, s', i)
    ensures QueueOk(s'.q) && Inv(s')
  {
    WorkerOnQueue(s, s', i);
    assert WorkerRole(s.workers[i], s.q.threads[i]);
    WorkerFrames(s, s', i);
    WorkerEffects(s, s', i);
    WorkerSleepsSafely(s, s', i);
    WorkerDoesJob(s, s', i);
    WorkerKeepsRoles(s, s', i);
    WorkerKeepsFlags(s, s', i);
    WorkerKeepsWakeups(s, s', i);
    WorkerKeepsJobs(s, s', i);
  }

  // ------------------------------------------------------------------ clients

  ghost predicate ClientMoved<T(!new)>(s: Pool<T>, s': Pool<T>, j: nat)
    requires Roles(s) && j < |s.clients|
  {
    var t := |s.workers| + j;
    ClientMove(s, s', j, s.clients[j].Pushing? && PushObserved(s.q, s'.q, t, s.clients[j].job))
  }

  lemma ClientOnQueue<T(!new)>(s: Pool<T>, s': Pool<T>, j: nat)
    requires QueueOk(s.q) && Roles(s) && Sized(s) && j < |s.clients| && ClientStep(s, s', j)
    ensures QueueOk(s'.q) && ClientMoved(s, s', j)
  {
    var t := |s.workers| + j;
    var c, th := s.clients[j], s.q.threads[t];
    assert ClientRole(c, th);
    if c.Pushing? && !th.PushDone? && !th.PushFull? {
      assert Q.Inv(s.q);
      ObservePush(s.q, s'.q, t, c.job);
    } else if s'.q != s.q {
      ClientGoesOn(s, s', j);
    }
  }

  /** Starting a push, or starting it over. */
  lemma ClientGoesOn<T(!new)>(s: Pool<T>, s': Pool<T>, j: nat)
    requires QueueOk(s.q) && Roles(s) && Sized(s) && j < |s.clients| && ClientStep(s, s', j) && s'.q != s.q
    requires s.clients[j].Pushing? ==> s.q.threads[|s.workers| + j].PushDone? || s.q.threads[|s.workers| + j].PushFull?
    ensures QueueOk(s'.q)
  {
    var t := |s.workers| + j;
    assert ClientRole(s.clients[j], s.q.threads[t]);
    assert Q.Inv(s.q);
    Q.GotoInv(s.q, t, s'.q.threads[t]);
  }

  /** Workers change only from Waiting to Woken, other clients not at all. */
  ghost predicate ClientFrame<T>(s: Pool<T>, s': Pool<T>, j: nat) {
    && |s.q.threads| == |s.workers| + |s.clients|
    && j < |s.clients| == |s'.clients| && |s'.workers| == |s.workers|
    && s'.stopping == s.stopping && s'.destructor == s.destructor && s'.ran == s.ran
    && SameButThread(s.q, s'.q, |s.workers| + j)
    && (forall k :: 0 <= k < |s.clients| && k != j ==> s'.clients[k] == s.clients[k])
    && (forall i :: 0 <= i < |s.workers| ==>
                      s'.workers[i] == s.workers[i] || (s.workers[i].Waiting? && s'.workers[i].Woken?))
    && s'.q.dequeuePos == s.q.dequeuePos && s'.q.popped == s.q.popped
  }

  ghost predicate ClientEffect<T>(s: Pool<T>, s': Pool<T>, j: nat)
    requires ClientFrame(s, s', j)
  {
    var c, c', th' := s.clients[j], s'.clients[j], s'.q.threads[|s.workers| + j];
    && ClientRole(c', th')
    && s'.mutex == (if c'.HoldsLock() then HeldByClient(j) else if c.HoldsLock() then Free else s.mutex)
    && (c'.HoldsLock() && !c.HoldsLock() ==> s.mutex == Free)
    && (c.Outside? ==> s.destructor == NotStarted)
    && (s'.q.enqueuePos == s.q.enqueuePos || (s'.q.enqueuePos > s.q.enqueuePos && InFlight(s', j)))
    && (InFlight(s, j) && !InFlight(s', j) ==>
          c.Notifying? && (forall i :: 0 <= i < |s.workers| && s.workers[i].Waiting? ==> SomeAwake(s')))
  }

  lemma ClientFrames<T(!new)>(s: Pool<T>, s': Pool<T>, j: nat)
    requires Roles(s) && j < |s.clients| && ClientMoved(s, s', j)
    ensures ClientFrame(s, s', j)
  {
  }

  lemma ClientEffects<T(!new)>(s: Pool<T>, s': Pool<T>, j: nat)
    requires Roles(s) && Locks(s) && j < |s.clients| && ClientMoved(s, s', j) && ClientFrame(s, s', j)
    ensures ClientEffect(s, s', j)
  {
    if s.clients[j].Pushing? { PushingEffects(s, s', j); } else { OtherClientEffects(s, s', j); }
  }

  lemma PushingEffects<T(!new)>(s: Pool<T>, s': Pool<T>, j: nat)
    requires Roles(s) && Locks(s) && j < |s.clients| && ClientMoved(s, s', j) && ClientFrame(s, s', j)
    requires s.clients[j].Pushing?
    ensures ClientEffect(s, s', j)
  {
    assert ClientRole(s.clients[j], s.q.threads[|s.workers| + j]);
  }

  lemma OtherClientEffects<T(!new)>(s: Pool<T>, s': Pool<T>, j: nat)
    requires Roles(s) && Locks(s) && j < |s.clients| && ClientMoved(s, s', j) && ClientFrame(s, s', j)
    requires !s.clients[j].Pushing?
    ensures ClientEffect(s, s', j)
  {
    assert ClientRole(s.clients[j], s.q.threads[|s.workers| + j]);
  }

  lemma ClientKeepsRoles<T>(s: Pool<T>, s': Pool<T>, j: nat)
    requires Roles(s) && Locks(s) && Flags(s) && ClientFrame(s, s', j) && ClientEffect(s, s', j)
    ensures Roles(s') && Locks(s') && Flags(s')
  {
    assert s.clients[j].Outside? ==> !s.stopping;
  }

  /** The notification: the client holds the lock, so no worker has just seen the queue empty. */
  lemma NotifyWakes<T>(s: Pool<T>, s': Pool<T>, j: nat)
    requires Roles(s) && Roles(s') && Locks(s) && Flags(s) && Wakeups(s)
    requires ClientFrame(s, s', j) && ClientEffect(s, s', j)
    requires InFlight(s, j) && !InFlight(s', j)
    ensures SomeAwake(s') && forall i :: 0 <= i < |s'.workers| ==> !SawEmpty(s', i)
  {
    assert s.mutex == HeldByClient(j);
    assert forall i :: 0 <= i < |s.workers| ==> !s.workers[i].HoldsLock();
    assert !s.workers[0].Exited?;
    if !s.workers[0].Waiting? { assert s'.workers[0].Awake(); }
  }

  lemma FlightKept<T>(s: Pool<T>, s': Pool<T>, j: nat)
    requires Roles(s) && Roles(s') && ClientFrame(s, s', j) && (InFlight(s, j) ==> InFlight(s', j))
    ensures SomeInFlight(s) ==> SomeInFlight(s')
    ensures SomeAwake(s) ==> SomeAwake(s')
    ensures forall i :: 0 <= i < |s'.workers| && SawEmpty(s', i) ==> SawEmpty(s, i)
  {
    assert forall k: nat :: k != j && InFlight(s, k) ==> InFlight(s', k);
    if SomeAwake(s) {
      var i :| 0 <= i < |s.workers| && s.workers[i].Awake();
      assert s'.workers[i].Awake();
    }
  }

  lemma ClientKeepsWakeups<T>(s: Pool<T>, s': Pool<T>, j: nat)
    requires Roles(s) && Roles(s') && Locks(s) && Flags(s) && Wakeups(s)
    requires ClientFrame(s, s', j) && ClientEffect(s, s', j)
    ensures Wakeups(s')
  {
    assert !s.stopping;
    if InFlight(s, j) && !InFlight(s', j) {
      NotifyWakes(s, s', j);
    } else {
      FlightKept(s, s', j);
    }
  }

  lemma ClientKeepsJobs<T>(s: Pool<T>, s': Pool<T>, j: nat)
    requires Roles(s) && Roles(s') && Jobs(s) && ClientFrame(s, s', j)
    ensures Jobs(s')
  {
    assert forall i, p :: 0 <= i < |s.workers| ==> (HoldsJob(s', i, p) <==> HoldsJob(s, i, p));
  }

  lemma ClientStepInv<T(!new)>(s: Pool<T>, s': Pool<T>, j: nat)
    requires QueueOk(s.q) && Inv(s) && Sized(s) && j < |s.clients| && ClientStep(s, s', j)
    ensures QueueOk(s'.q) && Inv(s')
  {
    ClientOnQueue(s, s', j);
    ClientFrames(s, s', j);
    ClientEffects(s, s', j);
    ClientKeepsRoles(s, s', j);
    ClientKeepsWakeups(s, s', j);
    ClientKeepsJobs(s, s', j);
  }

  // --------------------------------------------------------------- destructor

  lemma DestructorKeepsRoles<T>(s: Pool<T>, s': Pool<T>)
    requires Inv(s) && DestructorStep(s, s')
    ensures Roles(s') && Locks(s') && Flags(s')
  {
  }

  lemma DestructorKeepsWakeups<T>(s: Pool<T>, s': Pool<T>)
    requires Inv(s) && DestructorStep(s, s') && Roles(s')
    ensures Wakeups(s')
  {
    assert forall j: nat :: InFlight(s', j) <==> InFlight(s, j);
    assert forall i :: 0 <= i < |s.workers| ==> (SawEmpty(s', i) <==> SawEmpty(s, i));
    assert forall i :: 0 <= i < |s.workers| && s.workers[i].Awake() ==> s'.workers[i].Awake();
  }

  lemma DestructorKeepsJobs<T>(s: Pool<T>, s': Pool<T>)
    requires Roles(s) && Jobs(s) && DestructorStep(s, s') && Roles(s')
    ensures Jobs(s')
  {
    assert forall i, p :: 0 <= i < |s.workers| ==> (HoldsJob(s', i, p) <==> HoldsJob(s, i, p));
  }

  lemma NextInv<T(!new)>(s: Pool<T>, s': Pool<T>)
    requires QueueOk(s.q) && Inv(s) && Next(s, s')
    ensures QueueOk(s'.q) && Inv(s')
  {
    if i: nat :| i < |s.workers| && WorkerStep(s, s', i) {
      WorkerStepInv(s, s', i);
    } else if j: nat :| j < |s.clients| && ClientStep(s, s', j) {
      ClientStepInv(s, s', j);
    } else {
      DestructorKeepsRoles(s, s');
      DestructorKeepsWakeups(s, s');
      DestructorKeepsJobs(s, s');
    }
  }

  lemma InitInv<T>(s: Pool<T>)
    requires Init(s)
    ensures QueueOk(s.q) && Inv(s)
  {
    Q.InitInv(s.q);
    assert s.workers[0].Awake();
  }

  lemma {:induction false} RunInv<T(!new)>(run: seq<Pool<T>>)
    requires IsRun(run)
    ensures forall s :: s in run ==> QueueOk(s.q) && Inv(s)
  {
    var k := |run| - 1;
    if k == 0 {
      InitInv(run[0]);
    } else {
      var before := run[..k];
      RunInv(before);
      assert run[k - 1] in before;
      NextInv(run[k - 1], run[k]);
      assert forall s :: s in run ==> s in before || s == run[k];
    }
  }

  // ------------------------------------------------------------- main results

  /** No lost wakeup: in every reachable state, while a ticket waits in the queue, some worker is
      up and will look at the queue again before it sleeps, or a client has yet to notify. A
      worker on its way to sleep after a failed recheck does not count. */
  lemma NoLostWakeup<T(!new)>(run: seq<Pool<T>>, s: Pool<T>)
    requires IsRun(run) && s in run && s.q.dequeuePos < s.q.enqueuePos
    ensures Roles(s)
    ensures SomeInFlight(s) || exists i :: 0 <= i < |s.workers| && s.workers[i].Awake() && !SawEmpty(s, i)
  {
    RunInv(run);
  }

  /** When the destructor returns, every job ever enqueued has run exactly once. */
  lemma ShutdownRunsEveryJobOnce<T(!new)>(run: seq<Pool<T>>, s: Pool<T>)
    requires IsRun(run) && s in run && s.destructor == Done
    ensures forall p :: p in s.ran <==> 0 <= p < |s.q.pushed|
    ensures forall k, l :: 0 <= k < l < |s.ran| ==> s.ran[k] != s.ran[l]
  {
    RunInv(run);
    assert Q.Inv(s.q);
    assert s.workers[0].Exited?;
    forall p: nat | p < |s.q.pushed| ensures p in s.ran {
      assert Q.PopAccounted(s.q, p);
      if p !in s.q.popped {
        var t: nat :| t < |s.q.threads| && s.q.threads[t].Pops(p);
        NobodyPops(s, t, p);
      }
    }
    forall p | p in s.ran ensures 0 <= p < |s.q.pushed| {
      assert Q.PopAccounted(s.q, p);
    }
  }

  lemma NobodyPops<T>(s: Pool<T>, t: nat, p: nat)
    requires Roles(s) && t < |s.q.threads| && forall i :: 0 <= i < |s.workers| ==> s.workers[i].Exited?
    ensures !s.q.threads[t].Pops(p)
  {
    assert t < |s.workers| ==> WorkerRole(s.workers[t], s.q.threads[t]);
    var j := t - |s.workers|;
    assert j >= 0 ==> ClientRole(s.clients[j], s.q.threads[|s.workers| + j]);
  }

  /** Once the destructor is joining, no worker sleeps, and none goes to sleep again. */
  lemma ShutdownLeavesNoSleeper<T(!new)>(run: seq<Pool<T>>, s: Pool<T>)
    requires IsRun(run) && s in run && s.destructor in {Joining, Done}
    ensures forall i :: 0 <= i < |s.workers| ==> !s.workers[i].Waiting? && !s.workers[i].AboutToWait?
  {
    RunInv(run);
  }

  /** A job is run with the value it was enqueued with. */
  lemma WorkersRunWhatWasPushed<T(!new)>(run: seq<Pool<T>>, s: Pool<T>, i: nat)
    requires IsRun(run) && s in run && i < |s.workers| && s.workers[i].Run?
    ensures s.workers[i].ticket < |s.q.pushed| && s.workers[i].job == s.q.pushed[s.workers[i].ticket]
  {
    RunInv(run);
    assert Q.Inv(s.q);
    assert ValueOk(s.workers[i], s.q.threads[i], s.q.popped);
    assert Q.PopAccounted(s.q, s.workers[i].ticket);
  }
}
