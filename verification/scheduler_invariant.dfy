// The inductive invariants of the scheduling protocol. A step is first summed up
// by what it does to the locks and to the request objects (Delta); each
// invariant is then kept by every step with such a summary.

module SchedulerInvariant {
  import opened Common
  import opened RequestMachine
  import opened Scheduler

  // ---- What a program counter says about the locks --------------------------

  predicate HoldsTasks(p: Pc) {
    p.WantRead? || p.Check? || p.Inner? || p.PTask?
  }

  predicate HoldsShared(p: Pc) {
    p.Check? || p.Find? || p.Locked?
  }

  predicate HoldsExclusive(p: Pc) {
    p.Erasing? || p.PFind? || p.PWantMsg? || p.PPush? || p.PUnlock? || p.Sweep?
  }

  /** The request object whose Request::mutex a thread holds. */
  function Owned(p: Pc): Option<(RequestId, nat)> {
    if p.Locked? || p.Enter? || p.Look? || p.Process? || p.WantMsg? || p.SawEmpty? || p.WantErase? || p.Erasing?
    then Some((p.id, p.gen)) else None
  }

  /** The request object whose queue lock a thread holds. */
  function HoldsQueue(p: Pc): Option<(RequestId, nat)> {
    if p.Look? || p.SawEmpty? || p.Release? || p.PPush? then Some((p.id, p.gen)) else None
  }

  /** A pusher that found its request and has not pushed yet. */
  predicate Delivers(p: Pc) {
    p.PWantMsg? || p.PPush?
  }

  /** The request ended and its worker is on the way to erase it. */
  predicate Ending(p: Pc) {
    (p.WantErase? || p.Erasing?) && p.why == Completed
  }

  /** Past the try-lock, not yet past the wait for the queue lock. */
  predicate Early(p: Pc) {
    p.Locked? || p.Enter?
  }

  // ---- The invariants -------------------------------------------------------

  /** m_tasksMutex has the holder the program counters say. */
  ghost predicate TasksOk(s: State) {
    && (forall t | t in s.pc :: HoldsTasks(s.pc[t]) <==> s.tasksLock == Some(t))
    && (s.tasksLock.Some? ==> s.tasksLock.value in s.pc)
  }

  /** m_requestsMutex: any number of readers or one writer. */
  ghost predicate SharedOk(s: State) {
    && (forall t | t in s.pc :: HoldsShared(s.pc[t]) <==> t in s.readers)
    && (forall t | t in s.readers :: t in s.pc)
    && (forall t | t in s.pc :: HoldsExclusive(s.pc[t]) <==> s.writer == Some(t))
    && (s.writer.Some? ==> s.writer.value in s.pc && s.readers == {})
  }

  /** A thread past its try-lock works on a live request that names it as owner,
      and an owner is at a program counter past the try-lock. */
  ghost predicate OwnersOk(s: State) {
    ThreadsOwn(s) && SlotsOwned(s)
  }

  ghost predicate ThreadsOwn(s: State) {
    forall t | t in s.pc && Owned(s.pc[t]).Some? ::
      var r := Owned(s.pc[t]).value; Live(s, r.0, r.1) && s.requests[r.0].mutex == Some(t)
  }

  ghost predicate SlotsOwned(s: State) {
    forall id | id in s.requests && s.requests[id].mutex.Some? ::
      var t := s.requests[id].mutex.value;
      t in s.pc && Owned(s.pc[t]) == Some((id, s.requests[id].gen))
  }

  /** The queue locks of live requests have the holders the program counters say. */
  ghost predicate QueueLocksOk(s: State) {
    ThreadsHold(s) && SlotsHeld(s)
  }

  ghost predicate ThreadsHold(s: State) {
    forall t | t in s.pc && HoldsQueue(s.pc[t]).Some? ::
      var r := HoldsQueue(s.pc[t]).value;
      r.1 < s.nextGen && (Live(s, r.0, r.1) ==> s.requests[r.0].msgLock == Some(t))
  }

  ghost predicate SlotsHeld(s: State) {
    forall id | id in s.requests && s.requests[id].msgLock.Some? ::
      var t := s.requests[id].msgLock.value;
      t in s.pc && HoldsQueue(s.pc[t]) == Some((id, s.requests[id].gen))
  }

  ghost predicate DeliversOk(s: State) {
    && (forall id | id in s.requests :: s.requests[id].gen < s.nextGen)
    && (forall t | t in s.pc && Delivers(s.pc[t]) :: Live(s, s.pc[t].id, s.pc[t].gen))
  }

  /** Messages are consumed in the order pushed, none twice, none skipped. */
  predicate InOrder(slot: Slot) {
    slot.pushed == slot.consumed + slot.queue
  }

  /** A live request is open unless its owner is about to erase it as completed. */
  ghost predicate ReqOk(s: State, id: RequestId)
    requires id in s.requests
  {
    var slot := s.requests[id];
    if slot.mutex.Some? && slot.mutex.value in s.pc && Ending(s.pc[slot.mutex.value])
    then Closed(slot.req) else Open(slot.req)
  }

  ghost predicate HistoryOk(s: State) {
    && (forall id | id in s.requests :: InOrder(s.requests[id]) && ReqOk(s, id))
    && (forall x <- s.gone :: InOrder(x) && (Open(x.req) || Closed(x.req)))
  }

  /** Whoever holds a queue lock after giving up Request::mutex: the next owner
      has not got past its own wait for that lock. */
  ghost predicate HandOverOk(s: State) {
    forall t | t in s.pc && s.pc[t].Release? && Live(s, s.pc[t].id, s.pc[t].gen) ::
      var m := s.requests[s.pc[t].id].mutex;
      m.Some? && m.value in s.pc ==> Early(s.pc[m.value])
  }

  /** A thread that will look at the queue of request id before it is done: it
      carries a task for it, is about to file one, or owns the request and will
      check the queue again or erase the request. */
  predicate Carries(p: Pc, id: RequestId) {
    || ((p.Have? || p.Find? || p.PUnlock? || p.PWantTasks? || p.PTask?) && p.id == id)
    || (Owned(p).Some? && p.id == id && !p.SawEmpty?)
  }

  ghost predicate Covered(s: State, id: RequestId) {
    id in s.tasks || exists t | t in s.pc :: Carries(s.pc[t], id)
  }

  /** No message waits without somebody bound to look at it. */
  ghost predicate CoversOk(s: State) {
    forall id | id in s.requests && s.requests[id].queue != [] :: Covered(s, id)
  }

  /** A worker that saw its queue empty still sees it empty: it holds the lock. */
  ghost predicate EmptyOk(s: State) {
    forall t | t in s.pc && s.pc[t].SawEmpty? && s.pc[t].id in s.requests :: s.requests[s.pc[t].id].queue == []
  }

  predicate OwesLocal(p: Pc) {
    (p.Have? || p.PWantTasks? || p.PTask?) && p.id.id == 0
  }

  function Owing(pc: map<Tid, Pc>): set<Tid> {
    set t | t in pc && OwesLocal(pc[t])
  }

  function Zeros(tasks: seq<RequestId>): nat {
    if tasks == [] then 0 else (if tasks[0].id == 0 then 1 else 0) + Zeros(tasks[1..])
  }

  /** One management message waits for every management task, queued or in hand. */
  ghost predicate LocalOk(s: State) {
    s.local == |Owing(s.pc)| + Zeros(s.tasks)
  }

  /** What a sweep still has to do are live requests of its socket. */
  predicate Swept(p: Pc, requests: map<RequestId, Slot>) {
    p.Sweep? ==> p.todo <= requests.Keys && forall id <- p.todo :: id.socket == p.socket
  }

  ghost predicate SweepOk(s: State) {
    forall t | t in s.pc :: Swept(s.pc[t], s.requests)
  }

  /** Delivering to a request, not to the manager itself. */
  predicate Routed(p: Pc) {
    p.PWant? || p.PFind? || p.PWantMsg? || p.PPush? || p.PUnlock?
  }

  /** Id 0 is the manager's own: no request has it. */
  ghost predicate KeysOk(s: State) {
    && (forall id | id in s.requests :: id.id != 0)
    && (forall t | t in s.pc && Routed(s.pc[t]) :: s.pc[t].id.id != 0)
  }

  // ---- Step summaries -------------------------------------------------------

  ghost predicate Moves(lock: Option<Tid>, lock': Option<Tid>, t: Tid) {
    lock' == lock || (lock.None? && lock' == Some(t)) || (lock == Some(t) && lock'.None?)
  }

  ghost predicate LocksDelta(s: State, s': State, t: Tid)
    requires t in s.pc
  {
    && t in s'.pc && s'.pc == s.pc[t := s'.pc[t]]
    && Moves(s.tasksLock, s'.tasksLock, t)
    && (HoldsTasks(s'.pc[t]) <==> s'.tasksLock == Some(t))
    && Moves(s.writer, s'.writer, t)
    && (HoldsExclusive(s'.pc[t]) <==> s'.writer == Some(t))
    && (s'.readers == s.readers || s'.readers == s.readers + {t} || s'.readers == s.readers - {t})
    && (HoldsShared(s'.pc[t]) <==> t in s'.readers)
    && (s'.writer.Some? ==> s'.readers == {})
  }

  datatype Change = Same | Updated(id: RequestId) | Removed(id: RequestId) | Created(id: RequestId)

  /** The part of a lock's story that one thread sees: it is named by the lock
      exactly when its program counter says so, and it is at no other object. */
  ghost predicate Sees(lock: Option<Tid>, t: Tid, held: Option<(RequestId, nat)>, r: (RequestId, nat)) {
    if lock == Some(t) then held == Some(r) else held.None?
  }

  ghost predicate SlotDelta(x: Slot, x': Slot, p: Pc, p': Pc, id: RequestId, t: Tid) {
    && x'.gen == x.gen
    && Moves(x.mutex, x'.mutex, t)
    && Sees(x.mutex, t, Owned(p), (id, x.gen)) && Sees(x'.mutex, t, Owned(p'), (id, x.gen))
    && Moves(x.msgLock, x'.msgLock, t)
    && Sees(x.msgLock, t, HoldsQueue(p), (id, x.gen)) && Sees(x'.msgLock, t, HoldsQueue(p'), (id, x.gen))
    && InOrder(x')
    && (x'.queue == x.queue || x.msgLock == Some(t))
    && (x.queue == [] && x'.queue != [] ==> Carries(p', id))
    && (if x'.mutex == Some(t) && Ending(p') then Closed(x'.req)
        else if x'.mutex.None? || x'.mutex == Some(t) then Open(x'.req)
        else x'.req == x.req)
    && (Delivers(p') ==> p'.id == id && p'.gen == x.gen)
    && (p'.Release? ==> x'.mutex.None?)
    && (x'.msgLock.Some? && x'.msgLock != Some(t) && x'.mutex == Some(t) ==>
          Early(p') || (x.mutex == Some(t) && !Early(p)))
  }

  ghost predicate Newborn(x: Slot, gen: nat) {
    x.gen == gen && x.mutex.None? && x.msgLock.None? && x.queue == [] && InOrder(x) && Open(x.req)
  }

  ghost predicate SlotsDelta(s: State, s': State, t: Tid, c: Change)
    requires t in s.pc && t in s'.pc
  {
    var p, p' := s.pc[t], s'.pc[t];
    match c
    case Same =>
      && s'.requests == s.requests && s'.gone == s.gone && s'.nextGen == s.nextGen
      && Owned(p') == Owned(p)
      && Ending(p') == Ending(p)
      && (HoldsQueue(p') == HoldsQueue(p)
          || (p.Release? && !Live(s, p.id, p.gen) && HoldsQueue(p').None?))
      && !p'.Release? && (Early(p) || !Early(p'))
      && (Owned(p).Some? ==> Early(p') || !Early(p))
      && (Delivers(p') ==> Live(s, p'.id, p'.gen))
    case Updated(id) =>
      && id in s.requests && id in s'.requests
      && s'.requests == s.requests[id := s'.requests[id]]
      && s'.gone == s.gone && s'.nextGen == s.nextGen
      && SlotDelta(s.requests[id], s'.requests[id], p, p', id, t)
    case Removed(id) =>
      && id in s.requests
      && s'.requests == s.requests - {id}
      && s'.gone == s.gone + [s.requests[id]] && s'.nextGen == s.nextGen
      && Sees(s.requests[id].mutex, t, Owned(p), (id, s.requests[id].gen))
      && (s.requests[id].mutex.Some? ==> s.requests[id].mutex == Some(t))
      && HoldsExclusive(p)
      && Owned(p').None? && HoldsQueue(p').None? && HoldsQueue(p).None? && !Delivers(p')
    case Created(id) =>
      && id !in s.requests && id in s'.requests && id.id != 0
      && s'.requests == s.requests[id := s'.requests[id]]
      && s'.gone == s.gone && s'.nextGen == s.nextGen + 1
      && Newborn(s'.requests[id], s.nextGen)
      && HoldsExclusive(p)
      && Owned(p).None? && HoldsQueue(p).None? && Owned(p').None? && HoldsQueue(p').None? && !Delivers(p')
  }

  /** What the invariants on the shared locks say to thread t alone. */
  ghost predicate MyLocks(s: State, t: Tid)
    requires t in s.pc
  {
    var p := s.pc[t];
    && (HoldsTasks(p) <==> s.tasksLock == Some(t))
    && (HoldsExclusive(p) <==> s.writer == Some(t))
    && (HoldsShared(p) <==> t in s.readers)
    && (s.writer.Some? ==> s.readers == {})
  }

  /** What the invariants on the request objects say to thread t alone. */
  ghost predicate MySlots(s: State, t: Tid)
    requires t in s.pc
  {
    var p := s.pc[t];
    && (Owned(p).Some? ==> Live(s, p.id, p.gen) && s.requests[p.id].mutex == Some(t))
    && (HoldsQueue(p).Some? && Live(s, p.id, p.gen) ==> s.requests[p.id].msgLock == Some(t))
    && (Delivers(p) ==> Live(s, p.id, p.gen))
    && (Routed(p) ==> p.id.id != 0)
    && Swept(p, s.requests)
  }

  /** A request t is not the owner of does not name t, and so on. */
  ghost predicate Stranger(s: State, t: Tid, id: RequestId)
    requires t in s.pc && id in s.requests
  {
    var x, r := s.requests[id], (id, s.requests[id].gen);
    && (x.mutex == Some(t) ==> Owned(s.pc[t]) == Some(r))
    && (x.msgLock == Some(t) ==> HoldsQueue(s.pc[t]) == Some(r))
    && ReqOk(s, id) && InOrder(x)
  }

  // Every step has a summary. The locks first, then the request objects.

  lemma WakeLocks(s: State, t: Tid)
    requires t in s.pc && MyLocks(s, t) && LoopStep(s, t).Some?
    requires s.pc[t].Start? || s.pc[t].Sleeping? || s.pc[t].WantTasks?
    ensures LocksDelta(s, LoopStep(s, t).value, t)
  {
  }

  lemma ReadLocks(s: State, t: Tid)
    requires t in s.pc && MyLocks(s, t) && LoopStep(s, t).Some?
    requires s.pc[t].WantRead?
    ensures LocksDelta(s, LoopStep(s, t).value, t)
  {
  }

  lemma TestLocks(s: State, t: Tid)
    requires t in s.pc && MyLocks(s, t) && LoopStep(s, t).Some?
    requires s.pc[t].Check?
    ensures LocksDelta(s, LoopStep(s, t).value, t)
  {
    hide MustExit;
  }

  lemma LoopLocks(s: State, t: Tid)
    requires t in s.pc && MyLocks(s, t) && LoopStep(s, t).Some?
    ensures LocksDelta(s, LoopStep(s, t).value, t)
  {
    hide LocksDelta, MyLocks;
    if s.pc[t].Start? || s.pc[t].Sleeping? || s.pc[t].WantTasks? {
      WakeLocks(s, t);
    } else if s.pc[t].WantRead? {
      ReadLocks(s, t);
    } else {
      TestLocks(s, t);
    }
  }

  lemma InnerLocks(s: State, t: Tid)
    requires t in s.pc && MyLocks(s, t) && PopStep(s, t).Some?
    requires s.pc[t].Inner?
    ensures LocksDelta(s, PopStep(s, t).value, t)
  {
  }

  lemma HaveLocks(s: State, t: Tid)
    requires t in s.pc && MyLocks(s, t) && PopStep(s, t).Some?
    requires s.pc[t].Have?
    ensures LocksDelta(s, PopStep(s, t).value, t)
  {
  }

  lemma PopLocks(s: State, t: Tid)
    requires t in s.pc && MyLocks(s, t) && PopStep(s, t).Some?
    ensures LocksDelta(s, PopStep(s, t).value, t)
  {
    hide LocksDelta, MyLocks;
    if s.pc[t].Inner? {
      InnerLocks(s, t);
    } else {
      HaveLocks(s, t);
    }
  }

  lemma FindLocks(s: State, t: Tid)
    requires t in s.pc && MyLocks(s, t) && LookupStep(s, t).Some?
    requires s.pc[t].Find?
    ensures LocksDelta(s, LookupStep(s, t).value, t)
  {
  }

  lemma LockedLocks(s: State, t: Tid)
    requires t in s.pc && MyLocks(s, t) && LookupStep(s, t).Some?
    requires s.pc[t].Locked?
    ensures LocksDelta(s, LookupStep(s, t).value, t)
  {
  }

  lemma LookupLocks(s: State, t: Tid)
    requires t in s.pc && MyLocks(s, t) && LookupStep(s, t).Some?
    ensures LocksDelta(s, LookupStep(s, t).value, t)
  {
    hide LocksDelta, MyLocks;
    if s.pc[t].Find? {
      FindLocks(s, t);
    } else {
      LockedLocks(s, t);
    }
  }

  predicate SharesNothing(p: Pc) {
    !HoldsTasks(p) && !HoldsShared(p) && !HoldsExclusive(p)
  }

  /** No shared lock is held or taken. */
  ghost predicate SharedSame(s: State, s': State, t: Tid)
    requires t in s.pc
  {
    && s'.tasksLock == s.tasksLock && s'.writer == s.writer && s'.readers == s.readers
    && t in s'.pc && s'.pc == s.pc[t := s'.pc[t]] && SharesNothing(s.pc[t]) && SharesNothing(s'.pc[t])
  }

  lemma SharedSameLocks(s: State, s': State, t: Tid)
    requires t in s.pc && MyLocks(s, t) && SharedSame(s, s', t)
    ensures LocksDelta(s, s', t)
  {
    hide HoldsTasks, HoldsShared, HoldsExclusive;
  }

  lemma AcquireShares(s: State, t: Tid, o: Oracle)
    requires t in s.pc && (s.pc[t].Enter? || s.pc[t].WantMsg?) && HandlerStep(s, t, o).Some?
    ensures SharedSame(s, HandlerStep(s, t, o).value, t)
  {
  }

  lemma LookShares(s: State, t: Tid, o: Oracle)
    requires t in s.pc && s.pc[t].Look? && HandlerStep(s, t, o).Some?
    ensures SharedSame(s, HandlerStep(s, t, o).value, t)
  {
  }

  lemma ProcessShares(s: State, t: Tid, o: Oracle)
    requires t in s.pc && s.pc[t].Process? && HandlerStep(s, t, o).Some?
    ensures SharedSame(s, HandlerStep(s, t, o).value, t)
  {
    hide Handle;
  }

  lemma HandlerLocks(s: State, t: Tid, o: Oracle)
    requires t in s.pc && MyLocks(s, t) && HandlerStep(s, t, o).Some?
    ensures LocksDelta(s, HandlerStep(s, t, o).value, t)
  {
    hide SharedSame, LocksDelta, MyLocks, Handle;
    if s.pc[t].Look? {
      LookShares(s, t, o);
    } else if s.pc[t].Process? {
      ProcessShares(s, t, o);
    } else {
      AcquireShares(s, t, o);
    }
    SharedSameLocks(s, HandlerStep(s, t, o).value, t);
  }

  lemma ReleaseShares(s: State, t: Tid, o: Oracle)
    requires t in s.pc && ReleaseStep(s, t, o).Some?
    ensures SharedSame(s, ReleaseStep(s, t, o).value, t)
  {
    hide Live;
  }

  lemma ReleaseLocks(s: State, t: Tid, o: Oracle)
    requires t in s.pc && MyLocks(s, t) && ReleaseStep(s, t, o).Some?
    ensures LocksDelta(s, ReleaseStep(s, t, o).value, t)
  {
    hide SharedSame, LocksDelta, MyLocks, ReleaseStep;
    ReleaseShares(s, t, o);
    SharedSameLocks(s, ReleaseStep(s, t, o).value, t);
  }

  lemma EraseLocks(s: State, t: Tid)
    requires t in s.pc && MyLocks(s, t) && EraseStep(s, t).Some?
    ensures LocksDelta(s, EraseStep(s, t).value, t)
  {
  }

  lemma ArriveShares(s: State, t: Tid, o: Oracle)
    requires t in s.pc && ArriveStep(s, t, o).Some?
    ensures SharedSame(s, ArriveStep(s, t, o).value, t)
  {
  }

  lemma ArriveLocks(s: State, t: Tid, o: Oracle)
    requires t in s.pc && MyLocks(s, t) && ArriveStep(s, t, o).Some?
    ensures LocksDelta(s, ArriveStep(s, t, o).value, t)
  {
    hide SharedSame, LocksDelta, MyLocks, ArriveStep;
    ArriveShares(s, t, o);
    SharedSameLocks(s, ArriveStep(s, t, o).value, t);
  }

  lemma PWantLocks(s: State, t: Tid, o: Oracle)
    requires t in s.pc && MyLocks(s, t) && RouteStep(s, t, o).Some?
    requires s.pc[t].PWant?
    ensures LocksDelta(s, RouteStep(s, t, o).value, t)
  {
  }

  lemma FoundLocks(s: State, t: Tid, o: Oracle)
    requires t in s.pc && MyLocks(s, t) && RouteStep(s, t, o).Some?
    requires s.pc[t].PFind? && s.pc[t].id in s.requests
    ensures LocksDelta(s, RouteStep(s, t, o).value, t)
  {
  }

  lemma CreateKeeps(s: State, id: RequestId, role: Role, maxPostSize: nat)
    ensures var s' := Create(s, id, role, maxPostSize);
      && s'.pc == s.pc && s'.tasksLock == s.tasksLock && s'.writer == s.writer && s'.readers == s.readers
      && s'.tasks == s.tasks && s'.local == s.local && s'.gone == s.gone && s'.nextGen == s.nextGen + 1
      && s'.terminate == s.terminate && s'.stop == s.stop
      && id in s'.requests && s'.requests == s.requests[id := s'.requests[id]]
      && Newborn(s'.requests[id], s.nextGen)
  {
  }

  /** What becomes of a message for a request there is none of. */
  lemma UnknownStep(s: State, t: Tid, o: Oracle)
    requires t in s.pc && s.pc[t].PFind? && s.pc[t].id !in s.requests
    ensures var id, m := s.pc[t].id, s.pc[t].msg;
      RouteStep(s, t, o) == Some(
        if m.Record? && m.kind == BeginRequest
        then Go(Create(s, id, BeginRole(m.content), o.maxPostSize).(writer := None), t, Idle)
        else Go(s.(writer := None), t, Idle))
  {
    hide Create, BeginRole;
  }

  lemma UnknownLocks(s: State, t: Tid, o: Oracle)
    requires t in s.pc && MyLocks(s, t) && RouteStep(s, t, o).Some?
    requires s.pc[t].PFind? && s.pc[t].id !in s.requests
    ensures LocksDelta(s, RouteStep(s, t, o).value, t)
  {
    UnknownStep(s, t, o);
    if s.pc[t].msg.Record? {
      CreateKeeps(s, s.pc[t].id, BeginRole(s.pc[t].msg.content), o.maxPostSize);
    }
    hide RouteStep, Create, Newborn, BeginRole;
    var s' := RouteStep(s, t, o).value;
    assert s'.pc == s.pc[t := s'.pc[t]] && s'.tasksLock == s.tasksLock && s'.readers == s.readers && s'.writer.None?;
    assert s'.pc[t].Idle?;
  }

  lemma RouteLocks(s: State, t: Tid, o: Oracle)
    requires t in s.pc && MyLocks(s, t) && RouteStep(s, t, o).Some?
    ensures LocksDelta(s, RouteStep(s, t, o).value, t)
  {
    hide LocksDelta, MyLocks;
    if s.pc[t].PWant? {
      PWantLocks(s, t, o);
    } else if s.pc[t].id in s.requests {
      FoundLocks(s, t, o);
    } else {
      UnknownLocks(s, t, o);
    }
  }

  lemma DeliverLocks(s: State, t: Tid)
    requires t in s.pc && MyLocks(s, t) && DeliverStep(s, t).Some?
    ensures LocksDelta(s, DeliverStep(s, t).value, t)
  {
  }

  lemma ScheduleLocks(s: State, t: Tid)
    requires t in s.pc && MyLocks(s, t) && ScheduleStep(s, t).Some?
    ensures LocksDelta(s, ScheduleStep(s, t).value, t)
  {
  }

  lemma SweepLocks(s: State, t: Tid, o: Oracle)
    requires t in s.pc && MyLocks(s, t) && SweepStep(s, t, o).Some?
    ensures LocksDelta(s, SweepStep(s, t, o).value, t)
  {
  }

  ghost predicate Summed(s: State, r: Option<State>, t: Tid, c: Change) {
    t in s.pc && r.Some? && t in r.value.pc && SlotsDelta(s, r.value, t, c)
  }

  /** No lock of a request is involved. */
  predicate Detached(p: Pc) {
    Owned(p).None? && HoldsQueue(p).None? && !Delivers(p)
  }

  /** Neither are the requests themselves. */
  ghost predicate Apart(s: State, r: Option<State>, t: Tid) {
    && t in s.pc && r.Some? && t in r.value.pc && Detached(s.pc[t]) && Detached(r.value.pc[t])
    && r.value.requests == s.requests && r.value.gone == s.gone && r.value.nextGen == s.nextGen
  }

  /** Nothing is promised. */
  predicate Idling(p: Pc) {
    !OwesLocal(p) && Owned(p).None? && !p.Have? && !p.Find? && !Routed(p) && !p.PWantTasks? && !p.PTask? && !p.Sweep?
  }

  predicate Loose(p: Pc) {
    p.Start? || p.Sleeping? || p.WantTasks? || p.WantRead? || p.Check? || p.Inner? || p.Exited?
  }

  lemma LooseIs(p: Pc)
    requires Loose(p)
    ensures Detached(p) && Idling(p)
  {
  }

  /** A step of the loop concerns neither requests nor tasks. */
  ghost predicate Away(s: State, r: Option<State>, t: Tid) {
    && t in s.pc && r.Some? && t in r.value.pc && Loose(s.pc[t]) && Loose(r.value.pc[t])
    && r.value.requests == s.requests && r.value.gone == s.gone && r.value.nextGen == s.nextGen
    && r.value.tasks == s.tasks && r.value.local == s.local
  }

  lemma ApartSlots(s: State, r: Option<State>, t: Tid)
    requires Apart(s, r, t)
    ensures Summed(s, r, t, Same)
  {
  }

  lemma WakeApart(s: State, t: Tid)
    requires t in s.pc && (s.pc[t].Start? || s.pc[t].Sleeping? || s.pc[t].WantTasks?) && LoopStep(s, t).Some?
    ensures Away(s, LoopStep(s, t), t)
  {
  }

  lemma ReadApart(s: State, t: Tid)
    requires t in s.pc && s.pc[t].WantRead? && LoopStep(s, t).Some?
    ensures Away(s, LoopStep(s, t), t)
  {
  }

  lemma TestApart(s: State, t: Tid)
    requires t in s.pc && s.pc[t].Check? && LoopStep(s, t).Some?
    ensures Away(s, LoopStep(s, t), t)
  {
    hide MustExit;
  }

  lemma LoopApart(s: State, t: Tid)
    requires t in s.pc && LoopStep(s, t).Some?
    ensures Away(s, LoopStep(s, t), t)
  {
    hide Away;
    if s.pc[t].Check? {
      TestApart(s, t);
    } else if s.pc[t].WantRead? {
      ReadApart(s, t);
    } else {
      WakeApart(s, t);
    }
  }

  lemma LoopSlots(s: State, t: Tid)
    requires t in s.pc && LoopStep(s, t).Some?
    ensures Summed(s, LoopStep(s, t), t, Same)
  {
    hide LoopStep, Detached, Summed, Idling, Loose;
    LoopApart(s, t);
    LooseIs(s.pc[t]);
    LooseIs(LoopStep(s, t).value.pc[t]);
    ApartSlots(s, LoopStep(s, t), t);
  }

  lemma InnerApart(s: State, t: Tid)
    requires t in s.pc && s.pc[t].Inner? && PopStep(s, t).Some?
    ensures Apart(s, PopStep(s, t), t)
  {
  }

  lemma HaveApart(s: State, t: Tid)
    requires t in s.pc && s.pc[t].Have? && PopStep(s, t).Some?
    ensures Apart(s, PopStep(s, t), t)
  {
  }

  lemma PopSlots(s: State, t: Tid)
    requires t in s.pc && PopStep(s, t).Some?
    ensures Summed(s, PopStep(s, t), t, Same)
  {
    hide Apart, Summed;
    if s.pc[t].Inner? {
      InnerApart(s, t);
    } else {
      HaveApart(s, t);
    }
    ApartSlots(s, PopStep(s, t), t);
  }

  lemma LookupSlots(s: State, t: Tid) returns (c: Change)
    requires t in s.pc && MySlots(s, t) && LookupStep(s, t).Some?
    requires s.pc[t].id in s.requests ==> Stranger(s, t, s.pc[t].id)
    ensures Summed(s, LookupStep(s, t), t, c)
  {
    hide Open, Closed;
    c := if s.pc[t].Find? && LookupStep(s, t).value.pc[t].Locked? then Updated(s.pc[t].id) else Same;
  }

  lemma AcquireSlots(s: State, t: Tid, o: Oracle)
    requires t in s.pc && MySlots(s, t) && HandlerStep(s, t, o).Some?
    requires s.pc[t].Enter? || s.pc[t].WantMsg?
    requires Stranger(s, t, s.pc[t].id)
    ensures Summed(s, HandlerStep(s, t, o), t, Updated(s.pc[t].id))
  {
  }

  lemma LookSlots(s: State, t: Tid, o: Oracle) returns (c: Change)
    requires t in s.pc && MySlots(s, t) && HandlerStep(s, t, o).Some?
    requires s.pc[t].Look? && Stranger(s, t, s.pc[t].id)
    ensures Summed(s, HandlerStep(s, t, o), t, c)
  {
    hide Open, Closed;
    c := if s.requests[s.pc[t].id].queue == [] then Same else Updated(s.pc[t].id);
  }

  lemma ProcessSlots(s: State, t: Tid, o: Oracle)
    requires t in s.pc && MySlots(s, t) && HandlerStep(s, t, o).Some?
    requires s.pc[t].Process? && Stranger(s, t, s.pc[t].id)
    ensures Summed(s, HandlerStep(s, t, o), t, Updated(s.pc[t].id))
  {
    HandleKeeps(s.requests[s.pc[t].id].req, s.pc[t].msg, o.choice);
  }

  lemma HandlerSlots(s: State, t: Tid, o: Oracle) returns (c: Change)
    requires t in s.pc && MySlots(s, t) && HandlerStep(s, t, o).Some?
    requires Owned(s.pc[t]).Some? && Stranger(s, t, s.pc[t].id)
    ensures Summed(s, HandlerStep(s, t, o), t, c)
  {
    c := Updated(s.pc[t].id);
    if s.pc[t].Look? {
      c := LookSlots(s, t, o);
    } else if s.pc[t].Process? {
      ProcessSlots(s, t, o);
    } else {
      AcquireSlots(s, t, o);
    }
  }

  lemma UnlockSlots(s: State, t: Tid, o: Oracle)
    requires t in s.pc && MySlots(s, t) && ReleaseStep(s, t, o).Some?
    requires s.pc[t].SawEmpty? && Live(s, s.pc[t].id, s.pc[t].gen) && Stranger(s, t, s.pc[t].id)
    ensures Summed(s, ReleaseStep(s, t, o), t, Updated(s.pc[t].id))
  {
    hide Open, Closed;
  }

  lemma LeaveSlots(s: State, t: Tid, o: Oracle) returns (c: Change)
    requires t in s.pc && MySlots(s, t) && ReleaseStep(s, t, o).Some?
    requires s.pc[t].Release? && (Live(s, s.pc[t].id, s.pc[t].gen) ==> Stranger(s, t, s.pc[t].id))
    ensures Summed(s, ReleaseStep(s, t, o), t, c)
  {
    c := if Live(s, s.pc[t].id, s.pc[t].gen) then Updated(s.pc[t].id) else Same;
  }

  lemma ReleaseSlots(s: State, t: Tid, o: Oracle) returns (c: Change)
    requires t in s.pc && MySlots(s, t) && ReleaseStep(s, t, o).Some?
    requires Live(s, s.pc[t].id, s.pc[t].gen) ==> Stranger(s, t, s.pc[t].id)
    ensures Summed(s, ReleaseStep(s, t, o), t, c)
  {
    hide Summed, Live, Stranger;
    if s.pc[t].SawEmpty? {
      UnlockSlots(s, t, o);
      c := Updated(s.pc[t].id);
    } else {
      c := LeaveSlots(s, t, o);
    }
  }

  lemma EraseSlots(s: State, t: Tid) returns (c: Change)
    requires t in s.pc && MySlots(s, t) && EraseStep(s, t).Some?
    ensures Summed(s, EraseStep(s, t), t, c)
  {
    c := if s.pc[t].Erasing? then Removed(s.pc[t].id) else Same;
  }

  lemma ArriveSlots(s: State, t: Tid, o: Oracle)
    requires t in s.pc && ArriveStep(s, t, o).Some?
    ensures Summed(s, ArriveStep(s, t, o), t, Same)
  {
    assert Apart(s, ArriveStep(s, t, o), t);
    hide ArriveStep, Apart, Summed;
    ApartSlots(s, ArriveStep(s, t, o), t);
  }

  lemma FoundSlots(s: State, t: Tid, o: Oracle)
    requires t in s.pc && RouteStep(s, t, o).Some? && s.pc[t].PFind? && s.pc[t].id in s.requests
    ensures Summed(s, RouteStep(s, t, o), t, Same)
  {
  }

  lemma FileSlots(s: State, t: Tid, o: Oracle) returns (c: Change)
    requires t in s.pc && MySlots(s, t) && RouteStep(s, t, o).Some? && s.pc[t].PFind?
    ensures Summed(s, RouteStep(s, t, o), t, c)
  {
    if s.pc[t].id in s.requests {
      hide RouteStep, Summed;
      FoundSlots(s, t, o);
      c := Same;
    } else {
      UnknownStep(s, t, o);
      if s.pc[t].msg.Record? {
        CreateKeeps(s, s.pc[t].id, BeginRole(s.pc[t].msg.content), o.maxPostSize);
      }
      hide RouteStep, Create, Newborn, BeginRole;
      c := if s.pc[t].msg.Record? && s.pc[t].msg.kind == BeginRequest then Created(s.pc[t].id) else Same;
    }
  }

  lemma RouteSlots(s: State, t: Tid, o: Oracle) returns (c: Change)
    requires t in s.pc && MySlots(s, t) && RouteStep(s, t, o).Some?
    ensures Summed(s, RouteStep(s, t, o), t, c)
  {
    if s.pc[t].PFind? {
      hide Summed, RouteStep, MySlots;
      c := FileSlots(s, t, o);
    } else {
      assert Apart(s, RouteStep(s, t, o), t);
      hide RouteStep, Apart, Summed, MySlots;
      ApartSlots(s, RouteStep(s, t, o), t);
      c := Same;
    }
  }

  lemma QueueSlots(s: State, t: Tid)
    requires t in s.pc && MySlots(s, t) && DeliverStep(s, t).Some?
    requires s.pc[t].PWantMsg? && Stranger(s, t, s.pc[t].id)
    ensures Summed(s, DeliverStep(s, t), t, Updated(s.pc[t].id))
  {
  }

  lemma PushSlots(s: State, t: Tid)
    requires t in s.pc && MySlots(s, t) && DeliverStep(s, t).Some?
    requires s.pc[t].PPush? && Stranger(s, t, s.pc[t].id)
    ensures Summed(s, DeliverStep(s, t), t, Updated(s.pc[t].id))
  {
  }

  lemma DeliverSlots(s: State, t: Tid) returns (c: Change)
    requires t in s.pc && MySlots(s, t) && DeliverStep(s, t).Some?
    requires s.pc[t].id in s.requests ==> Stranger(s, t, s.pc[t].id)
    ensures Summed(s, DeliverStep(s, t), t, c)
  {
    hide Stranger, MySlots, Summed;
    c := if s.pc[t].PUnlock? then Same else Updated(s.pc[t].id);
    if s.pc[t].PWantMsg? {
      QueueSlots(s, t);
    } else if s.pc[t].PPush? {
      PushSlots(s, t);
    } else {
      assert Apart(s, DeliverStep(s, t), t);
      hide DeliverStep, Apart;
      ApartSlots(s, DeliverStep(s, t), t);
    }
  }

  lemma ScheduleSlots(s: State, t: Tid)
    requires t in s.pc && ScheduleStep(s, t).Some?
    ensures Summed(s, ScheduleStep(s, t), t, Same)
  {
    assert Apart(s, ScheduleStep(s, t), t);
    hide ScheduleStep, Apart, Summed;
    ApartSlots(s, ScheduleStep(s, t), t);
  }

  lemma SweepSlots(s: State, t: Tid, o: Oracle) returns (c: Change)
    requires t in s.pc && MySlots(s, t) && SweepStep(s, t, o).Some?
    requires o.pick in s.requests ==> Stranger(s, t, o.pick)
    ensures Summed(s, SweepStep(s, t, o), t, c)
  {
    hide Open, Closed;
    var p := s.pc[t];
    c := if p.Sweep? && p.todo != {} && s.requests[o.pick].mutex.None? then Removed(o.pick) else Same;
  }

  // ---- Every step with a summary keeps the invariants -----------------------

  lemma LocksKept(s: State, s': State, t: Tid)
    requires TasksOk(s) && SharedOk(s) && t in s.pc && LocksDelta(s, s', t)
    ensures TasksOk(s') && SharedOk(s')
  {
  }

  lemma OwnersKept(s: State, s': State, t: Tid, c: Change)
    requires t in s.pc && t in s'.pc && s'.pc == s.pc[t := s'.pc[t]]
    requires OwnersOk(s) && SlotsDelta(s, s', t, c)
    ensures OwnersOk(s')
  {
    hide SlotsDelta, ThreadsOwn, SlotsOwned;
    ThreadsOwnKept(s, s', t, c);
    SlotsOwnedKept(s, s', t, c);
  }

  lemma ThreadsOwnKept(s: State, s': State, t: Tid, c: Change)
    requires t in s.pc && t in s'.pc && s'.pc == s.pc[t := s'.pc[t]]
    requires OwnersOk(s) && SlotsDelta(s, s', t, c)
    ensures ThreadsOwn(s')
  {
    hide Open, Closed, InOrder, Carries, Early, HoldsQueue, Delivers;
  }

  lemma SlotsOwnedKept(s: State, s': State, t: Tid, c: Change)
    requires t in s.pc && t in s'.pc && s'.pc == s.pc[t := s'.pc[t]]
    requires OwnersOk(s) && SlotsDelta(s, s', t, c)
    ensures SlotsOwned(s')
  {
    hide Open, Closed, InOrder, Carries, Early, HoldsQueue, Delivers;
  }

  lemma QueueLocksKept(s: State, s': State, t: Tid, c: Change)
    requires t in s.pc && t in s'.pc && s'.pc == s.pc[t := s'.pc[t]]
    requires DeliversOk(s) && QueueLocksOk(s) && SlotsDelta(s, s', t, c)
    ensures QueueLocksOk(s')
  {
    hide SlotsDelta, ThreadsHold, SlotsHeld, DeliversOk;
    ThreadsHoldKept(s, s', t, c);
    SlotsHeldKept(s, s', t, c);
  }

  lemma ThreadsHoldKept(s: State, s': State, t: Tid, c: Change)
    requires t in s.pc && t in s'.pc && s'.pc == s.pc[t := s'.pc[t]]
    requires DeliversOk(s) && QueueLocksOk(s) && SlotsDelta(s, s', t, c)
    ensures ThreadsHold(s')
  {
    hide Open, Closed, InOrder, Carries, Early, Ending, Owned, HoldsExclusive;
  }

  lemma SlotsHeldKept(s: State, s': State, t: Tid, c: Change)
    requires t in s.pc && t in s'.pc && s'.pc == s.pc[t := s'.pc[t]]
    requires DeliversOk(s) && QueueLocksOk(s) && SlotsDelta(s, s', t, c)
    ensures SlotsHeld(s')
  {
    hide Open, Closed, InOrder, Carries, Early, Ending, Owned, HoldsExclusive;
  }

  lemma DeliversKept(s: State, s': State, t: Tid, c: Change)
    requires t in s.pc && t in s'.pc && s'.pc == s.pc[t := s'.pc[t]]
    requires SharedOk(s) && DeliversOk(s) && SlotsDelta(s, s', t, c)
    ensures DeliversOk(s')
  {
  }

  lemma HistoryKept(s: State, s': State, t: Tid, c: Change)
    requires t in s.pc && t in s'.pc && s'.pc == s.pc[t := s'.pc[t]]
    requires OwnersOk(s) && HistoryOk(s) && SlotsDelta(s, s', t, c)
    ensures HistoryOk(s')
  {
    hide Open, Closed, InOrder, Carries, Early, HoldsQueue, HoldsExclusive, Delivers;
  }

  lemma HandOverKept(s: State, s': State, t: Tid, c: Change)
    requires t in s.pc && t in s'.pc && s'.pc == s.pc[t := s'.pc[t]]
    requires OwnersOk(s) && QueueLocksOk(s) && HandOverOk(s) && SlotsDelta(s, s', t, c)
    ensures HandOverOk(s')
  {
    hide Open, Closed, InOrder, Carries, Delivers, HoldsExclusive;
  }

  lemma EmptyKept(s: State, s': State, t: Tid, c: Change)
    requires t in s.pc && t in s'.pc && s'.pc == s.pc[t := s'.pc[t]]
    requires OwnersOk(s) && QueueLocksOk(s) && EmptyOk(s) && SlotsDelta(s, s', t, c)
    requires s'.pc[t].SawEmpty? && s'.pc[t].id in s'.requests ==> s'.requests[s'.pc[t].id].queue == []
    ensures EmptyOk(s')
  {
  }

  /** What a step does to the tasks and to the thread's own promise. */
  ghost predicate CoverDelta(s: State, s': State, t: Tid)
    requires t in s.pc && t in s'.pc
  {
    var p, p' := s.pc[t], s'.pc[t];
    && (s'.tasks == s.tasks
        || (exists id :: s'.tasks == s.tasks + [id])
        || (s.tasks != [] && s'.tasks == s.tasks[1..] && Carries(p', s.tasks[0])))
    && (forall id | Carries(p, id) && !Carries(p', id) ::
          || id.id == 0
          || id in s'.tasks
          || id !in s'.requests
          || s'.requests[id].queue == []
          || (id in s.requests && s.requests[id].mutex.Some? && s.requests[id].mutex != Some(t)))
  }

  lemma CoversKept(s: State, s': State, t: Tid, c: Change)
    requires t in s.pc && t in s'.pc && s'.pc == s.pc[t := s'.pc[t]]
    requires KeysOk(s) && OwnersOk(s) && EmptyOk(s) && CoversOk(s) && SlotsDelta(s, s', t, c) && CoverDelta(s, s', t)
    requires EmptyOk(s')
    ensures CoversOk(s')
  {
    forall id | id in s'.requests && s'.requests[id].queue != []
      ensures Covered(s', id)
    {
      if id in s.requests && s.requests[id].queue != [] {
        CoverKept(s, s', t, c, id);
      } else {
        assert Carries(s'.pc[t], id);
      }
    }
  }

  lemma CoverKept(s: State, s': State, t: Tid, c: Change, id: RequestId)
    requires t in s.pc && t in s'.pc && s'.pc == s.pc[t := s'.pc[t]]
    requires KeysOk(s) && OwnersOk(s) && EmptyOk(s) && EmptyOk(s') && SlotsDelta(s, s', t, c) && CoverDelta(s, s', t)
    requires id in s.requests && id in s'.requests && s.requests[id].queue != [] && s'.requests[id].queue != []
    requires Covered(s, id)
    ensures Covered(s', id)
  {
    if id in s.tasks {
      if id !in s'.tasks {
        assert Carries(s'.pc[t], id);
      }
    } else {
      var u :| u in s.pc && Carries(s.pc[u], id);
      if u != t {
        assert Carries(s'.pc[u], id);
      } else if Carries(s'.pc[t], id) {
      } else if id !in s'.tasks {
        var owner := s.requests[id].mutex.value;
        assert s'.pc[owner] == s.pc[owner];
      }
    }
  }

  ghost predicate LocalDelta(s: State, s': State, t: Tid)
    requires t in s.pc && t in s'.pc
  {
    var p, p' := s.pc[t], s'.pc[t];
    var owed, owed' := if OwesLocal(p) then 1 else 0, if OwesLocal(p') then 1 else 0;
    if s'.tasks == s.tasks then
      s'.local == (if owed > owed' && s.local == 0 then 0 else s.local + owed' - owed)
    else if s.tasks != [] && s'.tasks == s.tasks[1..] then
      s'.local == s.local && owed == 0 && owed' == (if s.tasks[0].id == 0 then 1 else 0)
    else
      && s'.local == s.local && owed' == 0
      && |s'.tasks| == |s.tasks| + 1 && s.tasks <= s'.tasks
      && owed == (if s'.tasks[|s.tasks|].id == 0 then 1 else 0)
  }

  /** The step keeps what thread t promised, and sees empty only what is empty. */
  ghost predicate Promised(s: State, r: Option<State>, t: Tid) {
    && t in s.pc && r.Some? && t in r.value.pc
    && CoverDelta(s, r.value, t)
    && LocalDelta(s, r.value, t)
    && (r.value.pc[t].SawEmpty? && r.value.pc[t].id in r.value.requests ==>
          r.value.requests[r.value.pc[t].id].queue == [])
    && (Routed(r.value.pc[t]) ==> r.value.pc[t].id.id != 0)
    && Swept(r.value.pc[t], r.value.requests)
  }

  lemma IdlingCovers(s: State, r: Option<State>, t: Tid)
    requires t in s.pc && r.Some? && t in r.value.pc && Idling(s.pc[t]) && Idling(r.value.pc[t])
    requires r.value.tasks == s.tasks && r.value.local == s.local
    ensures Promised(s, r, t)
  {
  }

  lemma LoopCovers(s: State, t: Tid)
    requires t in s.pc && MySlots(s, t) && LoopStep(s, t).Some?
    ensures Promised(s, LoopStep(s, t), t)
  {
    hide LoopStep, Detached, Promised, Idling, Loose, MySlots;
    LoopApart(s, t);
    LooseIs(s.pc[t]);
    LooseIs(LoopStep(s, t).value.pc[t]);
    IdlingCovers(s, LoopStep(s, t), t);
  }

  lemma InnerCovers(s: State, t: Tid)
    requires t in s.pc && MySlots(s, t) && PopStep(s, t).Some?
    requires s.pc[t].Inner?
    ensures Promised(s, PopStep(s, t), t)
  {
    hide MySlots;
  }

  lemma HaveCovers(s: State, t: Tid)
    requires t in s.pc && MySlots(s, t) && PopStep(s, t).Some?
    requires s.pc[t].Have?
    ensures Promised(s, PopStep(s, t), t)
  {
    hide MySlots;
  }

  lemma PopCovers(s: State, t: Tid)
    requires t in s.pc && MySlots(s, t) && PopStep(s, t).Some?
    ensures Promised(s, PopStep(s, t), t)
  {
    hide Promised, MySlots;
    if s.pc[t].Inner? {
      InnerCovers(s, t);
    } else {
      HaveCovers(s, t);
    }
  }

  lemma FindCovers(s: State, t: Tid)
    requires t in s.pc && LookupStep(s, t).Some? && s.pc[t].Find?
    requires s.pc[t].id in s.requests ==> Stranger(s, t, s.pc[t].id)
    ensures Promised(s, LookupStep(s, t), t)
  {
    hide ReqOk, InOrder;
  }

  lemma LockedCovers(s: State, t: Tid)
    requires t in s.pc && LookupStep(s, t).Some? && s.pc[t].Locked?
    ensures Promised(s, LookupStep(s, t), t)
  {
  }

  lemma LookupCovers(s: State, t: Tid)
    requires t in s.pc && MySlots(s, t) && LookupStep(s, t).Some?
    requires s.pc[t].id in s.requests ==> Stranger(s, t, s.pc[t].id)
    ensures Promised(s, LookupStep(s, t), t)
  {
    hide Promised, MySlots, Stranger;
    if s.pc[t].Find? {
      FindCovers(s, t);
    } else {
      LockedCovers(s, t);
    }
  }

  lemma AcquireCovers(s: State, t: Tid, o: Oracle)
    requires t in s.pc && MySlots(s, t) && HandlerStep(s, t, o).Some?
    requires s.pc[t].Enter? || s.pc[t].WantMsg?
    ensures Promised(s, HandlerStep(s, t, o), t)
  {
  }

  lemma LookCovers(s: State, t: Tid, o: Oracle)
    requires t in s.pc && MySlots(s, t) && HandlerStep(s, t, o).Some?
    requires s.pc[t].Look?
    ensures Promised(s, HandlerStep(s, t, o), t)
  {
  }

  lemma ProcessCovers(s: State, t: Tid, o: Oracle)
    requires t in s.pc && MySlots(s, t) && HandlerStep(s, t, o).Some?
    requires s.pc[t].Process?
    ensures Promised(s, HandlerStep(s, t, o), t)
  {
    hide Handle;
  }

  lemma HandlerCovers(s: State, t: Tid, o: Oracle)
    requires t in s.pc && MySlots(s, t) && HandlerStep(s, t, o).Some?
    ensures Promised(s, HandlerStep(s, t, o), t)
  {
    hide Promised, MySlots;
    if s.pc[t].Enter? || s.pc[t].WantMsg? {
      AcquireCovers(s, t, o);
    } else if s.pc[t].Look? {
      LookCovers(s, t, o);
    } else {
      ProcessCovers(s, t, o);
    }
  }

  lemma UnlockCovers(s: State, t: Tid, o: Oracle)
    requires t in s.pc && MySlots(s, t) && ReleaseStep(s, t, o).Some?
    requires s.pc[t].SawEmpty?
    ensures Promised(s, ReleaseStep(s, t, o), t)
  {
  }

  lemma LeaveCovers(s: State, t: Tid, o: Oracle)
    requires t in s.pc && MySlots(s, t) && ReleaseStep(s, t, o).Some?
    requires s.pc[t].Release?
    ensures Promised(s, ReleaseStep(s, t, o), t)
  {
    hide MySlots, Live;
  }

  lemma ReleaseCovers(s: State, t: Tid, o: Oracle)
    requires t in s.pc && MySlots(s, t) && ReleaseStep(s, t, o).Some?
    ensures Promised(s, ReleaseStep(s, t, o), t)
  {
    hide Promised, MySlots;
    if s.pc[t].SawEmpty? {
      UnlockCovers(s, t, o);
    } else {
      LeaveCovers(s, t, o);
    }
  }

  lemma WantEraseCovers(s: State, t: Tid)
    requires t in s.pc && MySlots(s, t) && EraseStep(s, t).Some?
    requires s.pc[t].WantErase?
    ensures Promised(s, EraseStep(s, t), t)
  {
  }

  lemma ErasingCovers(s: State, t: Tid)
    requires t in s.pc && MySlots(s, t) && EraseStep(s, t).Some?
    requires s.pc[t].Erasing?
    ensures Promised(s, EraseStep(s, t), t)
  {
  }

  lemma EraseCovers(s: State, t: Tid)
    requires t in s.pc && MySlots(s, t) && EraseStep(s, t).Some?
    ensures Promised(s, EraseStep(s, t), t)
  {
    hide Promised, MySlots;
    if s.pc[t].WantErase? {
      WantEraseCovers(s, t);
    } else {
      ErasingCovers(s, t);
    }
  }

  lemma ArriveCovers(s: State, t: Tid, o: Oracle)
    requires t in s.pc && MySlots(s, t) && ArriveStep(s, t, o).Some?
    ensures Promised(s, ArriveStep(s, t, o), t)
  {
  }

  lemma PWantCovers(s: State, t: Tid, o: Oracle)
    requires t in s.pc && MySlots(s, t) && RouteStep(s, t, o).Some?
    requires s.pc[t].PWant?
    ensures Promised(s, RouteStep(s, t, o), t)
  {
  }

  lemma PFindCovers(s: State, t: Tid, o: Oracle)
    requires t in s.pc && MySlots(s, t) && RouteStep(s, t, o).Some?
    requires s.pc[t].PFind?
    ensures Promised(s, RouteStep(s, t, o), t)
  {
  }

  lemma RouteCovers(s: State, t: Tid, o: Oracle)
    requires t in s.pc && MySlots(s, t) && RouteStep(s, t, o).Some?
    ensures Promised(s, RouteStep(s, t, o), t)
  {
    hide Promised, MySlots;
    if s.pc[t].PWant? {
      PWantCovers(s, t, o);
    } else {
      PFindCovers(s, t, o);
    }
  }

  lemma DeliverCovers(s: State, t: Tid)
    requires t in s.pc && MySlots(s, t) && DeliverStep(s, t).Some?
    ensures Promised(s, DeliverStep(s, t), t)
  {
  }

  lemma PWantTasksCovers(s: State, t: Tid)
    requires t in s.pc && MySlots(s, t) && ScheduleStep(s, t).Some?
    requires s.pc[t].PWantTasks?
    ensures Promised(s, ScheduleStep(s, t), t)
  {
    hide MySlots;
  }

  lemma PTaskCovers(s: State, t: Tid)
    requires t in s.pc && MySlots(s, t) && ScheduleStep(s, t).Some?
    requires s.pc[t].PTask?
    ensures Promised(s, ScheduleStep(s, t), t)
  {
    hide MySlots;
  }

  lemma ScheduleCovers(s: State, t: Tid)
    requires t in s.pc && MySlots(s, t) && ScheduleStep(s, t).Some?
    ensures Promised(s, ScheduleStep(s, t), t)
  {
    hide Promised, MySlots;
    if s.pc[t].PWantTasks? {
      PWantTasksCovers(s, t);
    } else {
      PTaskCovers(s, t);
    }
  }

  lemma SWantCovers(s: State, t: Tid, o: Oracle)
    requires t in s.pc && MySlots(s, t) && SweepStep(s, t, o).Some?
    requires s.pc[t].SWant?
    ensures Promised(s, SweepStep(s, t, o), t)
  {
    hide MySlots;
  }

  lemma SweepingCovers(s: State, t: Tid, o: Oracle)
    requires t in s.pc && MySlots(s, t) && SweepStep(s, t, o).Some?
    requires s.pc[t].Sweep?
    ensures Promised(s, SweepStep(s, t, o), t)
  {
  }

  lemma SweepCovers(s: State, t: Tid, o: Oracle)
    requires t in s.pc && MySlots(s, t) && SweepStep(s, t, o).Some?
    ensures Promised(s, SweepStep(s, t, o), t)
  {
    hide Promised, MySlots;
    if s.pc[t].SWant? {
      SWantCovers(s, t, o);
    } else {
      SweepingCovers(s, t, o);
    }
  }

  lemma ZerosSnoc(tasks: seq<RequestId>, id: RequestId)
    ensures Zeros(tasks + [id]) == Zeros(tasks) + (if id.id == 0 then 1 else 0)
  {
    if tasks != [] {
      assert (tasks + [id])[1..] == tasks[1..] + [id];
      ZerosSnoc(tasks[1..], id);
    }
  }

  lemma OwingAt(pc: map<Tid, Pc>, t: Tid, p': Pc)
    requires t in pc
    ensures |Owing(pc[t := p'])| ==
      |Owing(pc)| + (if OwesLocal(p') then 1 else 0) - (if OwesLocal(pc[t]) then 1 else 0)
  {
    hide OwesLocal;
    var others := Owing(pc) - {t};
    assert Owing(pc) == if OwesLocal(pc[t]) then others + {t} else others;
    assert Owing(pc[t := p']) == if OwesLocal(p') then others + {t} else others;
  }

  lemma LocalKept(s: State, s': State, t: Tid)
    requires t in s.pc && t in s'.pc && s'.pc == s.pc[t := s'.pc[t]]
    requires LocalOk(s) && LocalDelta(s, s', t)
    ensures LocalOk(s')
  {
    OwingAt(s.pc, t, s'.pc[t]);
    assert OwesLocal(s.pc[t]) ==> t in Owing(s.pc);
    if s'.tasks != s.tasks && !(s.tasks != [] && s'.tasks == s.tasks[1..]) {
      var n := |s.tasks|;
      assert s'.tasks == s.tasks + [s'.tasks[n]];
      ZerosSnoc(s.tasks, s'.tasks[n]);
    }
  }

  lemma KeysKept(s: State, s': State, t: Tid, c: Change)
    requires t in s.pc && t in s'.pc && s'.pc == s.pc[t := s'.pc[t]]
    requires KeysOk(s) && SlotsDelta(s, s', t, c)
    requires Routed(s'.pc[t]) ==> s'.pc[t].id.id != 0
    ensures KeysOk(s')
  {
  }

  lemma SweepKept(s: State, s': State, t: Tid, c: Change)
    requires t in s.pc && t in s'.pc && s'.pc == s.pc[t := s'.pc[t]]
    requires SharedOk(s) && SweepOk(s) && SlotsDelta(s, s', t, c)
    requires Swept(s'.pc[t], s'.requests)
    ensures SweepOk(s')
  {
  }

  // ---- All of it ------------------------------------------------------------

  ghost predicate Inv(s: State) {
    && TasksOk(s) && SharedOk(s)
    && OwnersOk(s) && QueueLocksOk(s) && DeliversOk(s)
    && HistoryOk(s) && HandOverOk(s)
    && EmptyOk(s) && CoversOk(s)
    && LocalOk(s) && KeysOk(s) && SweepOk(s)
  }

  lemma InvToMe(s: State, t: Tid)
    requires Inv(s) && t in s.pc
    ensures MyLocks(s, t) && MySlots(s, t)
    ensures forall id | id in s.requests :: Stranger(s, t, id)
  {
    hide TasksOk, SharedOk, OwnersOk, QueueLocksOk, DeliversOk, HistoryOk, HandOverOk, EmptyOk, CoversOk;
    hide LocalOk, KeysOk, SweepOk, MyLocks, MySlots, Stranger;
    MyOwn(s, t);
    forall id | id in s.requests ensures Stranger(s, t, id) {
      OthersOwn(s, t, id);
    }
  }

  lemma MyOwn(s: State, t: Tid)
    requires TasksOk(s) && SharedOk(s) && OwnersOk(s) && QueueLocksOk(s) && DeliversOk(s) && KeysOk(s) && SweepOk(s)
    requires t in s.pc
    ensures MyLocks(s, t) && MySlots(s, t)
  {
    hide HoldsTasks, HoldsShared, HoldsExclusive;
  }

  lemma OthersOwn(s: State, t: Tid, id: RequestId)
    requires OwnersOk(s) && QueueLocksOk(s) && HistoryOk(s) && t in s.pc && id in s.requests
    ensures Stranger(s, t, id)
  {
    hide InOrder, ReqOk, Owned, HoldsQueue;
  }

  /** A thread that runs Manager_base::push. */
  predicate Pushing(p: Pc) {
    || p.Idle? || p.PWant? || p.PFind? || p.PWantMsg? || p.PPush? || p.PUnlock? || p.PWantTasks? || p.PTask?
    || p.SWant? || p.Sweep?
  }

  lemma WorkerSteps(s: State, t: Tid, o: Oracle)
    requires t in s.pc && !Pushing(s.pc[t]) && ThreadStep(s, t, o).Some?
    ensures var p, r := s.pc[t], ThreadStep(s, t, o);
      if p.Start? || p.Sleeping? || p.WantTasks? || p.WantRead? || p.Check? then r == LoopStep(s, t)
      else if p.Inner? || p.Have? then r == PopStep(s, t)
      else if p.Find? || p.Locked? then r == LookupStep(s, t)
      else if p.Enter? || p.WantMsg? || p.Look? || p.Process? then r == HandlerStep(s, t, o)
      else if p.SawEmpty? || p.Release? then r == ReleaseStep(s, t, o)
      else (p.WantErase? || p.Erasing?) && r == EraseStep(s, t)
  {
    hide LoopStep, PopStep, LookupStep, HandlerStep, ReleaseStep, EraseStep;
  }

  lemma PusherSteps(s: State, t: Tid, o: Oracle)
    requires t in s.pc && Pushing(s.pc[t])
    ensures var p, r := s.pc[t], ThreadStep(s, t, o);
      if p.Idle? then r == ArriveStep(s, t, o)
      else if p.PWant? || p.PFind? then r == RouteStep(s, t, o)
      else if p.PWantMsg? || p.PPush? || p.PUnlock? then r == DeliverStep(s, t)
      else if p.PWantTasks? || p.PTask? then r == ScheduleStep(s, t)
      else r == SweepStep(s, t, o)
  {
    hide ArriveStep, RouteStep, DeliverStep, ScheduleStep, SweepStep;
  }

  lemma WorkerSummary(s: State, t: Tid, o: Oracle) returns (c: Change)
    requires Inv(s) && t in s.pc && ThreadStep(s, t, o).Some? && !Pushing(s.pc[t])
    ensures LocksDelta(s, ThreadStep(s, t, o).value, t)
    ensures Summed(s, ThreadStep(s, t, o), t, c)
    ensures Promised(s, ThreadStep(s, t, o), t)
  {
    InvToMe(s, t);
    hide Inv, LocksDelta, Summed, Promised, MyLocks, MySlots, Stranger;
    WorkerSteps(s, t, o);
    hide LoopStep, PopStep, LookupStep, HandlerStep, ReleaseStep, EraseStep, ThreadStep, Pushing;
    var p := s.pc[t];
    if p.Start? || p.Sleeping? || p.WantTasks? || p.WantRead? || p.Check? {
      LoopLocks(s, t); LoopSlots(s, t); LoopCovers(s, t);
      c := Same;
    } else if p.Inner? || p.Have? {
      PopLocks(s, t); PopSlots(s, t); PopCovers(s, t);
      c := Same;
    } else if p.Find? || p.Locked? {
      LookupLocks(s, t); LookupCovers(s, t);
      c := LookupSlots(s, t);
    } else if p.Enter? || p.WantMsg? || p.Look? || p.Process? {
      HandlerLocks(s, t, o); HandlerCovers(s, t, o);
      c := HandlerSlots(s, t, o);
    } else if p.SawEmpty? || p.Release? {
      ReleaseLocks(s, t, o); ReleaseCovers(s, t, o);
      c := ReleaseSlots(s, t, o);
    } else {
      EraseLocks(s, t); EraseCovers(s, t);
      c := EraseSlots(s, t);
    }
  }

  lemma PusherSummary(s: State, t: Tid, o: Oracle) returns (c: Change)
    requires Inv(s) && t in s.pc && ThreadStep(s, t, o).Some? && Pushing(s.pc[t])
    ensures LocksDelta(s, ThreadStep(s, t, o).value, t)
    ensures Summed(s, ThreadStep(s, t, o), t, c)
    ensures Promised(s, ThreadStep(s, t, o), t)
  {
    InvToMe(s, t);
    hide Inv, LocksDelta, Summed, Promised, MyLocks, MySlots, Stranger;
    PusherSteps(s, t, o);
    hide ArriveStep, RouteStep, DeliverStep, ScheduleStep, SweepStep, ThreadStep, Pushing;
    var p := s.pc[t];
    if p.Idle? {
      ArriveLocks(s, t, o); ArriveSlots(s, t, o); ArriveCovers(s, t, o);
      c := Same;
    } else if p.PWant? || p.PFind? {
      RouteLocks(s, t, o); RouteCovers(s, t, o);
      c := RouteSlots(s, t, o);
    } else if p.PWantMsg? || p.PPush? || p.PUnlock? {
      DeliverLocks(s, t); DeliverCovers(s, t);
      c := DeliverSlots(s, t);
    } else if p.PWantTasks? || p.PTask? {
      ScheduleLocks(s, t); ScheduleSlots(s, t); ScheduleCovers(s, t);
      c := Same;
    } else {
      SweepLocks(s, t, o); SweepCovers(s, t, o);
      c := SweepSlots(s, t, o);
    }
  }

  lemma Summary(s: State, t: Tid, o: Oracle) returns (c: Change)
    requires Inv(s) && t in s.pc && ThreadStep(s, t, o).Some?
    ensures LocksDelta(s, ThreadStep(s, t, o).value, t)
    ensures Summed(s, ThreadStep(s, t, o), t, c)
    ensures Promised(s, ThreadStep(s, t, o), t)
  {
    hide Inv, LocksDelta, Summed, Promised, ThreadStep, Pushing;
    if Pushing(s.pc[t]) {
      c := PusherSummary(s, t, o);
    } else {
      c := WorkerSummary(s, t, o);
    }
  }

  lemma SummedKept(s: State, s': State, t: Tid, c: Change)
    requires Inv(s) && t in s.pc
    requires LocksDelta(s, s', t) && SlotsDelta(s, s', t, c) && Promised(s, Some(s'), t)
    ensures Inv(s')
  {
    LocksKept(s, s', t);
    OwnersKept(s, s', t, c);
    QueueLocksKept(s, s', t, c);
    DeliversKept(s, s', t, c);
    HistoryKept(s, s', t, c);
    HandOverKept(s, s', t, c);
    EmptyKept(s, s', t, c);
    CoversKept(s, s', t, c);
    LocalKept(s, s', t);
    KeysKept(s, s', t, c);
    SweepKept(s, s', t, c);
  }

  /** Every step of every thread keeps the invariant. */
  lemma StepKeepsInv(s: State, a: Action)
    requires Inv(s) && Step(s, a).Some?
    ensures Inv(Step(s, a).value)
  {
    match a
    case Run(t, o) =>
      hide Inv, LocksDelta, SlotsDelta, ThreadStep;
      var c := Summary(s, t, o);
      assert Promised(s, Some(ThreadStep(s, t, o).value), t) by { hide CoverDelta, LocalDelta; }
      hide Promised;
      SummedKept(s, ThreadStep(s, t, o).value, t, c);
    case SetFlags(terminate, stop) =>
      FlagsKeepInv(s, terminate, stop);
  }

  lemma FlagsKeepInv(s: State, terminate: bool, stop: bool)
    requires Inv(s)
    ensures Inv(s.(terminate := terminate, stop := stop))
  {
    hide HoldsTasks, HoldsShared, HoldsExclusive, Owned, HoldsQueue, Delivers, Ending, Early, Carries, Routed, Swept;
    hide InOrder, Open, Closed, Zeros, OwesLocal;
  }

  lemma InitLocks(s: State)
    requires Init(s)
    ensures TasksOk(s) && SharedOk(s) && KeysOk(s) && SweepOk(s)
  {
  }

  lemma InitSlots(s: State)
    requires Init(s)
    ensures OwnersOk(s) && QueueLocksOk(s) && DeliversOk(s) && HistoryOk(s)
  {
    hide InOrder, Open, Closed, ReqOk;
  }

  lemma InitCovers(s: State)
    requires Init(s)
    ensures HandOverOk(s) && EmptyOk(s) && CoversOk(s) && LocalOk(s)
  {
    assert Owing(s.pc) == {};
    hide Early, Covered;
  }

  lemma InitHasInv(s: State)
    requires Init(s)
    ensures Inv(s)
  {
    InitLocks(s);
    InitSlots(s);
    InitCovers(s);
    hide Init, TasksOk, SharedOk, KeysOk, SweepOk, OwnersOk, QueueLocksOk, DeliversOk, HistoryOk;
    hide HandOverOk, EmptyOk, CoversOk, LocalOk;
  }

  /** Every state any schedule leads to satisfies the invariant. */
  lemma {:induction false} ReachableHasInv(s0: State, schedule: seq<Action>)
    requires Init(s0) && After(s0, schedule).Some?
    ensures Inv(After(s0, schedule).value)
  {
    if schedule == [] {
      InitHasInv(s0);
    } else {
      var n := |schedule| - 1;
      ReachableHasInv(s0, schedule[..n]);
      StepKeepsInv(After(s0, schedule[..n]).value, schedule[n]);
    }
  }
}
