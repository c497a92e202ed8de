// What the scheduling protocol guarantees, for any number of workers and
// pushers, in every state any schedule leads to.

module SchedulerTheorems {
  import opened Common
  import opened RequestMachine
  import opened Scheduler
  import opened SchedulerInvariant

  ghost predicate Reachable(s: State) {
    exists s0, schedule :: Init(s0) && After(s0, schedule) == Some(s)
  }

  lemma ReachableInv(s: State)
    requires Reachable(s)
    ensures Inv(s)
  {
    var s0, schedule :| Init(s0) && After(s0, schedule) == Some(s);
    ReachableHasInv(s0, schedule);
  }

  // ---- No lost message ------------------------------------------------------

  /** A request with a message waiting has a task queued or carried for it, or a
      pusher about to file one, or an owner that will look at the queue again or
      erase the request. So a task dropped on a failed try-lock loses nothing. */
  lemma NoLostMessage(s: State, id: RequestId)
    requires Reachable(s) && id in s.requests && s.requests[id].queue != []
    ensures id in s.tasks || exists t | t in s.pc :: Carries(s.pc[t], id)
  {
    ReachableInv(s);
    assert Covered(s, id);
  }

  predicate AtRest(p: Pc) {
    p.Sleeping? || p.Exited? || p.Idle?
  }

  lemma RestDoesNothing(p: Pc, id: RequestId)
    requires AtRest(p)
    ensures !Carries(p, id) && !Ending(p)
  {
  }

  /** When no thread is under way and no task is queued, every message that was
      pushed to a live request has been handled. */
  lemma NothingLeftAtRest(s: State, id: RequestId)
    requires Reachable(s) && id in s.requests
    requires forall t | t in s.pc :: AtRest(s.pc[t])
    requires s.tasks == []
    ensures s.requests[id].queue == [] && s.requests[id].consumed == s.requests[id].pushed
    ensures Open(s.requests[id].req)
  {
    hide Reachable, AtRest, Carries, Ending, Open, Closed;
    forall t | t in s.pc ensures !Carries(s.pc[t], id) && !Ending(s.pc[t]) {
      RestDoesNothing(s.pc[t], id);
    }
    if s.requests[id].queue != [] {
      NoLostMessage(s, id);
    }
    ReachableInv(s);
    assert InOrder(s.requests[id]) && ReqOk(s, id);
  }

  /** localHandler() never pops an empty m_messages. */
  lemma ManagementMessagePresent(s: State, t: Tid)
    requires Reachable(s) && t in s.pc && s.pc[t].Have? && s.pc[t].id.id == 0
    ensures s.local > 0
  {
    ReachableInv(s);
    assert t in Owing(s.pc);
  }

  // ---- Exclusion and order --------------------------------------------------

  /** At most one thread is past the try-lock of a request, and the request it
      works on is still there. */
  lemma OneOwner(s: State, t: Tid, u: Tid)
    requires Reachable(s) && t in s.pc && u in s.pc
    requires Owned(s.pc[t]).Some? && Owned(s.pc[u]).Some? && s.pc[t].id == s.pc[u].id
    ensures t == u && Live(s, s.pc[t].id, s.pc[t].gen)
  {
    ReachableInv(s);
  }

  /** What a request consumed, followed by its queue, is what was pushed to it, in
      order; for requests already erased too. */
  lemma ConsumedInOrder(s: State)
    requires Reachable(s)
    ensures forall id | id in s.requests :: s.requests[id].pushed == s.requests[id].consumed + s.requests[id].queue
    ensures forall x <- s.gone :: x.pushed == x.consumed + x.queue
  {
    ReachableInv(s);
  }

  /** END_REQUEST goes out at most once for every request there ever was, as its
      last record; and a live request that sent it is owned by a worker whose next
      business is to erase it. */
  lemma EndRequestAtMostOnce(s: State)
    requires Reachable(s)
    ensures forall x <- s.gone :: NoEnd(x.req.sent) || EndsOnce(x.req.sent)
    ensures forall id | id in s.requests ::
              var m := s.requests[id].mutex;
              if m.Some? && m.value in s.pc && Ending(s.pc[m.value])
              then EndsOnce(s.requests[id].req.sent) else NoEnd(s.requests[id].req.sent)
  {
    ReachableInv(s);
    assert forall id | id in s.requests :: ReqOk(s, id);
  }

  // ---- Lifetime -------------------------------------------------------------

  /** Thread t is using the object of request id, generation gen. */
  predicate Inside(p: Pc, id: RequestId, gen: nat) {
    Owned(p) == Some((id, gen)) || HoldsQueue(p) == Some((id, gen)) || (Delivers(p) && p.id == id && p.gen == gen)
  }

  /** A worker that erases a request is the only thread using it. */
  lemma WorkerErasesAlone(s: State, t: Tid, u: Tid)
    requires Reachable(s) && t in s.pc && u in s.pc && u != t
    requires s.pc[t].Erasing?
    ensures !Inside(s.pc[u], s.pc[t].id, s.pc[t].gen)
  {
    ReachableInv(s);
    var id, gen := s.pc[t].id, s.pc[t].gen;
    assert Owned(s.pc[t]) == Some((id, gen));
    if s.pc[u].Release? && s.pc[u].id == id && s.pc[u].gen == gen {
      assert false;
    }
  }

  /** The bad-socket sweep never takes a request from a thread that owns it. */
  lemma SweepSparesOwners(s: State, t: Tid, o: Oracle, u: Tid)
    requires Reachable(s) && t in s.pc && u in s.pc
    requires s.pc[t].Sweep? && SweepStep(s, t, o).Some? && Owned(s.pc[u]).Some?
    ensures s.pc[u].id in SweepStep(s, t, o).value.requests
  {
    assert OwnersOk(s) by { ReachableInv(s); }
  }

  /** But the sweep may take one whose queue lock is still held. When it erases
      request o.pick, some other thread is inside exactly when the queue lock of
      the request is taken; that thread has given up Request::mutex and not yet
      unlocked the queue lock. */
  lemma SweepErasesUnderHolder(s: State, t: Tid, o: Oracle)
    requires Reachable(s) && t in s.pc && s.pc[t].Sweep? && o.pick in s.pc[t].todo && o.pick in s.requests
    requires s.requests[o.pick].mutex.None?
    ensures (exists u | u in s.pc && u != t :: Inside(s.pc[u], o.pick, s.requests[o.pick].gen))
       <==> s.requests[o.pick].msgLock.Some?
    ensures forall u | u in s.pc && u != t && Inside(s.pc[u], o.pick, s.requests[o.pick].gen) :: s.pc[u].Release?
  {
    ReachableInv(s);
    var gen := s.requests[o.pick].gen;
    hide Reachable, TasksOk, HistoryOk, HandOverOk, EmptyOk, CoversOk, LocalOk, KeysOk, SweepOk;
    if s.requests[o.pick].msgLock.Some? {
      var u := s.requests[o.pick].msgLock.value;
      assert u in s.pc && Inside(s.pc[u], o.pick, gen);
    }
    forall u | u in s.pc && u != t && Inside(s.pc[u], o.pick, gen)
      ensures s.pc[u].Release? && s.requests[o.pick].msgLock.Some?
    {
      assert s.writer == Some(t);
    }
  }

  // A schedule in which it happens: worker 0 handles the last message of a request and
  // gives Request::mutex up; before it unlocks the queue lock, pusher 1 reports the
  // socket dead and sweeps.

  const ID := RequestId(5, 1)
  const BEGIN := Record(BeginRequest, [0, 1, 1, 0, 0, 0, 0, 0])
  const CALL := Callback(0)

  /** A push of this message to the request, whose response is not done with it. */
  function Deliver(o: Oracle, m: Message): Oracle {
    o.(target := ID, msg := m, socketValid := true, choice := o.choice.(responseDone := false))
  }

  function Dead(o: Oracle): Oracle {
    o.(target := RequestId(5, BAD_FCGI_ID), pick := ID)
  }

  ghost predicate Leads(s0: State, s: State) {
    exists schedule :: After(s0, schedule) == Some(s)
  }

  /** The schedules of s0 extend one action at a time. */
  lemma Extend(s0: State, s: State, t: Tid, o: Oracle) returns (s': State)
    requires Leads(s0, s) && t in s.pc && ThreadStep(s, t, o).Some?
    ensures ThreadStep(s, t, o) == Some(s') && Leads(s0, s')
  {
    var schedule :| After(s0, schedule) == Some(s);
    s' := ThreadStep(s, t, o).value;
    var longer := schedule + [Run(t, o)];
    assert longer[..|schedule|] == schedule;
    assert After(s0, longer) == Some(s');
  }

  /** Worker 0 and pusher 1 are where w and p say, with these locks and this queue. */
  ghost predicate Scene(s0: State, s: State, w: Pc, p: Pc, tasks: seq<RequestId>, tasksLock: Option<Tid>,
                        writer: Option<Tid>, readers: set<Tid>, mutex: Option<Tid>, msgLock: Option<Tid>,
                        queue: seq<Message>)
  {
    && Leads(s0, s) && 0 in s.pc && 1 in s.pc && s.pc[0] == w && s.pc[1] == p
    && s.tasks == tasks && s.tasksLock == tasksLock && s.writer == writer && s.readers == readers
    && !s.terminate && !s.stop
    && ID in s.requests && s.requests[ID].gen == 0 && s.requests[ID].queue == queue
    && s.requests[ID].mutex == mutex && s.requests[ID].msgLock == msgLock
  }

  lemma SceneArrive(s0: State, s: State, o: Oracle) returns (s': State)
    requires s == s0 && s0.pc == map[0 := Start, 1 := Idle] && Init(s0) && Leads(s0, s)
    ensures Leads(s0, s') && s'.pc == map[0 := Start, 1 := PFind(ID, BEGIN)] && s'.writer == Some(1)
    ensures s' == s0.(pc := s'.pc, writer := s'.writer)
  {
    hide Leads, BEGIN;
    s' := Extend(s0, s, 1, Deliver(o, BEGIN));
    s' := Extend(s0, s', 1, Deliver(o, BEGIN));
  }

  lemma SceneCreate(s0: State, s: State, o: Oracle) returns (s': State)
    requires Init(s0) && s0.nextGen == 0 && !s0.terminate && !s0.stop && Leads(s0, s)
    requires s.pc == map[0 := Start, 1 := PFind(ID, BEGIN)] && s == s0.(pc := s.pc, writer := Some(1))
    ensures Scene(s0, s', Start, Idle, [], None, None, {}, None, None, [])
  {
    hide Leads, RouteStep, Create, BeginRole;
    var d := Deliver(o, BEGIN);
    assert BEGIN.Record? && BEGIN.kind == BeginRequest;
    hide BEGIN;
    PusherSteps(s, 1, d);
    hide ThreadStep;
    UnknownStep(s, 1, d);
    CreateKeeps(s, ID, BeginRole(BEGIN.content), d.maxPostSize);
    s' := Extend(s0, s, 1, d);
  }

  lemma SceneCall(s0: State, s: State, o: Oracle) returns (s': State)
    requires Scene(s0, s, Start, Idle, [], None, None, {}, None, None, [])
    ensures Scene(s0, s', Start, PWant(ID, CALL), [], None, None, {}, None, None, [])
  {
    hide Leads, BEGIN;
    s' := Extend(s0, s, 1, Deliver(o, CALL));
  }

  lemma SceneRoute(s0: State, s: State, o: Oracle) returns (s': State)
    requires Scene(s0, s, Start, PWant(ID, CALL), [], None, None, {}, None, None, [])
    ensures Scene(s0, s', Start, PFind(ID, CALL), [], None, Some(1), {}, None, None, [])
  {
    hide Leads, BEGIN;
    s' := Extend(s0, s, 1, Deliver(o, CALL));
  }

  lemma SceneMeet(s0: State, s: State, o: Oracle) returns (s': State)
    requires Scene(s0, s, Start, PFind(ID, CALL), [], None, Some(1), {}, None, None, [])
    ensures Scene(s0, s', Start, PWantMsg(ID, 0, CALL), [], None, Some(1), {}, None, None, [])
  {
    hide Leads, BEGIN;
    s' := Extend(s0, s, 1, Deliver(o, CALL));
  }

  lemma SceneQueue(s0: State, s: State, o: Oracle) returns (s': State)
    requires Scene(s0, s, Start, PWantMsg(ID, 0, CALL), [], None, Some(1), {}, None, None, [])
    ensures Scene(s0, s', Start, PPush(ID, 0, CALL), [], None, Some(1), {}, None, Some(1), [])
  {
    hide Leads, BEGIN;
    s' := Extend(s0, s, 1, Deliver(o, CALL));
  }

  lemma ScenePush(s0: State, s: State, o: Oracle) returns (s': State)
    requires Scene(s0, s, Start, PPush(ID, 0, CALL), [], None, Some(1), {}, None, Some(1), [])
    ensures Scene(s0, s', Start, PUnlock(ID), [], None, Some(1), {}, None, None, [CALL])
  {
    hide Leads, BEGIN;
    s' := Extend(s0, s, 1, Deliver(o, CALL));
  }

  lemma SceneUnlock(s0: State, s: State, o: Oracle) returns (s': State)
    requires Scene(s0, s, Start, PUnlock(ID), [], None, Some(1), {}, None, None, [CALL])
    ensures Scene(s0, s', Start, PWantTasks(ID), [], None, None, {}, None, None, [CALL])
  {
    hide Leads, BEGIN;
    s' := Extend(s0, s, 1, Deliver(o, CALL));
  }

  lemma SceneReserve(s0: State, s: State, o: Oracle) returns (s': State)
    requires Scene(s0, s, Start, PWantTasks(ID), [], None, None, {}, None, None, [CALL])
    ensures Scene(s0, s', Start, PTask(ID), [], Some(1), None, {}, None, None, [CALL])
  {
    hide Leads, BEGIN;
    s' := Extend(s0, s, 1, Deliver(o, CALL));
  }

  lemma SceneFile(s0: State, s: State, o: Oracle) returns (s': State)
    requires Scene(s0, s, Start, PTask(ID), [], Some(1), None, {}, None, None, [CALL])
    ensures Scene(s0, s', Start, Idle, [ID], None, None, {}, None, None, [CALL])
  {
    hide Leads, BEGIN;
    s' := Extend(s0, s, 1, Deliver(o, CALL));
  }

  lemma SceneWake(s0: State, s: State, o: Oracle) returns (s': State)
    requires Scene(s0, s, Start, Idle, [ID], None, None, {}, None, None, [CALL])
    ensures Scene(s0, s', WantRead(Top), Idle, [ID], Some(0), None, {}, None, None, [CALL])
  {
    hide Leads, BEGIN;
    s' := Extend(s0, s, 0, Deliver(o, CALL));
  }

  lemma SceneRead(s0: State, s: State, o: Oracle) returns (s': State)
    requires Scene(s0, s, WantRead(Top), Idle, [ID], Some(0), None, {}, None, None, [CALL])
    ensures Scene(s0, s', Check(Top), Idle, [ID], Some(0), None, {0}, None, None, [CALL])
  {
    hide Leads, BEGIN;
    s' := Extend(s0, s, 0, Deliver(o, CALL));
  }

  lemma SceneTest(s0: State, s: State, o: Oracle) returns (s': State)
    requires Scene(s0, s, Check(Top), Idle, [ID], Some(0), None, {0}, None, None, [CALL])
    ensures Scene(s0, s', Inner, Idle, [ID], Some(0), None, {}, None, None, [CALL])
  {
    hide Leads, BEGIN;
    s' := Extend(s0, s, 0, Deliver(o, CALL));
  }

  lemma ScenePop(s0: State, s: State, o: Oracle) returns (s': State)
    requires Scene(s0, s, Inner, Idle, [ID], Some(0), None, {}, None, None, [CALL])
    ensures Scene(s0, s', Have(ID), Idle, [], None, None, {}, None, None, [CALL])
  {
    hide Leads, BEGIN;
    s' := Extend(s0, s, 0, Deliver(o, CALL));
  }

  lemma SceneHave(s0: State, s: State, o: Oracle) returns (s': State)
    requires Scene(s0, s, Have(ID), Idle, [], None, None, {}, None, None, [CALL])
    ensures Scene(s0, s', Find(ID), Idle, [], None, None, {0}, None, None, [CALL])
  {
    hide Leads, BEGIN;
    s' := Extend(s0, s, 0, Deliver(o, CALL));
  }

  lemma SceneFind(s0: State, s: State, o: Oracle) returns (s': State)
    requires Scene(s0, s, Find(ID), Idle, [], None, None, {0}, None, None, [CALL])
    ensures Scene(s0, s', Locked(ID, 0), Idle, [], None, None, {0}, Some(0), None, [CALL])
  {
    hide Leads, BEGIN;
    s' := Extend(s0, s, 0, Deliver(o, CALL));
  }

  lemma SceneEnter(s0: State, s: State, o: Oracle) returns (s': State)
    requires Scene(s0, s, Locked(ID, 0), Idle, [], None, None, {0}, Some(0), None, [CALL])
    ensures Scene(s0, s', Enter(ID, 0), Idle, [], None, None, {}, Some(0), None, [CALL])
  {
    hide Leads, BEGIN;
    s' := Extend(s0, s, 0, Deliver(o, CALL));
  }

  lemma SceneLook(s0: State, s: State, o: Oracle) returns (s': State)
    requires Scene(s0, s, Enter(ID, 0), Idle, [], None, None, {}, Some(0), None, [CALL])
    ensures Scene(s0, s', Look(ID, 0), Idle, [], None, None, {}, Some(0), Some(0), [CALL])
  {
    hide Leads, BEGIN;
    s' := Extend(s0, s, 0, Deliver(o, CALL));
  }

  lemma SceneTake(s0: State, s: State, o: Oracle) returns (s': State)
    requires Scene(s0, s, Look(ID, 0), Idle, [], None, None, {}, Some(0), Some(0), [CALL])
    ensures Scene(s0, s', Process(ID, 0, CALL), Idle, [], None, None, {}, Some(0), None, [])
  {
    hide Leads, BEGIN;
    s' := Extend(s0, s, 0, Deliver(o, CALL));
  }

  lemma SceneHandle(s0: State, s: State, o: Oracle) returns (s': State)
    requires Scene(s0, s, Process(ID, 0, CALL), Idle, [], None, None, {}, Some(0), None, [])
    ensures Scene(s0, s', WantMsg(ID, 0), Idle, [], None, None, {}, Some(0), None, [])
  {
    hide Leads, BEGIN;
    s' := Extend(s0, s, 0, Deliver(o, CALL));
  }

  lemma SceneAgain(s0: State, s: State, o: Oracle) returns (s': State)
    requires Scene(s0, s, WantMsg(ID, 0), Idle, [], None, None, {}, Some(0), None, [])
    ensures Scene(s0, s', Look(ID, 0), Idle, [], None, None, {}, Some(0), Some(0), [])
  {
    hide Leads, BEGIN;
    s' := Extend(s0, s, 0, Deliver(o, CALL));
  }

  lemma SceneSee(s0: State, s: State, o: Oracle) returns (s': State)
    requires Scene(s0, s, Look(ID, 0), Idle, [], None, None, {}, Some(0), Some(0), [])
    ensures Scene(s0, s', SawEmpty(ID, 0), Idle, [], None, None, {}, Some(0), Some(0), [])
  {
    hide Leads, BEGIN;
    s' := Extend(s0, s, 0, Deliver(o, CALL));
  }

  lemma SceneRelease(s0: State, s: State, o: Oracle) returns (s': State)
    requires Scene(s0, s, SawEmpty(ID, 0), Idle, [], None, None, {}, Some(0), Some(0), [])
    ensures Scene(s0, s', Release(ID, 0), Idle, [], None, None, {}, None, Some(0), [])
  {
    hide Leads, BEGIN;
    s' := Extend(s0, s, 0, Deliver(o, CALL));
  }

  lemma SceneDead(s0: State, s: State, o: Oracle) returns (s': State)
    requires Scene(s0, s, Release(ID, 0), Idle, [], None, None, {}, None, Some(0), [])
    ensures Scene(s0, s', Release(ID, 0), SWant(5), [], None, None, {}, None, Some(0), [])
  {
    hide Leads;
    s' := Extend(s0, s, 1, Dead(o));
  }

  lemma SceneStart(s0: State, s: State, o: Oracle) returns (s': State)
    requires Scene(s0, s, Release(ID, 0), SWant(5), [], None, None, {}, None, Some(0), [])
    ensures Leads(s0, s') && 0 in s'.pc && 1 in s'.pc && s'.pc[0] == Release(ID, 0)
    ensures s'.pc[1].Sweep? && ID in s'.pc[1].todo && ID in s'.requests && s'.requests[ID].mutex.None?
  {
    hide Leads;
    s' := Extend(s0, s, 1, Dead(o));
  }

  lemma SceneSweep(s0: State, s: State, o: Oracle) returns (s': State)
    requires Leads(s0, s) && 0 in s.pc && 1 in s.pc && s.pc[0] == Release(ID, 0)
    requires s.pc[1].Sweep? && ID in s.pc[1].todo && ID in s.requests && s.requests[ID].mutex.None?
    ensures Leads(s0, s') && 0 in s'.pc && s'.pc[0] == Release(ID, 0) && ID !in s'.requests
  {
    hide Leads;
    s' := Extend(s0, s, 1, Dead(o));
  }

  lemma ScenePlays(s0: State, o: Oracle) returns (s: State)
    requires s0.pc == map[0 := Start, 1 := Idle] && Init(s0) && s0.nextGen == 0 && !s0.terminate && !s0.stop
    ensures Leads(s0, s) && 0 in s.pc && s.pc[0] == Release(ID, 0) && ID !in s.requests
  {
    assert After(s0, []) == Some(s0);
    assert Leads(s0, s0);
    hide Scene, Leads, BEGIN;
    s := SceneArrive(s0, s0, o);
    s := SceneCreate(s0, s, o);
    s := SceneCall(s0, s, o);
    s := SceneRoute(s0, s, o);
    s := SceneMeet(s0, s, o);
    s := SceneQueue(s0, s, o);
    s := ScenePush(s0, s, o);
    s := SceneUnlock(s0, s, o);
    s := SceneReserve(s0, s, o);
    s := SceneFile(s0, s, o);
    s := SceneWake(s0, s, o);
    s := SceneRead(s0, s, o);
    s := SceneTest(s0, s, o);
    s := ScenePop(s0, s, o);
    s := SceneHave(s0, s, o);
    s := SceneFind(s0, s, o);
    s := SceneEnter(s0, s, o);
    s := SceneLook(s0, s, o);
    s := SceneTake(s0, s, o);
    s := SceneHandle(s0, s, o);
    s := SceneAgain(s0, s, o);
    s := SceneSee(s0, s, o);
    s := SceneRelease(s0, s, o);
    s := SceneDead(s0, s, o);
    s := SceneStart(s0, s, o);
    s := SceneSweep(s0, s, o);
  }

  /** A reachable state in which a worker still has to unlock the queue lock of a
      request object that the sweep has erased. */
  lemma UnlockAfterErase(o: Oracle)
    ensures exists s, t :: Reachable(s) && t in s.pc && s.pc[t].Release? && s.pc[t].id !in s.requests
  {
    var s0 := State(map[0 := Start, 1 := Idle], None, None, {}, map[], [], 0, 0, [], false, false);
    var s := ScenePlays(s0, o);
    assert Reachable(s);
  }

  // ---- Deadlock freedom -----------------------------------------------------

  /** Some thread under way can take a step. */
  ghost predicate CanMove(s: State) {
    exists u, o :: u in s.pc && !AtRest(s.pc[u]) && ThreadStep(s, u, o).Some?
  }

  ghost predicate LocksOk(s: State) {
    && TasksOk(s) && SharedOk(s) && SweepOk(s)
    && OwnersOk(s) && QueueLocksOk(s) && DeliversOk(s)
  }

  lemma QueueHolderSteps(s: State, h: Tid, o: Oracle)
    requires h in s.pc && HoldsQueue(s.pc[h]).Some? && s.pc[h].id in s.requests
    ensures ThreadStep(s, h, o).Some? && !AtRest(s.pc[h])
  {
    hide Live;
  }

  lemma QueueHolderMoves(s: State, id: RequestId, o: Oracle)
    requires LocksOk(s) && id in s.requests && s.requests[id].msgLock.Some?
    ensures CanMove(s)
  {
    hide ThreadStep, AtRest, TasksOk, SharedOk, SweepOk, OwnersOk, ThreadsHold, DeliversOk;
    var h := s.requests[id].msgLock.value;
    assert HoldsQueue(s.pc[h]) == Some((id, s.requests[id].gen));
    QueueHolderSteps(s, h, o);
  }

  lemma QueueWaiterSteps(s: State, t: Tid, o: Oracle)
    requires t in s.pc && (s.pc[t].Enter? || s.pc[t].WantMsg? || s.pc[t].PWantMsg?)
    requires s.pc[t].id in s.requests && s.requests[s.pc[t].id].msgLock.None?
    ensures ThreadStep(s, t, o).Some? && !AtRest(s.pc[t])
  {
  }

  lemma QueueWaiterMoves(s: State, t: Tid, o: Oracle)
    requires LocksOk(s) && t in s.pc && (s.pc[t].Enter? || s.pc[t].WantMsg? || s.pc[t].PWantMsg?)
    ensures CanMove(s)
  {
    var id := s.pc[t].id;
    assert Live(s, id, s.pc[t].gen) by { assert Owned(s.pc[t]).Some? || Delivers(s.pc[t]); }
    hide ThreadStep, AtRest, LocksOk;
    if s.requests[id].msgLock.Some? {
      QueueHolderMoves(s, id, o);
    } else {
      QueueWaiterSteps(s, t, o);
    }
  }

  lemma SweepSteps(s: State, t: Tid, o: Oracle)
    requires t in s.pc && s.pc[t].Sweep? && o.pick in s.pc[t].todo && o.pick in s.requests
    ensures ThreadStep(s, t, o).Some? && !AtRest(s.pc[t])
  {
  }

  lemma WriterMoves(s: State, o: Oracle)
    requires LocksOk(s) && s.writer.Some?
    ensures CanMove(s)
  {
    var h := s.writer.value;
    assert h in s.pc && HoldsExclusive(s.pc[h]);
    hide ThreadStep, AtRest, TasksOk, SharedOk, OwnersOk, QueueLocksOk, DeliversOk;
    if s.pc[h].PWantMsg? {
      QueueWaiterMoves(s, h, o);
    } else if s.pc[h].Sweep? && s.pc[h].todo != {} {
      var id :| id in s.pc[h].todo;
      SweepSteps(s, h, o.(pick := id));
    } else {
      WriterSteps(s, h, o);
    }
  }

  lemma WriterSteps(s: State, h: Tid, o: Oracle)
    requires LocksOk(s) && h in s.pc && HoldsExclusive(s.pc[h]) && !s.pc[h].PWantMsg?
    requires s.pc[h].Sweep? ==> s.pc[h].todo == {}
    ensures ThreadStep(s, h, o).Some? && !AtRest(s.pc[h])
  {
    assert s.pc[h].Erasing? || s.pc[h].PPush? ==> s.pc[h].id in s.requests;
    hide LocksOk, ThreadStep, AtRest;
    if s.pc[h].Erasing? || s.pc[h].PPush? {
      InsideSteps(s, h, o);
    } else {
      OutsideSteps(s, h, o);
    }
  }

  lemma InsideSteps(s: State, h: Tid, o: Oracle)
    requires h in s.pc && (s.pc[h].Erasing? || s.pc[h].PPush?) && s.pc[h].id in s.requests
    ensures ThreadStep(s, h, o).Some? && !AtRest(s.pc[h])
  {
  }

  lemma OutsideSteps(s: State, h: Tid, o: Oracle)
    requires h in s.pc && (s.pc[h].PFind? || s.pc[h].PUnlock? || (s.pc[h].Sweep? && s.pc[h].todo == {}))
    ensures ThreadStep(s, h, o).Some? && !AtRest(s.pc[h])
  {
    hide Create;
  }

  lemma ReaderSteps(s: State, t: Tid, o: Oracle)
    requires t in s.pc && HoldsShared(s.pc[t])
    ensures ThreadStep(s, t, o).Some? && !AtRest(s.pc[t])
  {
    hide MustExit;
  }

  lemma ReaderMoves(s: State, o: Oracle)
    requires LocksOk(s) && s.readers != {}
    ensures CanMove(s)
  {
    hide ThreadStep, AtRest;
    var h :| h in s.readers;
    assert h in s.pc && HoldsShared(s.pc[h]);
    ReaderSteps(s, h, o);
  }

  lemma SharedWaiterSteps(s: State, t: Tid, o: Oracle)
    requires t in s.pc && s.writer.None? && s.readers == {}
    requires s.pc[t].WantRead? || (s.pc[t].Have? && s.pc[t].id.id != 0)
          || s.pc[t].WantErase? || s.pc[t].PWant? || s.pc[t].SWant?
    ensures ThreadStep(s, t, o).Some? && !AtRest(s.pc[t])
  {
  }

  lemma SharedWaiterMoves(s: State, t: Tid, o: Oracle)
    requires LocksOk(s) && t in s.pc
    requires s.pc[t].WantRead? || (s.pc[t].Have? && s.pc[t].id.id != 0)
          || s.pc[t].WantErase? || s.pc[t].PWant? || s.pc[t].SWant?
    ensures CanMove(s)
  {
    hide ThreadStep, AtRest, LocksOk;
    if s.writer.Some? {
      WriterMoves(s, o);
    } else if s.readers != {} {
      ReaderMoves(s, o);
    } else {
      SharedWaiterSteps(s, t, o);
    }
  }

  lemma TasksHolderSteps(s: State, t: Tid, o: Oracle)
    requires t in s.pc && HoldsTasks(s.pc[t]) && !s.pc[t].WantRead?
    ensures ThreadStep(s, t, o).Some? && !AtRest(s.pc[t])
  {
    hide MustExit;
  }

  lemma TasksWaiterSteps(s: State, t: Tid, o: Oracle)
    requires t in s.pc && (s.pc[t].Start? || s.pc[t].WantTasks? || s.pc[t].PWantTasks?) && s.tasksLock.None?
    ensures ThreadStep(s, t, o).Some? && !AtRest(s.pc[t])
  {
  }

  lemma TasksWaiterMoves(s: State, t: Tid, o: Oracle)
    requires LocksOk(s) && t in s.pc && (s.pc[t].Start? || s.pc[t].WantTasks? || s.pc[t].PWantTasks?)
    ensures CanMove(s)
  {
    hide ThreadStep, AtRest, SharedOk, SweepOk, OwnersOk, QueueLocksOk, DeliversOk;
    if s.tasksLock.Some? {
      var h := s.tasksLock.value;
      assert h in s.pc && HoldsTasks(s.pc[h]);
      if s.pc[h].WantRead? {
        SharedWaiterMoves(s, h, o);
      } else {
        TasksHolderSteps(s, h, o);
      }
    } else {
      TasksWaiterSteps(s, t, o);
    }
  }

  /** No deadlock: as long as some thread is under way, whatever locks it waits
      for, some thread that is under way can take a step. */
  lemma NoDeadlock(s: State, t: Tid, o: Oracle)
    requires Reachable(s) && t in s.pc && !AtRest(s.pc[t])
    ensures exists u, o' :: u in s.pc && !AtRest(s.pc[u]) && ThreadStep(s, u, o').Some?
  {
    assert LocksOk(s) by { ReachableInv(s); }
    var p := s.pc[t];
    if p.Start? || p.WantTasks? || p.PWantTasks? {
      TasksWaiterMoves(s, t, o);
    } else if p.WantRead? || (p.Have? && p.id.id != 0) || p.WantErase? || p.PWant? || p.SWant? {
      SharedWaiterMoves(s, t, o);
    } else if p.Enter? || p.WantMsg? || p.PWantMsg? {
      QueueWaiterMoves(s, t, o);
    } else if HoldsExclusive(p) {
      WriterMoves(s, o);
    } else {
      OthersMove(s, t, o);
    }
    assert CanMove(s);
  }

  lemma OthersMove(s: State, t: Tid, o: Oracle)
    requires LocksOk(s) && t in s.pc
    requires s.pc[t].Check? || s.pc[t].Inner? || (s.pc[t].Have? && s.pc[t].id.id == 0) || s.pc[t].Find?
          || s.pc[t].Locked? || s.pc[t].Look? || s.pc[t].Process? || s.pc[t].SawEmpty? || s.pc[t].Release?
          || s.pc[t].PTask?
    ensures CanMove(s)
  {
    if Owned(s.pc[t]).Some? {
      assert Live(s, s.pc[t].id, s.pc[t].gen);
    }
    hide LocksOk, ThreadStep, AtRest;
    if s.pc[t].Check? || s.pc[t].Inner? || s.pc[t].PTask? {
      TasksHolderSteps(s, t, o);
    } else if s.pc[t].Find? || s.pc[t].Locked? {
      ReaderSteps(s, t, o);
    } else {
      FreeSteps(s, t, o);
    }
  }

  /** These wait for nothing. */
  lemma FreeSteps(s: State, t: Tid, o: Oracle)
    requires t in s.pc && (Owned(s.pc[t]).Some? ==> s.pc[t].id in s.requests)
    requires (s.pc[t].Have? && s.pc[t].id.id == 0) || s.pc[t].Look? || s.pc[t].Process? || s.pc[t].SawEmpty?
          || s.pc[t].Release?
    ensures ThreadStep(s, t, o).Some? && !AtRest(s.pc[t])
  {
    hide Handle, Live;
  }
}
