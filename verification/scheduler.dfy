// The request scheduling protocol (src/manager.cpp, include/fastcgi++/request.hpp)
// as an interleaved step system: any number of worker threads run
// Manager_base::handler(), any number of other threads run Manager_base::push(),
// and every step is what one thread does between two points where another
// thread could be observed to act.

module Scheduler {
  import opened BigEndian
  import opened Common
  import opened RequestMachine

  type Tid = nat

  datatype RequestId = RequestId(socket: nat, id: nat)

  const BAD_FCGI_ID: nat := 0xffff

  /** One request object: its map entry, its two mutexes, its queue, its own state.
      pushed and consumed record the history of the queue. */
  datatype Slot = Slot(
    gen: nat,
    mutex: Option<Tid>,
    msgLock: Option<Tid>,
    queue: seq<Message>,
    req: Req,
    pushed: seq<Message>,
    consumed: seq<Message>)

  /** Which of the two exit tests of the worker loop is next. */
  datatype Where = Top | Bottom

  /** Why a worker erases a request. */
  datatype Why = Completed | BadSocket

  datatype Pc =
    // Manager_base::handler
    | Start                                        // about to lock m_tasksMutex
    | WantRead(where: Where)                       // holds tasks, wants m_requestsMutex shared
    | Check(where: Where)                          // holds tasks and shared
    | Inner                                        // holds tasks
    | Have(id: RequestId)                          // popped, holds nothing
    | Find(id: RequestId)                          // holds shared
    | Locked(id: RequestId, gen: nat)              // holds shared and Request::mutex
    | Enter(id: RequestId, gen: nat)               // holds Request::mutex, wants the queue lock
    | Look(id: RequestId, gen: nat)                // holds Request::mutex and the queue lock
    | Process(id: RequestId, gen: nat, msg: Message)
    | WantMsg(id: RequestId, gen: nat)             // wants the queue lock again
    | SawEmpty(id: RequestId, gen: nat)            // handler() returned the queue lock held
    | Release(id: RequestId, gen: nat)             // Request::mutex given up, queue lock still held
    | WantErase(id: RequestId, gen: nat, why: Why) // wants m_requestsMutex exclusively
    | Erasing(id: RequestId, gen: nat, why: Why)   // holds it exclusively
    | WantTasks
    | Sleeping                                     // waiting on m_wake
    | Exited
    // Manager_base::push
    | Idle
    | PWant(id: RequestId, msg: Message)           // wants m_requestsMutex exclusively
    | PFind(id: RequestId, msg: Message)           // holds it
    | PWantMsg(id: RequestId, gen: nat, msg: Message)
    | PPush(id: RequestId, gen: nat, msg: Message) // holds it and the queue lock
    | PUnlock(id: RequestId)                       // pushed to the queue, still holds it
    | PWantTasks(id: RequestId)
    | PTask(id: RequestId)                         // holds tasks
    | SWant(socket: nat)
    | Sweep(socket: nat, todo: set<RequestId>)     // holds m_requestsMutex exclusively

  datatype State = State(
    pc: map<Tid, Pc>,
    tasksLock: Option<Tid>,
    writer: Option<Tid>,
    readers: set<Tid>,
    requests: map<RequestId, Slot>,
    tasks: seq<RequestId>,
    local: nat,              // management messages in m_messages
    nextGen: nat,
    gone: seq<Slot>,         // history: the requests erased so far
    terminate: bool,
    stop: bool)

  /** What a step takes from outside: user code, the network, the allocator. */
  datatype Oracle = Oracle(
    choice: Choice,
    socketValid: bool,
    target: RequestId,
    msg: Message,
    maxPostSize: nat,
    pick: RequestId)

  datatype Action =
    | Run(t: Tid, o: Oracle)
    | SetFlags(terminate: bool, stop: bool)

  predicate Live(s: State, id: RequestId, gen: nat) {
    id in s.requests && s.requests[id].gen == gen
  }

  function Go(s: State, t: Tid, p: Pc): State {
    s.(pc := s.pc[t := p])
  }

  function Put(s: State, id: RequestId, slot: Slot): State {
    s.(requests := s.requests[id := slot])
  }

  function Erase(s: State, id: RequestId): State
    requires id in s.requests
  {
    s.(requests := s.requests - {id}, gone := s.gone + [s.requests[id]])
  }

  /** The role in the body of a BEGIN_REQUEST record (section 5.1 of the FastCGI
      Specification). */
  function BeginRole(body: bytes): Role {
    if |body| < 2 then UnlistedRole(0)
    else
      var code := From(body[..2]);
      if code == 1 then Responder else if code == 2 then Authorizer else if code == 3 then Filter
      else UnlistedRole(code)
  }

  function Create(s: State, id: RequestId, role: Role, maxPostSize: nat): State {
    Put(s, id, Slot(s.nextGen, None, None, [], Fresh(role, maxPostSize), [], [])).(nextGen := s.nextGen + 1)
  }

  predicate MustExit(s: State) {
    s.terminate || (s.stop && s.requests == map[])
  }

  /** Loop control in Manager_base::handler; None when the thread has to wait. */
  function LoopStep(s: State, t: Tid): Option<State>
    requires t in s.pc
  {
    match s.pc[t]
    case Start =>
      if s.tasksLock.Some? then None else Some(Go(s.(tasksLock := Some(t)), t, WantRead(Top)))
    case Sleeping =>
      if s.tasksLock.Some? then None else Some(Go(s.(tasksLock := Some(t)), t, WantRead(Top)))
    case WantTasks =>
      if s.tasksLock.Some? then None else Some(Go(s.(tasksLock := Some(t)), t, Inner))
    case WantRead(where) =>
      if s.writer.Some? then None else Some(Go(s.(readers := s.readers + {t}), t, Check(where)))
    case Check(where) =>
      if MustExit(s) then Some(Go(s.(readers := s.readers - {t}, tasksLock := None), t, Exited))
      else if where == Top then Some(Go(s.(readers := s.readers - {t}), t, Inner))
      else Some(Go(s.(readers := s.readers - {t}, tasksLock := None), t, Sleeping))
    case _ => None
  }

  /** Popping a task. */
  function PopStep(s: State, t: Tid): Option<State>
    requires t in s.pc
  {
    match s.pc[t]
    case Inner =>
      if s.tasks == [] then Some(Go(s, t, WantRead(Bottom)))
      else Some(Go(s.(tasks := s.tasks[1..], tasksLock := None), t, Have(s.tasks[0])))
    case Have(id) =>
      if id.id == 0 then Some(Go(s.(local := if s.local == 0 then 0 else s.local - 1), t, WantTasks))
      else if s.writer.Some? then None
      else Some(Go(s.(readers := s.readers + {t}), t, Find(id)))
    case _ => None
  }

  /** Looking the request up and try-locking Request::mutex; a task whose request
      is busy is dropped. */
  function LookupStep(s: State, t: Tid): Option<State>
    requires t in s.pc
  {
    match s.pc[t]
    case Find(id) =>
      if id in s.requests && s.requests[id].mutex.None? then
        var slot := s.requests[id];
        Some(Go(Put(s, id, slot.(mutex := Some(t))), t, Locked(id, slot.gen)))
      else
        Some(Go(s.(readers := s.readers - {t}), t, WantTasks))
    case Locked(id, gen) =>
      Some(Go(s.(readers := s.readers - {t}), t, Enter(id, gen)))
    case _ => None
  }

  /** Request::handler() on the request whose mutex the thread holds. */
  function HandlerStep(s: State, t: Tid, o: Oracle): Option<State>
    requires t in s.pc
  {
    match s.pc[t]
    case Enter(id, gen) =>
      if id !in s.requests || s.requests[id].msgLock.Some? then None
      else Some(Go(Put(s, id, s.requests[id].(msgLock := Some(t))), t, Look(id, gen)))
    case WantMsg(id, gen) =>
      if id !in s.requests || s.requests[id].msgLock.Some? then None
      else Some(Go(Put(s, id, s.requests[id].(msgLock := Some(t))), t, Look(id, gen)))
    case Look(id, gen) =>
      if id !in s.requests then None
      else if s.requests[id].queue == [] then Some(Go(s, t, SawEmpty(id, gen)))
      else
        var slot := s.requests[id];
        var m := slot.queue[0];
        Some(Go(Put(s, id, slot.(msgLock := None, queue := slot.queue[1..], consumed := slot.consumed + [m])),
                t, Process(id, gen, m)))
    case Process(id, gen, m) =>
      if id !in s.requests then None
      else
        var slot := s.requests[id];
        var (req, ended) := Handle(slot.req, m, o.choice);
        Some(Go(Put(s, id, slot.(req := req)), t, if ended then WantErase(id, gen, Completed) else WantMsg(id, gen)))
    case _ => None
  }

  /** Request::handler() returned the queue lock held: give up Request::mutex first
      and the queue lock second, or erase a request of a dead socket. When the
      request object is gone by the time of the second unlock, that unlock touches
      freed memory, which the model leaves without effect. */
  function ReleaseStep(s: State, t: Tid, o: Oracle): Option<State>
    requires t in s.pc
  {
    match s.pc[t]
    case SawEmpty(id, gen) =>
      if id !in s.requests then None
      else if o.socketValid then Some(Go(Put(s, id, s.requests[id].(mutex := None)), t, Release(id, gen)))
      else Some(Go(Put(s, id, s.requests[id].(msgLock := None)), t, WantErase(id, gen, BadSocket)))
    case Release(id, gen) =>
      if Live(s, id, gen) then Some(Go(Put(s, id, s.requests[id].(msgLock := None)), t, WantTasks))
      else Some(Go(s, t, WantTasks))
    case _ => None
  }

  /** Erasing a request under the exclusive lock. */
  function EraseStep(s: State, t: Tid): Option<State>
    requires t in s.pc
  {
    match s.pc[t]
    case WantErase(id, gen, why) =>
      if s.writer.Some? || s.readers != {} then None
      else Some(Go(s.(writer := Some(t)), t, Erasing(id, gen, why)))
    case Erasing(id, gen, _) =>
      if id !in s.requests then None
      else Some(Go(Erase(s, id).(writer := None), t, WantTasks))
    case _ => None
  }

  /** Manager_base::push is called: where the message goes. */
  function ArriveStep(s: State, t: Tid, o: Oracle): Option<State>
    requires t in s.pc
  {
    if !s.pc[t].Idle? then None
    else if o.target.id == 0 then Some(Go(s.(local := s.local + 1), t, PWantTasks(o.target)))
    else if o.target.id == BAD_FCGI_ID then Some(Go(s, t, SWant(o.target.socket)))
    else Some(Go(s, t, PWant(o.target, o.msg)))
  }

  /** Looking the request up, and creating it on BEGIN_REQUEST. */
  function RouteStep(s: State, t: Tid, o: Oracle): Option<State>
    requires t in s.pc
  {
    match s.pc[t]
    case PWant(id, m) =>
      if s.writer.Some? || s.readers != {} then None
      else Some(Go(s.(writer := Some(t)), t, PFind(id, m)))
    case PFind(id, m) =>
      if id in s.requests then Some(Go(s, t, PWantMsg(id, s.requests[id].gen, m)))
      else if m.Record? && m.kind == BeginRequest then
        Some(Go(Create(s, id, BeginRole(m.content), o.maxPostSize).(writer := None), t, Idle))
      else Some(Go(s.(writer := None), t, Idle))
    case _ => None
  }

  /** Request_base::push under the exclusive lock, then giving that lock up. */
  function DeliverStep(s: State, t: Tid): Option<State>
    requires t in s.pc
  {
    match s.pc[t]
    case PWantMsg(id, gen, m) =>
      if id !in s.requests || s.requests[id].msgLock.Some? then None
      else Some(Go(Put(s, id, s.requests[id].(msgLock := Some(t))), t, PPush(id, gen, m)))
    case PPush(id, gen, m) =>
      if id !in s.requests then None
      else
        var slot := s.requests[id];
        Some(Go(Put(s, id, slot.(msgLock := None, queue := slot.queue + [m], pushed := slot.pushed + [m])),
                t, PUnlock(id)))
    case PUnlock(id) => Some(Go(s.(writer := None), t, PWantTasks(id)))
    case _ => None
  }

  /** The end of Manager_base::push: the task. */
  function ScheduleStep(s: State, t: Tid): Option<State>
    requires t in s.pc
  {
    match s.pc[t]
    case PWantTasks(id) =>
      if s.tasksLock.Some? then None else Some(Go(s.(tasksLock := Some(t)), t, PTask(id)))
    case PTask(id) => Some(Go(s.(tasks := s.tasks + [id], tasksLock := None), t, Idle))
    case _ => None
  }

  /** Manager_base::push for a dead socket: erase its requests, except the busy ones. */
  function SweepStep(s: State, t: Tid, o: Oracle): Option<State>
    requires t in s.pc
  {
    match s.pc[t]
    case SWant(socket) =>
      if s.writer.Some? || s.readers != {} then None
      else Some(Go(s.(writer := Some(t)), t, Sweep(socket, set id <- s.requests.Keys | id.socket == socket)))
    case Sweep(socket, todo) =>
      if todo == {} then Some(Go(s.(writer := None), t, Idle))
      else if o.pick !in todo || o.pick !in s.requests then None
      else if s.requests[o.pick].mutex.None? then
        Some(Go(Erase(s, o.pick), t, Sweep(socket, todo - {o.pick})))
      else
        Some(Go(s, t, Sweep(socket, todo - {o.pick})))
    case _ => None
  }

  /** One step of thread t. */
  function ThreadStep(s: State, t: Tid, o: Oracle): Option<State>
    requires t in s.pc
  {
    match s.pc[t]
    case Start => LoopStep(s, t)
    case Sleeping => LoopStep(s, t)
    case WantTasks => LoopStep(s, t)
    case WantRead(_) => LoopStep(s, t)
    case Check(_) => LoopStep(s, t)
    case Inner => PopStep(s, t)
    case Have(_) => PopStep(s, t)
    case Find(_) => LookupStep(s, t)
    case Locked(_, _) => LookupStep(s, t)
    case Enter(_, _) => HandlerStep(s, t, o)
    case WantMsg(_, _) => HandlerStep(s, t, o)
    case Look(_, _) => HandlerStep(s, t, o)
    case Process(_, _, _) => HandlerStep(s, t, o)
    case SawEmpty(_, _) => ReleaseStep(s, t, o)
    case Release(_, _) => ReleaseStep(s, t, o)
    case WantErase(_, _, _) => EraseStep(s, t)
    case Erasing(_, _, _) => EraseStep(s, t)
    case Exited => None
    case Idle => ArriveStep(s, t, o)
    case PWant(_, _) => RouteStep(s, t, o)
    case PFind(_, _) => RouteStep(s, t, o)
    case PWantMsg(_, _, _) => DeliverStep(s, t)
    case PPush(_, _, _) => DeliverStep(s, t)
    case PUnlock(_) => DeliverStep(s, t)
    case PWantTasks(_) => ScheduleStep(s, t)
    case PTask(_) => ScheduleStep(s, t)
    case SWant(_) => SweepStep(s, t, o)
    case Sweep(_, _) => SweepStep(s, t, o)
  }

  function Step(s: State, a: Action): Option<State> {
    match a
    case Run(t, o) => if t in s.pc then ThreadStep(s, t, o) else None
    case SetFlags(terminate, stop) => Some(s.(terminate := terminate, stop := stop))
  }

  predicate Init(s: State) {
    && (forall t <- s.pc :: s.pc[t] == Start || s.pc[t] == Idle)
    && s.tasksLock.None? && s.writer.None? && s.readers == {}
    && s.requests == map[] && s.tasks == [] && s.local == 0 && s.gone == []
  }

  /** The state a schedule leads to; None when some action of it was not enabled. */
  function After(s: State, schedule: seq<Action>): Option<State> {
    if schedule == [] then Some(s)
    else
      var n := |schedule| - 1;
      match After(s, schedule[..n])
      case None => None
      case Some(mid) => Step(mid, schedule[n])
  }
}
