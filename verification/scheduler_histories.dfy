// Whole runs of the scheduling protocol: whose messages reach which request, why
// requests come and go, what a sweep takes, and what became of a request's messages.

module SchedulerHistories {
  import opened BigEndian
  import opened Common
  import opened RequestMachine
  import opened Scheduler
  import opened SchedulerInvariant

  /** The schedule leads from an initial state to s. */
  ghost predicate Ran(s0: State, schedule: seq<Action>, s: State) {
    Init(s0) && After(s0, schedule) == Some(s)
  }

  lemma RanInv(s0: State, schedule: seq<Action>, s: State)
    requires Ran(s0, schedule, s)
    ensures Inv(s)
  {
    hide Inv;
    ReachableHasInv(s0, schedule);
  }

  lemma InvParts(s: State)
    requires Inv(s)
    ensures SharedOk(s) && OwnersOk(s) && SweepOk(s) && forall id | id in s.requests :: ReqOk(s, id)
  {
    hide TasksOk, SharedOk, OwnersOk, QueueLocksOk, DeliversOk, HandOverOk, EmptyOk, CoversOk, LocalOk, KeysOk, SweepOk;
    hide ReqOk, InOrder;
  }

  /** The last action of a run, and the run before it. */
  lemma RanBack(s0: State, schedule: seq<Action>, s: State) returns (mid: State)
    requires Ran(s0, schedule, s) && schedule != []
    ensures Ran(s0, schedule[..|schedule| - 1], mid) && Inv(mid)
    ensures Step(mid, schedule[|schedule| - 1]) == Some(s)
  {
    hide Inv, Step;
    mid := After(s0, schedule[..|schedule| - 1]).value;
    RanInv(s0, schedule[..|schedule| - 1], mid);
  }

  /** A step of one thread leaves the others where they are. */
  lemma OthersStay(s: State, a: Action, s': State)
    requires Inv(s) && Step(s, a) == Some(s')
    ensures s'.pc.Keys == s.pc.Keys
    ensures forall t | t in s.pc && !(a.Run? && a.t == t) :: s'.pc[t] == s.pc[t]
    ensures a.Run? ==> a.t in s.pc && ThreadStep(s, a.t, a.o) == Some(s') && s'.pc == s.pc[a.t := s'.pc[a.t]]
    ensures a.SetFlags? ==> s'.requests == s.requests && s'.pc == s.pc && s'.gone == s.gone
  {
    hide Inv, ThreadStep;
    if a.Run? {
      var c := Summary(s, a.t, a.o);
    }
  }

  // ---- The calls of push ----------------------------------------------------

  /** The target and the message of the call of push a thread made last. */
  function LastCall(s0: State, schedule: seq<Action>, t: Tid): Option<(RequestId, Message)> {
    if schedule == [] then None
    else
      var n := |schedule| - 1;
      var before, a := After(s0, schedule[..n]), schedule[n];
      if a.Run? && a.t == t && before.Some? && t in before.value.pc && before.value.pc[t].Idle?
      then Some((a.o.target, a.o.msg))
      else LastCall(s0, schedule[..n], t)
  }

  /** A thread in this place is at work on this call. */
  predicate Serves(p: Pc, call: Option<(RequestId, Message)>) {
    match p
    case PWant(id, m) => call == Some((id, m))
    case PFind(id, m) => call == Some((id, m))
    case PWantMsg(id, _, m) => call == Some((id, m))
    case PPush(id, _, m) => call == Some((id, m))
    case PUnlock(id) => call.Some? && call.value.0 == id
    case PWantTasks(id) => call.Some? && call.value.0 == id
    case PTask(id) => call.Some? && call.value.0 == id
    case SWant(socket) => call.Some? && call.value.0 == RequestId(socket, BAD_FCGI_ID)
    case Sweep(socket, _) => call.Some? && call.value.0 == RequestId(socket, BAD_FCGI_ID)
    case _ => true
  }

  lemma RouteServes(s: State, t: Tid, o: Oracle, call: Option<(RequestId, Message)>)
    requires t in s.pc && RouteStep(s, t, o).Some? && Serves(s.pc[t], call)
    ensures t in RouteStep(s, t, o).value.pc && Serves(RouteStep(s, t, o).value.pc[t], call)
  {
    hide Create, BeginRole;
  }

  lemma DeliverServes(s: State, t: Tid, call: Option<(RequestId, Message)>)
    requires t in s.pc && DeliverStep(s, t).Some? && Serves(s.pc[t], call)
    ensures t in DeliverStep(s, t).value.pc && Serves(DeliverStep(s, t).value.pc[t], call)
  {
  }

  lemma SweepServes(s: State, t: Tid, o: Oracle, call: Option<(RequestId, Message)>)
    requires t in s.pc && SweepStep(s, t, o).Some? && Serves(s.pc[t], call)
    ensures t in SweepStep(s, t, o).value.pc && Serves(SweepStep(s, t, o).value.pc[t], call)
  {
  }

  lemma PusherServes(s: State, t: Tid, o: Oracle, call: Option<(RequestId, Message)>)
    requires t in s.pc && Pushing(s.pc[t]) && ThreadStep(s, t, o).Some? && t in ThreadStep(s, t, o).value.pc
    requires Serves(s.pc[t], call)
    ensures Serves(ThreadStep(s, t, o).value.pc[t], if s.pc[t].Idle? then Some((o.target, o.msg)) else call)
  {
    PusherSteps(s, t, o);
    hide ThreadStep, RouteStep, DeliverStep, SweepStep;
    var p := s.pc[t];
    if p.PWant? || p.PFind? {
      RouteServes(s, t, o, call);
    } else if p.PWantMsg? || p.PPush? || p.PUnlock? {
      DeliverServes(s, t, call);
    } else if p.SWant? || p.Sweep? {
      SweepServes(s, t, o, call);
    }
  }

  lemma ServesOn(s: State, t: Tid, o: Oracle, call: Option<(RequestId, Message)>)
    requires t in s.pc && ThreadStep(s, t, o).Some? && t in ThreadStep(s, t, o).value.pc && Serves(s.pc[t], call)
    ensures Serves(ThreadStep(s, t, o).value.pc[t], if s.pc[t].Idle? then Some((o.target, o.msg)) else call)
  {
    hide ThreadStep;
    if Pushing(s.pc[t]) {
      PusherServes(s, t, o, call);
    } else {
      StaysWorker(s, t, o);
    }
  }

  lemma PopStays(s: State, t: Tid)
    requires t in s.pc && PopStep(s, t).Some?
    ensures t in PopStep(s, t).value.pc && !Pushing(PopStep(s, t).value.pc[t])
  {
  }

  lemma LookupStays(s: State, t: Tid)
    requires t in s.pc && LookupStep(s, t).Some?
    ensures t in LookupStep(s, t).value.pc && !Pushing(LookupStep(s, t).value.pc[t])
  {
  }

  lemma HandlerStays(s: State, t: Tid, o: Oracle)
    requires t in s.pc && HandlerStep(s, t, o).Some?
    ensures t in HandlerStep(s, t, o).value.pc && !Pushing(HandlerStep(s, t, o).value.pc[t])
  {
    if s.pc[t].Process? {
      ProcessStays(s, t, o);
      hide HandlerStep;
    }
  }

  lemma ProcessStays(s: State, t: Tid, o: Oracle)
    requires t in s.pc && s.pc[t].Process? && HandlerStep(s, t, o).Some?
    ensures t in HandlerStep(s, t, o).value.pc && !Pushing(HandlerStep(s, t, o).value.pc[t])
  {
    hide Handle;
  }

  lemma EndStays(s: State, t: Tid, o: Oracle)
    requires t in s.pc
    ensures ReleaseStep(s, t, o).Some? ==>
      t in ReleaseStep(s, t, o).value.pc && !Pushing(ReleaseStep(s, t, o).value.pc[t])
    ensures EraseStep(s, t).Some? ==> t in EraseStep(s, t).value.pc && !Pushing(EraseStep(s, t).value.pc[t])
  {
    hide Live;
  }

  lemma StaysWorker(s: State, t: Tid, o: Oracle)
    requires t in s.pc && !Pushing(s.pc[t]) && ThreadStep(s, t, o).Some?
    ensures t in ThreadStep(s, t, o).value.pc && !Pushing(ThreadStep(s, t, o).value.pc[t])
  {
    WorkerSteps(s, t, o);
    hide ThreadStep, LoopStep, PopStep, LookupStep, HandlerStep, ReleaseStep, EraseStep;
    var p := s.pc[t];
    if p.Start? || p.Sleeping? || p.WantTasks? || p.WantRead? || p.Check? {
      LoopApart(s, t);
    } else if p.Inner? || p.Have? {
      PopStays(s, t);
    } else if p.Find? || p.Locked? {
      LookupStays(s, t);
    } else if p.Enter? || p.WantMsg? || p.Look? || p.Process? {
      HandlerStays(s, t, o);
    } else {
      EndStays(s, t, o);
    }
  }

  /** Every thread in push() is at work on the call it made last. */
  lemma {:induction false} CallsServed(s0: State, schedule: seq<Action>, s: State, t: Tid)
    requires Ran(s0, schedule, s) && t in s.pc
    ensures Serves(s.pc[t], LastCall(s0, schedule, t))
  {
    if schedule != [] {
      var n := |schedule| - 1;
      var mid := RanBack(s0, schedule, s);
      OthersStay(mid, schedule[n], s);
      CallsServed(s0, schedule[..n], mid, t);
      hide Inv, Step, ThreadStep, Serves;
      if schedule[n].Run? && schedule[n].t == t {
        ServesOn(mid, t, schedule[n].o, LastCall(s0, schedule[..n], t));
      }
    }
  }

  // ---- What a step does to a request ----------------------------------------

  /** A request between messages, with one in hand, or ended. */
  datatype Stage = Resting | Busy(m: Message) | Over

  function StageOf(p: Pc): Stage {
    if p.Process? then Busy(p.msg) else if Ending(p) then Over else Resting
  }

  function StageAt(s: State, id: RequestId): Stage
    requires id in s.requests
  {
    var owner := s.requests[id].mutex;
    if owner.Some? && owner.value in s.pc then StageOf(s.pc[owner.value]) else Resting
  }

  /** The things that can happen to a request. */
  datatype Happening =
    | Nothing
    | Pushed(m: Message)
    | Taken(m: Message)
    | Handled(m: Message, choice: Choice)

  ghost predicate Happens(x: Slot, stage: Stage, x': Slot, stage': Stage, h: Happening) {
    && x'.gen == x.gen
    && match h
       case Nothing =>
         && x'.req == x.req && x'.queue == x.queue && x'.pushed == x.pushed && x'.consumed == x.consumed
         && stage' == stage
       case Pushed(m) =>
         && x'.req == x.req && x'.queue == x.queue + [m] && x'.pushed == x.pushed + [m] && x'.consumed == x.consumed
         && stage' == stage
       case Taken(m) =>
         && x'.req == x.req && x.queue == [m] + x'.queue && x'.pushed == x.pushed && x'.consumed == x.consumed + [m]
         && stage == Resting && stage' == Busy(m)
       case Handled(m, choice) =>
         && (x'.req, stage' == Over) == Handle(x.req, m, choice) && stage == Busy(m) && !stage'.Busy?
         && x'.queue == x.queue && x'.pushed == x.pushed && x'.consumed == x.consumed
  }

  /** How the stage of a request follows from the one thread that moved. */
  lemma StageAfter(s: State, s': State, t: Tid, id: RequestId)
    requires OwnersOk(s) && t in s.pc && t in s'.pc && s'.pc == s.pc[t := s'.pc[t]]
    requires id in s.requests && id in s'.requests && Moves(s.requests[id].mutex, s'.requests[id].mutex, t)
    ensures StageAt(s', id) ==
      if s'.requests[id].mutex == Some(t) then StageOf(s'.pc[t])
      else if s'.requests[id].mutex.None? then Resting else StageAt(s, id)
    ensures s.requests[id].mutex == Some(t) ==> StageAt(s, id) == StageOf(s.pc[t])
    ensures s.requests[id].mutex.None? ==> StageAt(s, id) == Resting
  {
    hide StageOf;
  }

  /** The step leaves the messages and the state of request id alone. */
  ghost predicate Alone(s: State, s': State, t: Tid, id: RequestId)
    requires t in s.pc && t in s'.pc && id in s.requests && id in s'.requests
  {
    var x, x' := s.requests[id], s'.requests[id];
    && x'.gen == x.gen && x'.req == x.req && x'.queue == x.queue && x'.pushed == x.pushed && x'.consumed == x.consumed
    && Moves(x.mutex, x'.mutex, t)
    && (x.mutex == Some(t) && x'.mutex == Some(t) ==> StageOf(s'.pc[t]) == StageOf(s.pc[t]))
    && (x.mutex == Some(t) && x'.mutex != Some(t) ==> StageOf(s.pc[t]) == Resting)
    && (x.mutex != Some(t) && x'.mutex == Some(t) ==> StageOf(s'.pc[t]) == Resting)
  }

  lemma AloneHappens(s: State, s': State, t: Tid, id: RequestId)
    requires OwnersOk(s) && t in s.pc && t in s'.pc && s'.pc == s.pc[t := s'.pc[t]]
    requires id in s.requests && id in s'.requests && Alone(s, s', t, id)
    ensures Happens(s.requests[id], StageAt(s, id), s'.requests[id], StageAt(s', id), Nothing)
  {
    StageAfter(s, s', t, id);
    hide OwnersOk, StageAt, StageOf;
  }

  /** What thread t may touch: no request but the one it is at work on. */
  lemma OwnAlone(s: State, t: Tid, id: RequestId)
    requires OwnersOk(s) && t in s.pc && id in s.requests && s.requests[id].mutex == Some(t)
    ensures Owned(s.pc[t]) == Some((id, s.requests[id].gen))
  {
  }

  lemma ApartAlone(s: State, r: Option<State>, t: Tid, id: RequestId)
    requires OwnersOk(s) && Apart(s, r, t) && id in s.requests
    ensures Alone(s, r.value, t, id)
  {
    if s.requests[id].mutex == Some(t) {
      OwnAlone(s, t, id);
    }
  }

  lemma LookupAlone(s: State, t: Tid, id: RequestId)
    requires OwnersOk(s) && t in s.pc && LookupStep(s, t).Some? && id in s.requests
    ensures var s' := LookupStep(s, t).value; t in s'.pc && id in s'.requests && Alone(s, s', t, id)
  {
    var s' := LookupStep(s, t).value;
    if s.pc[t].Find? && s'.requests[id] == s.requests[id] {
      assert t in s'.pc && Owned(s.pc[t]).None?;
      hide LookupStep;
      StrangerAlone(s, s', t, id);
    } else {
      if s.requests[id].mutex == Some(t) {
        OwnAlone(s, t, id);
      }
      hide OwnersOk;
    }
  }

  lemma HandlerHappens(s: State, t: Tid, o: Oracle, id: RequestId) returns (h: Happening)
    requires OwnersOk(s) && t in s.pc && HandlerStep(s, t, o).Some? && id in s.requests
    ensures var s' := HandlerStep(s, t, o).value;
      && t in s'.pc && s'.pc == s.pc[t := s'.pc[t]] && id in s'.requests && s'.requests.Keys == s.requests.Keys
      && Happens(s.requests[id], StageAt(s, id), s'.requests[id], StageAt(s', id), h)
    ensures !h.Pushed?
  {
    var s' := HandlerStep(s, t, o).value;
    var p := s.pc[t];
    h := Nothing;
    HandlerKeeps(s, t, o);
    if p.id == id && p.Look? && s.requests[id].queue != [] {
      h := Taken(s.requests[id].queue[0]);
      LookTakes(s, t, o);
    } else if p.id == id && p.Process? {
      h := Handled(p.msg, o.choice);
      ProcessHandles(s, t, o);
    } else {
      HandlerAlone(s, t, o, id);
      hide HandlerStep, OwnersOk, Alone;
      AloneHappens(s, s', t, id);
    }
  }

  lemma HandlerKeeps(s: State, t: Tid, o: Oracle)
    requires t in s.pc && HandlerStep(s, t, o).Some?
    ensures var s' := HandlerStep(s, t, o).value;
      t in s'.pc && s'.pc == s.pc[t := s'.pc[t]] && s'.requests.Keys == s.requests.Keys
  {
    if s.pc[t].Process? {
      ProcessKeeps(s, t, o);
      hide HandlerStep;
    }
  }

  lemma ProcessKeeps(s: State, t: Tid, o: Oracle)
    requires t in s.pc && s.pc[t].Process? && HandlerStep(s, t, o).Some?
    ensures var s' := HandlerStep(s, t, o).value;
      t in s'.pc && s'.pc == s.pc[t := s'.pc[t]] && s'.requests.Keys == s.requests.Keys
  {
    hide Handle;
  }

  lemma MyMutex(s: State, t: Tid)
    requires OwnersOk(s) && t in s.pc && Owned(s.pc[t]).Some?
    ensures s.pc[t].id in s.requests && s.requests[s.pc[t].id].mutex == Some(t)
  {
  }

  lemma LookTakes(s: State, t: Tid, o: Oracle)
    requires OwnersOk(s) && t in s.pc && s.pc[t].Look? && HandlerStep(s, t, o).Some?
    requires s.pc[t].id in s.requests && s.requests[s.pc[t].id].queue != []
    ensures var id, s' := s.pc[t].id, HandlerStep(s, t, o).value;
      && id in s'.requests
      && Happens(s.requests[id], StageAt(s, id), s'.requests[id], StageAt(s', id), Taken(s.requests[id].queue[0]))
  {
    MyMutex(s, t);
    hide OwnersOk;
  }

  lemma ProcessHandles(s: State, t: Tid, o: Oracle)
    requires OwnersOk(s) && t in s.pc && s.pc[t].Process? && HandlerStep(s, t, o).Some?
    ensures var id, s' := s.pc[t].id, HandlerStep(s, t, o).value;
      && id in s.requests && id in s'.requests
      && Happens(s.requests[id], StageAt(s, id), s'.requests[id], StageAt(s', id), Handled(s.pc[t].msg, o.choice))
  {
    MyMutex(s, t);
    hide OwnersOk, Handle;
  }

  lemma HandlerAlone(s: State, t: Tid, o: Oracle, id: RequestId)
    requires OwnersOk(s) && t in s.pc && HandlerStep(s, t, o).Some? && id in s.requests
    requires s.pc[t].id == id ==> !s.pc[t].Process? && (s.pc[t].Look? ==> s.requests[id].queue == [])
    ensures var s' := HandlerStep(s, t, o).value; t in s'.pc && id in s'.requests && Alone(s, s', t, id)
  {
    if s.requests[id].mutex == Some(t) {
      OwnAlone(s, t, id);
    }
    hide OwnersOk, Handle;
  }

  lemma ReleaseAlone(s: State, t: Tid, o: Oracle, id: RequestId)
    requires OwnersOk(s) && t in s.pc && ReleaseStep(s, t, o).Some? && id in s.requests
    ensures var s' := ReleaseStep(s, t, o).value; t in s'.pc && id in s'.requests && Alone(s, s', t, id)
  {
    if s.requests[id].mutex == Some(t) {
      OwnAlone(s, t, id);
    }
    if s.pc[t].SawEmpty? {
      MyMutex(s, t);
      hide OwnersOk, Live;
    } else {
      hide OwnersOk;
    }
  }

  lemma EraseAlone(s: State, t: Tid, id: RequestId)
    requires OwnersOk(s) && t in s.pc && EraseStep(s, t).Some? && id in s.requests
    requires id in EraseStep(s, t).value.requests
    ensures var s' := EraseStep(s, t).value; t in s'.pc && Alone(s, s', t, id)
  {
    var s' := EraseStep(s, t).value;
    ErasePlaces(s, t);
    assert s'.requests[id] == s.requests[id];
    if s.requests[id].mutex == Some(t) {
      OwnAlone(s, t, id);
    }
    hide OwnersOk, EraseStep;
  }

  lemma ErasePlaces(s: State, t: Tid)
    requires t in s.pc && EraseStep(s, t).Some?
    ensures var s' := EraseStep(s, t).value;
      && t in s'.pc && (s.pc[t].WantErase? || s.pc[t].Erasing?)
      && (s.pc[t].WantErase? ==> StageOf(s'.pc[t]) == StageOf(s.pc[t]))
      && (s.pc[t].Erasing? ==> s.pc[t].id !in s'.requests)
  {
  }

  lemma RouteAlone(s: State, t: Tid, o: Oracle, id: RequestId)
    requires OwnersOk(s) && t in s.pc && RouteStep(s, t, o).Some? && id in s.requests
    ensures var s' := RouteStep(s, t, o).value; t in s'.pc && id in s'.requests && Alone(s, s', t, id)
  {
    if s.requests[id].mutex == Some(t) {
      OwnAlone(s, t, id);
    }
    hide OwnersOk, BeginRole, Create;
    if s.pc[t].PFind? && s.pc[t].id !in s.requests {
      UnknownStep(s, t, o);
      if s.pc[t].msg.Record? {
        CreateKeeps(s, s.pc[t].id, BeginRole(s.pc[t].msg.content), o.maxPostSize);
      }
      hide RouteStep, Newborn;
    }
  }

  lemma DeliverHappens(s: State, t: Tid, id: RequestId) returns (h: Happening)
    requires OwnersOk(s) && t in s.pc && DeliverStep(s, t).Some? && id in s.requests
    ensures var s' := DeliverStep(s, t).value;
      && t in s'.pc && id in s'.requests
      && Happens(s.requests[id], StageAt(s, id), s'.requests[id], StageAt(s', id), h)
    ensures if s.pc[t].PPush? && s.pc[t].id == id then h == Pushed(s.pc[t].msg) else h == Nothing
  {
    var s' := DeliverStep(s, t).value;
    if s.requests[id].mutex == Some(t) {
      OwnAlone(s, t, id);
    }
    h := if s.pc[t].PPush? && s.pc[t].id == id then Pushed(s.pc[t].msg) else Nothing;
    StageAfter(s, s', t, id);
    hide OwnersOk, StageAt, StageOf, Owned;
  }

  lemma SweepAlone(s: State, t: Tid, o: Oracle, id: RequestId)
    requires OwnersOk(s) && t in s.pc && SweepStep(s, t, o).Some? && id in s.requests
    requires id in SweepStep(s, t, o).value.requests
    ensures var s' := SweepStep(s, t, o).value; t in s'.pc && Alone(s, s', t, id)
  {
    var s' := SweepStep(s, t, o).value;
    assert t in s'.pc && s'.requests[id] == s.requests[id] && Owned(s.pc[t]).None?;
    hide SweepStep;
    StrangerAlone(s, s', t, id);
  }

  lemma StrangerAlone(s: State, s': State, t: Tid, id: RequestId)
    requires OwnersOk(s) && t in s.pc && t in s'.pc && Owned(s.pc[t]).None?
    requires id in s.requests && id in s'.requests && s'.requests[id] == s.requests[id]
    ensures Alone(s, s', t, id)
  {
    if s.requests[id].mutex == Some(t) {
      OwnAlone(s, t, id);
    }
    hide OwnersOk, StageOf;
  }

  lemma WorkerHappens(s: State, t: Tid, o: Oracle, id: RequestId) returns (h: Happening)
    requires OwnersOk(s) && t in s.pc && !Pushing(s.pc[t]) && ThreadStep(s, t, o).Some?
    requires id in s.requests && id in ThreadStep(s, t, o).value.requests
    requires var s' := ThreadStep(s, t, o).value; t in s'.pc && s'.pc == s.pc[t := s'.pc[t]]
    ensures var s' := ThreadStep(s, t, o).value;
      Happens(s.requests[id], StageAt(s, id), s'.requests[id], StageAt(s', id), h) && !h.Pushed?
  {
    WorkerSteps(s, t, o);
    hide ThreadStep, LoopStep, PopStep, LookupStep, HandlerStep, ReleaseStep, EraseStep;
    hide OwnersOk, Happens, Alone, StageAt, Apart, Pushing;
    var p, s' := s.pc[t], ThreadStep(s, t, o).value;
    h := Nothing;
    if p.Enter? || p.WantMsg? || p.Look? || p.Process? {
      h := HandlerHappens(s, t, o, id);
    } else {
      if p.Start? || p.Sleeping? || p.WantTasks? || p.WantRead? || p.Check? {
        LoopIsApart(s, t);
        ApartAlone(s, LoopStep(s, t), t, id);
      } else if p.Inner? || p.Have? {
        PopIsApart(s, t);
        ApartAlone(s, PopStep(s, t), t, id);
      } else if p.Find? || p.Locked? {
        LookupAlone(s, t, id);
      } else if p.SawEmpty? || p.Release? {
        ReleaseAlone(s, t, o, id);
      } else {
        EraseAlone(s, t, id);
      }
      AloneHappens(s, s', t, id);
    }
  }

  lemma LoopIsApart(s: State, t: Tid)
    requires t in s.pc && LoopStep(s, t).Some?
    ensures Apart(s, LoopStep(s, t), t)
  {
    hide LoopStep, Loose, Detached, Idling;
    LoopApart(s, t);
    LooseIs(s.pc[t]);
    LooseIs(LoopStep(s, t).value.pc[t]);
  }

  lemma PopIsApart(s: State, t: Tid)
    requires t in s.pc && PopStep(s, t).Some?
    ensures Apart(s, PopStep(s, t), t)
  {
    hide Apart;
    if s.pc[t].Inner? {
      InnerApart(s, t);
    } else {
      HaveApart(s, t);
    }
  }

  lemma ArriveIsApart(s: State, t: Tid, o: Oracle)
    requires t in s.pc
    ensures ArriveStep(s, t, o).Some? ==> Apart(s, ArriveStep(s, t, o), t)
    ensures ScheduleStep(s, t).Some? ==> Apart(s, ScheduleStep(s, t), t)
  {
  }

  lemma PusherHappens(s: State, t: Tid, o: Oracle, id: RequestId) returns (h: Happening)
    requires OwnersOk(s) && t in s.pc && Pushing(s.pc[t]) && ThreadStep(s, t, o).Some?
    requires id in s.requests && id in ThreadStep(s, t, o).value.requests
    requires var s' := ThreadStep(s, t, o).value; t in s'.pc && s'.pc == s.pc[t := s'.pc[t]]
    ensures var s' := ThreadStep(s, t, o).value;
      Happens(s.requests[id], StageAt(s, id), s'.requests[id], StageAt(s', id), h)
    ensures if s.pc[t].PPush? && s.pc[t].id == id then h == Pushed(s.pc[t].msg) else h == Nothing
  {
    PusherSteps(s, t, o);
    hide ThreadStep, ArriveStep, RouteStep, DeliverStep, ScheduleStep, SweepStep;
    hide OwnersOk, Happens, Alone, StageAt, Apart, Pushing;
    var p, s' := s.pc[t], ThreadStep(s, t, o).value;
    if p.PWantMsg? || p.PPush? || p.PUnlock? {
      h := DeliverHappens(s, t, id);
    } else {
      h := Nothing;
      if p.Idle? {
        ArriveIsApart(s, t, o);
        ApartAlone(s, ArriveStep(s, t, o), t, id);
      } else if p.PWant? || p.PFind? {
        RouteAlone(s, t, o, id);
      } else if p.PWantTasks? || p.PTask? {
        ArriveIsApart(s, t, o);
        ApartAlone(s, ScheduleStep(s, t), t, id);
      } else {
        SweepAlone(s, t, o, id);
      }
      AloneHappens(s, s', t, id);
    }
  }

  /** Whatever thread moves: to a request that stays there happens one of the four
      things, and a message is pushed to it exactly by a thread about to do so. */
  lemma StepHappens(s: State, t: Tid, o: Oracle, id: RequestId) returns (h: Happening)
    requires Inv(s) && t in s.pc && ThreadStep(s, t, o).Some?
    requires id in s.requests && id in ThreadStep(s, t, o).value.requests
    ensures var s' := ThreadStep(s, t, o).value;
      Happens(s.requests[id], StageAt(s, id), s'.requests[id], StageAt(s', id), h)
    ensures if s.pc[t].PPush? && s.pc[t].id == id then h == Pushed(s.pc[t].msg) else !h.Pushed?
  {
    OthersStay(s, Run(t, o), ThreadStep(s, t, o).value);
    hide ThreadStep, OwnersOk, Happens, StageAt;
    if Pushing(s.pc[t]) {
      h := PusherHappens(s, t, o, id);
    } else {
      h := WorkerHappens(s, t, o, id);
    }
  }

  /** A message that is pushed to a request is the one the thread was last called with,
      and it was called with it for this request. */
  lemma PushedAsCalled(s0: State, schedule: seq<Action>, s: State, a: Action, s': State, id: RequestId)
    requires Ran(s0, schedule, s) && Step(s, a) == Some(s') && id in s.requests && id in s'.requests
    requires s'.requests[id].pushed != s.requests[id].pushed
    ensures a.Run? && LastCall(s0, schedule, a.t).Some?
    ensures var (target, m) := LastCall(s0, schedule, a.t).value;
      && target == id
      && s'.requests[id].pushed == s.requests[id].pushed + [m] && s'.requests[id].queue == s.requests[id].queue + [m]
  {
    hide Inv, ThreadStep, StageAt, LastCall, Handle;
    RanInv(s0, schedule, s);
    OthersStay(s, a, s');
    CallsServed(s0, schedule, s, a.t);
    hide Ran, Init, After;
    var h := StepHappens(s, a.t, a.o, id);
    hide Step;
  }

  // ---- Requests come and go -------------------------------------------------

  /** What a step of thread t erases, and what it creates. */
  function Leaving(s: State, t: Tid, o: Oracle): set<RequestId>
    requires t in s.pc
  {
    match s.pc[t]
    case Erasing(id, _, _) => {id}
    case Sweep(_, todo) =>
      if todo != {} && o.pick in s.requests && s.requests[o.pick].mutex.None? then {o.pick} else {}
    case _ => {}
  }

  function Coming(s: State, t: Tid): set<RequestId>
    requires t in s.pc
  {
    match s.pc[t]
    case PFind(id, m) => if id !in s.requests && m.Record? && m.kind == BeginRequest then {id} else {}
    case _ => {}
  }

  ghost predicate ComesAndGoes(s: State, t: Tid, o: Oracle, r: Option<State>) {
    t in s.pc && r.Some? && r.value.requests.Keys == s.requests.Keys - Leaving(s, t, o) + Coming(s, t)
  }

  lemma WorkerComes(s: State, t: Tid, o: Oracle)
    requires t in s.pc && !Pushing(s.pc[t]) && ThreadStep(s, t, o).Some?
    ensures ComesAndGoes(s, t, o, ThreadStep(s, t, o))
  {
    WorkerSteps(s, t, o);
    hide ThreadStep, LoopStep, PopStep, LookupStep, HandlerStep, ReleaseStep, EraseStep, Detached;
    var p := s.pc[t];
    if p.Start? || p.Sleeping? || p.WantTasks? || p.WantRead? || p.Check? {
      LoopIsApart(s, t);
    } else if p.Inner? || p.Have? {
      PopIsApart(s, t);
    } else if p.Find? || p.Locked? {
      LookupKeys(s, t);
    } else if p.Enter? || p.WantMsg? || p.Look? || p.Process? {
      HandlerKeeps(s, t, o);
    } else {
      EndKeys(s, t, o);
    }
  }

  lemma LookupKeys(s: State, t: Tid)
    requires t in s.pc && LookupStep(s, t).Some?
    ensures LookupStep(s, t).value.requests.Keys == s.requests.Keys
  {
  }

  lemma EndKeys(s: State, t: Tid, o: Oracle)
    requires t in s.pc
    ensures ReleaseStep(s, t, o).Some? ==> ReleaseStep(s, t, o).value.requests.Keys == s.requests.Keys
    ensures EraseStep(s, t).Some? ==> EraseStep(s, t).value.requests.Keys == s.requests.Keys - Leaving(s, t, o)
  {
  }

  lemma PusherComes(s: State, t: Tid, o: Oracle)
    requires t in s.pc && Pushing(s.pc[t]) && ThreadStep(s, t, o).Some?
    ensures ComesAndGoes(s, t, o, ThreadStep(s, t, o))
  {
    PusherSteps(s, t, o);
    hide ThreadStep, ArriveStep, RouteStep, DeliverStep, ScheduleStep, SweepStep, Detached;
    var p := s.pc[t];
    if p.PWant? || p.PFind? {
      RouteKeys(s, t, o);
    } else if p.SWant? || p.Sweep? {
      SweepKeys(s, t, o);
    } else {
      StaticKeys(s, t, o);
    }
  }

  lemma StaticKeys(s: State, t: Tid, o: Oracle)
    requires t in s.pc && Pushing(s.pc[t]) && ThreadStep(s, t, o).Some?
    requires !s.pc[t].PWant? && !s.pc[t].PFind? && !s.pc[t].SWant? && !s.pc[t].Sweep?
    ensures ThreadStep(s, t, o).value.requests.Keys == s.requests.Keys
  {
    PusherSteps(s, t, o);
    hide ThreadStep, ArriveStep, DeliverStep, ScheduleStep, Detached;
    if s.pc[t].PWantMsg? || s.pc[t].PPush? || s.pc[t].PUnlock? {
      DeliverKeys(s, t);
    } else {
      ArriveIsApart(s, t, o);
    }
  }

  lemma RouteKeys(s: State, t: Tid, o: Oracle)
    requires t in s.pc && RouteStep(s, t, o).Some?
    ensures RouteStep(s, t, o).value.requests.Keys == s.requests.Keys + Coming(s, t)
  {
    hide BeginRole, Fresh;
  }

  lemma DeliverKeys(s: State, t: Tid)
    requires t in s.pc && DeliverStep(s, t).Some?
    ensures DeliverStep(s, t).value.requests.Keys == s.requests.Keys
  {
  }

  lemma SweepKeys(s: State, t: Tid, o: Oracle)
    requires t in s.pc && SweepStep(s, t, o).Some?
    ensures SweepStep(s, t, o).value.requests.Keys == s.requests.Keys - Leaving(s, t, o)
  {
  }

  lemma ComeAndGo(s: State, t: Tid, o: Oracle)
    requires t in s.pc && ThreadStep(s, t, o).Some?
    ensures ComesAndGoes(s, t, o, ThreadStep(s, t, o))
  {
    hide ThreadStep, ComesAndGoes;
    if Pushing(s.pc[t]) {
      PusherComes(s, t, o);
    } else {
      WorkerComes(s, t, o);
    }
  }

  /** The body of a BEGIN_REQUEST record names the role in its first two bytes, the high
      one first (section 5.1 of the FastCGI Specification). */
  predicate NamesRole(body: bytes, role: Role)
    requires |body| >= 2
  {
    match role
    case Responder => body[0] == 0 && body[1] == 1
    case Authorizer => body[0] == 0 && body[1] == 2
    case Filter => body[0] == 0 && body[1] == 3
    case UnlistedRole(code) => code == 256 * (body[0] as nat) + body[1] as nat && code !in {1, 2, 3}
  }

  lemma RoleNamed(body: bytes)
    requires |body| >= 2
    ensures NamesRole(body, BeginRole(body))
  {
    var two := body[..2];
    assert two[..1] == [body[0]] && two[1] == body[1] && [body[0]][..0] == [];
    assert From(two) == From([body[0]]) * 256 + two[1] as nat;
    assert From([body[0]]) == From([]) * 256 + body[0] as nat;
  }

  /** A request is created by a BEGIN_REQUEST record for it and by nothing else, in the
      role the record names and with nothing behind it. */
  lemma CreatedByBegin(s0: State, schedule: seq<Action>, s: State, t: Tid, o: Oracle, s': State, id: RequestId)
    requires Ran(s0, schedule, s) && Step(s, Run(t, o)) == Some(s') && id !in s.requests
    ensures id in s'.requests <==>
      s.pc[t].PFind? && exists body :: LastCall(s0, schedule, t) == Some((id, Record(BeginRequest, body)))
    ensures id in s'.requests ==> exists body ::
      && LastCall(s0, schedule, t) == Some((id, Record(BeginRequest, body)))
      && s'.requests[id] == Slot(s.nextGen, None, None, [], Fresh(BeginRole(body), o.maxPostSize), [], [])
      && (|body| >= 2 ==> NamesRole(body, s'.requests[id].req.role))
  {
    RanInv(s0, schedule, s);
    OthersStay(s, Run(t, o), s');
    CallsServed(s0, schedule, s, t);
    hide Inv, LastCall, Ran;
    if s.pc[t].PFind? {
      FindCreates(s, t, o, id);
      if s.pc[t].id == id && s.pc[t].msg.Record? && s.pc[t].msg.kind == BeginRequest {
        assert LastCall(s0, schedule, t) == Some((id, Record(BeginRequest, s.pc[t].msg.content)));
        if |s.pc[t].msg.content| >= 2 { RoleNamed(s.pc[t].msg.content); }
        hide NamesRole, BeginRole;
      }
    } else {
      ComeAndGo(s, t, o);
    }
  }

  lemma FindCreates(s: State, t: Tid, o: Oracle, id: RequestId)
    requires t in s.pc && s.pc[t].PFind? && ThreadStep(s, t, o).Some? && id !in s.requests
    ensures var s', m := ThreadStep(s, t, o).value, s.pc[t].msg;
      if s.pc[t].id == id && m.Record? && m.kind == BeginRequest
      then id in s'.requests
        && s'.requests[id] == Slot(s.nextGen, None, None, [], Fresh(BeginRole(m.content), o.maxPostSize), [], [])
      else id !in s'.requests
  {
    hide BeginRole, Fresh;
  }

  /** What the socket was found to be when a worker last saw a queue empty. */
  function LastVerdict(s0: State, schedule: seq<Action>, t: Tid): Option<bool> {
    if schedule == [] then None
    else
      var n := |schedule| - 1;
      var before, a := After(s0, schedule[..n]), schedule[n];
      if a.Run? && a.t == t && before.Some? && t in before.value.pc && before.value.pc[t].SawEmpty?
      then Some(a.o.socketValid)
      else LastVerdict(s0, schedule[..n], t)
  }

  predicate Heeds(p: Pc, valid: Option<bool>) {
    && (p.Release? ==> valid == Some(true))
    && ((p.WantErase? || p.Erasing?) && p.why == BadSocket ==> valid == Some(false))
  }

  lemma ReleaseHeeds(s: State, t: Tid, o: Oracle)
    requires t in s.pc && ReleaseStep(s, t, o).Some?
    ensures var s' := ReleaseStep(s, t, o).value;
      && t in s'.pc && !s'.pc[t].Exited?
      && if s.pc[t].SawEmpty? then Heeds(s'.pc[t], Some(o.socketValid)) else s'.pc[t].WantTasks?
  {
    hide Live;
  }

  /** Steps other than the one after an empty queue decide nothing about the socket. */
  predicate Neutral(p: Pc, p': Pc) {
    && !p'.Release? && (p'.Exited? ==> p.Check?)
    && ((p'.WantErase? || p'.Erasing?) && p'.why == BadSocket ==> p.WantErase? && p.why == BadSocket)
  }

  lemma StepNeutral(s: State, t: Tid, o: Oracle)
    requires t in s.pc && !s.pc[t].SawEmpty? && !s.pc[t].Release? && ThreadStep(s, t, o).Some?
    requires t in ThreadStep(s, t, o).value.pc
    ensures Neutral(s.pc[t], ThreadStep(s, t, o).value.pc[t])
  {
    if Pushing(s.pc[t]) {
      hide ThreadStep;
      StaysPusher(s, t, o);
    } else {
      WorkerSteps(s, t, o);
      hide ThreadStep, LoopStep, PopStep, LookupStep, HandlerStep, EraseStep, ReleaseStep;
      var p := s.pc[t];
      if p.Start? || p.Sleeping? || p.WantTasks? || p.WantRead? || p.Check? {
        LoopNeutral(s, t);
      } else if p.Inner? || p.Have? {
        PopNeutral(s, t);
      } else if p.Find? || p.Locked? {
        LookupNeutral(s, t);
      } else if p.Enter? || p.WantMsg? || p.Look? || p.Process? {
        HandlerNeutral(s, t, o);
      } else {
        EraseNeutral(s, t);
      }
    }
  }

  lemma LoopNeutral(s: State, t: Tid)
    requires t in s.pc && LoopStep(s, t).Some?
    ensures t in LoopStep(s, t).value.pc && Neutral(s.pc[t], LoopStep(s, t).value.pc[t])
  {
    hide MustExit;
  }

  lemma PopNeutral(s: State, t: Tid)
    requires t in s.pc && PopStep(s, t).Some?
    ensures t in PopStep(s, t).value.pc && Neutral(s.pc[t], PopStep(s, t).value.pc[t])
  {
  }

  lemma LookupNeutral(s: State, t: Tid)
    requires t in s.pc && LookupStep(s, t).Some?
    ensures t in LookupStep(s, t).value.pc && Neutral(s.pc[t], LookupStep(s, t).value.pc[t])
  {
  }

  lemma HandlerNeutral(s: State, t: Tid, o: Oracle)
    requires t in s.pc && HandlerStep(s, t, o).Some?
    ensures t in HandlerStep(s, t, o).value.pc && Neutral(s.pc[t], HandlerStep(s, t, o).value.pc[t])
  {
    hide Handle;
  }

  lemma EraseNeutral(s: State, t: Tid)
    requires t in s.pc && EraseStep(s, t).Some?
    ensures t in EraseStep(s, t).value.pc && Neutral(s.pc[t], EraseStep(s, t).value.pc[t])
  {
  }

  lemma RouteStays(s: State, t: Tid, o: Oracle)
    requires t in s.pc && RouteStep(s, t, o).Some?
    ensures t in RouteStep(s, t, o).value.pc && Pushing(RouteStep(s, t, o).value.pc[t])
  {
    hide Create, BeginRole;
  }

  lemma StaysPusher(s: State, t: Tid, o: Oracle)
    requires t in s.pc && Pushing(s.pc[t]) && ThreadStep(s, t, o).Some?
    ensures t in ThreadStep(s, t, o).value.pc && Pushing(ThreadStep(s, t, o).value.pc[t])
  {
    PusherSteps(s, t, o);
    hide ThreadStep, ArriveStep, RouteStep, DeliverStep, ScheduleStep, SweepStep;
    var p := s.pc[t];
    if p.Idle? {
      ArriveStays(s, t, o);
    } else if p.PWant? || p.PFind? {
      RouteStays(s, t, o);
    } else if p.PWantMsg? || p.PPush? || p.PUnlock? {
      DeliverStays(s, t);
    } else if p.PWantTasks? || p.PTask? {
      ScheduleStays(s, t);
    } else {
      SweepStays(s, t, o);
    }
  }

  lemma ArriveStays(s: State, t: Tid, o: Oracle)
    requires t in s.pc && ArriveStep(s, t, o).Some?
    ensures t in ArriveStep(s, t, o).value.pc && Pushing(ArriveStep(s, t, o).value.pc[t])
  {
  }

  lemma DeliverStays(s: State, t: Tid)
    requires t in s.pc && DeliverStep(s, t).Some?
    ensures t in DeliverStep(s, t).value.pc && Pushing(DeliverStep(s, t).value.pc[t])
  {
  }

  lemma ScheduleStays(s: State, t: Tid)
    requires t in s.pc && ScheduleStep(s, t).Some?
    ensures t in ScheduleStep(s, t).value.pc && Pushing(ScheduleStep(s, t).value.pc[t])
  {
  }

  lemma SweepStays(s: State, t: Tid, o: Oracle)
    requires t in s.pc && SweepStep(s, t, o).Some?
    ensures t in SweepStep(s, t, o).value.pc && Pushing(SweepStep(s, t, o).value.pc[t])
  {
  }

  /** A worker keeps a request whose socket it found valid and erases one whose socket it
      found dead, and not the other way round. */
  lemma {:induction false} VerdictsHeeded(s0: State, schedule: seq<Action>, s: State, t: Tid)
    requires Ran(s0, schedule, s) && t in s.pc
    ensures Heeds(s.pc[t], LastVerdict(s0, schedule, t))
  {
    if schedule != [] {
      var n := |schedule| - 1;
      var mid := RanBack(s0, schedule, s);
      OthersStay(mid, schedule[n], s);
      VerdictsHeeded(s0, schedule[..n], mid, t);
      hide Inv, Step, ThreadStep;
      if schedule[n].Run? && schedule[n].t == t {
        var o := schedule[n].o;
        if mid.pc[t].SawEmpty? || mid.pc[t].Release? {
          ReleaseIsStep(mid, t, o);
          ReleaseHeeds(mid, t, o);
        } else {
          StepNeutral(mid, t, o);
        }
      }
    }
  }

  lemma ReleaseIsStep(s: State, t: Tid, o: Oracle)
    requires t in s.pc && (s.pc[t].SawEmpty? || s.pc[t].Release?)
    ensures ThreadStep(s, t, o) == ReleaseStep(s, t, o)
  {
    hide ReleaseStep;
  }

  /** Why a request goes: its owner handled a message that ended it, with END_REQUEST
      sent; or its owner saw its queue empty and its socket dead; or nobody owned it and
      push() was called for its socket having died. Nothing else goes in the same step. */
  lemma ErasedForCause(s0: State, schedule: seq<Action>, s: State, t: Tid, o: Oracle, s': State, id: RequestId)
    requires Ran(s0, schedule, s) && Step(s, Run(t, o)) == Some(s') && id in s.requests && id !in s'.requests
    ensures s.requests.Keys - {id} <= s'.requests.Keys
    ensures
      var x := s.requests[id];
      if s.pc[t].Erasing? && s.pc[t].id == id then
        && x.mutex == Some(t)
        && (EndsOnce(x.req.sent) || (NoEnd(x.req.sent) && LastVerdict(s0, schedule, t) == Some(false)))
      else
        && s.pc[t].Sweep? && x.mutex.None? && NoEnd(x.req.sent)
        && LastCall(s0, schedule, t).Some?
        && LastCall(s0, schedule, t).value.0 == RequestId(id.socket, BAD_FCGI_ID)
  {
    hide Inv, ThreadStep, LastCall, LastVerdict, SweepOk, SharedOk;
    RanInv(s0, schedule, s);
    InvParts(s);
    assert ReqOk(s, id);
    CallsServed(s0, schedule, s, t);
    VerdictsHeeded(s0, schedule, s, t);
    assert t in s.pc && ThreadStep(s, t, o) == Some(s');
    ComeAndGo(s, t, o);
    hide Ran, Init, After, Step;
    if s.pc[t].Erasing? {
      MyMutex(s, t);
      hide OwnersOk;
    } else {
      hide OwnersOk;
      SweepTakes(s, t, o);
    }
  }

  lemma SweepTakes(s: State, t: Tid, o: Oracle)
    requires SweepOk(s) && t in s.pc && s.pc[t].Sweep? && ThreadStep(s, t, o).Some?
    ensures Leaving(s, t, o) != {} ==> o.pick in s.pc[t].todo && o.pick.socket == s.pc[t].socket
  {
    assert Swept(s.pc[t], s.requests);
  }

  // ---- The sweep ------------------------------------------------------------

  /** A step of a sweep erases at most the one request it looks at, exactly if nobody
      owns it; that request belongs to the socket push() was called for; and every other
      request stays as it was. */
  lemma SweepTakesItsOwn(s0: State, schedule: seq<Action>, s: State, t: Tid, o: Oracle, s': State)
    requires Ran(s0, schedule, s) && t in s.pc && s.pc[t].Sweep? && Step(s, Run(t, o)) == Some(s')
    ensures LastCall(s0, schedule, t).Some?
    ensures LastCall(s0, schedule, t).value.0 == RequestId(s.pc[t].socket, BAD_FCGI_ID)
    ensures forall id <- s.pc[t].todo :: id in s.requests && id.socket == s.pc[t].socket
    ensures t in s'.pc
    ensures
      var Sweep(socket, todo) := s.pc[t];
      if todo == {} then s'.requests == s.requests && s'.pc[t] == Idle
      else
        && o.pick in todo && s'.pc[t] == Sweep(socket, todo - {o.pick})
        && s'.requests == if s.requests[o.pick].mutex.None? then s.requests - {o.pick} else s.requests
    ensures forall id | id in s.requests && id.socket != s.pc[t].socket ::
              id in s'.requests && s'.requests[id] == s.requests[id]
  {
    hide Inv, LastCall, ThreadStep, SharedOk, OwnersOk, ReqOk;
    RanInv(s0, schedule, s);
    InvParts(s);
    assert Swept(s.pc[t], s.requests);
    hide SweepOk;
    CallsServed(s0, schedule, s, t);
    hide Ran, Init, After;
    SweepLooks(s, t, o);
  }

  lemma SweepLooks(s: State, t: Tid, o: Oracle)
    requires t in s.pc && s.pc[t].Sweep? && ThreadStep(s, t, o).Some?
    ensures
      var s' := ThreadStep(s, t, o).value;
      var Sweep(socket, todo) := s.pc[t];
      && t in s'.pc
      && if todo == {} then s'.requests == s.requests && s'.pc[t] == Idle
         else
           && o.pick in todo && o.pick in s.requests && s'.pc[t] == Sweep(socket, todo - {o.pick})
           && s'.requests == if s.requests[o.pick].mutex.None? then s.requests - {o.pick} else s.requests
  {
    PusherSteps(s, t, o);
    hide ThreadStep;
  }

  /** In the sweep it is at, thread t looked at request id and found it owned. */
  predicate FoundOwned(s0: State, schedule: seq<Action>, t: Tid, id: RequestId) {
    schedule != []
    && var n := |schedule| - 1;
       var before, a := After(s0, schedule[..n]), schedule[n];
       && before.Some? && t in before.value.pc && before.value.pc[t].Sweep?
       && (|| FoundOwned(s0, schedule[..n], t, id)
           || (a.Run? && a.t == t && a.o.pick == id
               && id in before.value.requests && before.value.requests[id].mutex.Some?))
  }

  /** No request of the socket escapes: as long as one is there, the sweep still has to
      look at it or looked at it and found it owned. At the end, when nothing is left to
      do, every request of the socket that is still there was found owned. */
  lemma {:induction false} SweepLooksAtAll(s0: State, schedule: seq<Action>, s: State, t: Tid, id: RequestId)
    requires Ran(s0, schedule, s) && t in s.pc && s.pc[t].Sweep?
    requires id in s.requests && id.socket == s.pc[t].socket
    ensures id in s.pc[t].todo || FoundOwned(s0, schedule, t, id)
  {
    if schedule != [] {
      var n := |schedule| - 1;
      var a := schedule[n];
      var mid := RanBack(s0, schedule, s);
      hide Inv, ThreadStep, Step;
      OthersStay(mid, a, s);
      if a.Run? && a.t == t {
        SweepSteps(mid, t, a.o);
        if mid.pc[t].Sweep? && id !in s.pc[t].todo && id !in mid.pc[t].todo {
          SweepLooksAtAll(s0, schedule[..n], mid, t, id);
        }
      } else {
        NoneComesMeanwhile(mid, a, s, t, id);
        SweepLooksAtAll(s0, schedule[..n], mid, t, id);
      }
    }
  }

  lemma SweepSteps(s: State, t: Tid, o: Oracle)
    requires t in s.pc && ThreadStep(s, t, o).Some?
    requires var s' := ThreadStep(s, t, o).value; t in s'.pc && s'.pc[t].Sweep?
    ensures
      var s' := ThreadStep(s, t, o).value;
      if s.pc[t].Sweep? then
        && s'.requests.Keys <= s.requests.Keys && s'.pc[t].socket == s.pc[t].socket
        && s'.pc[t].todo == s.pc[t].todo - {o.pick} && o.pick in s.requests
        && (o.pick in s'.requests ==> s.requests[o.pick].mutex.Some?)
      else
        && s'.requests == s.requests
        && forall id | id in s'.requests && id.socket == s'.pc[t].socket :: id in s'.pc[t].todo
  {
    if Pushing(s.pc[t]) {
      PusherSteps(s, t, o);
      hide ThreadStep, ArriveStep, DeliverStep, ScheduleStep, BeginRole, Fresh;
      if !s.pc[t].SWant? && !s.pc[t].Sweep? { NoSweepBegins(s, t, o); }
    } else {
      StaysWorker(s, t, o);
    }
  }

  lemma NoSweepBegins(s: State, t: Tid, o: Oracle)
    requires t in s.pc && Pushing(s.pc[t]) && !s.pc[t].SWant? && !s.pc[t].Sweep? && ThreadStep(s, t, o).Some?
    ensures t in ThreadStep(s, t, o).value.pc && !ThreadStep(s, t, o).value.pc[t].Sweep?
  {
    PusherSteps(s, t, o);
    hide ThreadStep, SweepStep, BeginRole, Fresh;
  }

  /** While a thread sweeps nobody else creates a request. */
  lemma NoneComesMeanwhile(s: State, a: Action, s': State, t: Tid, id: RequestId)
    requires Inv(s) && Step(s, a) == Some(s') && t in s.pc && s.pc[t].Sweep? && !(a.Run? && a.t == t)
    requires id in s'.requests
    ensures id in s.requests
  {
    hide Inv, ThreadStep, OwnersOk, SweepOk, ReqOk;
    InvParts(s);
    if a.Run? {
      ComeAndGo(s, a.t, a.o);
      assert s.writer == Some(t) && !HoldsExclusive(s.pc[a.t]);
    }
  }

  // ---- What became of the messages ------------------------------------------

  /** The request is what handling these messages made of it, with some choices of user
      code, and has ended or not. */
  ghost predicate Lived(x: Slot, ms: seq<Message>, ended: bool) {
    exists cs: seq<Choice> :: LivedWith(x, ms, ended, cs)
  }

  ghost predicate LivedWith(x: Slot, ms: seq<Message>, ended: bool, cs: seq<Choice>) {
    |cs| == |ms| && Life(Fresh(x.req.role, x.req.maxPostSize), ms, cs) == (x.req, ended)
  }

  /** All it consumed was handled, but for the message in hand. */
  ghost predicate AliveAs(x: Slot, stage: Stage) {
    match stage
    case Resting => Lived(x, x.consumed, false)
    case Over => Lived(x, x.consumed, true)
    case Busy(m) =>
      x.consumed != [] && x.consumed[|x.consumed| - 1] == m && Lived(x, x.consumed[..|x.consumed| - 1], false)
  }

  lemma AliveOn(x: Slot, stage: Stage, x': Slot, stage': Stage, h: Happening)
    requires AliveAs(x, stage) && Happens(x, stage, x', stage', h) && (stage == Resting || stage.Busy? ==> Open(x.req))
    ensures AliveAs(x', stage')
  {
    hide Life, Handle;
    match h {
      case Nothing =>
        SameLife(x, x');
      case Pushed(_) =>
        SameLife(x, x');
      case Taken(m) =>
        assert x'.consumed[..|x.consumed|] == x.consumed;
        SameLife(x, x');
      case Handled(m, choice) =>
        HandledLives(x, x', m, choice, stage' == Over);
    }
  }

  lemma SameLife(x: Slot, x': Slot)
    requires x'.req == x.req
    ensures forall ms, ended :: Lived(x, ms, ended) ==> Lived(x', ms, ended)
  {
    hide Life;
    forall ms, ended | Lived(x, ms, ended) ensures Lived(x', ms, ended) {
      var cs :| LivedWith(x, ms, ended, cs);
      assert LivedWith(x', ms, ended, cs);
    }
  }

  lemma HandledLives(x: Slot, x': Slot, m: Message, choice: Choice, ended: bool)
    requires Open(x.req) && (x'.req, ended) == Handle(x.req, m, choice) && x'.consumed == x.consumed
    requires x.consumed != [] && x.consumed[|x.consumed| - 1] == m && Lived(x, x.consumed[..|x.consumed| - 1], false)
    ensures Lived(x', x'.consumed, ended)
  {
    HandleKeeps(x.req, m, choice);
    var ms := x.consumed[..|x.consumed| - 1];
    var cs :| LivedWith(x, ms, false, cs);
    assert x.consumed == ms + [m] && (cs + [choice])[..|ms|] == cs;
    hide Handle;
    assert LivedWith(x', x'.consumed, ended, cs + [choice]);
  }

  /** In every state of every run, each live request is what the handling of the messages
      it consumed made of it, and so is each request that was erased. */
  lemma {:induction false} RequestsLive(s0: State, schedule: seq<Action>, s: State)
    requires Ran(s0, schedule, s)
    ensures forall id | id in s.requests :: AliveAs(s.requests[id], StageAt(s, id))
    ensures forall x <- s.gone :: Lived(x, x.consumed, true) || Lived(x, x.consumed, false)
  {
    if schedule != [] {
      var n := |schedule| - 1;
      var a := schedule[n];
      var mid := RanBack(s0, schedule, s);
      OthersStay(mid, a, s);
      RequestsLive(s0, schedule[..n], mid);
      hide Step, ThreadStep, Ran, Inv, AliveAs, Lived, StageAt;
      if a.Run? {
        forall id | id in s.requests ensures AliveAs(s.requests[id], StageAt(s, id)) {
          LivesOn(mid, a.t, a.o, id);
        }
        GoneLived(mid, a.t, a.o);
      } else {
        StageStays(mid, s);
      }
    }
  }

  lemma StageStays(s: State, s': State)
    requires s'.requests == s.requests && s'.pc == s.pc
    ensures forall id | id in s.requests :: StageAt(s', id) == StageAt(s, id)
  {
  }

  lemma LivesOn(s: State, t: Tid, o: Oracle, id: RequestId)
    requires Inv(s) && t in s.pc && ThreadStep(s, t, o).Some? && id in ThreadStep(s, t, o).value.requests
    requires id in s.requests ==> AliveAs(s.requests[id], StageAt(s, id))
    ensures var s' := ThreadStep(s, t, o).value; AliveAs(s'.requests[id], StageAt(s', id))
  {
    var s' := ThreadStep(s, t, o).value;
    if id in s.requests {
      assert ReqOk(s, id);
      OpenAt(s, id);
      hide Inv, ThreadStep, AliveAs, StageAt, Happens, ReqOk;
      var h := StepHappens(s, t, o, id);
      AliveOn(s.requests[id], StageAt(s, id), s'.requests[id], StageAt(s', id), h);
    } else {
      hide Inv, ThreadStep, AliveAs;
      ComeAndGo(s, t, o);
      FindCreates(s, t, o, id);
      BornAlive(s'.requests[id], BeginRole(s.pc[t].msg.content), o.maxPostSize);
    }
  }

  lemma OpenAt(s: State, id: RequestId)
    requires id in s.requests && ReqOk(s, id)
    ensures StageAt(s, id) != Over ==> Open(s.requests[id].req)
  {
    hide Open, Closed;
  }

  lemma BornAlive(x: Slot, role: Role, maxPostSize: nat)
    requires x.req == Fresh(role, maxPostSize) && x.consumed == []
    ensures AliveAs(x, Resting)
  {
    assert LivedWith(x, [], false, []);
  }

  lemma GoneLived(s: State, t: Tid, o: Oracle)
    requires Inv(s) && t in s.pc && ThreadStep(s, t, o).Some?
    requires forall id | id in s.requests :: AliveAs(s.requests[id], StageAt(s, id))
    requires forall x <- s.gone :: Lived(x, x.consumed, true) || Lived(x, x.consumed, false)
    ensures forall x <- ThreadStep(s, t, o).value.gone :: Lived(x, x.consumed, true) || Lived(x, x.consumed, false)
  {
    var c := Summary(s, t, o);
    if c.Removed? {
      assert AliveAs(s.requests[c.id], StageAt(s, c.id));
      assert !StageAt(s, c.id).Busy? by {
        assert s.requests[c.id].mutex.Some? ==> HoldsExclusive(s.pc[t]);
      }
    }
    hide Inv, ThreadStep, Lived, StageAt;
  }

  /** So the post buffer of a live request in INPUT with no message in hand holds the
      contents of all INPUT records it consumed, in order. */
  lemma PostBufferIsPosted(s0: State, schedule: seq<Action>, s: State, id: RequestId)
    requires Ran(s0, schedule, s) && id in s.requests && StageAt(s, id) == Resting
    requires s.requests[id].req.state == Input
    ensures s.requests[id].req.postBuffer == Posted(s.requests[id].consumed)
  {
    RequestsLive(s0, schedule, s);
    var x := s.requests[id];
    assert AliveAs(x, Resting);
    hide Life, Posted, Expected, Ran;
    var cs :| LivedWith(x, x.consumed, false, cs);
    LifeRemembers(x.req.role, x.req.maxPostSize, x.consumed, cs);
  }

  // ---- Exit -----------------------------------------------------------------

  /** Did terminate() or stop() tell the worker to exit when it last looked? */
  function LastTest(s0: State, schedule: seq<Action>, t: Tid): Option<bool> {
    if schedule == [] then None
    else
      var n := |schedule| - 1;
      var before, a := After(s0, schedule[..n]), schedule[n];
      if a.Run? && a.t == t && before.Some? && t in before.value.pc && before.value.pc[t].Check?
      then
        var s := before.value;
        Some(s.terminate || (s.stop && s.requests == map[]))
      else LastTest(s0, schedule[..n], t)
  }

  lemma TestObeyed(s: State, t: Tid, o: Oracle)
    requires t in s.pc && s.pc[t].Check? && ThreadStep(s, t, o).Some?
    ensures var s' := ThreadStep(s, t, o).value;
      t in s'.pc && (s'.pc[t].Exited? <==> s.terminate || (s.stop && s.requests == map[]))
  {
    WorkerSteps(s, t, o);
    hide ThreadStep;
  }

  lemma NoExit(s: State, t: Tid, o: Oracle)
    requires t in s.pc && !s.pc[t].Check? && ThreadStep(s, t, o).Some? && t in ThreadStep(s, t, o).value.pc
    ensures !ThreadStep(s, t, o).value.pc[t].Exited?
  {
    var p := s.pc[t];
    if Pushing(p) {
      hide ThreadStep;
      StaysPusher(s, t, o);
    } else {
      WorkerSteps(s, t, o);
      hide ThreadStep, LoopStep, PopStep, LookupStep, HandlerStep, ReleaseStep, EraseStep;
      if p.Start? || p.Sleeping? || p.WantTasks? || p.WantRead? {
        LoopNeutral(s, t);
      } else if p.Inner? || p.Have? {
        PopNeutral(s, t);
      } else if p.Find? || p.Locked? {
        LookupNeutral(s, t);
      } else if p.Enter? || p.WantMsg? || p.Look? || p.Process? {
        HandlerNeutral(s, t, o);
      } else if p.SawEmpty? || p.Release? {
        ReleaseHeeds(s, t, o);
      } else {
        EraseNeutral(s, t);
      }
    }
  }

  lemma ExitIsFinal(s: State, t: Tid, o: Oracle)
    requires t in s.pc && ThreadStep(s, t, o).Some?
    ensures !s.pc[t].Exited?
  {
  }

  /** A worker is gone exactly if terminate() was called or stop() was and no request was
      left, when it looked last. */
  lemma {:induction false} WorkersExitWhenTold(s0: State, schedule: seq<Action>, s: State, t: Tid)
    requires Ran(s0, schedule, s) && t in s.pc
    ensures s.pc[t].Exited? <==> LastTest(s0, schedule, t) == Some(true)
  {
    if schedule != [] {
      var n := |schedule| - 1;
      var a := schedule[n];
      var mid := RanBack(s0, schedule, s);
      hide Inv, Step, ThreadStep;
      OthersStay(mid, a, s);
      WorkersExitWhenTold(s0, schedule[..n], mid, t);
      if a.Run? && a.t == t {
        if mid.pc[t].Check? {
          TestObeyed(mid, t, a.o);
        } else {
          ExitIsFinal(mid, t, a.o);
          NoExit(mid, t, a.o);
        }
      }
    }
  }
}
