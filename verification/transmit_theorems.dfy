// What send() and transmit() guarantee in every run: the byte count, the order on
// every connection with the exact condition under which bytes are lost, and fairness.

module TransmitTheorems {
  import opened BigEndian
  import opened Common
  import opened RoundRobin
  import opened Transmit

  // ---- Queues ---------------------------------------------------------------

  /** What is queued under a handle. */
  predicate QueueOk(list: seq<Rec>, h: nat) {
    list != [] && forall r <- list :: r.conn.handle == h
  }

  ghost predicate Queues(s: State) {
    forall h | h in s.buffer :: QueueOk(s.buffer[h], h)
  }

  lemma PushQueues(s: State, sender: nat, r: Rec)
    requires Queues(s)
    ensures Queues(PushStep(s, sender, r))
  {
    var h := r.conn.handle;
    forall k | k in PushStep(s, sender, r).buffer ensures QueueOk(PushStep(s, sender, r).buffer[k], k) {
      if k != h { assert QueueOk(s.buffer[k], k); }
    }
  }

  lemma TakeQueues(s: State, drain: bool)
    requires Queues(s) && s.buffer != map[]
    ensures Queues(Take(s, drain))
  {
    hide Choose;
    var h := Choose(s.buffer.Keys, s.lastSocket);
    assert QueueOk(s.buffer[h], h);
    forall k | k in Take(s, drain).buffer ensures QueueOk(Take(s, drain).buffer[k], k) {
      assert QueueOk(s.buffer[k], k);
    }
  }

  lemma AfterQueues(s: State)
    requires Queues(s) && s.pc.Counted?
    ensures Queues(AfterStep(s))
  {
    hide QueueOk, Bytes, DropAll;
  }

  lemma GoQueues(s: State, written: int)
    requires Queues(s) && TransmitStep(s, written).Some?
    ensures Queues(TransmitStep(s, written).value)
  {
    hide Take, AfterStep, Log;
    if s.pc.Counted? {
      AfterQueues(s);
    } else if s.buffer != map[] && (s.pc.Picking? || (s.pc.Loop? && s.pc.drain)) {
      TakeQueues(s, s.pc.Loop?);
    }
  }

  lemma StepQueues(s: State, a: Action)
    requires Queues(s) && Step(s, a).Some?
    ensures Queues(Step(s, a).value)
  {
    hide PushStep, TransmitStep;
    match a
    case Push(sender, r) => PushQueues(s, sender, r);
    case Go(written) => GoQueues(s, written);
    case Add(_) =>
    case SetMax(_) =>
    case Close(_) =>
    case Wake =>
  }

  // ---- Send accounting ------------------------------------------------------

  /** Queued bytes, by handle. */
  ghost function Sizes(buffer: map<nat, seq<Rec>>): map<nat, int> {
    map h | h in buffer :: |Bytes(buffer[h])|
  }

  function InFlight(pc: Pc): nat {
    if pc.Writing? then |pc.r.data| else 0
  }

  /** m_sendBufferSize is the queued bytes and the record in flight, less what
      senders have pushed and not added yet. */
  ghost predicate Accounted(s: State) {
    s.size == Sum(Sizes(s.buffer)) + InFlight(s.pc) - Sum(s.adding)
  }

  lemma SizesSet(buffer: map<nat, seq<Rec>>, h: nat, list: seq<Rec>)
    ensures Sum(Sizes(buffer[h := list])) == Sum(Sizes(buffer)) + |Bytes(list)| - |Bytes(Get(buffer, h))|
  {
    hide Sum;
    assert Bytes([]) == [];
    hide Bytes;
    SumUpdate(Sizes(buffer), h, |Bytes(list)|);
    assert Sizes(buffer[h := list]) == Sizes(buffer)[h := |Bytes(list)|];
  }

  lemma SizesDrop(buffer: map<nat, seq<Rec>>, h: nat)
    ensures Sum(Sizes(buffer - {h})) == Sum(Sizes(buffer)) - |Bytes(Get(buffer, h))|
  {
    hide Sum;
    assert Bytes([]) == [];
    hide Bytes;
    if h in buffer {
      SumWithout(Sizes(buffer), h);
      assert Sizes(buffer - {h}) == Sizes(buffer) - {h};
    } else {
      assert buffer - {h} == buffer;
    }
  }

  lemma TakeAccounted(s: State, drain: bool)
    requires Queues(s) && Accounted(s) && s.buffer != map[] && InFlight(s.pc) == 0
    ensures Accounted(Take(s, drain))
  {
    hide Sum, Choose, Sizes;
    var h := Choose(s.buffer.Keys, s.lastSocket);
    var list := s.buffer[h];
    assert Bytes(list) == list[0].data + Bytes(list[1..]);
    if |list| == 1 {
      assert Bytes(list[1..]) == [];
      SizesDrop(s.buffer, h);
    } else {
      SizesSet(s.buffer, h, list[1..]);
    }
  }

  lemma PushAccounted(s: State, sender: nat, r: Rec)
    requires Accounted(s) && sender !in s.adding
    ensures Accounted(PushStep(s, sender, r))
  {
    hide Sum, Sizes;
    var list := Get(s.buffer, r.conn.handle);
    BytesAppend(list, [r]);
    BytesOne(r);
    hide Bytes;
    SizesSet(s.buffer, r.conn.handle, list + [r]);
    SumUpdate(s.adding, sender, |r.data|);
  }

  lemma AfterAccounted(s: State)
    requires Accounted(s) && s.pc.Counted?
    ensures Accounted(AfterStep(s))
  {
    hide Sum, Sizes, Bytes, DropAll;
    SizesDrop(s.buffer, s.pc.r.conn.handle);
  }

  lemma GoAccounted(s: State, written: int)
    requires Queues(s) && Accounted(s) && TransmitStep(s, written).Some?
    ensures Accounted(TransmitStep(s, written).value)
  {
    hide Sum, Sizes, Take, AfterStep, WriteStep, Queues;
    if s.pc.Counted? {
      AfterAccounted(s);
    } else if s.pc.Writing? {
      WriteAccounted(s, written);
    } else if s.buffer != map[] && (s.pc.Picking? || s.pc.drain) {
      TakeAccounted(s, s.pc.Loop?);
    }
  }

  lemma WriteAccounted(s: State, written: int)
    requires Accounted(s) && s.pc.Writing? && WriteStep(s, written).Some?
    ensures Accounted(WriteStep(s, written).value)
  {
    hide Sum, Sizes, EndWrite;
    var Writing(r, done, sent, drain) := s.pc;
    if done == |r.data| {
      EndAccounted(s, sent);
    } else if written < 0 {
      EndAccounted(s, written);
    }
  }

  lemma EndAccounted(s: State, sent: int)
    requires Accounted(s) && s.pc.Writing? && s.pc.done <= |s.pc.r.data|
    ensures Accounted(EndWrite(s, s.pc.r, s.pc.done, sent, s.pc.drain))
  {
    hide Sum, Sizes, Log;
  }

  lemma StepAccounted(s: State, a: Action)
    requires Queues(s) && Accounted(s) && Step(s, a).Some?
    ensures Accounted(Step(s, a).value)
  {
    hide PushStep, TransmitStep, Sum, Sizes;
    match a
    case Push(sender, r) => PushAccounted(s, sender, r);
    case Add(sender) => SumWithout(s.adding, sender);
    case Go(written) => GoAccounted(s, written);
    case SetMax(_) =>
    case Close(_) =>
    case Wake =>
  }

  // ---- Order on a connection ------------------------------------------------

  function InHand(pc: Pc, c: Conn): seq<Rec> {
    if pc.Writing? then Mine(pc.r, c) else []
  }

  /** What is written of the record in flight, and what is not. */
  function Partial(pc: Pc, c: Conn): bytes {
    if pc.Writing? && pc.r.conn == c && pc.done <= |pc.r.data| then pc.r.data[..pc.done] else []
  }

  function Unwritten(pc: Pc, c: Conn): bytes {
    if pc.Writing? && pc.r.conn == c && pc.done <= |pc.r.data| then pc.r.data[pc.done..] else []
  }

  function Queued(s: State, c: Conn): seq<Rec> {
    Of(Get(s.buffer, c.handle), c)
  }

  /** The records passed to send are those done with, the one in flight, and those
      queued, in this order; the bytes written are theirs. */
  predicate Ordered(s: State, c: Conn) {
    && Get(s.given, c) == Records(Get(s.fates, c)) + (InHand(s.pc, c) + Queued(s, c))
    && Get(s.wire, c) == Written(Get(s.fates, c)) + Partial(s.pc, c)
    && Sane(Get(s.fates, c))
  }

  /** Did this event take bytes from the connection? Either a write of its own failed, or
      it had bytes queued under the handle of a record that failed or killed. */
  predicate Hit(l: Loss, c: Conn) {
    match l
    case Failed(r, wrote) => r.conn == c && wrote != r.data
    case Dropped(_, queue) => Bytes(Of(queue, c)) != []
  }

  predicate Spared(losses: seq<Loss>, c: Conn) {
    forall l <- losses :: !Hit(l, c)
  }

  /** Every record done with was written whole exactly if nothing hit the connection. */
  predicate Traced(s: State, c: Conn) {
    Whole(Get(s.fates, c)) <==> Spared(s.losses, c)
  }

  /** The record between the write loop and its aftermath is the last one done with. */
  predicate InTurn(s: State) {
    && (s.pc.Writing? ==> s.pc.done <= |s.pc.r.data|)
    && (s.pc.Counted? ==>
          var fates := Get(s.fates, s.pc.r.conn);
          fates != [] && fates[|fates| - 1].record == s.pc.r && (s.pc.ok ==> fates[|fates| - 1].wrote == s.pc.r.data))
  }

  /** What is dropped was queued under the handle of the record that caused it. */
  predicate Caused(losses: seq<Loss>) {
    forall l <- losses :: l.Dropped? ==> forall r <- l.queue :: r.conn.handle == l.cause.conn.handle
  }

  lemma SparedAppend(losses: seq<Loss>, l: Loss, c: Conn)
    ensures Spared(losses + [l], c) <==> Spared(losses, c) && !Hit(l, c)
  {
    hide Hit;
    assert l in losses + [l] && forall m <- losses :: m in losses + [l];
  }

  lemma PushOrdered(s: State, sender: nat, r: Rec, c: Conn)
    requires Ordered(s, c)
    ensures Ordered(PushStep(s, sender, r), c)
  {
    hide Of, Records, Written, Sane;
    var list := Get(s.buffer, r.conn.handle);
    OfAppend(list, r, c);
    Associate(InHand(s.pc, c), Queued(s, c), Mine(r, c));
    Associate(Records(Get(s.fates, c)), InHand(s.pc, c) + Queued(s, c), Mine(r, c));
    assert Queued(s, c) + [] == Queued(s, c);
  }

  lemma TakeQueued(s: State, drain: bool, c: Conn)
    requires Queues(s) && s.buffer != map[]
    ensures var t := Take(s, drain);
      t.pc.Writing? && InHand(t.pc, c) + Queued(t, c) == Queued(s, c) && Partial(t.pc, c) == []
  {
    hide Choose;
    var h := Choose(s.buffer.Keys, s.lastSocket);
    var list := s.buffer[h];
    assert QueueOk(list, h) && list[0] in list;
    OfFirst(list, c);
    assert Of([], c) == [];
    hide Of, QueueOk;
    assert Get(Take(s, drain).buffer, h) == list[1..];
    assert [] + Queued(s, c) == Queued(s, c);
    assert list[0].data[..0] == [];
  }

  lemma TakeOrdered(s: State, drain: bool, c: Conn)
    requires Queues(s) && Ordered(s, c) && s.buffer != map[] && !s.pc.Writing?
    ensures Ordered(Take(s, drain), c)
  {
    hide Records, Written, Sane, Queues, Queued, InHand, Mine;
    TakeQueued(s, drain, c);
    TakeKeeps(s, drain);
    NothingInHand(s.pc, c);
    hide Take;
    assert [] + Queued(s, c) == Queued(s, c);
  }

  lemma NothingInHand(pc: Pc, c: Conn)
    requires !pc.Writing?
    ensures InHand(pc, c) == [] && Partial(pc, c) == [] && Unwritten(pc, c) == []
  {
  }

  lemma EndOrdered(s: State, r: Rec, done: nat, sent: int, drain: bool, c: Conn)
    requires Ordered(s, c) && Traced(s, c)
    requires s.pc.Writing? && s.pc.r == r && s.pc.done == done <= |r.data| && (sent >= 0 ==> done == |r.data|)
    ensures var t := EndWrite(s, r, done, sent, drain); Ordered(t, c) && Traced(t, c)
  {
    hide Of, Records, Written, Sane, Whole, Log, Spared;
    var f := Fate(r, r.data[..done]);
    LogAt(s.fates, f, c);
    FatesAppend(Get(s.fates, c), f);
    SparedAppend(s.losses, Failed(r, f.wrote), c);
    Associate(Records(Get(s.fates, c)), InHand(s.pc, c), Queued(s, c));
    assert [] + Queued(s, c) == Queued(s, c);
    assert Written(Get(s.fates, c)) + [] == Written(Get(s.fates, c));
    assert done == |r.data| ==> f.wrote == r.data;
  }

  lemma WriteOrdered(s: State, written: int, c: Conn)
    requires Ordered(s, c) && Traced(s, c) && s.pc.Writing? && WriteStep(s, written).Some?
    requires InTurn(s)
    ensures var t := WriteStep(s, written).value; Ordered(t, c) && Traced(t, c)
  {
    hide Of, Records, Written, Sane, Whole, Spared, EndWrite;
    var Writing(r, done, sent, drain) := s.pc;
    if done == |r.data| {
      EndOrdered(s, r, done, sent, drain, c);
    } else if written < 0 {
      EndOrdered(s, r, done, written, drain, c);
    } else {
      Associate(Written(Get(s.fates, c)), r.data[..done], r.data[done..done + written]);
      Joined(r.data, done, done + written);
    }
  }

  lemma Joined(data: bytes, m: nat, n: nat)
    requires m <= n <= |data|
    ensures data[..m] + data[m..n] == data[..n]
  {
  }

  lemma NoneOf(s: State, h: nat, c: Conn)
    requires Queues(s)
    ensures c.handle != h ==> Of(Get(s.buffer, h), c) == []
  {
    if c.handle != h && h in s.buffer {
      assert QueueOk(s.buffer[h], h);
      OfNone(s.buffer[h], c);
    }
  }

  /** The aftermath, seen from one connection. */
  lemma AfterAt(s: State, c: Conn) returns (gone: seq<Rec>)
    requires Queues(s) && s.pc.Counted? && (!s.pc.ok || s.pc.r.kill)
    ensures var t := AfterStep(s);
      && gone + Queued(t, c) == Queued(s, c)
      && Get(t.fates, c) == Get(s.fates, c) + Drops(gone)
      && t.wire == s.wire && t.given == s.given && t.pc.Loop?
      && (Spared(t.losses, c) <==> Spared(s.losses, c) && Bytes(gone) == [])
  {
    hide Spared, DropAll, Drops, Queues;
    var h := s.pc.r.conn.handle;
    var list := Get(s.buffer, h);
    gone := Of(list, c);
    DropAllAt(s.fates, list, c);
    NoneOf(s, h, c);
    SparedAppend(s.losses, Dropped(s.pc.r, list), c);
    assert Of([], c) == [];
    hide Of, Bytes;
    assert gone + [] == gone && [] + Queued(s, c) == Queued(s, c);
  }

  lemma AfterOrdered(s: State, c: Conn)
    requires Queues(s) && Ordered(s, c) && Traced(s, c) && s.pc.Counted?
    ensures Ordered(AfterStep(s), c) && Traced(AfterStep(s), c)
  {
    hide Records, Written, Sane, Whole, Spared, Of, Bytes, Drops, Queues, Cleared;
    if !s.pc.ok || s.pc.r.kill {
      var gone := AfterAt(s, c);
      hide AfterStep;
      var t, fates := AfterStep(s), Get(s.fates, c);
      DropsRead(fates, gone);
      assert [] + Queued(s, c) == Queued(s, c) && [] + Queued(t, c) == Queued(t, c);
      Associate(Records(fates), gone, Queued(t, c));
    }
  }

  lemma GoOrdered(s: State, written: int, c: Conn)
    requires Queues(s) && Ordered(s, c) && Traced(s, c) && InTurn(s) && TransmitStep(s, written).Some?
    ensures var t := TransmitStep(s, written).value; Ordered(t, c) && Traced(t, c)
  {
    hide Of, Records, Written, Sane, Whole, Spared, Take, AfterStep, WriteStep, InTurn;
    if s.pc.Counted? {
      AfterOrdered(s, c);
    } else if s.pc.Writing? {
      WriteOrdered(s, written, c);
    } else if s.buffer != map[] && (s.pc.Picking? || s.pc.drain) {
      TakeOrdered(s, s.pc.Loop?, c);
      TakeKeeps(s, s.pc.Loop?);
    }
  }

  lemma TakeKeeps(s: State, drain: bool)
    requires Queues(s) && s.buffer != map[]
    ensures var t := Take(s, drain);
      t.fates == s.fates && t.losses == s.losses && t.given == s.given && t.wire == s.wire
  {
    hide Choose;
  }

  lemma StepOrdered(s: State, a: Action, c: Conn)
    requires Queues(s) && Ordered(s, c) && Traced(s, c) && InTurn(s) && Step(s, a).Some?
    ensures var t := Step(s, a).value; Ordered(t, c) && Traced(t, c)
  {
    hide Of, Records, Written, Sane, Whole, Spared, TransmitStep, InTurn;
    match a
    case Push(sender, r) => PushOrdered(s, sender, r, c);
    case Go(written) => GoOrdered(s, written, c);
    case Add(_) =>
    case SetMax(_) =>
    case Close(_) =>
    case Wake =>
  }

  lemma EndInTurn(s: State, sent: int)
    requires s.pc.Writing? && s.pc.done <= |s.pc.r.data| && (sent >= 0 ==> s.pc.done == |s.pc.r.data|)
    ensures InTurn(EndWrite(s, s.pc.r, s.pc.done, sent, s.pc.drain))
  {
    var f := Fate(s.pc.r, s.pc.r.data[..s.pc.done]);
    LogAt(s.fates, f, s.pc.r.conn);
    assert sent >= 0 ==> f.wrote == f.record.data;
    hide Log, Get;
  }

  lemma WriteInTurn(s: State, written: int)
    requires InTurn(s) && s.pc.Writing? && WriteStep(s, written).Some?
    ensures InTurn(WriteStep(s, written).value)
  {
    hide EndWrite, Get;
    var Writing(r, done, sent, drain) := s.pc;
    if done == |r.data| {
      EndInTurn(s, sent);
    } else if written < 0 {
      EndInTurn(s, written);
    }
  }

  lemma TakeInTurn(s: State, drain: bool)
    requires Queues(s) && s.buffer != map[]
    ensures InTurn(Take(s, drain))
  {
    hide Choose;
  }

  lemma AfterLoops(s: State)
    requires s.pc.Counted?
    ensures var t := AfterStep(s);
      t.pc == Loop(s.pc.drain) && t.lastSocket == s.lastSocket && t.picks == s.picks
  {
    hide DropAll, Bytes;
  }

  lemma StepInTurn(s: State, a: Action)
    requires Queues(s) && InTurn(s) && Step(s, a).Some?
    ensures InTurn(Step(s, a).value)
  {
    hide Take, AfterStep, WriteStep, Queues, Get;
    if a.Go? {
      if s.pc.Writing? {
        WriteInTurn(s, a.written);
      } else if s.pc.Counted? {
        AfterLoops(s);
      } else if s.buffer != map[] && (s.pc.Picking? || s.pc.drain) {
        TakeInTurn(s, s.pc.Loop?);
      }
    }
  }

  lemma CausedAppend(losses: seq<Loss>, l: Loss)
    requires Caused(losses) && (l.Dropped? ==> forall r <- l.queue :: r.conn.handle == l.cause.conn.handle)
    ensures Caused(losses + [l])
  {
  }

  lemma AfterCaused(s: State)
    requires Queues(s) && Caused(s.losses) && s.pc.Counted?
    ensures Caused(AfterStep(s).losses)
  {
    hide DropAll, Bytes, Caused;
    var r := s.pc.r;
    if !s.pc.ok || r.kill {
      if r.conn.handle in s.buffer {
        assert QueueOk(s.buffer[r.conn.handle], r.conn.handle);
      }
      CausedAppend(s.losses, Dropped(r, Get(s.buffer, r.conn.handle)));
    }
  }

  lemma WriteCaused(s: State, written: int)
    requires Caused(s.losses) && s.pc.Writing? && WriteStep(s, written).Some?
    ensures Caused(WriteStep(s, written).value.losses)
  {
    hide Caused, Log, Get;
    CausedAppend(s.losses, Failed(s.pc.r, s.pc.r.data[..s.pc.done]));
  }

  lemma StepCaused(s: State, a: Action)
    requires Queues(s) && Caused(s.losses) && Step(s, a).Some?
    ensures Caused(Step(s, a).value.losses)
  {
    hide Take, AfterStep, WriteStep, Queues, Caused;
    if a.Go? {
      if s.pc.Writing? {
        WriteCaused(s, a.written);
      } else if s.pc.Counted? {
        AfterCaused(s);
      } else if s.buffer != map[] && (s.pc.Picking? || s.pc.drain) {
        TakeKeeps(s, s.pc.Loop?);
      }
    }
  }

  // ---- Every run ------------------------------------------------------------

  ghost predicate Chosen(s: State) {
    && Turns(s.picks)
    && s.lastSocket == (if s.picks == [] then -1 else s.picks[|s.picks| - 1].taken)
  }

  ghost predicate AllOrdered(s: State) {
    forall c: Conn :: Ordered(s, c) && Traced(s, c)
  }

  ghost predicate Inv(s: State) {
    Queues(s) && Accounted(s) && AllOrdered(s) && InTurn(s) && Caused(s.losses) && Chosen(s)
  }

  lemma TakeChosen(s: State, drain: bool)
    requires Queues(s) && Chosen(s) && s.buffer != map[]
    ensures Chosen(Take(s, drain))
  {
    hide Choose, Turns;
    TurnsGoOn(s.picks, s.buffer.Keys);
  }

  lemma WriteKeepsChoice(s: State, written: int)
    requires s.pc.Writing? && WriteStep(s, written).Some?
    ensures var t := WriteStep(s, written).value; t.lastSocket == s.lastSocket && t.picks == s.picks
  {
    hide Log, Get;
  }

  lemma GoChosen(s: State, written: int)
    requires Queues(s) && Chosen(s) && TransmitStep(s, written).Some?
    ensures Chosen(TransmitStep(s, written).value)
  {
    hide Take, Turns, AfterStep, EndWrite, Queues, Get;
    NoTurns();
    if s.pc.Counted? {
      AfterLoops(s);
    } else if s.pc.Writing? {
      WriteKeepsChoice(s, written);
    } else if s.buffer != map[] && (s.pc.Picking? || s.pc.drain) {
      TakeChosen(s, s.pc.Loop?);
    }
  }

  lemma StepChosen(s: State, a: Action)
    requires Queues(s) && Chosen(s) && Step(s, a).Some?
    ensures Chosen(Step(s, a).value)
  {
    hide Turns, TransmitStep, Queues;
    NoTurns();
    if a.Go? { GoChosen(s, a.written); }
  }

  lemma NoTurns()
    ensures Turns([])
  {
  }

  lemma StepKeepsInv(s: State, a: Action)
    requires Inv(s) && Step(s, a).Some?
    ensures Inv(Step(s, a).value)
  {
    hide Step, Accounted, InTurn, Caused, Chosen, Ordered, Traced;
    StepQueues(s, a);
    StepAccounted(s, a);
    forall c: Conn ensures Ordered(Step(s, a).value, c) && Traced(Step(s, a).value, c) {
      assert Ordered(s, c) && Traced(s, c);
      StepOrdered(s, a, c);
    }
    StepInTurn(s, a);
    StepCaused(s, a);
    StepChosen(s, a);
  }

  /** The states a schedule of senders and transmitter can lead to. */
  ghost predicate Leads(s0: State, schedule: seq<Action>, s: State) {
    if schedule == [] then s == s0
    else
      exists mid :: Leads(s0, schedule[..|schedule| - 1], mid) && Queues(mid)
                 && Step(mid, schedule[|schedule| - 1]) == Some(s)
  }

  ghost predicate Reachable(s: State) {
    exists maxSize, schedule :: Leads(Init(maxSize), schedule, s)
  }

  lemma InitHasInv(maxSize: int)
    ensures Inv(Init(maxSize))
  {
    NoTurns();
    assert Sizes(map[]) == map[];
  }

  lemma {:induction false} LeadsInv(maxSize: int, schedule: seq<Action>, s: State)
    requires Leads(Init(maxSize), schedule, s)
    ensures Inv(s)
    decreases |schedule|
  {
    hide Inv, Step;
    if schedule == [] {
      InitHasInv(maxSize);
    } else {
      var n := |schedule| - 1;
      var mid :| Leads(Init(maxSize), schedule[..n], mid) && Queues(mid) && Step(mid, schedule[n]) == Some(s);
      LeadsInv(maxSize, schedule[..n], mid);
      StepKeepsInv(mid, schedule[n]);
    }
  }

  lemma LeadsOn(s0: State, schedule: seq<Action>, s: State, a: Action)
    requires Leads(s0, schedule, s) && Queues(s) && Step(s, a).Some?
    ensures Leads(s0, schedule + [a], Step(s, a).value) && Queues(Step(s, a).value)
  {
    hide Step;
    var longer := schedule + [a];
    assert longer[..|longer| - 1] == schedule;
    StepQueues(s, a);
  }

  lemma ReachableInv(s: State)
    requires Reachable(s)
    ensures Inv(s)
  {
    hide Inv;
    var maxSize, schedule :| Leads(Init(maxSize), schedule, s);
    LeadsInv(maxSize, schedule, s);
  }

  // ---- Theorems -------------------------------------------------------------

  /** In every reachable state, through every failure and kill, m_sendBufferSize is
      what is queued and in flight, less what senders still have to add. */
  lemma SizeIsAccounted(s: State)
    requires Reachable(s)
    ensures s.size == Sum(Sizes(s.buffer)) + InFlight(s.pc) - Sum(s.adding)
    ensures s.adding == map[] && !s.pc.Writing? ==> s.size == Sum(Sizes(s.buffer))
  {
    ReachableInv(s);
  }

  /** On every connection, whatever failed or was killed, records are done with in the
      order they were passed to send, and the bytes on the wire are theirs, in order. */
  lemma RecordsInOrder(s: State, c: Conn)
    requires Reachable(s)
    ensures Get(s.given, c) == Records(Get(s.fates, c)) + (InHand(s.pc, c) + Queued(s, c))
    ensures Get(s.wire, c) == Written(Get(s.fates, c)) + Partial(s.pc, c)
    ensures forall f <- Get(s.fates, c) :: f.wrote <= f.record.data
  {
    ReachableInv(s);
    assert Ordered(s, c);
  }

  lemma GivenBytes(s: State, c: Conn)
    requires Ordered(s, c) && InTurn(s)
    ensures Bytes(Get(s.given, c))
         == Bytes(Records(Get(s.fates, c))) + (Partial(s.pc, c) + Unwritten(s.pc, c) + Bytes(Queued(s, c)))
  {
    hide Of, Records, Written, Sane;
    var hand := InHand(s.pc, c);
    BytesAppend(hand, Queued(s, c));
    BytesAppend(Records(Get(s.fates, c)), hand + Queued(s, c));
    if hand != [] {
      BytesOne(s.pc.r);
      assert Partial(s.pc, c) + Unwritten(s.pc, c) == s.pc.r.data;
    } else {
      assert Bytes([]) == [];
      assert [] + Bytes(Queued(s, c)) == [] + [] + Bytes(Queued(s, c));
    }
  }

  /** What was passed to send for a connection is what was written, the rest of the
      record in flight and the connection's records in the queue, as long as no write of
      its own failed and no record queued under its handle failed or killed while the
      connection had bytes there; and not any longer. */
  lemma StreamIsWhole(s: State, c: Conn)
    requires Reachable(s)
    ensures Bytes(Get(s.given, c)) == Get(s.wire, c) + (Unwritten(s.pc, c) + Bytes(Queued(s, c)))
       <==> forall l <- s.losses :: !Hit(l, c)
    ensures forall l <- s.losses :: l.Dropped? ==> forall r <- l.queue :: r.conn.handle == l.cause.conn.handle
  {
    ReachableInv(s);
    assert Ordered(s, c) && Traced(s, c);
    GivenBytes(s, c);
    var fates, rest := Get(s.fates, c), Unwritten(s.pc, c) + Bytes(Queued(s, c));
    MissingBytes(fates);
    Associate(Partial(s.pc, c), Unwritten(s.pc, c), Bytes(Queued(s, c)));
    Associate(Written(fates), Partial(s.pc, c), rest);
  }

  /** So until then what was written is a prefix of what was passed to send, and all of
      it when nothing is queued or in flight. */
  lemma WireIsPrefix(s: State, c: Conn)
    requires Reachable(s) && forall l <- s.losses :: !Hit(l, c)
    ensures Get(s.wire, c) <= Bytes(Get(s.given, c))
    ensures Queued(s, c) == [] && !s.pc.Writing? ==> Get(s.wire, c) == Bytes(Get(s.given, c))
  {
    StreamIsWhole(s, c);
    assert Bytes([]) == [];
  }

  /** When the aftermath of a kill record that went out drops what is queued, what it
      drops of its own connection is exactly what was passed to send after it; everything
      before it was done with, and written if nothing hit the connection. */
  lemma KillAfterAll(s: State)
    requires Reachable(s) && s.pc.Counted? && s.pc.ok && s.pc.r.kill
    ensures
      var c, t := s.pc.r.conn, AfterStep(s);
      var k := |Get(s.fates, c)|;
      && 0 < k <= |Get(s.given, c)| && Get(s.given, c)[k - 1] == s.pc.r
      && Get(t.fates, c) == Get(s.fates, c) + Drops(Get(s.given, c)[k..])
      && c.handle !in t.buffer && c in t.closed
      && (Spared(s.losses, c) ==> Get(s.wire, c) == Bytes(Get(s.given, c)[..k]))
  {
    var c := s.pc.r.conn;
    var fates := Get(s.fates, c);
    ReachableInv(s);
    assert Ordered(s, c) && Traced(s, c);
    RecordsOf(fates);
    assert Get(s.given, c)[..|fates|] == Records(fates);
    assert Get(s.given, c)[|fates|..] == Queued(s, c);
    DropAllAt(s.fates, Get(s.buffer, c.handle), c);
    MissingBytes(fates);
  }

  lemma {:induction false} RecordsOf(fates: seq<Fate>)
    ensures |Records(fates)| == |fates|
    ensures fates != [] ==> Records(fates)[|fates| - 1] == fates[|fates| - 1].record
  {
    if fates != [] { RecordsOf(fates[..|fates| - 1]); }
  }

  /** While a handle stays queued, no other is picked twice before it is. */
  lemma PicksGoRound(s: State, h: nat, i: nat, j: nat)
    requires Reachable(s) && i < j < |s.picks|
    requires forall m | i <= m <= j :: h in s.picks[m].keys && s.picks[m].taken != h
    ensures s.picks[i].taken != s.picks[j].taken
  {
    ReachableInv(s);
    Fair(s.picks, h, i, j);
  }

  // ---- A bystander loses a record -------------------------------------------

  lemma Play(s: State, a: Action) returns (t: State)
    requires Reachable(s) && Queues(s) && Step(s, a).Some?
    ensures Step(s, a) == Some(t) && Reachable(t) && Queues(t)
  {
    hide Step;
    var maxSize, schedule :| Leads(Init(maxSize), schedule, s);
    LeadsOn(Init(maxSize), schedule, s, a);
    t := Step(s, a).value;
  }

  // Connection A closes, its descriptor is handed to B, and then a worker still
  // sends for A.

  const A := Conn(5, 0)
  const B := Conn(5, 1)
  const A1 := Rec(A, [0], false)
  const B1 := Rec(B, [1], false)
  const B2 := Rec(B, [2], false)

  /** Where the scene is, with what has been passed to send. */
  ghost predicate Scene(s: State, pc: Pc, buffer: map<nat, seq<Rec>>, given: map<Conn, seq<Rec>>) {
    && Reachable(s) && Queues(s) && s.pc == pc && s.buffer == buffer && s.given == given
    && s.closed == {A} && s.size < s.maxSize
  }

  lemma SceneQueue() returns (s: State)
    ensures Scene(s, Waiting, map[5 := [A1, B1]], map[A := [A1], B := [B1]])
    ensures s.wire == map[] && s.losses == [] && 2 !in s.adding
  {
    hide Reachable, Leads, TransmitStep, PushStep, Queues;
    StartReachable(100);
    s := Play(Init(100), Close(A));
    ScenePush(s, 0, A1, [], []);
    s := Play(s, Push(0, A1));
    ScenePush(s, 1, B1, [A1], []);
    s := Play(s, Push(1, B1));
    assert [] + [A1] == [A1] && [] + [B1] == [B1] && [A1] + [B1] == [A1, B1] && {} + {A} == {A};
  }

  /** What a push does to the state, the lists before it being these. */
  lemma ScenePush(s: State, sender: nat, r: Rec, list: seq<Rec>, before: seq<Rec>)
    requires Get(s.buffer, r.conn.handle) == list && Get(s.given, r.conn) == before
    ensures var t := PushStep(s, sender, r);
      && t == s.(buffer := t.buffer, adding := t.adding, given := t.given)
      && t.buffer == s.buffer[r.conn.handle := list + [r]] && t.given == s.given[r.conn := before + [r]]
      && t.adding == s.adding[sender := |r.data|]
  {
  }

  lemma StartReachable(maxSize: int)
    ensures Reachable(Init(maxSize)) && Queues(Init(maxSize))
  {
    assert Leads(Init(maxSize), [], Init(maxSize));
  }

  lemma ScenePick(s: State, list: seq<Rec>, given: map<Conn, seq<Rec>>) returns (t: State)
    requires Scene(s, Loop(false), map[5 := list], given) && list != []
    ensures Reachable(t) && Queues(t) && t.pc == Writing(list[0], 0, -1, false)
    ensures t.buffer == (if |list| == 1 then map[] else map[5 := list[1..]])
    ensures t.given == given && t.closed == s.closed && t.wire == s.wire && t.losses == s.losses
    ensures t.size == s.size && t.maxSize == s.maxSize && t.adding == s.adding
  {
    hide Reachable, Leads, Choose;
    t := Play(s, Go(0));
    assert t.buffer.Keys == {5};
    t := Play(t, Go(0));
    assert Choose({5}, s.lastSocket) == 5;
  }

  /** The write for A fails, and B's record goes with it. */
  lemma SceneFail(s: State, given: map<Conn, seq<Rec>>) returns (t: State)
    requires Scene(s, Writing(A1, 0, -1, false), map[5 := [B1]], given) && s.losses == []
    ensures Scene(t, Loop(false), map[], given)
    ensures t.wire == s.wire && t.losses == [Failed(A1, []), Dropped(A1, [B1])] && t.adding == s.adding
  {
    hide Reachable, Leads, Take, DropAll;
    t := Play(s, Go(-1));
    assert Bytes([B1]) == [1] by { BytesOne(B1); }
    t := Play(t, Go(0));
  }

  lemma SceneWrite(s: State, given: map<Conn, seq<Rec>>) returns (t: State)
    requires Scene(s, Writing(B2, 0, -1, false), map[], given)
    ensures Reachable(t) && t.pc == Counted(B2, true, false) && t.buffer == map[] && t.closed == {A}
    ensures t.given == given && t.wire == s.wire[B := Get(s.wire, B) + [2]] && t.losses == s.losses
  {
    hide Reachable, Leads, Take;
    t := Play(s, Go(1));
    assert B2.data[0..1] == [2];
    t := Play(t, Go(0));
  }

  lemma ScenePlays() returns (s: State)
    ensures Reachable(s) && s.pc == Counted(B2, true, false) && s.buffer == map[] && s.closed == {A}
    ensures s.given == map[A := [A1], B := [B1, B2]] && s.wire == map[B := [2]]
    ensures s.losses == [Failed(A1, []), Dropped(A1, [B1])]
  {
    hide Reachable, Leads, TransmitStep, PushStep, Queues;
    var given := map[A := [A1], B := [B1]];
    s := SceneQueue();
    s := Play(s, Wake);
    s := ScenePick(s, [A1, B1], given);
    s := SceneFail(s, given);
    ScenePush(s, 2, B2, [], [B1]);
    s := Play(s, Push(2, B2));
    assert [B1] + [B2] == [B1, B2] && [] + [B2] == [B2];
    assert s.given == given[B := [B1, B2]] && s.buffer == map[5 := [B2]];
    s := ScenePick(s, [B2], given[B := [B1, B2]]);
    s := SceneWrite(s, given[B := [B1, B2]]);
    assert [] + [2] == [2];
  }

  /** A reachable state in which a connection that is open, had no failed write and no
      kill record, and has nothing queued, still lacks a record in the middle: what was
      written to it is no prefix of what was passed to send for it. */
  lemma BystanderLoses()
    ensures exists s, c ::
      && Reachable(s) && c !in s.closed && Queued(s, c) == [] && !s.pc.Writing?
      && (forall l <- s.losses :: l.Failed? ==> l.record.conn != c)
      && (forall r <- Get(s.given, c) :: !r.kill)
      && !(Get(s.wire, c) <= Bytes(Get(s.given, c)))
  {
    var s := ScenePlays();
    assert Bytes([B1, B2]) == [1, 2] by {
      BytesOne(B1);
      BytesOne(B2);
      BytesAppend([B1], [B2]);
      assert [B1] + [B2] == [B1, B2];
    }
    assert Queued(s, B) == [] && B !in s.closed;
    assert Get(s.wire, B)[0] == 2 && Get(s.given, B) == [B1, B2] && Bytes([B1, B2])[0] == 1;
    forall l | l in s.losses && l.Failed? ensures l.record.conn != B {
      assert l == s.losses[0];
    }
    assert Reachable(s) && !(Get(s.wire, B) <= Bytes(Get(s.given, B)));
  }
}
