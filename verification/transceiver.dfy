// transmit() and send() as they stand in src/transceiver.cpp, in place. Every run of
// them is a run of the step system, so what holds of its runs holds of the object.

module Transmitting {
  import opened BigEndian
  import opened Common
  import opened RoundRobin
  import opened Transmit
  import opened TransmitTheorems

  ghost function Lengths(buffer: map<nat, seq<Rec>>): map<nat, int> {
    map h | h in buffer :: |buffer[h]|
  }

  /** How many records are queued. */
  ghost function Count(buffer: map<nat, seq<Rec>>): int {
    Sum(Lengths(buffer))
  }

  lemma {:induction false} SumNotNegative<K(!new)>(m: map<K, int>)
    requires forall k <- m :: m[k] >= 0
    ensures Sum(m) >= 0
    decreases |m|
  {
    if m != map[] {
      var k :| k in m && Sum(m) == m[k] + Sum(m - {k});
      assert m == (m - {k})[k := m[k]];
      SumNotNegative(m - {k});
    }
  }

  lemma CountWithout(buffer: map<nat, seq<Rec>>, h: nat)
    ensures Count(buffer - {h}) == Count(buffer) - |Get(buffer, h)| && Count(buffer) >= 0
  {
    hide Sum;
    SumNotNegative(Lengths(buffer));
    if h in buffer {
      SumWithout(Lengths(buffer), h);
      assert Lengths(buffer - {h}) == Lengths(buffer) - {h};
    } else {
      assert buffer - {h} == buffer;
    }
  }

  lemma CountShorter(buffer: map<nat, seq<Rec>>, h: nat)
    requires h in buffer && |buffer[h]| > 1
    ensures Count(buffer[h := buffer[h][1..]]) == Count(buffer) - 1
  {
    hide Sum;
    SumUpdate(Lengths(buffer), h, |buffer[h]| - 1);
    assert Lengths(buffer[h := buffer[h][1..]]) == Lengths(buffer)[h := |buffer[h]| - 1];
  }

  /** The step that ends the write loop. */
  lemma WriteEnds(s: State, r: Rec, sent: int)
    requires Queues(s) && s.pc.Writing? && s.pc.r == r && s.pc.done <= |r.data|
    requires if s.pc.done == |r.data| then s.pc.sent == sent else sent < 0
    ensures Step(s, Go(sent)) == Some(EndWrite(s, r, s.pc.done, sent, s.pc.drain))
  {
    hide Queues, EndWrite;
  }

  lemma WriteMoves(s: State, sent: nat)
    requires Queues(s) && s.pc.Writing? && s.pc.done < |s.pc.r.data| && s.pc.done + sent <= |s.pc.r.data|
    requires s.pc.r.conn !in s.closed
    ensures var Writing(r, done, _, drain) := s.pc;
      Step(s, Go(sent)) == Some(
        s.(pc := Writing(r, done + sent, sent, drain),
           wire := s.wire[r.conn := Get(s.wire, r.conn) + r.data[done..done + sent]]))
  {
    hide Queues, EndWrite, Get;
  }

  /** The steps that take a record out, and that follow a record. */
  lemma TakeIs(s: State, drain: bool)
    requires Queues(s) && s.buffer != map[] && s.pc == (if drain then Loop(true) else Picking)
    ensures Step(s, Go(0)) == Some(Take(s, drain))
  {
    hide Take;
  }

  lemma CountRest(buffer: map<nat, seq<Rec>>, h: nat)
    requires h in buffer && buffer[h] != []
    ensures var list := buffer[h];
      0 <= Count(if |list| == 1 then buffer - {h} else buffer[h := list[1..]]) == Count(buffer) - 1
  {
    hide Sum, Count;
    CountWithout(buffer, h);
    if |buffer[h]| > 1 {
      CountShorter(buffer, h);
      CountWithout(buffer[h := buffer[h][1..]], h);
    } else {
      CountWithout(buffer - {h}, h);
    }
  }

  lemma AfterIs(s: State)
    requires Queues(s) && s.pc.Counted?
    ensures Step(s, Go(0)) == Some(AfterStep(s))
  {
    hide AfterStep;
  }

  lemma AddIs(s: State, sender: nat)
    requires Queues(s) && sender in s.adding
    ensures Step(s, Add(sender)) == Some(s.(size := s.size + s.adding[sender], adding := s.adding - {sender}))
  {
  }

  /** The step system gets there by these steps. */
  ghost predicate Runs(limit: int, schedule: seq<Action>, s: State) {
    Queues(s) && Leads(Init(limit), schedule, s)
  }

  lemma RunsOn(limit: int, schedule: seq<Action>, s: State, a: Action, t: State)
    requires Runs(limit, schedule, s) && Step(s, a) == Some(t)
    ensures Runs(limit, schedule + [a], t)
  {
    LeadsOn(Init(limit), schedule, s, a);
  }

  class Transceiver {
    ghost const limit: int           // m_maxSendBufferSize at the start
    var m_sendBuffer: map<nat, seq<Rec>>
    var m_sendBufferSize: int
    var m_maxSendBufferSize: int
    var lastSocket: int              // a local variable of transmit()
    var pc: Pc                       // where the transmitter is, and whether it holds the lock
    var adding: map<nat, nat>        // the local sendDataSize of senders under way
    var closed: set<Conn>            // sockets that are closed or closing
    var writes: seq<int>             // what the coming writes do: -1, or how many bytes at most
    var senders: seq<seq<Action>>    // what other threads do at the coming points
    ghost var wire: map<Conn, bytes>
    ghost var given: map<Conn, seq<Rec>>
    ghost var fates: map<Conn, seq<Fate>>
    ghost var losses: seq<Loss>
    ghost var picks: seq<Pick>
    ghost var schedule: seq<Action>  // the steps taken so far

    ghost function Abs(): State
      reads this
    {
      State(m_sendBuffer, m_sendBufferSize, m_maxSendBufferSize, adding, pc, lastSocket, closed,
            wire, given, fates, losses, picks)
    }

    /** The object is where the step system is after these steps. */
    ghost predicate Valid()
      reads this
    {
      Runs(limit, schedule, Abs())
    }

    constructor (maxSize: int, w: seq<int>, t: seq<seq<Action>>)
      ensures Valid() && limit == maxSize && schedule == [] && Abs() == Init(maxSize)
    {
      limit := maxSize;
      m_sendBuffer, m_sendBufferSize, m_maxSendBufferSize, lastSocket := map[], 0, maxSize, -1;
      adding, closed, writes, senders := map[], {}, w, t;
      pc, wire, given, fates, losses, picks, schedule := Waiting, map[], map[], map[], [], [], [];
    }

    ghost method Advance(s: State, a: Action)
      requires Runs(limit, schedule, s) && Step(s, a) == Some(Abs())
      modifies this`schedule
      ensures Valid() && schedule == old(schedule) + [a]
    {
      hide Runs, Step;
      RunsOn(limit, schedule, s, a, Abs());
      schedule := schedule + [a];
    }

    // ---- Senders ------------------------------------------------------------

    /** send(), while it holds the lock. */
    method Push(sender: nat, r: Rec)
      requires Valid() && sender !in adding && !LockHeld(pc)
      modifies this`m_sendBuffer, this`adding, this`given, this`schedule
      ensures Valid() && Step(old(Abs()), Action.Push(sender, r)) == Some(Abs())
      ensures schedule == old(schedule) + [Action.Push(sender, r)]
    {
      ghost var s := Abs();
      m_sendBuffer := m_sendBuffer[r.conn.handle := Get(m_sendBuffer, r.conn.handle) + [r]];
      adding := adding[sender := |r.data|];
      given := given[r.conn := Get(given, r.conn) + [r]];
      Advance(s, Action.Push(sender, r));
    }

    /** send(), after it. */
    method Add(sender: nat)
      requires Valid() && sender in adding
      modifies this`m_sendBufferSize, this`adding, this`schedule
      ensures Valid() && Step(old(Abs()), Action.Add(sender)) == Some(Abs())
      ensures schedule == old(schedule) + [Action.Add(sender)]
    {
      hide Step, Leads, Queues;
      ghost var s := Abs();
      AddIs(s, sender);
      m_sendBufferSize := m_sendBufferSize + adding[sender];
      adding := adding - {sender};
      Advance(s, Action.Add(sender));
    }

    /** One action of another thread, if it can take place: while the transmitter holds
        the lock no sender can push, but one that pushed may add to the size. */
    method Other(a: Action)
      requires Valid()
      modifies this`m_sendBuffer, this`m_sendBufferSize, this`m_maxSendBufferSize, this`closed
      modifies this`adding, this`given, this`schedule
      ensures Valid() && old(schedule) <= schedule && old(m_sendBuffer).Keys <= m_sendBuffer.Keys
      ensures LockHeld(pc) ==> m_sendBuffer == old(m_sendBuffer)
    {
      match a {
        case Push(sender, r) =>
          if sender !in adding && !LockHeld(pc) { Push(sender, r); }
        case Add(sender) =>
          if sender in adding { Add(sender); }
        case SetMax(max) =>
          ghost var s := Abs();
          m_maxSendBufferSize := max;
          Advance(s, a);
        case Close(conn) =>
          ghost var s := Abs();
          closed := closed + {conn};
          Advance(s, a);
        case Wake =>
        case Go(_) =>
      }
    }

    /** A point at which other threads may act. */
    method Meanwhile()
      requires Valid()
      modifies this`m_sendBuffer, this`m_sendBufferSize, this`m_maxSendBufferSize, this`closed
      modifies this`adding, this`given, this`schedule, this`senders
      ensures Valid() && old(schedule) <= schedule && old(m_sendBuffer).Keys <= m_sendBuffer.Keys
      ensures LockHeld(pc) ==> m_sendBuffer == old(m_sendBuffer)
      ensures |senders| < |old(senders)| || (senders == old(senders) && m_sendBuffer == old(m_sendBuffer))
    {
      if senders == [] {
        return;
      }
      var actions, i := senders[0], 0;
      senders := senders[1..];
      while i < |actions|
        invariant Valid() && old(schedule) <= schedule && old(m_sendBuffer).Keys <= m_sendBuffer.Keys
        invariant LockHeld(pc) ==> m_sendBuffer == old(m_sendBuffer)
        invariant senders == old(senders)[1..]
      {
        Other(actions[i]);
        i := i + 1;
      }
    }

    // ---- transmit() ---------------------------------------------------------

    /** socket.write; a closed or closing socket takes nothing. */
    method Write(conn: Conn, size: nat) returns (sent: int)
      modifies this`writes
      ensures -1 <= sent <= size && (conn in closed ==> sent < 0)
      ensures sent < 0 || |writes| < |old(writes)| || (writes == old(writes) && sent == size)
      ensures |writes| <= |old(writes)|
    {
      if conn in closed {
        return -1;
      }
      if writes == [] {
        return size;
      }
      sent := if writes[0] < 0 then -1 else if writes[0] > size then size else writes[0];
      writes := writes[1..];
    }

    /** begin(), lower_bound(lastSocket), the step to the next and the return to begin(). */
    method Next() returns (h: nat)
      requires m_sendBuffer != map[]
      ensures h == Choose(m_sendBuffer.Keys, lastSocket)
    {
      var keys := m_sendBuffer.Keys;
      if lastSocket == -1 {
        h := Min(keys);
      } else {
        var bound := AtLeast(keys, lastSocket);
        if bound == {} {
          h := Min(keys);
        } else {
          h := Min(bound);
          if h == lastSocket {
            var after := Above(keys, lastSocket);
            h := if after == {} then Min(keys) else Min(after);
          }
        }
      }
    }

    /** The record to be written is taken out. */
    method TakeOut(drain: bool) returns (r: Rec)
      requires Queues(Abs()) && m_sendBuffer != map[]
      modifies this`m_sendBuffer, this`lastSocket, this`picks, this`pc
      ensures Queues(old(Abs())) && Abs() == Take(old(Abs()), drain)
      ensures pc == Writing(r, 0, -1, drain) && r.conn.handle == lastSocket
      ensures 0 <= Count(m_sendBuffer) == Count(old(m_sendBuffer)) - 1
    {
      hide Sum, Count, Choose;
      ghost var keys := m_sendBuffer.Keys;
      lastSocket := Next();
      var list := m_sendBuffer[lastSocket];
      r := list[0];
      assert QueueOk(list, lastSocket) && r in list;
      CountRest(m_sendBuffer, lastSocket);
      if |list| == 1 {
        m_sendBuffer := m_sendBuffer - {lastSocket};
      } else {
        m_sendBuffer := m_sendBuffer[lastSocket := list[1..]];
      }
      picks := picks + [Pick(keys, lastSocket)];
      pc := Writing(r, 0, -1, drain);
    }

    method TakeRecord(drain: bool) returns (r: Rec)
      requires Valid() && m_sendBuffer != map[] && pc == (if drain then Loop(true) else Picking)
      modifies this`m_sendBuffer, this`lastSocket, this`picks, this`pc, this`schedule
      ensures Valid() && old(schedule) <= schedule && pc == Writing(r, 0, -1, drain) && r.conn.handle == lastSocket
      ensures 0 <= Count(m_sendBuffer) == Count(old(m_sendBuffer)) - 1
    {
      hide Sum, Count, Step, Leads, Queues, Take;
      ghost var s := Abs();
      TakeIs(s, drain);
      r := TakeOut(drain);
      Advance(s, Go(0));
    }

    /** One turn of the write loop. */
    method WriteOnce(r: Rec, from: nat, before: int, drain: bool) returns (sent: int, read: nat)
      requires Valid() && pc == Writing(r, from, before, drain) && from < |r.data|
      modifies this`m_sendBuffer, this`m_sendBufferSize, this`m_maxSendBufferSize, this`closed
      modifies this`adding, this`given, this`schedule, this`senders, this`writes, this`wire, this`pc
      ensures Valid() && old(schedule) <= schedule && from <= read <= |r.data|
      ensures if sent < 0 then pc == old(pc) && read == from else pc == Writing(r, read, sent, drain)
      ensures sent < 0 || |writes| < |old(writes)| || (writes == old(writes) && read == |r.data|)
      ensures |senders| < |old(senders)| || (senders == old(senders) && m_sendBuffer == old(m_sendBuffer))
      ensures drain ==> m_sendBuffer == old(m_sendBuffer)
    {
      hide Queues, Leads, Step;
      Meanwhile();
      read := from;
      sent := Write(r.conn, |r.data| - read);
      if sent >= 0 {
        MoveOn(r, read, before, sent, drain);
        read := read + sent;
      }
    }

    /** What was written is on the wire. */
    method MoveOn(r: Rec, read: nat, before: int, sent: nat, drain: bool)
      requires Valid() && pc == Writing(r, read, before, drain) && read < |r.data| && read + sent <= |r.data|
      requires r.conn !in closed
      modifies this`schedule, this`wire, this`pc
      ensures Valid() && old(schedule) <= schedule && pc == Writing(r, read + sent, sent, drain)
    {
      hide Step, Leads, Queues, Get;
      ghost var s := Abs();
      WriteMoves(s, sent);
      wire := wire[r.conn := Get(wire, r.conn) + r.data[read..read + sent]];
      pc := Writing(r, read + sent, sent, drain);
      Advance(s, Go(sent));
    }

    /** The record's size is taken off, written or not. */
    method TakeOff(r: Rec, read: nat, sent: int, drain: bool) returns (ok: bool)
      requires read <= |r.data|
      modifies this`m_sendBufferSize, this`fates, this`losses, this`pc
      ensures Abs() == EndWrite(old(Abs()), r, read, sent, drain) && pc == Counted(r, ok, drain)
    {
      hide Log;
      m_sendBufferSize := m_sendBufferSize - |r.data|;
      ok := sent >= 0;
      fates := Log(fates, Fate(r, r.data[..read]));
      if !ok {
        losses := losses + [Failed(r, r.data[..read])];
      }
      pc := Counted(r, ok, drain);
    }

    method LeaveLoop(r: Rec, read: nat, sent: int, drain: bool) returns (ok: bool)
      requires Valid() && pc.Writing? && pc.r == r && pc.done == read && pc.drain == drain
      requires read <= |r.data| && (sent < 0 || read == |r.data|)
      requires read == |r.data| ==> pc.sent == sent
      modifies this`m_sendBufferSize, this`fates, this`losses, this`pc, this`schedule
      ensures Valid() && old(schedule) <= schedule && pc == Counted(r, ok, drain)
    {
      hide Step, Leads, Queues, EndWrite;
      ghost var s := Abs();
      WriteEnds(s, r, sent);
      ok := TakeOff(r, read, sent, drain);
      Advance(s, Go(sent));
    }

    /** The write loop. */
    method WriteRecord(r: Rec, drain: bool) returns (ok: bool)
      requires Valid() && pc == Writing(r, 0, -1, drain)
      modifies this`m_sendBuffer, this`m_sendBufferSize, this`m_maxSendBufferSize, this`closed, this`adding
      modifies this`given, this`schedule, this`senders, this`writes, this`wire, this`fates, this`losses, this`pc
      ensures Valid() && old(schedule) <= schedule && pc == Counted(r, ok, drain)
      ensures |senders| < |old(senders)| || (senders == old(senders) && m_sendBuffer == old(m_sendBuffer))
      ensures drain ==> m_sendBuffer == old(m_sendBuffer)
    {
      hide Queues, Leads;
      var sent, read: nat := -1, 0;
      while read != |r.data|
        invariant Valid() && old(schedule) <= schedule && read <= |r.data| && pc == Writing(r, read, sent, drain)
        invariant |senders| < |old(senders)| || (senders == old(senders) && m_sendBuffer == old(m_sendBuffer))
        invariant drain ==> m_sendBuffer == old(m_sendBuffer)
        decreases |writes|, |r.data| - read
      {
        sent, read := WriteOnce(r, read, sent, drain);
        if sent < 0 {
          break;
        }
      }
      ok := LeaveLoop(r, read, sent, drain);
    }

    /** The sizes of the records of a socket are taken off, one by one. */
    method TakeOffAll(list: seq<Rec>)
      modifies this`m_sendBufferSize
      ensures m_sendBufferSize == old(m_sendBufferSize) - |Bytes(list)|
    {
      var i := 0;
      assert list[0..] == list;
      while i < |list|
        invariant 0 <= i <= |list| && m_sendBufferSize - |Bytes(list[i..])| == old(m_sendBufferSize) - |Bytes(list)|
      {
        assert list[i..][1..] == list[i + 1..];
        m_sendBufferSize := m_sendBufferSize - |list[i].data|;
        i := i + 1;
      }
    }

    method CloseAndDrop(r: Rec)
      requires r.conn.handle == lastSocket
      modifies this`m_sendBuffer, this`m_sendBufferSize, this`closed, this`fates, this`losses
      ensures Abs() == Cleared(old(Abs()), r) && Count(m_sendBuffer) <= Count(old(m_sendBuffer))
    {
      hide Sum, Count, Bytes, DropAll;
      var list := Get(m_sendBuffer, lastSocket);
      TakeOffAll(list);
      CountWithout(m_sendBuffer, lastSocket);
      m_sendBuffer := m_sendBuffer - {lastSocket};
      closed := closed + {r.conn};
      fates := DropAll(fates, list);
      losses := losses + [Dropped(r, list)];
    }

    /** After the record: on a failure or a kill everything queued under the handle goes,
        whoever it belongs to. */
    method Finish(r: Rec, ok: bool, drain: bool)
      requires Valid() && pc == Counted(r, ok, drain) && r.conn.handle == lastSocket
      modifies this`m_sendBuffer, this`m_sendBufferSize, this`closed, this`fates, this`losses, this`pc, this`schedule
      ensures Valid() && old(schedule) <= schedule && pc == Loop(drain)
      ensures Count(m_sendBuffer) <= Count(old(m_sendBuffer))
    {
      hide Sum, Count, Step, Leads, Queues, Cleared;
      ghost var s := Abs();
      AfterIs(s);
      if !ok || r.kill {
        CloseAndDrop(r);
      }
      pc := Loop(drain);
      Advance(s, Go(0));
    }

    /** The branch for a full buffer: everything goes out under the lock, while senders
        that pushed before may still add to the size. */
    method Drain()
      requires Valid() && pc == Loop(true) && m_sendBuffer != map[]
      modifies this
      ensures Valid() && old(schedule) <= schedule && pc == Loop(false) && m_sendBuffer == map[]
      ensures |senders| <= |old(senders)| && Count(m_sendBuffer) < Count(old(m_sendBuffer))
    {
      hide Sum, Count, Queues, Leads, Step;
      ghost var first := true;
      while m_sendBuffer != map[]
        invariant Valid() && old(schedule) <= schedule && pc == Loop(true) && |senders| <= |old(senders)|
        invariant if first then m_sendBuffer == old(m_sendBuffer) else Count(m_sendBuffer) < Count(old(m_sendBuffer))
        decreases Count(m_sendBuffer)
      {
        DrainOne();
        first := false;
      }
      EndDrain();
    }

    method DrainOne()
      requires Valid() && pc == Loop(true) && m_sendBuffer != map[]
      modifies this
      ensures Valid() && old(schedule) <= schedule && pc == Loop(true)
      ensures |senders| <= |old(senders)| && 0 <= Count(m_sendBuffer) < Count(old(m_sendBuffer))
    {
      hide Sum, Count, Valid;
      Meanwhile();
      var record := TakeRecord(true);
      var ok := WriteRecord(record, true);
      Meanwhile();
      Finish(record, ok, true);
      CountWithout(m_sendBuffer, 0);
    }

    method EndDrain()
      requires Valid() && pc == Loop(true) && m_sendBuffer == map[]
      modifies this`pc, this`schedule
      ensures Valid() && old(schedule) <= schedule && pc == Loop(false)
    {
      ghost var s := Abs();
      pc := Loop(false);
      Advance(s, Go(0));
    }

    /** The size is below the limit. */
    method StartPicking()
      requires Valid() && pc == Loop(false) && m_sendBuffer != map[] && m_sendBufferSize < m_maxSendBufferSize
      modifies this`pc, this`schedule
      ensures Valid() && old(schedule) <= schedule && pc == Picking
    {
      ghost var s := Abs();
      pc := Picking;
      Advance(s, Go(0));
    }

    /** Nothing is queued: back to waiting. */
    method Stop()
      requires Valid() && pc == Loop(false) && m_sendBuffer == map[]
      modifies this`pc, this`schedule
      ensures Valid() && old(schedule) <= schedule && pc == Waiting
      ensures m_sendBufferSize == -Sum(adding)
      ensures forall c: Conn :: Get(wire, c) == Bytes(Get(given, c)) <==> Spared(losses, c)
    {
      ghost var s := Abs();
      pc := Waiting;
      Advance(s, Go(0));
      NothingQueued(limit, schedule, Abs());
    }

    /** The branch for a buffer below its limit: one record goes out. */
    method SendOne()
      requires Valid() && pc == Loop(false) && m_sendBuffer != map[] && m_sendBufferSize < m_maxSendBufferSize
      modifies this
      ensures Valid() && old(schedule) <= schedule && pc == Loop(false)
      ensures |senders| < |old(senders)|
           || (senders == old(senders) && Count(m_sendBuffer) < Count(old(m_sendBuffer)))
    {
      hide Sum, Count, Valid;
      StartPicking();
      assert m_sendBuffer.Keys != {};
      Meanwhile();
      var record := TakeRecord(false);
      var ok := WriteRecord(record, false);
      Meanwhile();
      Finish(record, ok, false);
    }

    /** The size reached the limit. */
    method StartDrain()
      requires Valid() && pc == Loop(false) && m_sendBuffer != map[] && m_sendBufferSize >= m_maxSendBufferSize
      modifies this`lastSocket, this`picks, this`pc, this`schedule
      ensures Valid() && old(schedule) <= schedule && pc == Loop(true)
    {
      ghost var s := Abs();
      lastSocket := -1;
      picks := [];
      pc := Loop(true);
      Advance(s, Go(0));
    }

    /** transmit(): it ends with nothing queued, if writes that take no byte come to an
        end and senders do; then m_sendBufferSize is what senders pushed and have not
        added yet, with the sign turned, and exactly the connections that nothing hit
        have had everything written that was passed to send for them. */
    method Transmit()
      requires Valid() && pc == Loop(false) && lastSocket == -1
      modifies this
      ensures Valid() && old(schedule) <= schedule && pc == Waiting && m_sendBuffer == map[]
      ensures m_sendBufferSize == -Sum(adding)
      ensures forall c: Conn :: Get(wire, c) == Bytes(Get(given, c)) <==> Spared(losses, c)
    {
      hide Sum, Count, Queues, Leads, Step;
      while true
        invariant Valid() && old(schedule) <= schedule && pc == Loop(false)
        decreases |senders|, Count(m_sendBuffer)
      {
        CountWithout(m_sendBuffer, 0);
        Meanwhile();
        if m_sendBuffer == map[] {
          break;
        }
        if m_sendBufferSize < m_maxSendBufferSize {
          SendOne();
        } else {
          StartDrain();
          Drain();
        }
      }
      Stop();
    }
  }

  lemma NothingQueued(limit: int, schedule: seq<Action>, s: State)
    requires Leads(Init(limit), schedule, s) && s.pc == Waiting && s.buffer == map[]
    ensures s.size == -Sum(s.adding)
    ensures forall c: Conn :: Get(s.wire, c) == Bytes(Get(s.given, c)) <==> Spared(s.losses, c)
  {
    assert Reachable(s);
    SizeIsAccounted(s);
    assert Sizes(s.buffer) == map[];
    forall c: Conn ensures Get(s.wire, c) == Bytes(Get(s.given, c)) <==> Spared(s.losses, c) {
      StreamIsWhole(s, c);
      assert Queued(s, c) == [] && Bytes([]) == [];
    }
  }
}
