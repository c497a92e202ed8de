// When the transmitter is done with a connection: it is closed for a failed write or a
// kill record and for nothing else, and nothing more is written to it.

module TransmitClosing {
  import opened BigEndian
  import opened Common
  import opened RoundRobin
  import opened Transmit
  import opened TransmitTheorems

  /** A write for c failed, or a kill record of c went out. */
  ghost predicate Finished(s: State, c: Conn) {
    || (exists l <- s.losses :: Ends(l, c))
    || Pending(s.pc, c)
  }

  predicate Ends(l: Loss, c: Conn) {
    match l
    case Failed(r, _) => r.conn == c
    case Dropped(cause, _) => cause.conn == c
  }

  /** The write loop of the record that finishes c was left and its aftermath is to come. */
  predicate Pending(pc: Pc, c: Conn) {
    pc.Counted? && pc.r.conn == c && (!pc.ok || pc.r.kill)
  }

  /** What is finished is closed, once the aftermath is over. */
  ghost predicate Shut(s: State) {
    forall l <- s.losses, c | Ends(l, c) :: c in s.closed || Pending(s.pc, c)
  }

  /** Whatever was dropped was dropped for a kill record or a failed write. */
  ghost predicate Excused(s: State) {
    && (forall l <- s.losses | l.Dropped? :: Excuse(s.losses, l.cause))
    && (s.pc.Counted? && !s.pc.ok ==> Excuse(s.losses, s.pc.r))
  }

  ghost predicate Excuse(losses: seq<Loss>, r: Rec) {
    r.kill || exists l <- losses :: l.Failed? && l.record == r
  }

  /** The steps, as far as closing is concerned: a write of an open connection or none;
      a loop left; an aftermath; or nothing of the kind. */
  datatype Turn = Quiet | Wrote(conn: Conn) | Left(r: Rec, wrote: bytes, sent: int) | Settled(r: Rec, queue: seq<Rec>)

  ghost predicate Turns(s: State, t: State, turn: Turn) {
    match turn
    case Quiet =>
      t.losses == s.losses && t.wire == s.wire && t.closed == s.closed
      && (t.pc.Counted? ==> t.pc == s.pc) && forall c :: Pending(t.pc, c) <==> Pending(s.pc, c)
    case Wrote(conn) =>
      && conn !in s.closed && s.pc.Writing? && t.pc.Writing? && t.losses == s.losses && t.closed == s.closed
      && forall c | c != conn :: Get(t.wire, c) == Get(s.wire, c)
    case Left(r, wrote, sent) =>
      && s.pc.Writing? && t.pc.Counted? && t.pc.r == r && t.pc.ok == (sent >= 0)
      && t.losses == (if sent < 0 then s.losses + [Failed(r, wrote)] else s.losses)
      && t.wire == s.wire && t.closed == s.closed
    case Settled(r, queue) =>
      && s.pc.Counted? && s.pc.r == r && (!s.pc.ok || r.kill) && t.pc.Loop?
      && t.losses == s.losses + [Dropped(r, queue)] && t.wire == s.wire && t.closed == s.closed + {r.conn}
  }

  lemma WriteTurns(s: State, written: int) returns (turn: Turn)
    requires s.pc.Writing? && WriteStep(s, written).Some?
    ensures Turns(s, WriteStep(s, written).value, turn)
  {
    hide Log;
    var Writing(r, done, sent, drain) := s.pc;
    turn := if done == |r.data| then Left(r, r.data[..done], sent)
      else if written < 0 then Left(r, r.data[..done], written)
      else Wrote(r.conn);
  }

  lemma AfterTurns(s: State) returns (turn: Turn)
    requires s.pc.Counted?
    ensures Turns(s, AfterStep(s), turn)
  {
    hide DropAll, Bytes;
    var r := s.pc.r;
    turn := if !s.pc.ok || r.kill then Settled(r, Get(s.buffer, r.conn.handle)) else Quiet;
  }

  lemma TakeTurns(s: State, drain: bool)
    requires Queues(s) && s.buffer != map[] && !s.pc.Counted?
    ensures Turns(s, Take(s, drain), Quiet)
  {
    hide Choose;
  }

  lemma StepTurns(s: State, a: Action) returns (turn: Turn)
    requires Queues(s) && Step(s, a).Some? && !a.Close?
    ensures Turns(s, Step(s, a).value, turn)
  {
    hide Take, AfterStep, WriteStep, PushStep, Queues;
    turn := Quiet;
    if a.Go? {
      if s.pc.Writing? {
        turn := WriteTurns(s, a.written);
      } else if s.pc.Counted? {
        turn := AfterTurns(s);
      } else if s.buffer != map[] && (s.pc.Picking? || s.pc.drain) {
        TakeTurns(s, s.pc.Loop?);
      }
    } else if a.Push? {
      PushIsQuiet(s, a.sender, a.record);
    }
  }

  lemma PushIsQuiet(s: State, sender: nat, r: Rec)
    ensures Turns(s, PushStep(s, sender, r), Quiet)
  {
    hide Get;
  }

  lemma CloseOnly(s: State, c: Conn)
    requires Queues(s)
    ensures Step(s, Close(c)) == Some(s.(closed := s.closed + {c}))
  {
    hide Queues;
  }

  lemma ShutKept(s: State, a: Action, t: State)
    requires Queues(s) && Shut(s) && Excused(s) && Step(s, a) == Some(t)
    ensures Shut(t) && Excused(t)
  {
    hide Step, Queues;
    if a.Close? {
      CloseOnly(s, a.conn);
    } else {
      var turn := StepTurns(s, a);
      TurnKeeps(s, t, turn);
    }
  }

  lemma TurnKeeps(s: State, t: State, turn: Turn)
    requires Shut(s) && Excused(s) && Turns(s, t, turn)
    ensures Shut(t) && Excused(t)
  {
    if turn.Settled? {
      assert Excuse(s.losses, turn.r);
    }
    ExcusedOn(s.losses, t.losses);
    if turn.Left? && turn.sent < 0 {
      assert Failed(turn.r, turn.wrote) in t.losses;
      assert Excuse(t.losses, turn.r);
    }
  }

  lemma ExcusedOn(losses: seq<Loss>, more: seq<Loss>)
    requires losses <= more
    ensures forall r :: Excuse(losses, r) ==> Excuse(more, r)
  {
    forall r | Excuse(losses, r) ensures Excuse(more, r) {
      if !r.kill {
        var l :| l in losses && l.Failed? && l.record == r;
        assert l in more;
      }
    }
  }

  lemma {:induction false} LeadsShut(maxSize: int, schedule: seq<Action>, s: State)
    requires Leads(Init(maxSize), schedule, s)
    ensures Shut(s) && Excused(s)
    decreases |schedule|
  {
    if schedule != [] {
      hide Step, Shut, Excused;
      var n := |schedule| - 1;
      var mid :| Leads(Init(maxSize), schedule[..n], mid) && Queues(mid) && Step(mid, schedule[n]) == Some(s);
      LeadsShut(maxSize, schedule[..n], mid);
      ShutKept(mid, schedule[n], s);
    }
  }

  /** In every reachable state: a connection for which a write failed is closed, but for
      the moment between the write loop and what follows it; so is one whose kill record
      went out. And whatever was dropped was dropped for one of these two reasons. */
  lemma FailureCloses(s: State)
    requires Reachable(s)
    ensures forall l <- s.losses | l.Failed? ::
              l.record.conn in s.closed || (s.pc.Counted? && s.pc.r.conn == l.record.conn && (!s.pc.ok || s.pc.r.kill))
    ensures forall l <- s.losses | l.Dropped? ::
              l.cause.kill || exists m <- s.losses :: m.Failed? && m.record == l.cause
    ensures !s.pc.Counted? ==> forall c :: Finished(s, c) ==> c in s.closed
  {
    var maxSize, schedule :| Leads(Init(maxSize), schedule, s);
    LeadsShut(maxSize, schedule, s);
    hide Reachable, Leads;
    forall l <- s.losses | l.Failed? ensures l.record.conn in s.closed || Pending(s.pc, l.record.conn) {
      assert Ends(l, l.record.conn);
    }
    forall l <- s.losses | l.Dropped?
      ensures l.cause.kill || exists m <- s.losses :: m.Failed? && m.record == l.cause
    {
      assert Excuse(s.losses, l.cause);
    }
  }

  lemma FinishedStays(s: State, a: Action, t: State, c: Conn)
    requires Queues(s) && Shut(s) && Step(s, a) == Some(t) && Finished(s, c)
    ensures Finished(t, c) && Get(t.wire, c) == Get(s.wire, c)
  {
    hide Step, Queues;
    if a.Close? {
      CloseOnly(s, a.conn);
    } else {
      var turn := StepTurns(s, a);
      hide Get;
      if exists l <- s.losses :: Ends(l, c) {
        LossesStay(s.losses, t.losses, c);
      } else if turn.Settled? {
        assert Dropped(turn.r, turn.queue) in t.losses;
      }
    }
  }

  lemma LossesStay(losses: seq<Loss>, more: seq<Loss>, c: Conn)
    requires losses <= more && exists l <- losses :: Ends(l, c)
    ensures exists l <- more :: Ends(l, c)
  {
    var l :| l in losses && Ends(l, c);
    assert l in more;
  }

  /** From the moment a write for a connection has failed, or a kill record of it has gone
      out, nothing more is ever written to it. */
  lemma {:induction false} NothingAfterTheEnd(s: State, schedule: seq<Action>, t: State, c: Conn)
    requires Reachable(s) && Finished(s, c) && Leads(s, schedule, t)
    ensures Get(t.wire, c) == Get(s.wire, c) && Finished(t, c)
    decreases |schedule|
  {
    if schedule != [] {
      hide Step, Finished;
      var n := |schedule| - 1;
      var mid :| Leads(s, schedule[..n], mid) && Queues(mid) && Step(mid, schedule[n]) == Some(t);
      NothingAfterTheEnd(s, schedule[..n], mid, c);
      ReachableOn(s, schedule[..n], mid);
      var maxSize, all :| Leads(Init(maxSize), all, mid);
      LeadsShut(maxSize, all, mid);
      FinishedStays(mid, schedule[n], t, c);
    }
  }

  lemma {:induction false} ReachableOn(s: State, schedule: seq<Action>, t: State)
    requires Reachable(s) && Leads(s, schedule, t)
    ensures Reachable(t)
    decreases |schedule|
  {
    if schedule != [] {
      hide Step;
      var n := |schedule| - 1;
      var mid :| Leads(s, schedule[..n], mid) && Queues(mid) && Step(mid, schedule[n]) == Some(t);
      ReachableOn(s, schedule[..n], mid);
      var maxSize, all :| Leads(Init(maxSize), all, mid);
      LeadsOn(Init(maxSize), all, mid, schedule[n]);
    }
  }

  /** The aftermath of a record of c that failed or killed is over. */
  ghost predicate Settles(losses: seq<Loss>, c: Conn) {
    exists l <- losses :: l.Dropped? && l.cause.conn == c
  }

  /** A connection is closed if and only if the receiving side closed it or a record of it
      failed or killed, with its aftermath over. */
  lemma {:induction false} ClosedForCause(maxSize: int, schedule: seq<Action>, s: State, c: Conn)
    requires Leads(Init(maxSize), schedule, s)
    ensures c in s.closed <==> Close(c) in schedule || exists l <- s.losses :: l.Dropped? && l.cause.conn == c
    decreases |schedule|
  {
    if schedule != [] {
      hide Step;
      var n := |schedule| - 1;
      var mid :| Leads(Init(maxSize), schedule[..n], mid) && Queues(mid) && Step(mid, schedule[n]) == Some(s);
      ClosedForCause(maxSize, schedule[..n], mid, c);
      assert c in mid.closed <==> Close(c) in schedule[..n] || Settles(mid.losses, c);
      hide Leads;
      ClosedStep(mid, schedule[n], s, c);
      hide Settles, Queues;
      LastAction(schedule, Close(c));
      SettlesIs(s.losses, c);
    }
  }

  lemma SettlesIs(losses: seq<Loss>, c: Conn)
    ensures Settles(losses, c) <==> exists l <- losses :: l.Dropped? && l.cause.conn == c
  {
  }

  lemma LastAction(schedule: seq<Action>, a: Action)
    requires schedule != []
    ensures a in schedule <==> a in schedule[..|schedule| - 1] || schedule[|schedule| - 1] == a
  {
    assert schedule == schedule[..|schedule| - 1] + [schedule[|schedule| - 1]];
  }

  lemma ClosedStep(s: State, a: Action, t: State, c: Conn)
    requires Queues(s) && Step(s, a) == Some(t)
    ensures c in t.closed ==> c in s.closed || a == Close(c) || Settles(t.losses, c)
    ensures c in s.closed || a == Close(c) || (Settles(t.losses, c) && !Settles(s.losses, c)) ==> c in t.closed
    ensures Settles(s.losses, c) ==> Settles(t.losses, c)
  {
    hide Step, Queues;
    if a.Close? {
      CloseOnly(s, a.conn);
    } else {
      var turn := StepTurns(s, a);
      DropsGrow(s, t, turn, c);
      hide Settles;
    }
  }

  lemma DropsGrow(s: State, t: State, turn: Turn, c: Conn)
    requires Turns(s, t, turn)
    ensures Settles(t.losses, c) <==> Settles(s.losses, c) || (turn.Settled? && turn.r.conn == c)
  {
    if turn.Settled? {
      assert Dropped(turn.r, turn.queue) in t.losses;
    }
    forall l <- s.losses ensures l in t.losses {
    }
  }

  /** The transmitter takes the lock for a whole round only when the size has reached its
      limit, and gives it up only when nothing is queued; without the lock it takes a
      record only below the limit; and it goes to sleep only when nothing is queued. */
  lemma LockWhenFull(s: State, a: Action, t: State)
    requires Queues(s) && Step(s, a) == Some(t)
    ensures !LockHeld(s.pc) && LockHeld(t.pc) ==> s.size >= s.maxSize && s.buffer != map[]
    ensures LockHeld(s.pc) && !LockHeld(t.pc) ==> s.buffer == map[]
    ensures t.pc.Picking? && !s.pc.Picking? ==> s.size < s.maxSize && s.buffer != map[]
    ensures t.pc.Waiting? && !s.pc.Waiting? ==> s.buffer == map[]
  {
    hide Queues, Take, WriteStep, AfterStep, PushStep;
    if a.Push? {
      PushKeepsPc(s, a.sender, a.record);
    } else if a.Go? {
      if s.pc.Writing? {
        WriteKeepsLock(s, a.written);
      } else if s.pc.Counted? {
        AfterLoops(s);
      } else if s.buffer != map[] && (s.pc.Picking? || s.pc.drain) {
        TakeKeepsLock(s, s.pc.Loop?);
      }
    }
  }

  lemma WriteKeepsLock(s: State, written: int)
    requires s.pc.Writing? && WriteStep(s, written).Some?
    ensures var pc := WriteStep(s, written).value.pc;
      LockHeld(pc) == LockHeld(s.pc) && !pc.Picking? && !pc.Waiting?
  {
    hide Log, Get;
  }

  lemma TakeKeepsLock(s: State, drain: bool)
    requires Queues(s) && s.buffer != map[]
    ensures var pc := Take(s, drain).pc; LockHeld(pc) == drain && !pc.Picking? && !pc.Waiting?
  {
    hide Choose;
  }

  lemma PushKeepsPc(s: State, sender: nat, r: Rec)
    ensures PushStep(s, sender, r).pc == s.pc
  {
  }
}
