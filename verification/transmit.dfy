// The send side of the transceiver (src/transceiver.cpp, send and transmit): any
// number of sender threads and one transmitter, as a step system.

module Transmit {
  import opened BigEndian
  import opened Common
  import opened RoundRobin

  /** A connection. The system hands its descriptor out again once it is closed, so
      several connections may share a handle over time. */
  datatype Conn = Conn(handle: nat, serial: nat)

  /** A queued record, all of it still to be written. */
  datatype Rec = Rec(conn: Conn, data: bytes, kill: bool)

  /** What became of a record: what of it was written before it was done with. */
  datatype Fate = Fate(record: Rec, wrote: bytes)

  /** The two ways to lose bytes: a write of a record failed, or a record's failure or
      kill took what was queued under its handle along. */
  datatype Loss = Failed(record: Rec, wrote: bytes) | Dropped(cause: Rec, queue: seq<Rec>)

  /** Where the transmitter is; drain tells the branch that holds the lock throughout. */
  datatype Pc =
    | Waiting                                            // on m_wakeSend
    | Loop(drain: bool)                                  // at a loop test
    | Picking                                            // the size was below the limit
    | Writing(r: Rec, done: nat, sent: int, drain: bool) // in the write loop
    | Counted(r: Rec, ok: bool, drain: bool)             // m_sendBufferSize was reduced by the record

  datatype State = State(
    buffer: map<nat, seq<Rec>>,    // m_sendBuffer, by handle
    size: int,                     // m_sendBufferSize
    maxSize: int,                  // m_maxSendBufferSize
    adding: map<nat, nat>,         // senders that pushed and have not added to the size yet
    pc: Pc,
    lastSocket: int,
    closed: set<Conn>,             // closed or closing sockets
    wire: map<Conn, bytes>,        // history: bytes written
    given: map<Conn, seq<Rec>>,    // history: records passed to send
    fates: map<Conn, seq<Fate>>,   // history: records done with
    losses: seq<Loss>,             // history
    picks: seq<Pick>)              // history: choices since lastSocket was last reset

  function Get<K, T>(m: map<K, seq<T>>, k: K): seq<T> {
    if k in m then m[k] else []
  }

  function Bytes(records: seq<Rec>): bytes {
    if records == [] then [] else records[0].data + Bytes(records[1..])
  }

  // ---- Steps ----------------------------------------------------------------

  datatype Action =
    | Push(sender: nat, record: Rec)
    | Add(sender: nat)
    | SetMax(max: int)
    | Close(conn: Conn)  // by the receiving side
    | Wake
    | Go(written: int)   // one step of the transmitter; written is what write() returns

  predicate LockHeld(pc: Pc) {
    match pc
    case Loop(drain) => drain
    case Writing(_, _, _, drain) => drain
    case Counted(_, _, drain) => drain
    case _ => false
  }

  /** The first record of the list chosen is taken out of the map. */
  function Take(s: State, drain: bool): State
    requires s.buffer != map[] && forall h <- s.buffer :: s.buffer[h] != []
  {
    var h := Choose(s.buffer.Keys, s.lastSocket);
    var list := s.buffer[h];
    s.(buffer := if |list| == 1 then s.buffer - {h} else s.buffer[h := list[1..]],
       lastSocket := h,
       picks := s.picks + [Pick(s.buffer.Keys, h)],
       pc := Writing(list[0], 0, -1, drain))
  }

  function Log(fates: map<Conn, seq<Fate>>, f: Fate): map<Conn, seq<Fate>> {
    fates[f.record.conn := Get(fates, f.record.conn) + [f]]
  }

  /** The write loop is left, with done bytes written and sent as the last result. */
  function EndWrite(s: State, r: Rec, done: nat, sent: int, drain: bool): State
    requires done <= |r.data|
  {
    s.(size := s.size - |r.data|, pc := Counted(r, sent >= 0, drain),
       fates := Log(s.fates, Fate(r, r.data[..done])),
       losses := if sent < 0 then s.losses + [Failed(r, r.data[..done])] else s.losses)
  }

  /** One turn of the write loop, or what follows it. A closed socket writes nothing. */
  function WriteStep(s: State, written: int): Option<State>
    requires s.pc.Writing?
  {
    var Writing(r, done, sent, drain) := s.pc;
    if done > |r.data| then None
    else if done == |r.data| then Some(EndWrite(s, r, done, sent, drain))
    else if written < 0 then Some(EndWrite(s, r, done, written, drain))
    else if done + written > |r.data| || r.conn in s.closed then None
    else
      Some(s.(pc := Writing(r, done + written, written, drain),
              wire := s.wire[r.conn := Get(s.wire, r.conn) + r.data[done..done + written]]))
  }

  /** The records of a list are done with, nothing of them having been written. */
  function DropAll(fates: map<Conn, seq<Fate>>, list: seq<Rec>): map<Conn, seq<Fate>> {
    if list == [] then fates
    else Log(DropAll(fates, list[..|list| - 1]), Fate(list[|list| - 1], []))
  }

  /** The record's socket is closed and everything queued under its handle is dropped. */
  function Cleared(s: State, r: Rec): State {
    var list := Get(s.buffer, r.conn.handle);
    s.(size := s.size - |Bytes(list)|, buffer := s.buffer - {r.conn.handle}, closed := s.closed + {r.conn},
       fates := DropAll(s.fates, list), losses := s.losses + [Dropped(r, list)])
  }

  /** After the record: that happens on a failure or a kill record. */
  function AfterStep(s: State): State
    requires s.pc.Counted?
  {
    var Counted(r, ok, drain) := s.pc;
    (if !ok || r.kill then Cleared(s, r) else s).(pc := Loop(drain))
  }

  function TransmitStep(s: State, written: int): Option<State>
    requires forall h <- s.buffer :: s.buffer[h] != []
  {
    match s.pc
    case Waiting => None
    case Loop(drain) =>
      if s.buffer == map[] then Some(s.(pc := if drain then Loop(false) else Waiting))
      else if drain then Some(Take(s, true))
      else if s.size < s.maxSize then Some(s.(pc := Picking))
      else Some(s.(pc := Loop(true), lastSocket := -1, picks := []))
    case Picking => if s.buffer == map[] then None else Some(Take(s, false))
    case Writing(_, _, _, _) => WriteStep(s, written)
    case Counted(_, _, _) => Some(AfterStep(s))
  }

  function PushStep(s: State, sender: nat, r: Rec): State {
    s.(buffer := s.buffer[r.conn.handle := Get(s.buffer, r.conn.handle) + [r]],
       adding := s.adding[sender := |r.data|],
       given := s.given[r.conn := Get(s.given, r.conn) + [r]])
  }

  function Step(s: State, a: Action): Option<State>
    requires forall h <- s.buffer :: s.buffer[h] != []
  {
    match a
    case Push(sender, r) =>
      if sender in s.adding || LockHeld(s.pc) then None else Some(PushStep(s, sender, r))
    case Add(sender) =>
      if sender !in s.adding then None
      else Some(s.(size := s.size + s.adding[sender], adding := s.adding - {sender}))
    case SetMax(max) => Some(s.(maxSize := max))
    case Close(conn) => Some(s.(closed := s.closed + {conn}))
    case Wake => if s.pc.Waiting? then Some(s.(pc := Loop(false), lastSocket := -1, picks := [])) else None
    case Go(written) => TransmitStep(s, written)
  }

  function Init(maxSize: int): State {
    State(map[], 0, maxSize, map[], Waiting, -1, {}, map[], map[], map[], [], [])
  }

  // ---- Sums over maps -------------------------------------------------------

  ghost function Sum<K(!new)>(m: map<K, int>): int
    decreases |m|
  {
    if m == map[] then 0
    else
      var k :| k in m;
      assert |m - {k}| < |m| by { assert m == (m - {k})[k := m[k]]; }
      m[k] + Sum(m - {k})
  }

  lemma {:induction false} SumWithout<K(!new)>(m: map<K, int>, k: K)
    requires k in m
    ensures Sum(m) == m[k] + Sum(m - {k})
    decreases |m|
  {
    var j :| j in m && Sum(m) == m[j] + Sum(m - {j});
    if j != k {
      assert m == (m - {j})[j := m[j]] && m == (m - {k})[k := m[k]];
      SumWithout(m - {j}, k);
      SumWithout(m - {k}, j);
      assert m - {j} - {k} == m - {k} - {j};
    }
  }

  lemma SumUpdate<K(!new)>(m: map<K, int>, k: K, v: int)
    ensures Sum(m[k := v]) == Sum(m) + v - (if k in m then m[k] else 0)
  {
    hide Sum;
    SumWithout(m[k := v], k);
    if k in m {
      SumWithout(m, k);
      assert m[k := v] - {k} == m - {k};
    } else {
      assert m[k := v] - {k} == m;
    }
  }

  lemma {:induction false} BytesAppend(a: seq<Rec>, b: seq<Rec>)
    ensures Bytes(a + b) == Bytes(a) + Bytes(b)
  {
    if a == [] {
      assert a + b == b;
    } else {
      BytesAppend(a[1..], b);
      assert (a + b)[0] == a[0] && (a + b)[1..] == a[1..] + b;
      Associate(a[0].data, Bytes(a[1..]), Bytes(b));
    }
  }

  lemma BytesOne(r: Rec)
    ensures Bytes([r]) == r.data
  {
    assert [r][1..] == [];
  }

  // ---- The records of one connection ----------------------------------------

  /** The records of a list that belong to a connection. */
  function Of(list: seq<Rec>, c: Conn): seq<Rec> {
    if list == [] then []
    else Of(list[..|list| - 1], c) + Mine(list[|list| - 1], c)
  }

  function Mine(r: Rec, c: Conn): seq<Rec> {
    if r.conn == c then [r] else []
  }

  lemma OfAppend(list: seq<Rec>, r: Rec, c: Conn)
    ensures Of(list + [r], c) == Of(list, c) + Mine(r, c)
  {
    assert (list + [r])[..|list|] == list;
  }

  lemma {:induction false} OfFirst(list: seq<Rec>, c: Conn)
    requires list != []
    ensures Of(list, c) == Mine(list[0], c) + Of(list[1..], c)
  {
    var n := |list| - 1;
    if n == 0 {
      assert list[..0] == [] && list[1..] == [];
      assert [] + Mine(list[0], c) == Mine(list[0], c) + [];
    } else {
      OfFirst(list[..n], c);
      assert list[..n][1..] == list[1..][..n - 1];
      Associate(Mine(list[0], c), Of(list[1..][..n - 1], c), Mine(list[n], c));
    }
  }

  /** Of records under another handle none is of this connection. */
  lemma {:induction false} OfNone(list: seq<Rec>, c: Conn)
    requires forall r <- list :: r.conn != c
    ensures Of(list, c) == []
  {
    if list != [] {
      assert list[|list| - 1] in list;
      OfNone(list[..|list| - 1], c);
    }
  }

  function Records(fates: seq<Fate>): seq<Rec> {
    if fates == [] then [] else Records(fates[..|fates| - 1]) + [fates[|fates| - 1].record]
  }

  /** The bytes of the records of these fates that were written. */
  function Written(fates: seq<Fate>): bytes {
    if fates == [] then [] else Written(fates[..|fates| - 1]) + fates[|fates| - 1].wrote
  }

  /** Every one of these records was written as a whole. */
  predicate Whole(fates: seq<Fate>) {
    forall f <- fates :: f.wrote == f.record.data
  }

  /** How many bytes of these records were not written. */
  function Missing(fates: seq<Fate>): int {
    if fates == [] then 0
    else Missing(fates[..|fates| - 1]) + |fates[|fates| - 1].record.data| - |fates[|fates| - 1].wrote|
  }

  predicate Sane(fates: seq<Fate>) {
    forall f <- fates :: f.wrote <= f.record.data
  }

  lemma FatesAppend(fates: seq<Fate>, f: Fate)
    ensures Records(fates + [f]) == Records(fates) + [f.record]
    ensures Written(fates + [f]) == Written(fates) + f.wrote
    ensures Whole(fates + [f]) <==> Whole(fates) && f.wrote == f.record.data
    ensures Sane(fates + [f]) <==> Sane(fates) && f.wrote <= f.record.data
  {
    var all := fates + [f];
    assert all[..|fates|] == fates;
    assert f in all && forall g <- fates :: g in all;
  }

  /** What was not written is missing in the total. */
  lemma {:induction false} MissingBytes(fates: seq<Fate>)
    requires Sane(fates)
    ensures |Bytes(Records(fates))| == |Written(fates)| + Missing(fates) && Missing(fates) >= 0
    ensures Missing(fates) == 0 <==> Whole(fates)
    ensures Whole(fates) ==> Bytes(Records(fates)) == Written(fates)
  {
    if fates != [] {
      var front, last := fates[..|fates| - 1], fates[|fates| - 1];
      assert fates == front + [last] && last in fates;
      FatesAppend(front, last);
      MissingBytes(front);
      BytesAppend(Records(front), [last.record]);
      BytesOne(last.record);
    }
  }

  /** The fates of dropped records. */
  function Drops(records: seq<Rec>): (d: seq<Fate>)
    ensures |d| == |records| && forall k | 0 <= k < |d| :: d[k] == Fate(records[k], [])
  {
    seq(|records|, k requires 0 <= k < |records| => Fate(records[k], []))
  }

  lemma {:induction false} DropsRead(fates: seq<Fate>, records: seq<Rec>)
    ensures var all := fates + Drops(records);
      && Records(all) == Records(fates) + records && Written(all) == Written(fates)
      && (Sane(all) <==> Sane(fates))
      && (Whole(all) <==> Whole(fates) && Bytes(records) == [])
  {
    if records == [] {
      assert fates + Drops(records) == fates;
    } else {
      var front, last := records[..|records| - 1], records[|records| - 1];
      var f, before := Fate(last, []), fates + Drops(front);
      DropsRead(fates, front);
      DropsAppend(front, last);
      BytesAppend(front, [last]);
      BytesOne(last);
      hide Records, Written, Whole, Sane, Bytes, Drops;
      FatesAppend(before, f);
      assert records == front + [last];
      Associate(fates, Drops(front), [f]);
      Associate(Records(fates), front, [last]);
      assert Written(before) + [] == Written(before);
    }
  }

  lemma DropsAppend(front: seq<Rec>, last: Rec)
    ensures Drops(front + [last]) == Drops(front) + [Fate(last, [])]
  {
  }

  lemma LogAt(fates: map<Conn, seq<Fate>>, f: Fate, c: Conn)
    ensures Get(Log(fates, f), c) == if f.record.conn == c then Get(fates, c) + [f] else Get(fates, c)
  {
  }

  lemma {:induction false} DropAllAt(fates: map<Conn, seq<Fate>>, list: seq<Rec>, c: Conn)
    ensures Get(DropAll(fates, list), c) == Get(fates, c) + Drops(Of(list, c))
  {
    if list == [] {
      assert Drops([]) == [];
    } else {
      var front, last := list[..|list| - 1], list[|list| - 1];
      var f := Fate(last, []);
      DropAllAt(fates, front, c);
      LogAt(DropAll(fates, front), f, c);
      DropsAppend(Of(front, c), last);
      assert Of(list, c) == Of(front, c) + Mine(last, c);
      hide Of, Drops, Get, Log;
      assert Of(front, c) + [] == Of(front, c);
      Associate(Get(fates, c), Drops(Of(front, c)), [f]);
    }
  }
}
