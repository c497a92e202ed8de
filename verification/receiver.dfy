// Receiving records from a socket whose reads return any number of bytes
// (src/transceiver.cpp, receive and cleanupSocket).

module Receiving {
  import opened BigEndian
  import opened Blocks
  import opened Common
  import opened Framing

  /** A connection. What a read returns is up to the peer and the network. */
  class Socket {
    var m_valid: bool
    var incoming: bytes
    ghost var received: bytes  // history: everything reads have returned
    ghost var asked: nat       // history: how many bytes they asked for in all

    /** -1 when the connection is found dead, otherwise how many bytes were put
        at the position asked for, possibly none. */
    method Read(data: array<byte>, at: nat, limit: nat) returns (count: int)
      requires at + limit <= data.Length
      modifies this, data
      ensures -1 <= count <= limit && asked == old(asked) + limit
      ensures data[..at] == old(data[..at])
      ensures count < 0 ==> received == old(received)
      ensures count >= 0 ==> received == old(received) + data[at..at + count]
    {
      var n :| -1 <= n <= limit && n <= |incoming|;
      count := n;
      asked := asked + limit;
      if n < 0 {
        m_valid := *;
      } else {
        forall i | 0 <= i < n {
          data[at + i] := incoming[i];
        }
        received := received + incoming[..n];
        assert data[at..at + n] == incoming[..n];
        incoming := incoming[n..];
      }
    }
  }

  /** socket.read into the free part of the buffer, and buffer.size for what came. */
  method ReadInto(socket: Socket, buffer: Block) returns (read: int)
    requires buffer.Valid() && buffer.m_data != null
    modifies socket, buffer, buffer.m_data
    ensures buffer.Valid() && buffer.m_data == old(buffer.m_data) && buffer.m_reserve == old(buffer.m_reserve)
    ensures socket.asked == old(socket.asked) + (buffer.m_reserve - old(buffer.m_size))
    ensures read < 0 ==> buffer.Contents() == old(buffer.Contents()) && socket.received == old(socket.received)
    ensures read >= 0 ==>
      && old(buffer.Contents()) <= buffer.Contents()
      && socket.received == old(socket.received) + buffer.Contents()[old(buffer.m_size)..]
  {
    var size := buffer.m_size;
    read := socket.Read(buffer.m_data, size, buffer.m_reserve - size);
    assert buffer.m_data[..size] == old(buffer.Contents());
    if read >= 0 {
      buffer.SetSize(size + read);
      assert buffer.Contents()[size..] == buffer.m_data[size..size + read];
    }
  }

  /** What is read goes to the end of the stream and of the buffer alike. */
  lemma ReadOn(received: bytes, epoch: nat, head: bytes, before: bytes, pending: bytes)
    requires epoch <= |received| && received[epoch..] == head + before && before <= pending
    ensures var more := pending[|before|..];
      (received + more)[epoch..] == head + pending && received[epoch..] <= (received + more)[epoch..]
  {
    var more := pending[|before|..];
    assert before + more == pending;
    assert (received + more)[epoch..] == received[epoch..] + more;
    Associate(head, before, more);
  }

  lemma DeliverOne(delivered: seq<bytes>, record: bytes)
    ensures Concat(delivered + [record]) == Concat(delivered) + record
  {
    assert Concat([record]) == record;
    ConcatAppend(delivered, [record]);
  }

  /** How a stream divides when its end is a record or the beginning of one. */
  lemma {:induction false} LostRecord(delivered: seq<bytes>, lost: bytes)
    requires forall i | 0 <= i < |delivered| :: IsFrame(delivered[i])
    requires !StartsWithFrame(lost) || IsFrame(lost)
    ensures Frames(Concat(delivered) + lost)
         == if IsFrame(lost) then (delivered + [lost], []) else (delivered, lost)
  {
    if IsFrame(lost) {
      DeliverOne(delivered, lost);
      hide Concat;
      assert Concat(delivered + [lost]) + [] == Concat(delivered) + lost;
      FramesUnique(delivered + [lost], []);
    } else {
      FramesUnique(delivered, lost);
    }
  }

  /** The bytes of a record without content, such as the one that ends a stream. */
  const BARE: bytes := [1, 5, 0, 1, 0, 0, 0, 0]

  lemma NoContent(h: bytes)
    requires |h| >= HEADER && h[4] == h[5] == 0
    ensures ContentLength(h) == 0
  {
    assert h[4..6] == [0, 0] && [0, 0][..1] == [0] && [0][..0] == [];
  }

  lemma BareIsFrame()
    ensures IsFrame(BARE) && |BARE| == HEADER && FrameLength(BARE) == HEADER
  {
    NoContent(BARE);
    hide ContentLength;
  }

  /** At this input the framing finds one record more than was delivered: when the
      header has come and the second read of the same call fails, the record is lost. */
  lemma BareHeaderLost(delivered: seq<bytes>)
    requires forall i | 0 <= i < |delivered| :: IsFrame(delivered[i])
    ensures IsFrame(BARE) && |BARE| == HEADER && FrameLength(BARE) == HEADER
    ensures Frames(Concat(delivered) + BARE) == (delivered + [BARE], [])
  {
    BareIsFrame();
    hide BARE, IsFrame, FrameLength, Frames, Concat;
    LostRecord(delivered, BARE);
  }

  /** The receive side of the transceiver for one socket: its entry in
      m_receiveBuffers and the records passed to m_sendMessage since that entry was
      last thrown away. */
  class Receiver {
    const socket: Socket
    var m_receiveBuffer: Block?
    var delivered: seq<bytes>
    var ids: seq<nat>         // the request each delivered record was sent to
    var badSockets: nat       // how often the manager was told that the socket died
    ghost var epoch: nat      // how many received bytes belong to earlier entries

    /** The bytes read since the entry was last thrown away. */
    ghost function Stream(): bytes
      reads this, socket
    {
      if epoch <= |socket.received| then socket.received[epoch..] else []
    }

    ghost function Pending(): bytes
      reads this, m_receiveBuffer, if m_receiveBuffer == null then null else m_receiveBuffer.m_data
      requires m_receiveBuffer != null ==> m_receiveBuffer.Valid()
    {
      if m_receiveBuffer == null then [] else m_receiveBuffer.Contents()
    }

    /** The stream is the delivered records followed by the buffer, and the
        allocation is what receive() made it. */
    ghost predicate Split()
      reads this, socket, m_receiveBuffer, if m_receiveBuffer == null then null else m_receiveBuffer.m_data
    {
      && epoch <= |socket.received|
      && (m_receiveBuffer != null ==>
            && m_receiveBuffer.Valid()
            && (m_receiveBuffer.m_size > HEADER ==> m_receiveBuffer.m_reserve == FrameLength(Pending())))
      && (forall i | 0 <= i < |delivered| :: IsFrame(delivered[i]))
      && |ids| == |delivered| && (forall i | 0 <= i < |ids| :: ids[i] == FcgiId(delivered[i]))
      && Stream() == Concat(delivered) + Pending()
    }

    /** Between calls the buffer never holds a complete record. */
    ghost predicate Valid()
      reads this, socket, m_receiveBuffer, if m_receiveBuffer == null then null else m_receiveBuffer.m_data
    {
      Split() && !StartsWithFrame(Pending())
    }

    /** So the delivered records are exactly the complete records of the stream. */
    lemma Exact()
      requires Valid()
      ensures Frames(Stream()) == (delivered, Pending())
    {
      FramesUnique(delivered, Pending());
    }

    /** When what arrives is the beginning of a stream of records, the records delivered
        are the first of those sent; all of them once the whole stream is there. */
    lemma EndToEnd(records: seq<bytes>)
      requires Valid() && (forall f <- records :: IsFrame(f)) && Stream() <= Concat(records)
      ensures delivered <= records
      ensures Stream() == Concat(records) ==> delivered == records && Pending() == []
    {
      Exact();
      FramesOfPrefix(records, Stream());
    }

    constructor (socket: Socket)
      requires socket.received == []
      ensures Valid() && this.socket == socket && delivered == [] && fresh(this)
    {
      this.socket := socket;
      m_receiveBuffer, delivered, ids, badSockets, epoch := null, [], [], 0, 0;
    }

    /** cleanupSocket: the partial record is dropped. */
    method CleanupSocket()
      modifies this
      requires m_receiveBuffer != null
      ensures m_receiveBuffer == null && delivered == [] && ids == [] && epoch == |socket.received|
      ensures badSockets == old(badSockets) + 1
    {
      m_receiveBuffer := null;
      badSockets := badSockets + 1;
      delivered, ids, epoch := [], [], |socket.received|;
    }

    /** The first half of receive(): the header. */
    method ReceiveHeader() returns (read: int)
      requires Valid() && m_receiveBuffer != null && m_receiveBuffer.m_size < HEADER
      modifies socket, m_receiveBuffer, m_receiveBuffer.m_data
      ensures Split() && m_receiveBuffer.m_data != null && m_receiveBuffer.m_size <= HEADER
      ensures m_receiveBuffer.m_data == old(m_receiveBuffer.m_data) || fresh(m_receiveBuffer.m_data)
      ensures old(Stream()) <= Stream() && socket.asked > old(socket.asked)
      ensures read < 0 ==> Stream() == old(Stream()) && Pending() == old(Pending())
    {
      hide FrameLength, IsFrame, FcgiId, Concat;
      var buffer := m_receiveBuffer;
      buffer.Reserve(HEADER);
      ghost var before := Pending();
      assert before == old(Pending());
      read := ReadInto(socket, buffer);
      if read >= 0 {
        ReadOn(old(socket.received), epoch, Concat(delivered), before, Pending());
      }
    }

    /** The second half: the body, once the header says how long it is. */
    method ReceiveBody() returns (read: int)
      requires Split() && m_receiveBuffer != null && m_receiveBuffer.m_data != null
      requires HEADER <= m_receiveBuffer.m_size
      requires m_receiveBuffer.m_size > HEADER ==> m_receiveBuffer.m_size < m_receiveBuffer.m_reserve
      modifies socket, m_receiveBuffer, m_receiveBuffer.m_data
      ensures Split() && m_receiveBuffer.m_data != null && HEADER <= m_receiveBuffer.m_size
      ensures m_receiveBuffer.m_data == old(m_receiveBuffer.m_data) || fresh(m_receiveBuffer.m_data)
      ensures m_receiveBuffer.m_reserve == FrameLength(Pending())
      ensures old(Stream()) <= Stream()
      ensures socket.asked >= old(socket.asked)
      ensures !StartsWithFrame(old(Pending())) ==> socket.asked > old(socket.asked)
      ensures read < 0 ==> Stream() == old(Stream()) && Pending() == old(Pending())
    {
      hide FrameLength, IsFrame, FcgiId, Concat;
      ghost var before := Pending();
      ReserveBody();
      read := ReadInto(socket, m_receiveBuffer);
      if read >= 0 {
        ReadOn(old(socket.received), epoch, Concat(delivered), before, Pending());
        assert before + Pending()[|before|..] == Pending();
        FramePrefix(before, Pending()[|before|..]);
      }
    }

    /** With the header just complete, room for the rest of the record. */
    method ReserveBody()
      requires m_receiveBuffer != null && m_receiveBuffer.Valid() && m_receiveBuffer.m_data != null
      requires HEADER <= m_receiveBuffer.m_size
      requires m_receiveBuffer.m_size > HEADER ==> m_receiveBuffer.m_reserve == FrameLength(Pending())
      modifies m_receiveBuffer, m_receiveBuffer.m_data
      ensures m_receiveBuffer.Valid() && m_receiveBuffer.m_data != null
      ensures m_receiveBuffer.m_data == old(m_receiveBuffer.m_data) || fresh(m_receiveBuffer.m_data)
      ensures Pending() == old(Pending()) && m_receiveBuffer.m_reserve == FrameLength(Pending())
    {
      var buffer := m_receiveBuffer;
      ghost var before := Pending();
      if buffer.m_size == HEADER {
        assert buffer.m_data[..HEADER] == before;
        buffer.Reserve(FrameLength(buffer.m_data[..HEADER]));
      }
    }

    /** A complete record goes to the manager, for the request its header names; the
        buffer is left empty. */
    method Deliver()
      requires Split() && m_receiveBuffer != null && m_receiveBuffer.m_data != null
      requires HEADER <= m_receiveBuffer.m_size == m_receiveBuffer.m_reserve == FrameLength(Pending())
      modifies this`delivered, this`ids, m_receiveBuffer
      ensures Valid() && Stream() == old(Stream())
      ensures delivered == old(delivered) + [old(Pending())] && ids == old(ids) + [FcgiId(old(Pending()))]
    {
      hide Concat, FcgiId, ContentLength;
      ghost var record := Pending();
      var message := new Block();
      message.MoveFrom(m_receiveBuffer);
      ids := ids + [FcgiId(message.m_data[..])];
      delivered := delivered + [message.m_data[..]];
      assert message.m_data[..] == record;
      DeliverOne(old(delivered), record);
      assert Pending() == [];
    }

    /** A read failed: what was buffered is lost. */
    method Fail() returns (ghost lost: bytes)
      requires Split() && m_receiveBuffer != null && (StartsWithFrame(Pending()) ==> IsFrame(Pending()))
      modifies this
      ensures Valid() && Stream() == [] && delivered == [] && badSockets == old(badSockets) + 1
      ensures lost == old(Pending())
      ensures Frames(old(Stream())) == if IsFrame(lost) then (old(delivered) + [lost], []) else (old(delivered), lost)
    {
      lost := Pending();
      LostRecord(delivered, lost);
      CleanupSocket();
    }

    /** From a complete header on. */
    method ReceiveRest() returns (ok: bool, ghost whole: bytes, ghost lost: bytes)
      requires Split() && m_receiveBuffer != null && m_receiveBuffer.m_data != null
      requires HEADER <= m_receiveBuffer.m_size
      requires m_receiveBuffer.m_size > HEADER ==> m_receiveBuffer.m_size < m_receiveBuffer.m_reserve
      modifies this, socket, m_receiveBuffer, m_receiveBuffer.m_data
      ensures Valid() && old(Stream()) <= whole && socket.asked >= old(socket.asked)
      ensures !StartsWithFrame(old(Pending())) ==> socket.asked > old(socket.asked)
      ensures ok ==> Stream() == whole && badSockets == old(badSockets)
      ensures ok ==> old(delivered) <= delivered && |delivered| <= |old(delivered)| + 1
      ensures ok ==> m_receiveBuffer == old(m_receiveBuffer) && |Pending()| <= m_receiveBuffer.m_reserve
      ensures !ok ==> Stream() == [] && delivered == [] && badSockets == old(badSockets) + 1
      ensures !ok ==> Frames(whole) == if IsFrame(lost) then (old(delivered) + [lost], []) else (old(delivered), lost)
      ensures !ok && IsFrame(lost) ==> |lost| == HEADER
    {
      ok, lost := true, [];
      var read := ReceiveBody();
      whole := Stream();
      if read < 0 {
        ok := false;
        lost := Fail();
      } else if m_receiveBuffer.m_size >= m_receiveBuffer.m_reserve {
        Deliver();
      }
    }

    /** receive(): for any sizes the reads return. When a read fails, what was
        buffered is lost; that can include one complete record, but only one that
        is nothing but a header. */
    method Receive() returns (ok: bool, ghost whole: bytes, ghost lost: bytes)
      requires Valid()
      modifies this, socket, m_receiveBuffer, if m_receiveBuffer == null then null else m_receiveBuffer.m_data
      ensures Valid() && old(Stream()) <= whole
      ensures if old(socket.m_valid) then socket.asked > old(socket.asked)
              else ok && socket.received == old(socket.received) && delivered == old(delivered)
      ensures ok ==> Stream() == whole && badSockets == old(badSockets)
      ensures ok ==> old(delivered) <= delivered && |delivered| <= |old(delivered)| + 1
      ensures ok && m_receiveBuffer != null ==> |Pending()| <= m_receiveBuffer.m_reserve
      ensures !ok ==> Stream() == [] && delivered == [] && badSockets == old(badSockets) + 1
      ensures !ok ==> Frames(whole) == if IsFrame(lost) then (old(delivered) + [lost], []) else (old(delivered), lost)
      ensures !ok && IsFrame(lost) ==> |lost| == HEADER
    {
      hide FcgiId, Concat, Frames, ContentLength;
      whole, lost, ok := Stream(), [], true;
      if !socket.m_valid {
        return;
      }
      if m_receiveBuffer == null {
        m_receiveBuffer := new Block();
      }
      assert Valid() && Stream() == whole;
      if m_receiveBuffer.m_size < HEADER {
        var read := ReceiveHeader();
        whole := Stream();
        if read < 0 {
          ok := false;
          lost := Fail();
          return;
        }
        if m_receiveBuffer.m_size < HEADER {
          return;
        }
      }
      ok, whole, lost := ReceiveRest();
    }
  }
}
