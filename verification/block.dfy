// The raw buffer records are built and received in (src/block.cpp).

module Blocks {
  import opened BigEndian

  function Min(a: nat, b: nat): nat {
    if a < b then a else b
  }

  class Block {
    var m_reserve: nat
    var m_size: nat
    var m_data: array?<byte>

    ghost predicate Valid()
      reads this
    {
      && m_size <= m_reserve
      && (if m_data == null then m_reserve == 0 else m_data.Length == m_reserve)
    }

    /** Every byte allocated, relevant or not. */
    ghost function Raw(): (s: bytes)
      requires Valid()
      reads this, m_data
      ensures |s| == m_reserve
    {
      if m_data == null then [] else m_data[..]
    }

    ghost function Contents(): (s: bytes)
      requires Valid()
      reads this, m_data
      ensures |s| == m_size
    {
      Raw()[..m_size]
    }

    constructor ()
      ensures Valid() && m_reserve == 0 && m_data == null
    {
      m_reserve, m_size, m_data := 0, 0, null;
    }

    /** Always reallocates to exactly x bytes; what fits is kept. */
    method Reserve(x: nat)
      requires Valid()
      modifies this
      ensures Valid() && m_reserve == x && m_size == Min(old(m_size), x)
      ensures Contents() == old(Contents())[..m_size]
      ensures x == old(m_reserve) ==> m_data == old(m_data)
      ensures m_data == old(m_data) || (m_data != null && fresh(m_data))
    {
      if x != m_reserve {
        var data := new byte[x];
        var newSize := Min(m_size, x);
        ghost var was := Contents();
        forall i | 0 <= i < newSize {
          data[i] := m_data[i];
        }
        m_reserve := x;
        m_size := newSize;
        m_data := data;
        assert Contents() == was[..newSize];
      }
    }

    /** Grows the allocation when it has to, and then keeps all of it, also the
        part that was not relevant before. */
    method SetSize(x: nat)
      requires Valid()
      modifies this
      ensures Valid() && m_size == x && m_reserve == (if x > old(m_reserve) then x else old(m_reserve))
      ensures old(Raw()) <= Raw()
      ensures x <= old(m_reserve) ==> m_data == old(m_data)
      ensures m_data == old(m_data) || (m_data != null && fresh(m_data))
    {
      if x > m_reserve {
        m_size := m_reserve;
        ghost var was := Raw();
        Reserve(x);
        assert Raw()[..|was|] == was;
      }
      m_size := x;
    }

    method Assign(data: bytes)
      requires Valid()
      modifies this, m_data
      ensures Valid() && Contents() == data
      ensures m_reserve == (if |data| > old(m_reserve) then |data| else old(m_reserve))
      ensures m_data == old(m_data) || (m_data != null && fresh(m_data))
    {
      if |data| > m_reserve {
        m_data := new byte[|data|];
        m_reserve := |data|;
      }
      m_size := |data|;
      if m_data != null {
        forall i | 0 <= i < |data| {
          m_data[i] := data[i];
        }
      }
    }

    /** Steals the allocation of x, which is left empty. */
    method MoveFrom(x: Block)
      requires Valid() && x.Valid() && x != this
      modifies this, x
      ensures Valid() && m_data == old(x.m_data) && m_reserve == old(x.m_reserve)
      ensures Contents() == old(x.Contents())
      ensures x.Valid() && x.m_reserve == 0 && x.m_data == null
    {
      m_reserve := x.m_reserve;
      x.m_reserve := 0;
      m_size := x.m_size;
      x.m_size := 0;
      m_data := x.m_data;
      x.m_data := null;
    }

    method Clear()
      modifies this
      ensures Valid() && m_reserve == 0 && m_data == null
    {
      m_reserve := 0;
      m_size := 0;
      m_data := null;
    }
  }
}
