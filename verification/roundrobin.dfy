// Which socket transmit() serves next (src/transceiver.cpp). The descriptors of
// accepted sockets are never negative (src/sockets.cpp:1396), so -1 stands for none.

module RoundRobin {

  predicate IsMin(k: nat, keys: set<nat>) {
    k in keys && forall j <- keys :: k <= j
  }

  lemma Inhabited(keys: set<nat>)
    requires keys != {}
    ensures exists k: nat :: k in keys
  {
    if forall k: nat :: k !in keys {
      assert false;
    }
  }

  lemma {:induction false} MinExists(keys: set<nat>)
    requires keys != {}
    ensures exists k: nat :: IsMin(k, keys)
  {
    Inhabited(keys);
    var k: nat :| k in keys;
    var rest := keys - {k};
    if rest == {} {
      assert keys == {k};
      assert IsMin(k, keys);
    } else {
      MinExists(rest);
      var m: nat :| IsMin(m, rest);
      assert keys == rest + {k};
      assert IsMin(if m < k then m else k, keys);
    }
  }

  function Min(keys: set<nat>): (k: nat)
    requires keys != {}
    ensures IsMin(k, keys)
  {
    MinExists(keys);
    var k: nat :| IsMin(k, keys);
    k
  }

  function Above(keys: set<nat>, last: int): set<nat> {
    set k <- keys | k > last
  }

  function AtLeast(keys: set<nat>, last: int): set<nat> {
    set k <- keys | k >= last
  }

  /** begin() for the sentinel -1; otherwise lower_bound, one further when that is
      lastSocket itself, and begin() when the end is reached. */
  function Choose(keys: set<nat>, last: int): (k: nat)
    requires keys != {}
    ensures k in keys
  {
    if last == -1 then Min(keys)
    else
      var bound := AtLeast(keys, last);
      if bound == {} then Min(keys)
      else if Min(bound) != last then Min(bound)
      else
        var next := Above(keys, last);
        if next == {} then Min(keys) else Min(next)
  }

  /** The cyclic successor of last among keys. */
  function Successor(keys: set<nat>, last: int): (k: nat)
    requires keys != {}
    ensures k in keys
  {
    if Above(keys, last) == {} then Min(keys) else Min(Above(keys, last))
  }

  // ---- Fairness -------------------------------------------------------------

  /** One choice: the handles that had something queued, and the one taken. */
  datatype Pick = Pick(keys: set<nat>, taken: nat)

  /** The choice at i follows from the one before it; the first from the sentinel. */
  predicate Turn(picks: seq<Pick>, i: nat)
    requires i < |picks|
  {
    && picks[i].keys != {}
    && picks[i].taken == Choose(picks[i].keys, if i == 0 then -1 else picks[i - 1].taken)
  }

  predicate Turns(picks: seq<Pick>) {
    forall i | 0 <= i < |picks| :: Turn(picks, i)
  }

  /** Going round from p, q comes later than p and before s comes again. */
  predicate Nearer(s: nat, p: nat, q: nat) {
    if p >= s then q > p || q < s else p < q < s
  }

  lemma NextIsNearer(keys: set<nat>, last: nat, s: nat)
    requires s in keys && Choose(keys, last) != s
    ensures Nearer(s, last, Choose(keys, last))
  {
    if last < s {
      assert s in AtLeast(keys, last) && s in Above(keys, last);
    }
  }

  /** While socket s keeps something queued, no other socket is chosen twice before
      s is, however the queues of the others come and go: the choices go once round. */
  lemma {:induction false} Fair(picks: seq<Pick>, s: nat, i: nat, j: nat)
    requires Turns(picks) && i < j < |picks|
    requires forall m | i <= m <= j :: s in picks[m].keys && picks[m].taken != s
    ensures Nearer(s, picks[i].taken, picks[j].taken)
    ensures picks[i].taken != picks[j].taken
  {
    assert Turn(picks, j - 1) && Turn(picks, j);
    NextIsNearer(picks[j].keys, picks[j - 1].taken, s);
    if i < j - 1 {
      Fair(picks, s, i, j - 1);
    }
  }

  /** The choice is always the cyclic successor, the sentinel included. */
  lemma ChooseIsSuccessor(keys: set<nat>, last: int)
    requires keys != {} && last >= -1
    ensures Choose(keys, last) == Successor(keys, last)
  {
    if last == -1 {
      assert Above(keys, last) == keys;
    } else if last in keys {
      assert last in AtLeast(keys, last);
    }
    if last >= 0 && AtLeast(keys, last) != {} {
      var m := Min(AtLeast(keys, last));
      if m != last {
        assert last !in keys;
        assert Above(keys, last) == AtLeast(keys, last);
      }
    } else if last >= 0 {
      assert Above(keys, last) <= AtLeast(keys, last);
    }
  }

  lemma TurnsGoOn(picks: seq<Pick>, keys: set<nat>)
    requires Turns(picks) && keys != {}
    ensures Turns(picks + [Pick(keys, Choose(keys, if picks == [] then -1 else picks[|picks| - 1].taken))])
  {
    var more := picks + [Pick(keys, Choose(keys, if picks == [] then -1 else picks[|picks| - 1].taken))];
    forall i | 0 <= i < |more|
      ensures Turn(more, i)
    {
      assert i < |picks| ==> Turn(picks, i);
    }
  }
}
