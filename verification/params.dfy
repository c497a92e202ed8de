// Name-value pairs in the body of a PARAMS record (section 3.4 of the FastCGI
// Specification; src/protocol.cpp, processParamHeader; src/http.cpp, fill).

module NameValue {
  import opened BigEndian
  import opened Common

  const MAX_LENGTH: nat := 0x8000_0000

  type Pair = (bytes, bytes)

  /** A length as the sender may write it: one byte when it is below 128, or four
      bytes with the top bit set. */
  datatype Item = Item(name: bytes, value: bytes, wideName: bool, wideValue: bool)

  predicate Encodable(x: Item) {
    && |x.name| < MAX_LENGTH && |x.value| < MAX_LENGTH
    && (|x.name| < 128 || x.wideName) && (|x.value| < 128 || x.wideValue)
  }

  function EncodeLength(n: nat, wide: bool): (b: bytes)
    requires n < MAX_LENGTH && (n < 128 || wide)
    ensures |b| == if wide then 4 else 1
  {
    if wide then To(n + MAX_LENGTH, 4) else [n]
  }

  function EncodeItem(x: Item): bytes
    requires Encodable(x)
  {
    EncodeLength(|x.name|, x.wideName) + (EncodeLength(|x.value|, x.wideValue) + (x.name + x.value))
  }

  function Encode(items: seq<Item>): bytes
    requires forall i | 0 <= i < |items| :: Encodable(items[i])
  {
    if items == [] then [] else EncodeItem(items[0]) + Encode(items[1..])
  }

  /** A length at the front: its value and the bytes it takes. */
  function ReadLength(s: bytes): (r: Option<(nat, nat)>)
    ensures r.Some? ==> 1 <= r.value.1 <= |s|
  {
    if s == [] then None
    else if s[0] < 128 then Some((s[0], 1))
    else if |s| < 4 then None
    else Some((From(s[..4]) % MAX_LENGTH, 4))
  }

  /** The first pair and the bytes it takes, when it is there as a whole. */
  function ReadPair(s: bytes): (r: Option<(Pair, nat)>)
    ensures r.Some? ==> 1 <= r.value.1 <= |s|
  {
    match ReadLength(s)
    case None => None
    case Some((nameSize, a)) =>
      match ReadLength(s[a..])
      case None => None
      case Some((valueSize, b)) =>
        var name := a + b;
        var value := name + nameSize;
        var end := value + valueSize;
        if end > |s| then None else Some(((s[name..value], s[value..end]), end))
  }

  /** All pairs up to the first that is not there as a whole. */
  function Pairs(s: bytes): seq<Pair> {
    match ReadPair(s)
    case None => []
    case Some((pair, n)) => [pair] + Pairs(s[n..])
  }

  /** One of the two length fields; no byte outside data is read. */
  method ReadLengthAt(data: bytes, at: nat) returns (ok: bool, size: nat, next: nat)
    requires at <= |data|
    ensures ok <==> ReadLength(data[at..]).Some?
    ensures ok ==> at < next <= |data| && ReadLength(data[at..]).value == (size, next - at)
  {
    size, next := 0, at;
    if at >= |data| {
      return false, size, next;
    }
    if data[at] >= 128 {
      next := at + 4;
      if next > |data| {
        return false, size, next;
      }
      size := From(data[at..next]) % MAX_LENGTH;
      assert data[at..][..4] == data[at..next];
    } else {
      size := data[at];
      next := at + 1;
    }
    return true, size, next;
  }

  lemma TailOf(data: bytes, start: nat, from: nat)
    requires start <= from <= |data|
    ensures data[start..][from - start..] == data[from..]
  {
  }

  lemma SliceOf(data: bytes, start: nat, from: nat, to: nat)
    requires start <= from <= to <= |data|
    ensures data[start..][from - start..to - start] == data[from..to]
  {
  }

  /** processParamHeader with positions for pointers. */
  method ProcessParamHeader(data: bytes, start: nat) returns (ok: bool, name: nat, value: nat, end: nat)
    requires start <= |data|
    ensures ok <==> ReadPair(data[start..]).Some?
    ensures ok ==> start < name <= value <= end <= |data|
    ensures ok ==> ReadPair(data[start..]).value == ((data[name..value], data[value..end]), end - start)
  {
    name, value, end := 0, 0, 0;
    var found, nameSize, middle := ReadLengthAt(data, start);
    if !found {
      return false, name, value, end;
    }
    TailOf(data, start, middle);
    var valueSize;
    found, valueSize, name := ReadLengthAt(data, middle);
    if !found {
      return false, name, value, end;
    }
    value := name + nameSize;
    end := value + valueSize;
    ok := end <= |data|;
    if ok {
      SliceOf(data, start, name, value);
      SliceOf(data, start, value, end);
    }
  }

  /** The loop of Environment::fill: the pairs in the order they are processed. */
  method Fill(data: bytes) returns (pairs: seq<Pair>)
    ensures pairs == Pairs(data)
  {
    hide ReadPair;
    var at: nat := 0;
    pairs := [];
    assert data[0..] == data;
    while true
      invariant at <= |data|
      invariant pairs + Pairs(data[at..]) == Pairs(data)
      decreases |data| - at
    {
      var ok, name, value, end := ProcessParamHeader(data, at);
      if !ok {
        break;
      }
      assert data[at..][end - at..] == data[end..];
      pairs := pairs + [(data[name..value], data[value..end])];
      at := end;
    }
  }

  // ---- Round trip -----------------------------------------------------------

  lemma ReadEncodedLength(n: nat, wide: bool, rest: bytes)
    requires n < MAX_LENGTH && (n < 128 || wide)
    ensures ReadLength(EncodeLength(n, wide) + rest) == Some((n, if wide then 4 else 1))
  {
    if wide {
      var b := To(n + MAX_LENGTH, 4);
      assert Range(4) == 2 * MAX_LENGTH by {
        assert Range(1) == 256 && Range(2) == 0x10000 && Range(3) == 0x100_0000;
      }
      FromTo(n + MAX_LENGTH, 4);
      TopBit(n + MAX_LENGTH);
      assert (b + rest)[..4] == b;
    }
  }

  lemma TopBit(v: nat)
    requires MAX_LENGTH <= v < 2 * MAX_LENGTH
    ensures To(v, 4)[0] >= 128
  {
    var a, b, c := v / 256, v / 256 / 256, v / 256 / 256 / 256;
    assert To(v, 4) == To(a, 3) + [v % 256] && To(a, 3) == To(b, 2) + [a % 256];
    assert To(b, 2) == To(c, 1) + [b % 256] && To(c, 1) == [] + [c % 256];
    assert 128 <= c < 256;
  }

  lemma CutLength(n: nat, wide: bool, k: nat)
    requires n < MAX_LENGTH && (n < 128 || wide) && k < |EncodeLength(n, wide)|
    ensures ReadLength(EncodeLength(n, wide)[..k]).None?
  {
    if wide {
      TopBitOf(n);
    }
  }

  lemma TopBitOf(n: nat)
    requires n < MAX_LENGTH
    ensures EncodeLength(n, true)[0] >= 128
  {
    TopBit(n + MAX_LENGTH);
  }

  lemma DropFirst(a: bytes, b: bytes)
    ensures (a + b)[|a|..] == b
  {
  }

  lemma TakeConcat(a: bytes, b: bytes, k: nat)
    requires k <= |a| + |b|
    ensures (a + b)[..k] == if k <= |a| then a[..k] else a + b[..k - |a|]
  {
  }

  lemma SliceAfter(p: bytes, tail: bytes, i: nat, j: nat)
    requires i <= j <= |tail|
    ensures (p + tail)[|p| + i..|p| + j] == tail[i..j]
  {
  }

  /** The pair at the front of tail, once its two lengths were read. */
  function Body(tail: bytes, n: nat, v: nat, used: nat): Option<(Pair, nat)> {
    if |tail| < n + v then None else Some(((tail[..n], tail[n..n + v]), used + n + v))
  }

  /** Reading two lengths and then as many bytes, if they are there. */
  lemma ReadParts(n: nat, wideName: bool, v: nat, wideValue: bool, tail: bytes)
    requires n < MAX_LENGTH && (n < 128 || wideName) && v < MAX_LENGTH && (v < 128 || wideValue)
    ensures
      var a, b := EncodeLength(n, wideName), EncodeLength(v, wideValue);
      ReadPair(a + (b + tail)) == Body(tail, n, v, |a| + |b|)
  {
    var a, b := EncodeLength(n, wideName), EncodeLength(v, wideValue);
    ReadEncodedLength(n, wideName, b + tail);
    DropFirst(a, b + tail);
    ReadEncodedLength(v, wideValue, tail);
    if |tail| >= n + v {
      Associate(a, b, tail);
      SliceAfter(a + b, tail, 0, n);
      SliceAfter(a + b, tail, n, n + v);
    }
  }

  lemma ReadEncodedItem(x: Item, rest: bytes)
    requires Encodable(x)
    ensures ReadPair(EncodeItem(x) + rest) == Some(((x.name, x.value), |EncodeItem(x)|))
  {
    hide EncodeLength, ReadPair, Body;
    var a, b := EncodeLength(|x.name|, x.wideName), EncodeLength(|x.value|, x.wideValue);
    ReadParts(|x.name|, x.wideName, |x.value|, x.wideValue, x.name + x.value + rest);
    Associate(a, b + (x.name + x.value), rest);
    Associate(b, x.name + x.value, rest);
    BodyOf(x.name, x.value, rest, |a| + |b|);
  }

  lemma BodyOf(name: bytes, value: bytes, rest: bytes, used: nat)
    ensures Body(name + value + rest, |name|, |value|, used) == Some(((name, value), used + |name| + |value|))
  {
    var tail := name + value + rest;
    assert tail[..|name|] == name && tail[|name|..|name| + |value|] == value;
  }

  lemma CutItem(x: Item, k: nat)
    requires Encodable(x) && k < |EncodeItem(x)|
    ensures ReadPair(EncodeItem(x)[..k]).None?
  {
    var a, b := EncodeLength(|x.name|, x.wideName), EncodeLength(|x.value|, x.wideValue);
    TakeConcat(a, b + (x.name + x.value), k);
    if k < |a| {
      CutLength(|x.name|, x.wideName, k);
    } else {
      CutAfterName(x, k - |a|);
    }
  }

  lemma CutAfterName(x: Item, k: nat)
    requires Encodable(x) && |EncodeLength(|x.name|, x.wideName)| + k < |EncodeItem(x)|
    ensures ReadPair(EncodeLength(|x.name|, x.wideName)
              + (EncodeLength(|x.value|, x.wideValue) + (x.name + x.value))[..k]).None?
  {
    var a, b := EncodeLength(|x.name|, x.wideName), EncodeLength(|x.value|, x.wideValue);
    TakeConcat(b, x.name + x.value, k);
    if k < |b| {
      ReadEncodedLength(|x.name|, x.wideName, b[..k]);
      DropFirst(a, b[..k]);
      CutLength(|x.value|, x.wideValue, k);
    } else {
      var tail := (x.name + x.value)[..k - |b|];
      assert (b + (x.name + x.value))[..k] == b + tail;
      ReadParts(|x.name|, x.wideName, |x.value|, x.wideValue, tail);
    }
  }

  /** How many items lie wholly inside the first k bytes of their encoding. */
  function Whole(items: seq<Item>, k: nat): (n: nat)
    requires forall i | 0 <= i < |items| :: Encodable(items[i])
    ensures n <= |items|
  {
    if items == [] || k < |EncodeItem(items[0])| then 0
    else 1 + Whole(items[1..], k - |EncodeItem(items[0])|)
  }

  function Plain(items: seq<Item>): (pairs: seq<Pair>)
    ensures |pairs| == |items|
  {
    if items == [] then [] else [(items[0].name, items[0].value)] + Plain(items[1..])
  }

  lemma CutNothing()
    ensures ReadPair([]).None?
  {
  }

  /** However a list of pairs is encoded and wherever its encoding is cut off, the
      loop yields exactly the pairs that lie wholly before the cut. */
  lemma {:induction false} PairsOfPrefix(items: seq<Item>, k: nat)
    requires forall i | 0 <= i < |items| :: Encodable(items[i])
    requires k <= |Encode(items)|
    ensures Pairs(Encode(items)[..k]) == Plain(items)[..Whole(items, k)]
  {
    hide ReadPair, EncodeItem;
    if items == [] {
      CutNothing();
    } else {
      var e, more := EncodeItem(items[0]), Encode(items[1..]);
      TakeConcat(e, more, k);
      if k < |e| {
        CutItem(items[0], k);
        assert Pairs(Encode(items)[..k]) == [];
      } else {
        var rest := more[..k - |e|];
        ReadEncodedItem(items[0], rest);
        DropFirst(e, rest);
        assert Encode(items)[..k] == e + rest;
        assert Pairs(e + rest) == [(items[0].name, items[0].value)] + Pairs(rest);
        PairsOfPrefix(items[1..], k - |e|);
        assert Plain(items)[..Whole(items, k)]
            == [Plain(items)[0]] + Plain(items[1..])[..Whole(items[1..], k - |e|)];
      }
    }
  }

  /** Without a cut, all of them. */
  lemma {:induction false} PairsOfEncoding(items: seq<Item>)
    requires forall i | 0 <= i < |items| :: Encodable(items[i])
    ensures Pairs(Encode(items)) == Plain(items)
  {
    PairsOfPrefix(items, |Encode(items)|);
    assert Encode(items)[..|Encode(items)|] == Encode(items);
    AllWhole(items);
  }

  lemma {:induction false} AllWhole(items: seq<Item>)
    requires forall i | 0 <= i < |items| :: Encodable(items[i])
    ensures Whole(items, |Encode(items)|) == |items|
  {
    if items != [] {
      AllWhole(items[1..]);
    }
  }
}
