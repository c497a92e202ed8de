// PostgreSQL arrays in binary form: what Parameter<std::vector<T>> builds
// (src/parameters.cpp) and what Results_base::field reads (src/results.cpp).

module SqlArrays {
  import opened BigEndian

  const INT: nat := 4         // sizeof(int32_t)
  const HEAD: nat := 20       // five of them
  const LIMIT: nat := 0x8000_0000

  /** An element: its length and its bytes. */
  function Item(v: bytes): bytes {
    To(|v|, INT) + v
  }

  function Items(values: seq<bytes>): bytes {
    if values == [] then [] else Item(values[0]) + Items(values[1..])
  }

  /** Dimensions, null flag, element type, number of elements, lower bound. */
  function Head(oid: nat, n: nat): (h: bytes)
    ensures |h| == HEAD
  {
    To(1, INT) + (To(0, INT) + (To(oid, INT) + (To(n, INT) + To(1, INT))))
  }

  function ArrayOf(oid: nat, values: seq<bytes>): bytes {
    Head(oid, |values|) + Items(values)
  }

  /** BigEndian<T> of each number. */
  function Values(x: seq<int>, w: nat): (v: seq<bytes>)
    requires forall n <- x :: FitsSigned(n, w)
    ensures |v| == |x| && forall i | 0 <= i < |x| :: v[i] == ToSigned(x[i], w)
  {
    seq(|x|, i requires 0 <= i < |x| => ToSigned(x[i], w))
  }

  // ---- Reading --------------------------------------------------------------

  /** The int32_t at a position. */
  function Int(b: bytes, at: nat): int
    requires at + INT <= |b|
  {
    FromSigned(b[at..at + INT])
  }

  /** The checks made of the header; PostgreSQL sends three integers at least. */
  predicate Accepted(b: bytes, oid: nat)
    requires |b| >= 3 * INT
  {
    Int(b, 0) == 1 && Int(b, INT) == 0 && Int(b, 2 * INT) == oid
  }

  /** What n numbers of w bytes take. */
  function Span(n: nat, w: nat): nat {
    if n == 0 then 0 else Span(n - 1, w) + INT + w
  }

  lemma {:induction false} SpanIs(n: nat, w: nat)
    ensures Span(n, w) == n * (INT + w)
  {
    if n > 0 {
      SpanIs(n - 1, w);
      assert n * (INT + w) == (n - 1) * (INT + w) + (INT + w);
    }
  }

  /** The numbers from a position on; an element of another size is left out. */
  function Numbers(b: bytes, at: nat, w: nat, n: nat): seq<int>
    requires at + Span(n, w) <= |b|
    decreases n
  {
    if n == 0 then [] else Number(b, at, w) + Numbers(b, at + INT + w, w, n - 1)
  }

  function Number(b: bytes, at: nat, w: nat): seq<int>
    requires at + INT + w <= |b|
  {
    if Int(b, at) == w then [FromSigned(b[at + INT..at + INT + w])] else []
  }

  /** What a vector of numbers is after reading; after a failed check what it was before. */
  function NumericField(b: bytes, oid: nat, w: nat, before: seq<int>): seq<int>
    requires |b| >= 3 * INT
    requires Accepted(b, oid) ==> |b| >= HEAD && Int(b, 3 * INT) >= 0 && HEAD + Span(Int(b, 3 * INT), w) <= |b|
  {
    if Accepted(b, oid) then Numbers(b, HEAD, w, Int(b, 3 * INT)) else before
  }

  /** n strings lie inside b from a position on. */
  predicate Room(b: bytes, at: nat, n: nat)
    decreases n
  {
    n > 0 ==>
      && at + INT <= |b| && Int(b, at) >= 0 && at + INT + Int(b, at) <= |b|
      && Room(b, at + INT + Int(b, at), n - 1)
  }

  function Strings(b: bytes, at: nat, n: nat): seq<bytes>
    requires Room(b, at, n)
    decreases n
  {
    if n == 0 then []
    else
      var next := at + INT + Int(b, at);
      [b[at + INT..next]] + Strings(b, next, n - 1)
  }

  function StringField(b: bytes, oid: nat, before: seq<bytes>): seq<bytes>
    requires |b| >= 3 * INT
    requires Accepted(b, oid) ==> |b| >= HEAD && Int(b, 3 * INT) >= 0 && Room(b, HEAD, Int(b, 3 * INT))
  {
    if Accepted(b, oid) then Strings(b, HEAD, Int(b, 3 * INT)) else before
  }

  /** An empty array has no dimension and nothing after its first three integers: the
      vector keeps whatever it held. */
  lemma EmptyArrayKeeps(oid: nat, w: nat, numbers: seq<int>, strings: seq<bytes>)
    ensures var b := To(0, INT) + To(0, INT) + To(oid, INT);
      NumericField(b, oid, w, numbers) == numbers && StringField(b, oid, strings) == strings
  {
    var b := To(0, INT) + To(0, INT) + To(oid, INT);
    assert b[0..INT] == To(0, INT);
    ReadInt(b, 0, 0);
  }

  /** The header decides: one dimension, no null, this element type; otherwise the vector
      keeps whatever it held. */
  lemma HeaderDecides(dimensions: nat, nulls: nat, kind: nat, rest: bytes, oid: nat)
    requires dimensions < LIMIT && nulls < LIMIT && kind < LIMIT
    ensures var b := To(dimensions, INT) + (To(nulls, INT) + (To(kind, INT) + rest));
      && |b| >= 3 * INT
      && (Accepted(b, oid) <==> dimensions == 1 && nulls == 0 && kind == oid)
  {
    var b := To(dimensions, INT) + (To(nulls, INT) + (To(kind, INT) + rest));
    assert b[0..] == b;
    ReadFront(b, 0, dimensions, To(nulls, INT) + (To(kind, INT) + rest));
    ReadFront(b, 4, nulls, To(kind, INT) + rest);
    ReadFront(b, 8, kind, rest);
  }

  lemma OtherHeaderKeeps(dimensions: nat, nulls: nat, kind: nat, rest: bytes, oid: nat, w: nat,
                         numbers: seq<int>, strings: seq<bytes>)
    requires dimensions < LIMIT && nulls < LIMIT && kind < LIMIT
    requires dimensions != 1 || nulls != 0 || kind != oid
    ensures var b := To(dimensions, INT) + (To(nulls, INT) + (To(kind, INT) + rest));
      && |b| >= 3 * INT && !Accepted(b, oid)
      && NumericField(b, oid, w, numbers) == numbers && StringField(b, oid, strings) == strings
  {
    HeaderDecides(dimensions, nulls, kind, rest, oid);
  }

  /** An element of any length mark, followed by as many bytes as a number has. */
  datatype Element = Element(mark: int, body: bytes)

  function Elements(xs: seq<Element>): bytes
    requires forall x <- xs :: FitsSigned(x.mark, INT)
  {
    if xs == [] then [] else ToSigned(xs[0].mark, INT) + (xs[0].body + Elements(xs[1..]))
  }

  /** Of these the ones marked with the right length are read, and no others. */
  function Marked(xs: seq<Element>, w: nat): seq<int> {
    if xs == [] then []
    else (if xs[0].mark == w then [FromSigned(xs[0].body)] else []) + Marked(xs[1..], w)
  }

  lemma {:induction false} MarkedRead(b: bytes, at: nat, xs: seq<Element>, w: nat)
    requires forall x <- xs :: FitsSigned(x.mark, INT) && |x.body| == w
    requires at <= |b| && b[at..] == Elements(xs)
    ensures at + Span(|xs|, w) <= |b| && Numbers(b, at, w, |xs|) == Marked(xs, w)
    decreases |xs|
  {
    hide ToSigned, FromSigned, FitsSigned;
    if xs == [] {
      NothingLeft(b, at, w);
    } else {
      var x := xs[0];
      assert x in xs;
      ElementRead(b, at, x, Elements(xs[1..]), w);
      MarkedRead(b, at + INT + w, xs[1..], w);
    }
  }

  lemma ElementRead(b: bytes, at: nat, x: Element, rest: bytes, w: nat)
    requires FitsSigned(x.mark, INT) && |x.body| == w
    requires at <= |b| && b[at..] == ToSigned(x.mark, INT) + (x.body + rest)
    ensures at + INT + w <= |b| && b[at + INT + w..] == rest
    ensures Number(b, at, w) == if x.mark == w then [FromSigned(x.body)] else []
  {
    hide FromSigned;
    SignedRoundTrip(x.mark, INT);
    hide ToSigned;
    var m := ToSigned(x.mark, INT);
    assert |m| == INT;
    assert b[at..at + INT] == b[at..][..INT] == m;
    assert b[at + INT..at + INT + w] == b[at..][INT..INT + w] == x.body;
    assert b[at + INT + w..] == b[at..][INT + w..] == rest;
  }

  // ---- Round trips ----------------------------------------------------------

  lemma ReadInt(b: bytes, at: nat, v: nat)
    requires v < LIMIT && at + INT <= |b| && b[at..at + INT] == To(v, INT)
    ensures Int(b, at) == v
  {
    assert Range(4) == 256 * Range(3) && Range(3) == 256 * Range(2) && Range(2) == 256 * Range(1);
    FromTo(v, INT);
  }

  lemma ReadFront(b: bytes, at: nat, v: nat, rest: bytes)
    requires v < LIMIT && at <= |b| && b[at..] == To(v, INT) + rest
    ensures at + INT <= |b| && Int(b, at) == v && b[at + INT..] == rest
  {
    assert b[at..at + INT] == b[at..][..INT];
    assert b[at + INT..] == b[at..][INT..];
    ReadInt(b, at, v);
  }

  /** The element at the front of the rest. */
  lemma ReadItem(b: bytes, at: nat, values: seq<bytes>)
    requires values != [] && |values[0]| < LIMIT && at <= |b| && b[at..] == Items(values)
    ensures at + INT + |values[0]| <= |b| && Int(b, at) == |values[0]|
    ensures b[at + INT..at + INT + |values[0]|] == values[0]
    ensures b[at + INT + |values[0]|..] == Items(values[1..])
  {
    var v, rest := values[0], Items(values[1..]);
    assert To(|v|, INT) + v + rest == To(|v|, INT) + (v + rest);
    ReadFront(b, at, |v|, v + rest);
    var from := at + INT;
    assert b[from..from + |v|] == b[from..][..|v|] == v;
    assert b[from + |v|..] == b[from..][|v|..] == rest;
  }

  lemma HeadFirst(oid: nat, n: nat, rest: bytes)
    ensures Head(oid, n) + rest
         == To(1, INT) + (To(0, INT) + (To(oid, INT) + (To(n, INT) + (To(1, INT) + rest))))
  {
  }

  lemma {:induction false} ReadHead(oid: nat, values: seq<bytes>)
    requires oid < LIMIT && |values| < LIMIT
    ensures var b := ArrayOf(oid, values);
      |b| >= HEAD && Accepted(b, oid) && Int(b, 3 * INT) == |values| && b[HEAD..] == Items(values)
  {
    var b, rest := ArrayOf(oid, values), Items(values);
    HeadFirst(oid, |values|, rest);
    assert b[0..] == b;
    ReadFront(b, 0, 1, To(0, INT) + (To(oid, INT) + (To(|values|, INT) + (To(1, INT) + rest))));
    ReadFront(b, 4, 0, To(oid, INT) + (To(|values|, INT) + (To(1, INT) + rest)));
    ReadFront(b, 8, oid, To(|values|, INT) + (To(1, INT) + rest));
    ReadFront(b, 12, |values|, To(1, INT) + rest);
    ReadFront(b, 16, 1, rest);
  }

  lemma StringsStep(b: bytes, at: nat, n: nat, v: bytes)
    requires n > 0 && at + INT + |v| <= |b| && Int(b, at) == |v| && b[at + INT..at + INT + |v|] == v
    requires Room(b, at + INT + |v|, n - 1)
    ensures Room(b, at, n) && Strings(b, at, n) == [v] + Strings(b, at + INT + |v|, n - 1)
  {
  }

  lemma NothingLeft(b: bytes, at: nat, w: nat)
    requires at <= |b|
    ensures Room(b, at, 0) && Strings(b, at, 0) == []
    ensures at + Span(0, w) <= |b| && Numbers(b, at, w, 0) == []
  {
  }

  lemma {:induction false} ReadStrings(b: bytes, at: nat, values: seq<bytes>)
    requires at <= |b| && b[at..] == Items(values) && forall v <- values :: |v| < LIMIT
    ensures Room(b, at, |values|) && Strings(b, at, |values|) == values
    decreases |values|
  {
    hide Items, Int, Room, Strings;
    if values == [] {
      NothingLeft(b, at, 0);
    } else {
      ReadItem(b, at, values);
      ReadStrings(b, at + INT + |values[0]|, values[1..]);
      StringsStep(b, at, |values|, values[0]);
      assert values == [values[0]] + values[1..];
    }
  }

  lemma ValuesRest(x: seq<int>, w: nat)
    requires x != [] && forall n <- x :: FitsSigned(n, w)
    ensures (forall n <- x[1..] :: FitsSigned(n, w)) && Values(x, w)[1..] == Values(x[1..], w)
  {
  }

  lemma NumbersStep(b: bytes, at: nat, w: nat, n: nat, v: int)
    requires n > 0 && at + INT + w + Span(n - 1, w) <= |b|
    requires Int(b, at) == w && FromSigned(b[at + INT..at + INT + w]) == v
    ensures at + Span(n, w) <= |b| && Numbers(b, at, w, n) == [v] + Numbers(b, at + INT + w, w, n - 1)
  {
  }

  lemma {:induction false} ReadNumbers(b: bytes, at: nat, x: seq<int>, w: nat)
    requires w < LIMIT && forall n <- x :: FitsSigned(n, w)
    requires at <= |b| && b[at..] == Items(Values(x, w))
    ensures at + Span(|x|, w) <= |b| && Numbers(b, at, w, |x|) == x
    decreases |x|
  {
    hide Items, Values, Int, ToSigned, FromSigned, FitsSigned, Numbers, Span;
    if x == [] {
      NothingLeft(b, at, w);
    } else {
      ReadItem(b, at, Values(x, w));
      ValuesRest(x, w);
      ReadNumbers(b, at + INT + w, x[1..], w);
      SignedRoundTrip(x[0], w);
      NumbersStep(b, at, w, |x|, x[0]);
      assert x == [x[0]] + x[1..];
    }
  }

  /** A vector of integers of 2, 4 or 8 bytes comes back as it was. */
  lemma {:induction false} NumericRoundTrip(oid: nat, x: seq<int>, w: nat, before: seq<int>)
    requires oid < LIMIT && |x| < LIMIT && w < LIMIT && forall n <- x :: FitsSigned(n, w)
    ensures var b := ArrayOf(oid, Values(x, w));
      && Int(b, 3 * INT) == |x| && HEAD + Span(|x|, w) <= |b|
      && NumericField(b, oid, w, before) == x
  {
    ReadHead(oid, Values(x, w));
    ReadNumbers(ArrayOf(oid, Values(x, w)), HEAD, x, w);
  }

  /** A vector of strings of any lengths comes back as it was. */
  lemma {:induction false} StringRoundTrip(oid: nat, x: seq<bytes>, before: seq<bytes>)
    requires oid < LIMIT && |x| < LIMIT && forall v <- x :: |v| < LIMIT
    ensures var b := ArrayOf(oid, x);
      Int(b, 3 * INT) == |x| && Room(b, HEAD, |x|) && StringField(b, oid, before) == x
  {
    ReadHead(oid, x);
    ReadStrings(ArrayOf(oid, x), HEAD, x);
  }

  // ---- The classes ----------------------------------------------------------

  lemma {:induction false} ItemsAppend(values: seq<bytes>, v: bytes)
    ensures Items(values + [v]) == Items(values) + Item(v)
  {
    if values == [] {
      assert [v][1..] == [];
      assert [] + [v] == [v];
    } else {
      assert (values + [v])[1..] == values[1..] + [v];
      ItemsAppend(values[1..], v);
      assert Item(values[0]) + (Items(values[1..]) + Item(v)) == Items(values) + Item(v);
    }
  }

  lemma Offset(i: nat, n: nat, w: nat)
    requires i < n
    ensures HEAD + (i + 1) * (INT + w) == HEAD + i * (INT + w) + INT + w <= HEAD + n * (INT + w)
  {
    assert (i + 1) * (INT + w) == i * (INT + w) + (INT + w);
    assert (i + 1) * (INT + w) + (n - i - 1) * (INT + w) == n * (INT + w);
  }

  lemma ItemsNext(front: bytes, values: seq<bytes>, i: nat)
    requires i < |values|
    ensures front + Items(values[..i]) + Item(values[i]) == front + Items(values[..i + 1])
  {
    ItemsAppend(values[..i], values[i]);
    assert values[..i + 1] == values[..i] + [values[i]];
  }

  /** The bytes are put into the array at a position. */
  method Put(a: array<byte>, at: nat, b: bytes)
    requires at + |b| <= a.Length
    modifies a
    ensures a[..at + |b|] == old(a[..at]) + b && a[at + |b|..] == old(a[at + |b|..])
  {
    forall k | 0 <= k < |b| {
      a[at + k] := b[k];
    }
  }

  /** Parameter<std::vector<Numeric>> for integers of width bytes. */
  class NumericParameter {
    const width: nat
    const oid: nat
    var data: array<byte>

    constructor (w: nat, o: nat, x: seq<int>)
      requires forall n <- x :: FitsSigned(n, w)
      ensures width == w && oid == o && fresh(data) && data[..] == ArrayOf(o, Values(x, w))
    {
      width, oid := w, o;
      data := new byte[0];
      new;
      Assign(x);
    }

    /** Room for n elements, and the header. */
    method Resize(n: nat)
      modifies this
      ensures fresh(data) && data.Length == HEAD + n * (INT + width) && data[..HEAD] == Head(oid, n)
    {
      data := new byte[INT * (5 + n) + n * width];
      assert INT * (5 + n) + n * width == HEAD + n * (INT + width);
      Put(data, 0, Head(oid, n));
    }

    /** operator= */
    method Assign(x: seq<int>)
      requires forall n <- x :: FitsSigned(n, width)
      modifies this
      ensures fresh(data) && data[..] == ArrayOf(oid, Values(x, width))
    {
      Resize(|x|);
      var i := 0;
      ghost var values := Values(x, width);
      assert values[..0] == [];
      while i < |x|
        invariant 0 <= i <= |x| && fresh(data) && data.Length == HEAD + |x| * (INT + width)
        invariant HEAD + i * (INT + width) <= data.Length
        invariant data[..HEAD + i * (INT + width)] == Head(oid, |x|) + Items(values[..i])
      {
        var at := HEAD + i * (INT + width);
        Offset(i, |x|, width);
        Put(data, at, To(width, INT) + ToSigned(x[i], width));
        ItemsNext(Head(oid, |x|), values, i);
        i := i + 1;
      }
      assert values[..i] == values;
    }

    /** operator[] */
    method Get(x: seq<int>, i: nat) returns (v: int)
      requires width < LIMIT && i < |x| && forall n <- x :: FitsSigned(n, width)
      requires data[..] == ArrayOf(oid, Values(x, width))
      ensures v == x[i]
    {
      hide ArrayOf, FromSigned, FitsSigned;
      NumberAt(oid, x, width, i);
      var at := HEAD + INT + i * (INT + width);
      assert data[at..at + width] == data[..][at..at + width];
      v := FromSigned(data[at..at + width]);
    }
  }

  lemma {:induction false} ItemAt(b: bytes, at: nat, values: seq<bytes>, w: nat, i: nat)
    requires at <= |b| && b[at..] == Items(values) && i < |values| && w < LIMIT
    requires forall v <- values :: |v| == w
    ensures var p := at + Span(i, w) + INT; p + w <= |b| && b[p..p + w] == values[i]
    decreases i
  {
    hide Items, Int;
    ReadItem(b, at, values);
    if i > 0 {
      ItemAt(b, at + INT + w, values[1..], w, i - 1);
    }
  }

  lemma NumberAt(oid: nat, x: seq<int>, w: nat, i: nat)
    requires i < |x| && w < LIMIT && forall n <- x :: FitsSigned(n, w)
    ensures var b, p := ArrayOf(oid, Values(x, w)), HEAD + INT + i * (INT + w);
      p + w <= |b| && FromSigned(b[p..p + w]) == x[i]
  {
    hide Items, ToSigned, FromSigned, FitsSigned;
    var b := ArrayOf(oid, Values(x, w));
    assert b[HEAD..] == Items(Values(x, w));
    SpanIs(i, w);
    ItemAt(b, HEAD, Values(x, w), w, i);
    hide Span, ArrayOf;
    SignedRoundTrip(x[i], w);
  }

  function TotalSize(x: seq<bytes>): nat {
    if x == [] then 0 else TotalSize(x[..|x| - 1]) + |x[|x| - 1]|
  }

  lemma {:induction false} ItemsSize(x: seq<bytes>)
    ensures |Items(x)| == INT * |x| + TotalSize(x)
  {
    if x != [] {
      var front, last := x[..|x| - 1], x[|x| - 1];
      ItemsSize(front);
      ItemsAppend(front, last);
      assert x == front + [last];
    }
  }

  lemma {:induction false} SizeUpTo(x: seq<bytes>, i: nat)
    requires i <= |x|
    ensures TotalSize(x[..i]) <= TotalSize(x)
    decreases |x|
  {
    if i < |x| {
      SizeUpTo(x[..|x| - 1], i);
      assert x[..|x| - 1][..i] == x[..i];
    } else {
      assert x[..i] == x;
    }
  }

  /** Parameter<std::vector<std::string>> */
  class StringParameter {
    const oid: nat
    var data: array<byte>

    constructor (o: nat, x: seq<bytes>)
      ensures oid == o && fresh(data) && data[..] == ArrayOf(o, x)
    {
      oid := o;
      data := new byte[0];
      new;
      Assign(x);
    }

    method Assign(x: seq<bytes>)
      modifies this
      ensures fresh(data) && data[..] == ArrayOf(oid, x)
    {
      var dataSize, i := 0, 0;
      while i < |x|
        invariant 0 <= i <= |x| && dataSize == TotalSize(x[..i])
      {
        assert x[..i + 1][..i] == x[..i];
        dataSize := dataSize + |x[i]|;
        i := i + 1;
      }
      assert x[..i] == x;
      ItemsSize(x);
      data := new byte[INT * (5 + |x|) + dataSize];
      Put(data, 0, Head(oid, |x|));
      var ptr: nat := HEAD;
      i := 0;
      assert x[..0] == [];
      while i < |x|
        invariant 0 <= i <= |x| && fresh(data) && data.Length == HEAD + |Items(x)|
        invariant ptr == HEAD + |Items(x[..i])| <= data.Length && data[..ptr] == Head(oid, |x|) + Items(x[..i])
      {
        ItemsFit(x, i);
        Put(data, ptr, To(|x[i]|, INT) + x[i]);
        ItemsNext(Head(oid, |x|), x, i);
        ptr := ptr + INT + |x[i]|;
        i := i + 1;
      }
      assert x[..i] == x;
    }

    /** operator[]: all reads inside the data. */
    method Get(x: seq<bytes>, index: nat) returns (v: bytes)
      requires index < |x| && data[..] == ArrayOf(oid, x) && forall e <- x :: |e| < LIMIT
      ensures v == x[index]
    {
      var ptr: nat, i: nat := HEAD, 0;
      ItemsStart(oid, x);
      ghost var b := data[..];
      hide ItemsFrom, FromSigned, ArrayOf;
      while true
        invariant 0 <= i <= index && ItemsFrom(b, ptr, x, i)
        decreases index - i
      {
        ReadNext(b, ptr, x, i);
        Slice(data, ptr, ptr + INT);
        var length: nat := FromSigned(data[ptr..ptr + INT]);
        ptr := ptr + INT;
        Slice(data, ptr, ptr + length);
        if i == index {
          return data[ptr..ptr + length];
        }
        i := i + 1;
        ptr := ptr + length;
      }
    }
  }

  /** The rest of b from a position on is the elements from i on. */
  ghost predicate ItemsFrom(b: bytes, at: nat, x: seq<bytes>, i: nat) {
    i <= |x| && at <= |b| && b[at..] == Items(x[i..])
  }

  lemma ItemsStart(oid: nat, x: seq<bytes>)
    ensures ItemsFrom(ArrayOf(oid, x), HEAD, x, 0)
  {
    hide Items;
    assert ArrayOf(oid, x)[HEAD..] == Items(x) && x[0..] == x;
  }

  lemma Slice(a: array<byte>, from: nat, to: nat)
    requires from <= to <= a.Length
    ensures a[from..to] == a[..][from..to]
  {
  }

  lemma ReadNext(b: bytes, at: nat, x: seq<bytes>, i: nat)
    requires i < |x| && ItemsFrom(b, at, x, i) && forall e <- x :: |e| < LIMIT
    ensures var next := at + INT + |x[i]|;
      && next <= |b| && FromSigned(b[at..at + INT]) == |x[i]| && b[at + INT..next] == x[i]
      && ItemsFrom(b, next, x, i + 1)
  {
    hide Items, FromSigned;
    assert x[i..][0] == x[i] && x[i..][1..] == x[i + 1..];
    ReadItem(b, at, x[i..]);
  }

  lemma ItemsFit(x: seq<bytes>, i: nat)
    requires i < |x|
    ensures |Items(x[..i])| + INT + |x[i]| <= |Items(x)|
  {
    ItemsAppend(x[..i], x[i]);
    assert x[..i + 1] == x[..i] + [x[i]];
    SizeUpTo(x, i + 1);
    ItemsSize(x[..i + 1]);
    ItemsSize(x);
  }

  // ---- Reading results ------------------------------------------------------

  /** Results_base::field for numbers. */
  method ReadNumericField(b: bytes, oid: nat, w: nat, before: seq<int>) returns (value: seq<int>)
    requires |b| >= 3 * INT
    requires Accepted(b, oid) ==> |b| >= HEAD && Int(b, 3 * INT) >= 0 && HEAD + Span(Int(b, 3 * INT), w) <= |b|
    ensures value == NumericField(b, oid, w, before)
  {
    value := before;
    if Int(b, 0) != 1 { return; }
    if Int(b, INT) != 0 { return; }
    if Int(b, 2 * INT) != oid { return; }
    value := ReadElements(b, w, Int(b, 3 * INT));
  }

  /** value and the numbers from element i on are all numbers. */
  ghost predicate ReadSoFar(b: bytes, w: nat, size: nat, i: nat, value: seq<int>)
    requires HEAD + Span(size, w) <= |b|
  {
    && i <= size && HEAD + Span(i, w) + Span(size - i, w) <= |b|
    && value + Numbers(b, HEAD + Span(i, w), w, size - i) == Numbers(b, HEAD, w, size)
  }

  lemma NoneRead(b: bytes, w: nat, size: nat)
    requires HEAD + Span(size, w) <= |b|
    ensures ReadSoFar(b, w, size, 0, [])
  {
  }

  lemma AllRead(b: bytes, w: nat, size: nat, value: seq<int>)
    requires HEAD + Span(size, w) <= |b| && ReadSoFar(b, w, size, size, value)
    ensures value == Numbers(b, HEAD, w, size)
  {
    NothingLeft(b, HEAD + Span(size, w), w);
    hide Numbers, Span;
  }

  method ReadElements(b: bytes, w: nat, size: nat) returns (value: seq<int>)
    requires HEAD + Span(size, w) <= |b|
    ensures value == Numbers(b, HEAD, w, size)
  {
    hide ReadSoFar, Numbers, Span;
    value := [];
    var i: nat := 0;
    NoneRead(b, w, size);
    while i < size
      invariant i <= size && ReadSoFar(b, w, size, i, value)
    {
      value := ReadElement(b, i, w, value, size);
      i := i + 1;
    }
    AllRead(b, w, size, value);
  }

  method ReadElement(b: bytes, i: nat, w: nat, value: seq<int>, ghost size: nat) returns (r: seq<int>)
    requires i < size && HEAD + Span(size, w) <= |b| && ReadSoFar(b, w, size, i, value)
    ensures ReadSoFar(b, w, size, i + 1, r)
  {
    hide ReadSoFar, Span, FromSigned;
    NextNumber(b, w, size, i, value);
    SpanIs(i, w);
    var from := HEAD + i * (INT + w);
    r := value;
    if FromSigned(b[from..from + INT]) == w {
      r := r + [FromSigned(b[from + INT..from + INT + w])];
    } else {
      assert value + [] == value;
    }
    assert r == value + Number(b, from, w);
  }

  lemma NextNumber(b: bytes, w: nat, size: nat, i: nat, value: seq<int>)
    requires i < size && HEAD + Span(size, w) <= |b| && ReadSoFar(b, w, size, i, value)
    ensures HEAD + Span(i, w) + INT + w <= |b|
    ensures ReadSoFar(b, w, size, i + 1, value + Number(b, HEAD + Span(i, w), w))
  {
    hide Number;
    var at, n := HEAD + Span(i, w), size - i;
    assert Span(i + 1, w) == Span(i, w) + INT + w && Span(n, w) == Span(n - 1, w) + INT + w;
    assert Numbers(b, at, w, n) == Number(b, at, w) + Numbers(b, at + INT + w, w, n - 1);
    hide Numbers, Span;
    assert value + Number(b, at, w) + Numbers(b, at + INT + w, w, n - 1)
        == value + (Number(b, at, w) + Numbers(b, at + INT + w, w, n - 1));
  }

  /** Results_base::field for strings. */
  method ReadStringField(b: bytes, oid: nat, before: seq<bytes>) returns (value: seq<bytes>)
    requires |b| >= 3 * INT
    requires Accepted(b, oid) ==> |b| >= HEAD && Int(b, 3 * INT) >= 0 && Room(b, HEAD, Int(b, 3 * INT))
    ensures value == StringField(b, oid, before)
  {
    value := before;
    var ptr: nat := 0;
    if Int(b, ptr) != 1 { return; }
    ptr := ptr + INT;
    if Int(b, ptr) != 0 { return; }
    ptr := ptr + INT;
    if Int(b, ptr) != oid { return; }
    ptr := ptr + INT;
    var size := Int(b, ptr);
    ptr := ptr + 2 * INT;
    value := ReadStringElements(b, ptr, size);
  }

  method ReadStringElements(b: bytes, start: nat, size: nat) returns (value: seq<bytes>)
    requires Room(b, start, size)
    ensures value == Strings(b, start, size)
  {
    hide Int;
    var ptr: nat, i: nat := start, 0;
    value := [];
    while i < size
      invariant i <= size && Room(b, ptr, size - i)
      invariant value + Strings(b, ptr, size - i) == Strings(b, start, size)
    {
      var length: nat := Int(b, ptr);
      NextString(b, value, ptr, size - i);
      ptr := ptr + INT;
      value := value + [b[ptr..ptr + length]];
      ptr := ptr + length;
      i := i + 1;
    }
  }

  lemma NextString(b: bytes, value: seq<bytes>, at: nat, n: nat)
    requires n > 0 && Room(b, at, n)
    ensures var next := at + INT + Int(b, at);
      value + Strings(b, at, n) == value + [b[at + INT..next]] + Strings(b, next, n - 1)
  {
  }
}
