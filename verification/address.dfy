// IPv6 addresses as text (src/address.cpp; section 2.2 of RFC 4291): what assign()
// reads and what operator<< prints.

module AddressText {
  import opened BigEndian
  import opened Common

  const SIZE: nat := 16
  const COLON: byte := 0x3a
  const DOT: byte := 0x2e
  const MINUS: byte := 0x2d

  // ---- Reading --------------------------------------------------------------

  /** The text, followed by the NUL the reader looks at. */
  function At(text: bytes, i: nat): byte {
    if i < |text| then text[i] else 0
  }

  predicate IsDecimal(c: byte) {
    0x30 <= c <= 0x39
  }

  function HexValue(c: byte): Option<nat> {
    if 0x30 <= c <= 0x39 then Some(c - 0x30)
    else if 0x41 <= c <= 0x46 then Some(c - 0x41 + 10)
    else if 0x61 <= c <= 0x66 then Some(c - 0x61 + 10)
    else None
  }

  /** The digits from position i on. */
  function Digits(text: bytes, i: nat, value: int): int
    decreases |text| - i
  {
    if i < |text| && IsDecimal(text[i]) then Digits(text, i + 1, 10 * value + (text[i] - 0x30)) else value
  }

  /** Http::atoi */
  function Atoi(text: bytes, i: nat): int {
    if At(text, i) == MINUS then -Digits(text, i + 1, 0) else Digits(text, i, 0)
  }

  /** std::find of a point from position i on; the length when there is none. */
  function FindDot(text: bytes, i: nat): (r: nat)
    ensures i <= |text| ==> i <= r <= |text|
    decreases |text| - i
  {
    if i >= |text| then |text| else if text[i] == DOT then i else FindDot(text, i + 1)
  }

  function Prepend(a: bytes, o: Option<bytes>): Option<bytes> {
    match o
    case None => None
    case Some(b) => Some(a + b)
  }

  /** k more octets of a dotted address, each after the next point; a point at the
      very end of the text is an error. */
  function Octets(text: bytes, read: nat, k: nat): (r: Option<bytes>)
    ensures r.Some? ==> |r.value| <= k
    decreases k
  {
    if k == 0 || read >= |text| then Some([])
    else
      var point := FindDot(text, read);
      if point + 1 >= |text| then None
      else
        Prepend([Atoi(text, point + 1) % 256], Octets(text, point + 1, k - 1))
  }

  /** The first octet: the hexadecimal digits collected so far, read as decimal. */
  function FirstOctet(chunk: nat): byte {
    (chunk / 256 % 16 * 100 + chunk / 16 % 16 * 10 + chunk % 16) % 256
  }

  /** The bytes written and where zeros are to be put in, or an error. */
  datatype Outcome = Error | Done(out: bytes, pad: Option<nat>)

  /** The branch for a point: the rest is a dotted address. */
  function ParseDotted(text: bytes, read: nat, out: bytes, pad: Option<nat>, chunk: nat): (o: Outcome)
    requires pad.Some? ==> pad.value <= |out|
    ensures o.Done? ==> |o.out| <= SIZE && (o.pad.Some? ==> o.pad.value <= |o.out|)
  {
    if |out| > 12 then Error
    else
      match Octets(text, read, 3)
      case None => Error
      case Some(more) =>
        if out == [] then Done([0xff, 0xff, FirstOctet(chunk)] + more, Some(0))
        else Done(out + [FirstOctet(chunk)] + more, pad)
  }

  /** The loop of assign() from position read on, when out was written so far: it
      never writes more than the 16 bytes there are. */
  function Parse(text: bytes, read: nat, out: bytes, pad: Option<nat>, chunk: nat): (o: Outcome)
    requires read <= |text| + 1 && |out| + 2 <= SIZE
    requires pad.Some? ==> pad.value <= |out|
    ensures o.Done? ==> |o.out| <= SIZE && (o.pad.Some? ==> o.pad.value <= |o.out|)
    decreases |text| + 2 - read
  {
    if read >= |text| || text[read] == COLON then
      if read == 0 || At(text, read - 1) == COLON then
        if pad.Some? && pad.value != |out| then Error
        else Parse(text, read + 1, out, Some(|out|), chunk)
      else
        var out := out + [chunk / 256 % 256, chunk % 256];
        if |out| + 2 > SIZE || read >= |text| then
          if read >= |text| && |out| < SIZE && pad.None? then Error else Done(out, pad)
        else Parse(text, read + 1, out, pad, 0)
    else if HexValue(text[read]).Some? then
      Parse(text, read + 1, out, pad, chunk * 16 % 0x10000 + HexValue(text[read]).value)
    else if text[read] == DOT then ParseDotted(text, read, out, pad, chunk)
    else Error
  }

  function Zeros(n: nat): (z: bytes)
    ensures |z| == n && forall c <- z :: c == 0
  {
    seq(n, i => 0)
  }

  /** The 16 bytes: zeros put in at pad; without one the rest stays as it was before;
      all zeros after an error. */
  function Expand(o: Outcome, before: bytes): (data: bytes)
    requires |before| == SIZE
    requires o.Done? ==> |o.out| <= SIZE && (o.pad.Some? ==> o.pad.value <= |o.out|)
    ensures |data| == SIZE
  {
    match o
    case Error => Zeros(SIZE)
    case Done(out, None) => out + before[|out|..]
    case Done(out, Some(pad)) => out[..pad] + Zeros(SIZE - |out|) + out[pad..]
  }

  /** What assign() makes of the text, over the bytes there were before. */
  function Assigned(text: bytes, before: bytes): (data: bytes)
    requires |before| == SIZE
    ensures |data| == SIZE
  {
    Expand(Parse(text, 0, [], None, 0), before)
  }

  // ---- Printing -------------------------------------------------------------

  function HexDigit(n: nat): byte
    requires n < 16
  {
    if n < 10 then 0x30 + n else 0x61 + (n - 10)
  }

  /** A number as num_put prints it in base 16. */
  function Hex(n: nat): (s: bytes)
    ensures s != []
  {
    if n < 16 then [HexDigit(n)] else Hex(n / 16) + [HexDigit(n % 16)]
  }

  /** And in base 10. */
  function Dec(n: nat): (s: bytes)
    ensures s != []
  {
    if n < 10 then [0x30 + n] else Dec(n / 10) + [0x30 + n % 10]
  }

  function Group(data: bytes, i: nat): nat
    requires |data| == SIZE && i < 8
  {
    256 * (data[2 * i] as int) + data[2 * i + 1]
  }

  /** The zero groups from start to end, both included, are printed as "::". */
  datatype Run = NoRun | Run(start: nat, end: nat)

  predicate ZeroRun(data: bytes, start: nat, end: nat)
    requires |data| == SIZE
  {
    start <= end < 8 && forall i | start <= i <= end :: Group(data, i) == 0
  }

  type Texts = t: seq<bytes> | |t| == 8 witness seq(8, i => [])

  /** The groups in hexadecimal. */
  function HexTexts(data: bytes): (t: Texts)
    requires |data| == SIZE
    ensures forall i | 0 <= i < 8 :: t[i] == Hex(Group(data, i))
  {
    seq(8, i requires 0 <= i < 8 => Hex(Group(data, i)))
  }

  function Piece(texts: Texts, run: Run, i: nat): bytes
    requires i < 8
  {
    if run.Run? && run.start <= i <= run.end then
      (if i == run.start == 0 then [COLON] else []) + (if i == run.end then [COLON] else [])
    else
      texts[i] + (if i < 7 then [COLON] else [])
  }

  /** How a text ends: with the eighth group, or with a dotted address after the sixth. */
  datatype End = Eighth | Dotted(tail: bytes)

  function Last(e: End): nat {
    if e.Eighth? then 8 else 6
  }

  function Groups(texts: Texts, run: Run, i: nat, e: End): bytes
    requires i <= 8
    decreases 8 - i
  {
    if i >= Last(e) then (if e.Eighth? then [] else e.tail) else Piece(texts, run, i) + Groups(texts, run, i + 1, e)
  }

  /** ::ffff:a.b.c.d */
  function DottedForm(data: bytes): bytes
    requires |data| == SIZE
  {
    [COLON, COLON] + Hex(0xffff) + [COLON]
    + Dec(data[12]) + [DOT] + Dec(data[13]) + [DOT] + Dec(data[14]) + [DOT] + Dec(data[15])
  }

  predicate IsV4(data: bytes, run: Run)
    requires |data| == SIZE
  {
    run == Run(0, 4) && Group(data, 5) == 0xffff
  }

  function Printed(data: bytes, run: Run): bytes
    requires |data| == SIZE
  {
    if IsV4(data, run) then DottedForm(data) else Groups(HexTexts(data), run, 0, Eighth)
  }

  // ---- Round trip -----------------------------------------------------------

  predicate Legal(data: bytes, run: Run) {
    |data| == SIZE && (run.Run? ==> ZeroRun(data, run.start, run.end))
  }

  /** The printer's digits are lower case. */
  lemma HexIsLower(n: nat)
    requires n < 16
    ensures var digits := "0123456789abcdef"; |digits| == 16 && HexDigit(n) == digits[n] as int
  {
  }

  lemma HexBound(n: nat)
    requires n < 0x10000
    ensures |Hex(n)| == (if n < 0x10 then 1 else if n < 0x100 then 2 else if n < 0x1000 then 3 else 4)
    ensures forall c <- Hex(n) :: HexValue(c).Some? && c != COLON
  {
    if n >= 16 { HexBound(n / 16); }
  }

  lemma ReadDigit(text: bytes, read: nat, out: bytes, pad: Option<nat>, chunk: nat, d: nat)
    requires read < |text| && |out| + 2 <= SIZE && (pad.Some? ==> pad.value <= |out|)
    requires chunk < 0x1000 && IsDigit(text[read], d)
    ensures Parse(text, read, out, pad, chunk) == Parse(text, read + 1, out, pad, 16 * chunk + d)
  {
    assert HexValue(text[read]) == Some(d);
    assert chunk * 16 % 0x10000 == 16 * chunk;
  }

  lemma SplitLast(text: bytes, read: nat, a: bytes, c: byte)
    requires read + |a| + 1 <= |text| && text[read..read + |a| + 1] == a + [c]
    ensures text[read..read + |a|] == a && text[read + |a|] == c
  {
    var t := text[read..read + |a| + 1];
    assert t[..|a|] == a && t[|a|] == c;
  }

  /** The upper-case digits too. */
  function UpperDigit(n: nat): byte
    requires n < 16
  {
    if n < 10 then 0x30 + n else 0x41 + (n - 10)
  }

  predicate IsDigit(c: byte, d: nat) {
    d < 16 && (c == HexDigit(d) || c == UpperDigit(d))
  }

  /** One to four hexadecimal digits in either case, leading zeros or not, for n. */
  predicate Spells(t: bytes, n: nat) {
    1 <= |t| <= 4
    && if |t| == 1 then IsDigit(t[0], n)
       else IsDigit(t[|t| - 1], n % 16) && Spells(t[..|t| - 1], n / 16)
  }

  lemma {:induction false} SpellsBound(t: bytes, n: nat)
    requires Spells(t, n)
    ensures n < (if |t| == 1 then 0x10 else if |t| == 2 then 0x100 else if |t| == 3 then 0x1000 else 0x10000)
    ensures forall c <- t :: HexValue(c).Some? && c != COLON
  {
    if |t| > 1 {
      SpellsBound(t[..|t| - 1], n / 16);
      assert t == t[..|t| - 1] + [t[|t| - 1]];
    }
  }

  lemma {:induction false} HexSpells(n: nat)
    requires n < 0x10000
    ensures Spells(Hex(n), n)
  {
    HexBound(n);
    if n >= 16 {
      var front := Hex(n / 16);
      HexSpells(n / 16);
      assert Hex(n)[..|front|] == front;
    }
  }

  lemma {:induction false} ReadSpelled(text: bytes, read: nat, out: bytes, pad: Option<nat>, t: bytes, n: nat)
    requires |out| + 2 <= SIZE && (pad.Some? ==> pad.value <= |out|)
    requires Spells(t, n) && read + |t| <= |text| && text[read..read + |t|] == t
    ensures Parse(text, read, out, pad, 0) == Parse(text, read + |t|, out, pad, n)
    decreases |t|
  {
    hide Parse;
    var k := |t| - 1;
    assert t == t[..k] + [t[k]];
    SplitLast(text, read, t[..k], t[k]);
    if k == 0 {
      ReadDigit(text, read, out, pad, 0, n);
    } else {
      SpellsBound(t[..k], n / 16);
      ReadSpelled(text, read, out, pad, t[..k], n / 16);
      ReadDigit(text, read + k, out, pad, n / 16, n % 16);
    }
  }

  lemma ReadHex(text: bytes, read: nat, out: bytes, pad: Option<nat>, n: nat)
    requires |out| + 2 <= SIZE && (pad.Some? ==> pad.value <= |out|)
    requires n < 0x10000 && read + |Hex(n)| <= |text| && text[read..read + |Hex(n)|] == Hex(n)
    ensures Parse(text, read, out, pad, 0) == Parse(text, read + |Hex(n)|, out, pad, n)
  {
    hide Parse;
    HexSpells(n);
    ReadSpelled(text, read, out, pad, Hex(n), n);
  }

  lemma ReadSeparator(text: bytes, read: nat, out: bytes, pad: Option<nat>, chunk: nat)
    requires 0 < read < |text| && |out| + 4 <= SIZE && (pad.Some? ==> pad.value <= |out|)
    requires text[read] == COLON && text[read - 1] != COLON
    ensures Parse(text, read, out, pad, chunk)
         == Parse(text, read + 1, out + [chunk / 256 % 256, chunk % 256], pad, 0)
  {
  }

  lemma ReadPad(text: bytes, read: nat, out: bytes, pad: Option<nat>)
    requires read <= |text| && |out| + 2 <= SIZE && (pad.Some? ==> pad.value == |out|)
    requires read < |text| ==> text[read] == COLON
    requires read == 0 || text[read - 1] == COLON
    ensures Parse(text, read, out, pad, 0) == Parse(text, read + 1, out, Some(|out|), 0)
  {
  }

  lemma ReadEnd(text: bytes, read: nat, out: bytes, pad: Option<nat>, chunk: nat)
    requires 0 < read && |text| <= read <= |text| + 1 && At(text, read - 1) != COLON
    requires |out| + 2 <= SIZE && (pad.Some? ==> pad.value <= |out|)
    requires pad.Some? || |out| + 2 == SIZE
    ensures Parse(text, read, out, pad, chunk) == Done(out + [chunk / 256 % 256, chunk % 256], pad)
  {
  }

  lemma SplitAfter(text: bytes, read: nat, a: bytes, b: bytes)
    requires read <= |text| && text[read..] == a + b
    ensures read + |a| <= |text|
    ensures text[read..read + |a|] == a && text[read + |a|..] == b
    ensures a != [] ==> text[read + |a| - 1] == a[|a| - 1]
    ensures b != [] ==> read + |a| < |text| && text[read + |a|] == b[0] && text[read + |a| + 1..] == b[1..]
  {
    assert text[read..][..|a|] == a && text[read..][|a|..] == b;
  }

  // The general form.

  /** What is written of the groups before i, and where zeros go. */
  function Written(data: bytes, run: Run, i: nat): (out: bytes)
    requires Legal(data, run) && i <= 8
    ensures |out| <= 2 * i
  {
    if run.NoRun? || i <= run.start then data[..2 * i]
    else if i <= run.end then data[..2 * run.start]
    else data[..2 * run.start] + data[2 * run.end + 2..2 * i]
  }

  function PadAt(data: bytes, run: Run, i: nat): (pad: Option<nat>)
    requires Legal(data, run) && i <= 8
    ensures pad.Some? ==> pad.value <= |Written(data, run, i)|
  {
    if run.Run? && i > run.end then Some(2 * run.start) else None
  }

  lemma GroupBytes(data: bytes, i: nat)
    requires |data| == SIZE && i < 8
    ensures Group(data, i) < 0x10000
    ensures [Group(data, i) / 256 % 256, Group(data, i) % 256] == data[2 * i..2 * i + 2]
  {
  }

  lemma RunBytes(data: bytes, run: Run)
    requires Legal(data, run) && run.Run?
    ensures data == data[..2 * run.start] + Zeros(2 * (run.end - run.start) + 2) + data[2 * run.end + 2..]
  {
    forall k | 2 * run.start <= k < 2 * run.end + 2 ensures data[k] == 0 {
      assert Group(data, k / 2) == 0;
    }
  }

  /** All groups read: what is written, with the zeros put in, is the address. */
  lemma WrittenExpands(data: bytes, run: Run, before: bytes)
    requires Legal(data, run) && |before| == SIZE && (run.Run? ==> run.end < 7)
    ensures Expand(Done(Written(data, run, 8), PadAt(data, run, 8)), before) == data
  {
    if run.Run? {
      RunBytes(data, run);
      hide Legal;
      var a, c := data[..2 * run.start], data[2 * run.end + 2..];
      assert data[2 * run.end + 2..16] == c;
      ZerosBetween(a, c, before);
    } else {
      assert data[..16] == data && data + before[16..] == data;
    }
  }

  lemma ZerosBetween(a: bytes, c: bytes, before: bytes)
    requires |a| + |c| <= SIZE == |before|
    ensures Expand(Done(a + c, Some(|a|)), before) == a + Zeros(SIZE - |a| - |c|) + c
  {
    assert (a + c)[..|a|] == a && (a + c)[|a|..] == c;
  }

  /** A run up to the last group ends the text with a colon more than enough. */
  lemma ReadTrailingRun(data: bytes, run: Run, text: bytes, read: nat, before: bytes)
    requires Legal(data, run) && run.Run? && run.end == 7 && |before| == SIZE
    requires 0 < read == |text| && text[read - 1] == COLON
    ensures Expand(Parse(text, read, data[..2 * run.start], Some(2 * run.start), 0), before) == data
  {
    var out := data[..2 * run.start];
    ReadPad(text, read, out, Some(|out|));
    ReadEnd(text, read + 1, out, Some(|out|), 0);
    RunBytes(data, run);
    var all := out + [0, 0];
    assert all[..|out|] == out && all[|out|..] == [0, 0];
    assert data == out + Zeros(SIZE - |all|) + [0, 0];
  }

  /** The text of a group outside the run, cut after its digits. */
  lemma GroupText(texts: Texts, run: Run, text: bytes, read: nat, i: nat, e: End) returns (next: nat)
    requires i < Last(e) && !(run.Run? && run.start <= i <= run.end) && texts[i] != []
    requires read <= |text| && text[read..] == Groups(texts, run, i, e)
    ensures next == read + |texts[i]| <= |text| && text[read..next] == texts[i]
    ensures text[next - 1] == texts[i][|texts[i]| - 1]
    ensures if i < 7 then next < |text| && text[next] == COLON && text[next + 1..] == Groups(texts, run, i + 1, e)
            else next == |text|
  {
    GroupsStep(texts, run, i, e);
    assert i == 7 ==> Groups(texts, run, 8, e) == [] && texts[7] + [] + [] == texts[7] + [];
    hide Groups;
    next := read + |texts[i]|;
    if i < 7 {
      var rest := Groups(texts, run, i + 1, e);
      Associate(texts[i], [COLON], rest);
      SplitAfter(text, read, texts[i], [COLON] + rest);
      assert ([COLON] + rest)[1..] == rest;
    } else {
      SplitAfter(text, read, texts[7], []);
    }
  }

  lemma WrittenStep(data: bytes, run: Run, i: nat)
    requires Legal(data, run) && i < 8 && !(run.Run? && run.start <= i <= run.end)
    ensures Group(data, i) < 0x10000
    ensures Written(data, run, i + 1)
         == Written(data, run, i) + [Group(data, i) / 256 % 256, Group(data, i) % 256]
    ensures PadAt(data, run, i + 1) == PadAt(data, run, i)
    ensures i == 7 ==> PadAt(data, run, i).Some? || |Written(data, run, i)| + 2 == SIZE
  {
    GroupBytes(data, i);
    assert Written(data, run, i + 1) == Written(data, run, i) + data[2 * i..2 * i + 2];
  }

  /** Every group is spelled in some way. */
  ghost predicate Spelled(texts: Texts, data: bytes)
    requires |data| == SIZE
  {
    forall i | 0 <= i < 8 :: Spells(texts[i], Group(data, i))
  }

  /** A group outside the run and what follows it. */
  lemma ReadGroup(data: bytes, texts: Texts, run: Run, text: bytes, read: nat, i: nat, e: End) returns (next: nat)
    requires Legal(data, run) && Spelled(texts, data) && i < Last(e) && !(run.Run? && run.start <= i <= run.end)
    requires read <= |text| && text[read..] == Groups(texts, run, i, e)
    ensures i < 7 ==>
      0 < next <= |text| && text[next - 1] == COLON && text[next..] == Groups(texts, run, i + 1, e)
    ensures Parse(text, read, Written(data, run, i), PadAt(data, run, i), 0)
         == if i < 7 then Parse(text, next, Written(data, run, i + 1), PadAt(data, run, i + 1), 0)
            else Done(Written(data, run, 8), PadAt(data, run, 8))
  {
    hide Parse, Groups, Written, PadAt, Spells;
    var t := texts[i];
    WrittenStep(data, run, i);
    SpellsBound(t, Group(data, i));
    SpellsSome(t, Group(data, i));
    assert t[|t| - 1] in t;
    next := GroupText(texts, run, text, read, i, e);
    var out, pad := Written(data, run, i), PadAt(data, run, i);
    ReadSpelled(text, read, out, pad, t, Group(data, i));
    if i < 7 {
      ReadSeparator(text, next, out, pad, Group(data, i));
      next := next + 1;
    } else {
      ReadEnd(text, next, out, pad, Group(data, i));
    }
  }

  lemma SpellsSome(t: bytes, n: nat)
    requires Spells(t, n)
    ensures 1 <= |t| <= 4
  {
  }

  /** The colons of a run, read with an empty chunk. */
  lemma ReadColons(texts: Texts, run: Run, text: bytes, read: nat, out: bytes, e: End) returns (next: nat)
    requires run.Run? && run.start <= run.end < Last(e) && |out| + 2 <= SIZE
    requires read <= |text| && text[read..] == Groups(texts, run, run.start, e)
    requires if run.start == 0 then read == 0 else 0 < read && text[read - 1] == COLON
    ensures 0 < next <= |text| && text[next - 1] == COLON && text[next..] == Groups(texts, run, run.end + 1, e)
    ensures Parse(text, read, out, None, 0) == Parse(text, next, out, Some(|out|), 0)
  {
    hide Parse, Groups;
    RunText(texts, run, e);
    var after := Groups(texts, run, run.end + 1, e);
    if run.start == 0 {
      SplitAfter(text, 0, [COLON, COLON], after);
      next := 2;
      assert text[0] == text[0..2][0] && text[1] == text[0..2][1];
      ReadPad(text, 0, out, None);
      ReadPad(text, 1, out, Some(|out|));
    } else {
      SplitAfter(text, read, [COLON], after);
      next := read + 1;
      ReadPad(text, read, out, None);
    }
  }

  lemma RunPiece(texts: Texts, run: Run, i: nat)
    requires run.Run? && run.start <= i <= run.end < 8
    ensures Piece(texts, run, i) == if i == 0 && i == run.end then [COLON, COLON]
                                   else if i == 0 || i == run.end then [COLON] else []
  {
  }

  lemma GroupsStep(texts: Texts, run: Run, i: nat, e: End)
    requires i < Last(e)
    ensures Groups(texts, run, i, e) == Piece(texts, run, i) + Groups(texts, run, i + 1, e)
  {
  }

  lemma GroupsEnd(texts: Texts, run: Run)
    ensures Groups(texts, run, 8, Eighth) == []
    ensures forall i | 0 <= i <= 8 :: [] + Groups(texts, run, i, Eighth) == Groups(texts, run, i, Eighth)
  {
  }

  lemma {:induction false} RunTail(texts: Texts, run: Run, i: nat, e: End)
    requires run.Run? && 0 < i && run.start <= i <= run.end < Last(e)
    ensures Groups(texts, run, i, e) == [COLON] + Groups(texts, run, run.end + 1, e)
    decreases run.end - i
  {
    GroupsStep(texts, run, i, e);
    RunPiece(texts, run, i);
    hide Groups, Piece;
    if i < run.end {
      assert [] + Groups(texts, run, i + 1, e) == Groups(texts, run, i + 1, e);
      RunTail(texts, run, i + 1, e);
    }
  }

  lemma RunHead(texts: Texts, run: Run, e: End)
    requires run.Run? && run.start == 0 <= run.end < Last(e)
    ensures if run.end == 0 then Groups(texts, run, 0, e) == [COLON, COLON] + Groups(texts, run, 1, e)
            else Groups(texts, run, 0, e) == [COLON] + Groups(texts, run, 1, e)
  {
    RunPiece(texts, run, 0);
    GroupsStep(texts, run, 0, e);
  }

  lemma RunText(texts: Texts, run: Run, e: End)
    requires run.Run? && run.start <= run.end < Last(e)
    ensures Groups(texts, run, run.start, e)
         == (if run.start == 0 then [COLON, COLON] else [COLON]) + Groups(texts, run, run.end + 1, e)
  {
    hide Groups, Piece;
    if run.start > 0 {
      RunTail(texts, run, run.start, e);
    } else {
      RunHead(texts, run, e);
      if run.end > 0 {
        RunTail(texts, run, 1, e);
        Associate([COLON], [COLON], Groups(texts, run, run.end + 1, e));
      }
    }
  }

  /** From any group on, reading the rest of a text of eight groups completes the address. */
  lemma {:induction false} ReadGroups(data: bytes, texts: Texts, run: Run, text: bytes, read: nat, i: nat,
                                      before: bytes)
    requires Legal(data, run) && Spelled(texts, data)
    requires i < 8 && !(run.Run? && run.start < i <= run.end) && |before| == SIZE
    requires read <= |text| && text[read..] == Groups(texts, run, i, Eighth)
    requires if i == 0 then read == 0 else 0 < read && text[read - 1] == COLON
    ensures Expand(Parse(text, read, Written(data, run, i), PadAt(data, run, i), 0), before) == data
    decreases 8 - i, 1
  {
    if run.Run? && i == run.start {
      ReadRun(data, texts, run, text, read, before);
    } else {
      var next := ReadGroup(data, texts, run, text, read, i, Eighth);
      if i == 7 {
        WrittenExpands(data, run, before);
      } else {
        ReadGroups(data, texts, run, text, next, i + 1, before);
      }
    }
  }

  lemma {:induction false} ReadRun(data: bytes, texts: Texts, run: Run, text: bytes, read: nat, before: bytes)
    requires Legal(data, run) && Spelled(texts, data) && run.Run? && |before| == SIZE
    requires read <= |text| && text[read..] == Groups(texts, run, run.start, Eighth)
    requires if run.start == 0 then read == 0 else 0 < read && text[read - 1] == COLON
    ensures Expand(Parse(text, read, data[..2 * run.start], None, 0), before) == data
    decreases 8 - run.start, 0
  {
    var out := data[..2 * run.start];
    var next := ReadColons(texts, run, text, read, out, Eighth);
    if run.end == 7 {
      assert text[next..] == [];
      ReadTrailingRun(data, run, text, next, before);
    } else {
      assert Written(data, run, run.end + 1) == out;
      ReadGroups(data, texts, run, text, next, run.end + 1, before);
    }
  }

  lemma WrittenRun(data: bytes, run: Run)
    requires Legal(data, run) && run.Run?
    ensures var out := data[..2 * run.start];
      && Written(data, run, run.start) == out && Written(data, run, run.end + 1) == out
      && PadAt(data, run, run.start) == None && PadAt(data, run, run.end + 1) == Some(|out|)
      && run.start <= run.end < 8
  {
  }

  /** The step over a run that ends before the dotted address. */
  lemma SkipRun(data: bytes, texts: Texts, run: Run, text: bytes, read: nat, tail: bytes) returns (next: nat)
    requires Legal(data, run) && run.Run? && run.end < 6
    requires read <= |text| && text[read..] == Groups(texts, run, run.start, Dotted(tail))
    requires if run.start == 0 then read == 0 else 0 < read && text[read - 1] == COLON
    ensures 0 < next <= |text| && text[next - 1] == COLON
    ensures text[next..] == Groups(texts, run, run.end + 1, Dotted(tail))
    ensures Parse(text, read, Written(data, run, run.start), PadAt(data, run, run.start), 0)
         == Parse(text, next, Written(data, run, run.end + 1), PadAt(data, run, run.end + 1), 0)
  {
    WrittenRun(data, run);
    hide Parse, Groups, Written, PadAt, Legal;
    next := ReadColons(texts, run, text, read, data[..2 * run.start], Dotted(tail));
  }

  /** And reading the first six groups leads to the dotted address after them. */
  lemma {:induction false} ReadSix(data: bytes, texts: Texts, run: Run, text: bytes, read: nat, i: nat, tail: bytes)
    returns (next: nat)
    requires Legal(data, run) && Spelled(texts, data) && (run.Run? ==> run.start <= run.end < 6)
    requires i <= 6 && !(run.Run? && run.start < i <= run.end)
    requires read <= |text| && text[read..] == Groups(texts, run, i, Dotted(tail))
    requires if i == 0 then read == 0 else 0 < read && text[read - 1] == COLON
    ensures 0 < next <= |text| && text[next..] == tail
    ensures Parse(text, read, Written(data, run, i), PadAt(data, run, i), 0)
         == Parse(text, next, Written(data, run, 6), PadAt(data, run, 6), 0)
    decreases 6 - i
  {
    SixthIsTail(texts, run, tail);
    hide Parse, Groups, Written, PadAt, Spelled, Legal;
    if i == 6 {
      next := read;
    } else if run.Run? && i == run.start {
      next := SkipRun(data, texts, run, text, read, tail);
      next := ReadSix(data, texts, run, text, next, run.end + 1, tail);
    } else {
      next := ReadGroup(data, texts, run, text, read, i, Dotted(tail));
      next := ReadSix(data, texts, run, text, next, i + 1, tail);
    }
  }

  lemma SixthIsTail(texts: Texts, run: Run, tail: bytes)
    ensures Groups(texts, run, 6, Dotted(tail)) == tail
  {
  }

  // The dotted form.

  lemma DecForm(n: byte)
    ensures Dec(n) == if n < 10 then [0x30 + n]
                      else if n < 100 then [0x30 + n / 10, 0x30 + n % 10]
                      else [0x30 + n / 100, 0x30 + n / 10 % 10, 0x30 + n % 10]
    ensures forall c <- Dec(n) :: IsDecimal(c)
  {
    if n >= 100 { assert Dec(n / 10) == [0x30 + n / 100, 0x30 + n / 10 % 10]; }
  }

  lemma {:induction false} ReadDigits(text: bytes, read: nat, n: nat)
    requires read + |Dec(n)| <= |text| && text[read..read + |Dec(n)|] == Dec(n)
    ensures Digits(text, read, 0) == Digits(text, read + |Dec(n)|, n)
  {
    var front, last: byte := if n < 10 then [] else Dec(n / 10), 0x30 + n % 10;
    assert Dec(n) == front + [last];
    SplitLast(text, read, front, last);
    if n >= 10 {
      hide Dec, Digits;
      ReadDigits(text, read, n / 10);
      MoreDigits(text, read + |front|, n / 10, n % 10);
    } else {
      MoreDigits(text, read, 0, n);
    }
  }

  lemma MoreDigits(text: bytes, i: nat, value: nat, d: nat)
    requires i < |text| && d < 10 && text[i] == 0x30 + d
    ensures Digits(text, i, value) == Digits(text, i + 1, 10 * value + d)
  {
  }

  lemma {:induction false} FindDotAfter(text: bytes, i: nat, k: nat)
    requires i <= k <= |text| && (k < |text| ==> text[k] == DOT)
    requires forall j | i <= j < k :: text[j] != DOT
    ensures FindDot(text, i) == k
    decreases k - i
  {
    if i < k { FindDotAfter(text, i + 1, k); }
  }

  /** The number at position i, up to a point or to the end. */
  lemma ReadNumber(text: bytes, i: nat, n: byte)
    requires i + |Dec(n)| <= |text| && text[i..i + |Dec(n)|] == Dec(n)
    requires i + |Dec(n)| < |text| ==> text[i + |Dec(n)|] == DOT
    ensures Atoi(text, i) == n && FindDot(text, i) == i + |Dec(n)|
  {
    var d := Dec(n);
    DecForm(n);
    forall j | 0 <= j < |d| ensures text[i + j] == d[j] {
      assert text[i + j] == text[i..i + |d|][j];
    }
    ReadDigits(text, i, n);
    assert text[i] == d[0];
    forall j | i <= j < i + |d| ensures text[j] != DOT {
      assert text[j] == d[j - i];
    }
    FindDotAfter(text, i, i + |d|);
  }

  /** What follows the first octet. */
  function Rest(octets: bytes): bytes {
    if octets == [] then [] else [DOT] + Dec(octets[0]) + Rest(octets[1..])
  }

  /** One octet after a point. */
  lemma ReadOctet(text: bytes, from: nat, octets: bytes) returns (next: nat)
    requires octets != [] && from <= |text| && text[from..] == Rest(octets)
    ensures from + 1 < next <= |text| && text[next..] == Rest(octets[1..])
    ensures Atoi(text, from + 1) == octets[0] && FindDot(text, from + 1) == next
  {
    var d, more := Dec(octets[0]), Rest(octets[1..]);
    Associate([DOT], d, more);
    SplitAfter(text, from, [DOT], d + more);
    SplitAfter(text, from + 1, d, more);
    next := from + 1 + |d|;
    assert more != [] ==> more[0] == DOT;
    ReadNumber(text, from + 1, octets[0]);
  }

  lemma OctetsStep(text: bytes, read: nat, k: nat, more: bytes)
    requires read < |text| && k > 0 && FindDot(text, read) + 1 < |text|
    requires Octets(text, FindDot(text, read) + 1, k - 1) == Some(more)
    ensures Octets(text, read, k) == Some([Atoi(text, FindDot(text, read) + 1) % 256] + more)
  {
  }

  lemma {:induction false} ReadOctets(text: bytes, read: nat, from: nat, octets: bytes)
    requires read <= from <= |text| && text[from..] == Rest(octets) && read < |text|
    requires octets != [] ==> FindDot(text, read) == from
    ensures Octets(text, read, |octets|) == Some(octets)
    decreases |octets|
  {
    hide FindDot, Atoi, Rest;
    if octets != [] {
      var next := ReadOctet(text, from, octets);
      ReadOctets(text, from + 1, next, octets[1..]);
      OctetsStep(text, read, |octets|, octets[1..]);
      assert octets == [octets[0]] + octets[1..];
    }
  }

  /** ::ffff:a.b.c.d is read back as the address it was printed from. */
  lemma ReadPrefix(text: bytes, rest: bytes)
    requires text == [COLON, COLON] + Hex(0xffff) + [COLON] + rest
    ensures Parse(text, 0, [], None, 0) == Parse(text, 7, [0xff, 0xff], Some(0), 0)
    ensures text[7..] == rest && |Hex(0xffff)| == 4
  {
    hide Parse, Hex;
    HexBound(0xffff);
    assert text[2..6] == Hex(0xffff);
    ReadPad(text, 0, [], None);
    ReadPad(text, 1, [], Some(0));
    ReadHex(text, 2, [], Some(0), 0xffff);
    assert text[5] == text[2..6][3] && Hex(0xffff)[3] in Hex(0xffff);
    ReadSeparator(text, 6, [], Some(0), 0xffff);
    assert [] + [0xff, 0xff] == [0xff, 0xff];
  }

  /** Decimal digits read as hexadecimal ones. */
  function Coded(n: nat): nat {
    if n < 10 then n else 16 * Coded(n / 10) + n % 10
  }

  lemma CodedSmall(n: nat)
    requires n < 100
    ensures Coded(n) == n / 10 * 16 + n % 10 < 0x100
  {
  }

  lemma CodedBelow(n: nat)
    requires n < 100
    ensures Coded(n) < 0x100
  {
    CodedSmall(n);
  }

  lemma Quotient(d: nat, h: nat, l: nat)
    requires l < d && (d == 16 || d == 256)
    ensures (d * h + l) / d == h && (d * h + l) % d == l
  {
  }

  lemma Nibbles(h: nat, t: nat, u: nat)
    requires h < 3 && t < 10 && u < 10 && 100 * h + 10 * t + u < 256
    ensures FirstOctet(256 * h + 16 * t + u) == 100 * h + 10 * t + u
  {
    hide FirstOctet;
    var c := 256 * h + 16 * t + u;
    assert c / 256 == h by { Quotient(256, h, 16 * t + u); }
    assert c / 16 == 16 * h + t && c % 16 == u by { Quotient(16, 16 * h + t, u); }
    assert (16 * h + t) % 16 == t by { Quotient(16, h, t); }
    OctetIs(c, h, t, u);
  }

  lemma OctetIs(c: nat, h: nat, t: nat, u: nat)
    requires c / 256 % 16 == h && c / 16 % 16 == t && c % 16 == u && 100 * h + 10 * t + u < 256
    ensures FirstOctet(c) == 100 * h + 10 * t + u
  {
  }

  lemma CodedOctet(n: byte)
    ensures FirstOctet(Coded(n)) == n
  {
    var q, u: nat := n / 10, n % 10;
    assert n == 10 * q + u;
    if n >= 10 {
      CodedSmall(q);
      assert q == 10 * (q / 10) + q % 10;
      Nibbles(q / 10, q % 10, u);
    } else {
      Nibbles(0, 0, n);
    }
  }

  lemma {:induction false} ReadFirst(text: bytes, read: nat, out: bytes, pad: Option<nat>, n: nat)
    requires |out| + 2 <= SIZE && (pad.Some? ==> pad.value <= |out|)
    requires n < 1000 && read + |Dec(n)| <= |text| && text[read..read + |Dec(n)|] == Dec(n)
    ensures Parse(text, read, out, pad, 0) == Parse(text, read + |Dec(n)|, out, pad, Coded(n))
  {
    hide Parse;
    var ten, unit := n / 10, n % 10;
    if n < 10 {
      SplitLast(text, read, [], HexDigit(n));
      ReadDigit(text, read, out, pad, 0, n);
    } else {
      var front := Dec(ten);
      assert Dec(n) == front + [HexDigit(unit)];
      SplitLast(text, read, front, HexDigit(unit));
      ReadFirst(text, read, out, pad, ten);
      CodedBelow(ten);
      ReadDigit(text, read + |front|, out, pad, Coded(ten), unit);
    }
  }

  lemma DottedBytes(data: bytes, before: bytes)
    requires |data| == SIZE && |before| == SIZE && ZeroRun(data, 0, 4) && Group(data, 5) == 0xffff
    ensures Expand(Done([0xff, 0xff, data[12]] + data[13..], Some(0)), before) == data
  {
    var run := Run(0, 4);
    RunBytes(data, run);
    assert data[10..] == [0xff, 0xff, data[12]] + data[13..];
  }

  /** ::ffff:a.b.c.d is read back as the address it was printed from. */
  lemma ReadDotted(data: bytes, before: bytes)
    requires |data| == SIZE && |before| == SIZE && ZeroRun(data, 0, 4) && Group(data, 5) == 0xffff
    ensures Assigned(DottedForm(data), before) == data
  {
    var text := DottedForm(data);
    var d, more := Dec(data[12]), Rest(data[13..]);
    DottedText(data);
    ReadPrefix(text, d + more);
    SplitAfter(text, 7, d, more);
    ReadFirst(text, 7, [0xff, 0xff], Some(0), data[12]);
    var point := 7 + |d|;
    CodedOctet(data[12]);
    assert more[0] == DOT;
    assert FindDot(text, point) == point;
    ReadOctets(text, point, point, data[13..]);
    ReadPoint(text, point, Coded(data[12]), data[13..]);
    DottedBytes(data, before);
  }

  lemma ReadPoint(text: bytes, point: nat, chunk: nat, octets: bytes)
    requires point < |text| && text[point] == DOT
    requires Octets(text, point, 3) == Some(octets)
    ensures Parse(text, point, [0xff, 0xff], Some(0), chunk)
         == Done([0xff, 0xff, FirstOctet(chunk)] + octets, Some(0))
  {
    assert [0xff, 0xff] + [FirstOctet(chunk)] == [0xff, 0xff, FirstOctet(chunk)];
  }

  lemma DottedText(data: bytes)
    requires |data| == SIZE
    ensures DottedForm(data) == [COLON, COLON] + Hex(0xffff) + [COLON] + (Dec(data[12]) + Rest(data[13..]))
  {
    RestOfThree(data[13], data[14], data[15]);
    assert data[13..] == [data[13], data[14], data[15]];
    var a, b, c, e := Dec(data[12]), Dec(data[13]), Dec(data[14]), Dec(data[15]);
    var s := [COLON, COLON] + Hex(0xffff) + [COLON];
    assert s + a + [DOT] + b + [DOT] + c + [DOT] + e == s + (a + ([DOT] + b + [DOT] + c + [DOT] + e));
  }

  lemma RestOfThree(a: byte, b: byte, c: byte)
    ensures Rest([a, b, c]) == [DOT] + Dec(a) + [DOT] + Dec(b) + [DOT] + Dec(c)
  {
    assert [a, b, c][1..] == [b, c] && [b, c][1..] == [c] && [c][1..] == [];
    assert Rest([c]) == [DOT] + Dec(c);
    assert Rest([b, c]) == [DOT] + Dec(b) + Rest([c]);
    assert [DOT] + Dec(b) + Rest([c]) == [DOT] + Dec(b) + [DOT] + Dec(c);
    assert Rest([a, b, c]) == [DOT] + Dec(a) + Rest([b, c]);
    assert [DOT] + Dec(a) + ([DOT] + Dec(b) + [DOT] + Dec(c)) == [DOT] + Dec(a) + [DOT] + Dec(b) + [DOT] + Dec(c);
  }

  /** For every address, and whichever run of zero groups the printer shortens, the
      text it prints is read back as the same 16 bytes. */
  lemma AddressRoundTrip(data: bytes, run: Run, before: bytes)
    requires Legal(data, run) && |before| == SIZE
    ensures Assigned(Printed(data, run), before) == data
  {
    if IsV4(data, run) {
      ReadDotted(data, before);
    } else {
      var text := Printed(data, run);
      assert text[0..] == text;
      assert Written(data, run, 0) == [];
      HexSpelled(data);
      ReadGroups(data, HexTexts(data), run, text, 0, 0, before);
    }
  }

  lemma HexSpelled(data: bytes)
    requires |data| == SIZE
    ensures Spelled(HexTexts(data), data)
  {
    hide Spells, Hex;
    forall i | 0 <= i < 8 ensures Spells(HexTexts(data)[i], Group(data, i)) {
      GroupBytes(data, i);
      HexSpells(Group(data, i));
    }
  }

  /** Any text of eight groups of one to four hexadecimal digits in either case, with
      leading zeros or without, and with any run of zero groups written as "::", is read
      as these groups. */
  lemma AnySpellingRead(data: bytes, texts: Texts, run: Run, before: bytes)
    requires Legal(data, run) && Spelled(texts, data) && |before| == SIZE
    ensures Assigned(Groups(texts, run, 0, Eighth), before) == data
  {
    hide Parse, Groups, Expand, Spelled;
    var text := Groups(texts, run, 0, Eighth);
    assert text[0..] == text;
    assert Written(data, run, 0) == [] && PadAt(data, run, 0) == None;
    ReadGroups(data, texts, run, text, 0, 0, before);
  }

  /** Four octets as they are written after the groups, or alone. */
  function DottedQuad(data: bytes): bytes
    requires |data| == SIZE
  {
    Dec(data[12]) + Rest(data[13..])
  }

  /** Reading them ends the text; with nothing before them they make a mapped address. */
  lemma ReadTail(text: bytes, read: nat, out: bytes, pad: Option<nat>, data: bytes)
    requires |data| == SIZE && |out| <= 12 && (pad.Some? ==> pad.value <= |out|)
    requires read <= |text| && text[read..] == DottedQuad(data)
    ensures Parse(text, read, out, pad, 0)
         == if out == [] then Done([0xff, 0xff] + data[12..], Some(0)) else Done(out + data[12..], pad)
  {
    hide Parse, FirstOctet, Octets, DottedQuad, Coded;
    var point := QuadPoint(text, read, out, pad, data);
    CodedOctet(data[12]);
    ReadQuad(text, point, out, pad, Coded(data[12]), data[12], data[13..]);
    if out == [] {
      QuadBytes([0xff, 0xff], data);
    } else {
      QuadBytes(out, data);
    }
  }

  lemma ReadQuad(text: bytes, point: nat, out: bytes, pad: Option<nat>, chunk: nat, first: byte, more: bytes)
    requires point < |text| && text[point] == DOT && |out| <= 12 && (pad.Some? ==> pad.value <= |out|)
    requires FirstOctet(chunk) == first && Octets(text, point, 3) == Some(more)
    ensures Parse(text, point, out, pad, chunk)
         == if out == [] then Done([0xff, 0xff] + [first] + more, Some(0)) else Done(out + [first] + more, pad)
  {
    hide Parse, ParseDotted, FirstOctet, Octets;
    AtPoint(text, point, out, pad, chunk);
    DottedDone(text, point, out, pad, chunk);
  }

  /** The first octet, up to its point. */
  lemma QuadPoint(text: bytes, read: nat, out: bytes, pad: Option<nat>, data: bytes) returns (point: nat)
    requires |data| == SIZE && |out| <= 12 && (pad.Some? ==> pad.value <= |out|)
    requires read <= |text| && text[read..] == DottedQuad(data)
    ensures point < |text| && text[point] == DOT && Octets(text, point, 3) == Some(data[13..])
    ensures Parse(text, read, out, pad, 0) == Parse(text, point, out, pad, Coded(data[12]))
  {
    hide Parse, Dec, Rest, Octets, FindDot, Coded;
    var d, more := Dec(data[12]), Rest(data[13..]);
    RestBegins(data[13..]);
    SplitAfter(text, read, d, more);
    point := read + |d|;
    DotHere(text, point);
    ReadFirst(text, read, out, pad, data[12]);
    ReadOctets(text, point, point, data[13..]);
  }

  lemma RestBegins(octets: bytes)
    requires octets != []
    ensures Rest(octets) != [] && Rest(octets)[0] == DOT
  {
    hide Dec;
  }

  lemma DotHere(text: bytes, i: nat)
    requires i < |text| && text[i] == DOT
    ensures FindDot(text, i) == i
  {
  }

  lemma QuadBytes(out: bytes, data: bytes)
    requires |data| == SIZE
    ensures out + [data[12]] + data[13..] == out + data[12..]
  {
    assert data[12..] == [data[12]] + data[13..];
  }

  /** The groups 0 to 4 are zero and the fifth is ffff. */
  function Mapped(data: bytes): bytes
    requires |data| == SIZE
  {
    Zeros(10) + [0xff, 0xff] + data[12..]
  }

  /** Any text of six groups and a dotted address is read as these groups and octets, but
      for one: "::" and a dotted address alone is read as the mapped address, as if it
      were ::ffff: and the dotted address. */
  lemma DottedTailRead(data: bytes, texts: Texts, run: Run, before: bytes)
    requires Legal(data, run) && Spelled(texts, data) && (run.Run? ==> run.end < 6) && |before| == SIZE
    ensures Assigned(Groups(texts, run, 0, Dotted(DottedQuad(data))), before)
         == if run == Run(0, 5) then Mapped(data) else data
  {
    hide Parse, Groups, Expand, Spelled, DottedQuad;
    var text := Groups(texts, run, 0, Dotted(DottedQuad(data)));
    assert text[0..] == text;
    assert Written(data, run, 0) == [] && PadAt(data, run, 0) == None;
    var next := ReadSix(data, texts, run, text, 0, 0, DottedQuad(data));
    var out, pad := Written(data, run, 6), PadAt(data, run, 6);
    ReadTail(text, next, out, pad, data);
    if run == Run(0, 5) {
      assert out == [];
      MappedExpands(data, before);
    } else {
      assert out + data[12..] == Written(data, run, 8) && pad == PadAt(data, run, 8) && out != [];
      WrittenExpands(data, run, before);
    }
  }

  lemma MappedExpands(data: bytes, before: bytes)
    requires |data| == SIZE == |before|
    ensures Expand(Done([0xff, 0xff] + data[12..], Some(0)), before) == Mapped(data)
  {
    hide Expand, Zeros;
    var c := [0xff, 0xff] + data[12..];
    ZerosBetween([], c, before);
    assert [] + c == c && [] + Zeros(10) == Zeros(10);
    Associate(Zeros(10), [0xff, 0xff], data[12..]);
  }

  /** A dotted address alone is read as the mapped address. */
  lemma BareDottedRead(data: bytes, before: bytes)
    requires |data| == SIZE && |before| == SIZE
    ensures Assigned(DottedQuad(data), before) == Mapped(data)
  {
    hide Parse, Expand, DottedQuad, Mapped;
    var text := DottedQuad(data);
    assert text[0..] == text;
    ReadTail(text, 0, [], None, data);
    MappedExpands(data, before);
  }

  /** The printer's buffer of 40 characters holds every text. */
  lemma {:induction false} GroupsFit(texts: Texts, run: Run, i: nat)
    requires i <= 8 && forall j | 0 <= j < 8 :: |texts[j]| <= 4
    ensures |Groups(texts, run, i, Eighth)| <= 5 * (8 - i)
    ensures i < 8 ==> |Groups(texts, run, i, Eighth)| < 5 * (8 - i)
    decreases 8 - i
  {
    if i < 8 { GroupsFit(texts, run, i + 1); }
  }

  lemma DottedFits(data: bytes)
    requires |data| == SIZE
    ensures |DottedForm(data)| < 40
  {
    HexBound(0xffff);
    DecForm(data[12]);
    DecForm(data[13]);
    DecForm(data[14]);
    DecForm(data[15]);
  }

  lemma PrintedFits(data: bytes, run: Run)
    requires |data| == SIZE
    ensures |Printed(data, run)| < 40
  {
    DottedFits(data);
    var texts := HexTexts(data);
    forall j | 0 <= j < 8 ensures |texts[j]| <= 4 {
      GroupBytes(data, j);
      HexBound(Group(data, j));
    }
    GroupsFit(texts, run, 0);
  }

  lemma PrependNothing(o: Option<bytes>)
    ensures Prepend([], o) == o
  {
    if o.Some? { assert [] + o.value == o.value; }
  }

  lemma PrependTwice(a: bytes, b: bytes, o: Option<bytes>)
    ensures Prepend(a, Prepend(b, o)) == Prepend(a + b, o)
  {
    if o.Some? { Associate(a, b, o.value); }
  }

  // ---- Upper and lower case ---------------------------------------------------

  /** A letter from a to f, in lower case whatever its case. */
  function Fold(c: byte): byte {
    if 0x41 <= c <= 0x46 then c + 0x20 else c
  }

  predicate SameButForCase(one: bytes, other: bytes) {
    |one| == |other| && forall i | 0 <= i < |one| :: Fold(one[i]) == Fold(other[i])
  }

  lemma FoldSame(one: byte, other: byte)
    requires Fold(one) == Fold(other)
    ensures HexValue(one) == HexValue(other) && IsDecimal(one) == IsDecimal(other)
    ensures one == COLON <==> other == COLON
    ensures one == DOT <==> other == DOT
    ensures one == MINUS <==> other == MINUS
    ensures IsDecimal(one) ==> one == other
  {
  }

  lemma {:induction false} FoldDigits(one: bytes, other: bytes, i: nat, value: int)
    requires SameButForCase(one, other)
    ensures Digits(one, i, value) == Digits(other, i, value)
    decreases |one| - i
  {
    if i < |one| {
      FoldSame(one[i], other[i]);
      if IsDecimal(one[i]) { FoldDigits(one, other, i + 1, 10 * value + (one[i] - 0x30)); }
    }
  }

  lemma {:induction false} FoldDots(one: bytes, other: bytes, i: nat)
    requires SameButForCase(one, other)
    ensures FindDot(one, i) == FindDot(other, i)
    decreases |one| - i
  {
    if i < |one| {
      FoldSame(one[i], other[i]);
      FoldDots(one, other, i + 1);
    }
  }

  lemma FoldAtoi(one: bytes, other: bytes, i: nat)
    requires SameButForCase(one, other)
    ensures Atoi(one, i) == Atoi(other, i)
  {
    if i < |one| { FoldSame(one[i], other[i]); }
    FoldDigits(one, other, i, 0);
    FoldDigits(one, other, i + 1, 0);
  }

  lemma {:induction false} FoldOctets(one: bytes, other: bytes, read: nat, k: nat)
    requires SameButForCase(one, other)
    ensures Octets(one, read, k) == Octets(other, read, k)
    decreases k
  {
    hide FindDot, Atoi, SameButForCase;
    assert |one| == |other| by { LengthSame(one, other); }
    if k > 0 && read < |one| {
      FoldDots(one, other, read);
      var point := FindDot(one, read);
      if point + 1 < |one| {
        FoldAtoi(one, other, point + 1);
        FoldOctets(one, other, point + 1, k - 1);
      }
    }
  }

  lemma LengthSame(one: bytes, other: bytes)
    requires SameButForCase(one, other)
    ensures |one| == |other|
  {
  }

  lemma {:induction false} FoldParse(one: bytes, other: bytes, read: nat, out: bytes, pad: Option<nat>, chunk: nat)
    requires SameButForCase(one, other) && read <= |one| + 1 && |out| + 2 <= SIZE
    requires pad.Some? ==> pad.value <= |out|
    ensures Parse(one, read, out, pad, chunk) == Parse(other, read, out, pad, chunk)
    decreases |one| + 2 - read
  {
    hide ParseDotted;
    if read > 0 && read - 1 < |one| { FoldSame(one[read - 1], other[read - 1]); }
    if read < |one| { FoldSame(one[read], other[read]); }
    hide HexValue;
    if read >= |one| || one[read] == COLON {
      if read == 0 || At(one, read - 1) == COLON {
        if pad.None? || pad.value == |out| {
          FoldParse(one, other, read + 1, out, Some(|out|), chunk);
        }
      } else if |out| + 4 <= SIZE && read < |one| {
        FoldParse(one, other, read + 1, out + [chunk / 256 % 256, chunk % 256], pad, 0);
      }
    } else if HexValue(one[read]).Some? {
      FoldParse(one, other, read + 1, out, pad, chunk * 16 % 0x10000 + HexValue(one[read]).value);
    } else if one[read] == DOT {
      FoldDotted(one, other, read, out, pad, chunk);
    }
  }

  lemma FoldDotted(one: bytes, other: bytes, read: nat, out: bytes, pad: Option<nat>, chunk: nat)
    requires SameButForCase(one, other) && (pad.Some? ==> pad.value <= |out|)
    ensures ParseDotted(one, read, out, pad, chunk) == ParseDotted(other, read, out, pad, chunk)
  {
    hide Octets, FirstOctet, SameButForCase;
    FoldOctets(one, other, read, 3);
  }

  /** Texts that differ only in the case of hexadecimal letters are read as the same
      bytes, whether they are well formed or not. */
  lemma CaseDoesNotMatter(one: bytes, other: bytes, before: bytes)
    requires SameButForCase(one, other) && |before| == SIZE
    ensures Assigned(one, before) == Assigned(other, before)
  {
    hide Parse;
    FoldParse(one, other, 0, [], None, 0);
  }

  lemma LowDigit(q: nat, r: nat)
    requires r < 16
    ensures (16 * q + r) / 16 == q && (16 * q + r) % 16 == r
  {
  }

  /** Before the first point the last three digits count, and count as decimal ones. */
  lemma FirstOctetReads(more: nat, b: nat, c: nat, d: nat)
    requires b < 16 && c < 16 && d < 16
    ensures FirstOctet(16 * (16 * (16 * more + b) + c) + d) == (100 * b + 10 * c + d) % 256
  {
    var two := 16 * more + b;
    var chunk := 16 * (16 * two + c) + d;
    LowDigit(more, b);
    LowDigit(two, c);
    LowDigit(16 * two + c, d);
    assert chunk / 256 == chunk / 16 / 16;
  }

  /** A minus sign is read as one. */
  lemma AtoiReads(n: byte)
    ensures Atoi(Dec(n), 0) == n && Atoi([MINUS] + Dec(n), 0) == -(n as int)
  {
    var d := Dec(n);
    DecForm(n);
    assert d[0..|d|] == d && ([MINUS] + d)[1..1 + |d|] == d;
    ReadDigits(d, 0, n);
    ReadDigits([MINUS] + d, 1, n);
    assert d[0] in d;
  }

  // ---- Texts that leave old bytes in place -----------------------------------

  predicate InGroup(c: byte) {
    c == COLON || HexValue(c).Some?
  }

  /** The first character from position i on that is neither a hexadecimal digit nor a colon. */
  function Stop(text: bytes, i: nat): (p: nat)
    ensures i <= |text| ==> i <= p <= |text|
    decreases |text| - i
  {
    if i >= |text| then |text| else if InGroup(text[i]) then Stop(text, i + 1) else i
  }

  function Colons(text: bytes, n: nat): nat
    requires n <= |text|
  {
    if n == 0 then 0 else Colons(text, n - 1) + (if text[n - 1] == COLON then 1 else 0)
  }

  /** No colon at the front and none after another among the first n characters. */
  predicate Separated(text: bytes, n: nat)
    requires n <= |text|
  {
    forall j | 0 <= j < n && text[j] == COLON :: j > 0 && text[j - 1] != COLON
  }

  /** One to five groups, none of them empty, and then a dotted address whose third point
      is there and not the last character. */
  predicate Incomplete(text: bytes) {
    var p := Stop(text, 0);
    && p < |text| && text[p] == DOT
    && Separated(text, p) && 1 <= Colons(text, p) <= 5
    && FindDot(text, FindDot(text, p + 1) + 1) + 1 < |text|
  }

  /** Fewer than sixteen bytes were written and no zeros are put in. */
  predicate Short(o: Outcome) {
    o.Done? && o.pad.None? && |o.out| < SIZE
  }

  /** Three octets can be read from a point on exactly if the third point is there and
      something follows it. */
  lemma OctetsFrom(text: bytes, p: nat)
    requires p < |text| && text[p] == DOT
    ensures Octets(text, p, 3).Some? <==> FindDot(text, FindDot(text, p + 1) + 1) + 1 < |text|
    ensures Octets(text, p, 3).Some? ==> |Octets(text, p, 3).value| == 3
  {
    hide Atoi;
    var q := FindDot(text, p + 1);
    var r := FindDot(text, q + 1);
    assert FindDot(text, p) == p;
    OctetsMore(text, p, 3);
    if p + 1 < |text| {
      OctetsMore(text, p + 1, 2);
      if q + 1 < |text| {
        OctetsMore(text, q + 1, 1);
        if r + 1 < |text| {
          assert Octets(text, r + 1, 0) == Some([]);
        }
      }
    }
  }

  lemma OctetsMore(text: bytes, read: nat, k: nat)
    requires read < |text| && k > 0
    ensures var next := FindDot(text, read) + 1;
      if next >= |text| then Octets(text, read, k).None?
      else if Octets(text, next, k - 1).None? then Octets(text, read, k).None?
      else Octets(text, read, k).Some? && |Octets(text, read, k).value| == 1 + |Octets(text, next, k - 1).value|
  {
    hide FindDot, Atoi;
  }

  /** Once zeros have a place they keep one. */
  lemma {:induction false} ParsePadded(text: bytes, read: nat, out: bytes, pad: Option<nat>, chunk: nat)
    requires read <= |text| + 1 && |out| + 2 <= SIZE && pad.Some? && pad.value <= |out|
    ensures !Short(Parse(text, read, out, pad, chunk))
    decreases |text| + 2 - read
  {
    hide Octets, HexValue, FirstOctet;
    if read >= |text| || text[read] == COLON {
      if read == 0 || At(text, read - 1) == COLON {
        if pad.value == |out| { ParsePadded(text, read + 1, out, Some(|out|), chunk); }
      } else if |out| + 4 <= SIZE && read < |text| {
        ParsePadded(text, read + 1, out + [chunk / 256 % 256, chunk % 256], pad, 0);
      }
    } else if HexValue(text[read]).Some? {
      ParsePadded(text, read + 1, out, pad, chunk * 16 % 0x10000 + HexValue(text[read]).value);
    }
  }

  lemma {:induction false} ColonsGrow(text: bytes, m: nat, n: nat)
    requires m <= n <= |text|
    ensures Colons(text, m) <= Colons(text, n)
    decreases n
  {
    if m < n { ColonsGrow(text, m, n - 1); }
  }

  /** The scan so far: groups of hexadecimal digits with single colons between them. */
  predicate Scanned(text: bytes, read: nat, out: bytes) {
    && read <= |text| && |out| + 2 <= SIZE && Stop(text, 0) == Stop(text, read)
    && Separated(text, read) && |out| == 2 * Colons(text, read)
  }

  /** A colon where a group ought to be: zeros are put in, and the text is not one of those. */
  lemma PlainPad(text: bytes, read: nat, out: bytes, chunk: nat)
    requires Scanned(text, read, out) && (read == 0 || text[read - 1] == COLON)
    requires read < |text| ==> text[read] == COLON
    ensures Short(Parse(text, read, out, None, chunk)) <==> Incomplete(text)
  {
    ParsePadded(text, read + 1, out, Some(|out|), chunk);
    assert Stop(text, read) > read || read == |text|;
  }

  /** The end of the text, or the eighth group. */
  lemma PlainEnd(text: bytes, read: nat, out: bytes, chunk: nat)
    requires Scanned(text, read, out) && read > 0 && text[read - 1] != COLON
    requires read == |text| || (text[read] == COLON && |out| + 4 > SIZE)
    ensures Short(Parse(text, read, out, None, chunk)) <==> Incomplete(text)
  {
    hide FindDot;
    if read < |text| {
      assert Stop(text, read) > read;
      ColonsGrow(text, read + 1, Stop(text, 0));
    }
  }

  /** A point: what follows are octets. */
  lemma PlainPoint(text: bytes, read: nat, out: bytes, chunk: nat)
    requires Scanned(text, read, out) && read < |text| && text[read] == DOT
    ensures Short(Parse(text, read, out, None, chunk)) <==> Incomplete(text)
  {
    hide FindDot, Octets, FirstOctet;
    OctetsFrom(text, read);
    assert Stop(text, read) == read;
    assert Parse(text, read, out, None, chunk) == ParseDotted(text, read, out, None, chunk);
  }

  /** The loop leaves bytes unset exactly on the texts described. */
  lemma {:induction false} ParsePlain(text: bytes, read: nat, out: bytes, chunk: nat)
    requires Scanned(text, read, out)
    ensures Short(Parse(text, read, out, None, chunk)) <==> Incomplete(text)
    decreases |text| - read
  {
    hide FindDot, Octets, FirstOctet, Incomplete, ParseDotted;
    if (read == |text| || text[read] == COLON) && (read == 0 || text[read - 1] == COLON) {
      PlainPad(text, read, out, chunk);
    } else if read == |text| || (text[read] == COLON && |out| + 4 > SIZE) {
      PlainEnd(text, read, out, chunk);
    } else if text[read] == COLON {
      ReadSeparator(text, read, out, None, chunk);
      ParsePlain(text, read + 1, out + [chunk / 256 % 256, chunk % 256], 0);
    } else if HexValue(text[read]).Some? {
      ParsePlain(text, read + 1, out, chunk * 16 % 0x10000 + HexValue(text[read]).value);
    } else if text[read] == DOT {
      PlainPoint(text, read, out, chunk);
    } else {
      PlainError(text, read, out, chunk);
    }
  }

  lemma PlainError(text: bytes, read: nat, out: bytes, chunk: nat)
    requires Scanned(text, read, out) && read < |text| && text[read] != DOT && !InGroup(text[read])
    ensures Short(Parse(text, read, out, None, chunk)) <==> Incomplete(text)
  {
    assert Stop(text, read) == read;
  }

  /** What assign() makes of a text depends on the bytes that were there before if and
      only if the text is one to five groups without "::" and then a dotted address. */
  lemma OldBytesKept(text: bytes)
    ensures (forall one: bytes, other: bytes | |one| == |other| == SIZE ::
               Assigned(text, one) == Assigned(text, other)) <==> !Incomplete(text)
  {
    hide Parse, Incomplete;
    ParsePlain(text, 0, [], 0);
    var o := Parse(text, 0, [], None, 0);
    if Short(o) {
      var one, other := Zeros(SIZE), seq(SIZE, i => 1);
      assert Assigned(text, one)[|o.out|] == 0 && Assigned(text, other)[|o.out|] == 1;
    } else {
      forall one: bytes, other: bytes | |one| == |other| == SIZE
        ensures Assigned(text, one) == Assigned(text, other)
      {
        assert one[SIZE..] == [] && other[SIZE..] == [];
      }
    }
  }

  /** 1:1.2.3.4 is such a text: ten bytes stay what they were. */
  lemma OldBytesSeen(before: bytes)
    requires |before| == SIZE
    ensures var text := [0x31, COLON, 0x31, DOT, 0x32, DOT, 0x33, DOT, 0x34];
      Assigned(text, before) == [0, 1, 1, 2, 3, 4] + before[6..]
  {
    var text: bytes := [0x31, COLON, 0x31, DOT, 0x32, DOT, 0x33, DOT, 0x34];
    SeenGroups(text);
    SeenOctets(text);
    SeenPoint(text);
    hide Parse;
  }

  lemma SeenGroups(text: bytes)
    requires |text| == 9 && text[0] == 0x31 && text[1] == COLON && text[2] == 0x31
    ensures Parse(text, 0, [], None, 0) == Parse(text, 3, [0, 1], None, 1)
  {
    hide Parse;
    ReadDigit(text, 0, [], None, 0, 1);
    ReadSeparator(text, 1, [], None, 1);
    assert [] + [0, 1] == [0, 1];
    ReadDigit(text, 2, [0, 1], None, 0, 1);
  }

  lemma SeenOctets(text: bytes)
    requires text == [0x31, COLON, 0x31, DOT, 0x32, DOT, 0x33, DOT, 0x34]
    ensures text[3..] == Rest([2, 3, 4])
  {
    assert Dec(2) == [0x32] && Dec(3) == [0x33] && Dec(4) == [0x34];
    hide Dec, Rest;
    RestOfThree(2, 3, 4);
    assert text[3..] == [DOT] + [0x32] + [DOT] + [0x33] + [DOT] + [0x34];
  }

  lemma SeenPoint(text: bytes)
    requires |text| == 9 && text[3] == DOT && text[3..] == Rest([2, 3, 4])
    ensures Parse(text, 3, [0, 1], None, 1) == Done([0, 1, 1, 2, 3, 4], None)
  {
    hide Parse, Rest, Octets;
    assert FindDot(text, 3) == 3;
    ReadOctets(text, 3, 3, [2, 3, 4]);
    AtPoint(text, 3, [0, 1], None, 1);
    assert FirstOctet(1) == 1;
    assert [0, 1] + [1] + [2, 3, 4] == [0, 1, 1, 2, 3, 4];
  }

  lemma AtPoint(text: bytes, read: nat, out: bytes, pad: Option<nat>, chunk: nat)
    requires read < |text| && |out| + 2 <= SIZE && (pad.Some? ==> pad.value <= |out|) && text[read] == DOT
    ensures Parse(text, read, out, pad, chunk) == ParseDotted(text, read, out, pad, chunk)
  {
    hide ParseDotted;
  }

  // ---- The class ------------------------------------------------------------

  /** The run that is shortened: of the longest ones, the last. */
  ghost predicate LastLongest(data: bytes, run: Run, upto: nat)
    requires |data| == SIZE && upto <= 8
  {
    match run
    case NoRun => forall s: nat, e: nat | s <= e < upto :: !ZeroRun(data, s, e)
    case Run(start, end) =>
      && ZeroRun(data, start, end) && end < upto
      && forall s: nat, e: nat | s <= e < upto && ZeroRun(data, s, e) ::
           e - s < end - start || (e - s == end - start && s <= start)
  }

  /** Octets, each followed by a point. */
  function Pointed(octets: bytes): bytes {
    if octets == [] then [] else Pointed(octets[..|octets| - 1]) + (Dec(octets[|octets| - 1]) + [DOT])
  }

  lemma PointedOne(octets: bytes, last: byte)
    ensures Pointed(octets + [last]) == Pointed(octets) + (Dec(last) + [DOT])
  {
    assert (octets + [last])[..|octets|] == octets;
  }

  lemma PointedFour(a: byte, b: byte, c: byte, d: byte)
    ensures Pointed([a, b, c, d])
         == Dec(a) + [DOT] + Dec(b) + [DOT] + Dec(c) + [DOT] + Dec(d) + [DOT]
  {
    PointedOne([], a);
    PointedOne([a], b);
    PointedOne([a, b], c);
    PointedOne([a, b, c], d);
    assert [] + [a] == [a] && [a] + [b] == [a, b] && [a, b] + [c] == [a, b, c];
    assert [a, b, c] + [d] == [a, b, c, d];
    assert [] + (Dec(a) + [DOT]) == Dec(a) + [DOT];
    Associate(Pointed([a]), Dec(b), [DOT]);
    Associate(Pointed([a, b]), Dec(c), [DOT]);
    Associate(Pointed([a, b, c]), Dec(d), [DOT]);
  }

  /** At most one run is the one to shorten, so the text of an address is unique. */
  lemma RunUnique(data: bytes, one: Run, other: Run)
    requires |data| == SIZE && LastLongest(data, one, 8) && LastLongest(data, other, 8)
    ensures one == other
  {
    if one.Run? {
      assert ZeroRun(data, one.start, one.end);
    }
    if other.Run? {
      assert ZeroRun(data, other.start, other.end);
    }
  }

  /** The candidate from start up to end replaces the run found before if it is not shorter. */
  function Longer(run: Run, start: nat, end: nat): (r: Run)
    requires start < end
  {
    if end - start > (if run.NoRun? then 0 else run.end - run.start) then Run(start, end - 1) else run
  }

  lemma Moved(data: bytes, pad: nat, write: nat)
    requires |data| == SIZE && pad <= write <= SIZE
    ensures var moved, out := data[..pad + (SIZE - write)] + data[pad..write], data[..write];
      moved[..pad] == out[..pad] && moved[pad + (SIZE - write)..] == out[pad..]
  {
  }

  lemma NoneYet(data: bytes)
    requires |data| == SIZE
    ensures LastLongest(data, NoRun, 0)
  {
  }

  lemma LongestStays(data: bytes, run: Run, upto: nat)
    requires |data| == SIZE && upto < 8 && LastLongest(data, run, upto) && Group(data, upto) != 0
    ensures LastLongest(data, run, upto + 1)
  {
    hide Group;
  }

  lemma LongestSoFar(data: bytes, run: Run, start: nat, end: nat)
    requires |data| == SIZE && start < end <= 8 && LastLongest(data, run, start)
    requires ZeroRun(data, start, end - 1) && (start > 0 ==> Group(data, start - 1) != 0)
    ensures LastLongest(data, Longer(run, start, end), end)
  {
    hide Group;
  }

  lemma DottedDone(text: bytes, read: nat, out: bytes, pad: Option<nat>, chunk: nat)
    requires pad.Some? ==> pad.value <= |out|
    ensures ParseDotted(text, read, out, pad, chunk)
         == if |out| > 12 || Octets(text, read, 3).None? then Error
            else Done((if out == [] then [0xff, 0xff] else out) + [FirstOctet(chunk)] + Octets(text, read, 3).value,
                      if out == [] then Some(0) else pad)
  {
    hide Octets, FirstOctet;
    assert [0xff, 0xff] + [FirstOctet(chunk)] == [0xff, 0xff, FirstOctet(chunk)];
  }

  class Address {
    const data: array<byte>

    constructor ()
      ensures data.Length == SIZE && fresh(data)
    {
      data := new byte[SIZE];
    }

    /** std::fill with zeros. */
    method Fill(from: nat, to: nat)
      requires from <= to <= data.Length
      modifies data
      ensures data[..] == old(data[..from]) + Zeros(to - from) + old(data[to..])
    {
      var k := from;
      while k < to
        invariant from <= k <= to
        invariant forall j | 0 <= j < data.Length :: data[j] == if from <= j < k then 0 else old(data[j])
      {
        data[k] := 0;
        k := k + 1;
      }
    }

    /** The overlapping copy of the bytes from pad to write to the end, read as memmove. */
    method MoveToEnd(pad: nat, write: nat)
      requires pad <= write <= data.Length
      modifies data
      ensures data[..] == old(data[..pad + (data.Length - write)] + data[pad..write])
    {
      var shift := data.Length - write;
      var k := write;
      while k > pad
        invariant pad <= k <= write
        invariant forall j | 0 <= j < data.Length ::
          data[j] == if k + shift <= j then old(data[j - shift]) else old(data[j])
      {
        k := k - 1;
        data[k + shift] := data[k];
      }
      assert forall j | pad + shift <= j < data.Length :: data[j] == old(data[pad..write])[j - (pad + shift)];
    }

    method PutInZeros(write: nat, pad: nat)
      requires data.Length == SIZE && pad <= write <= SIZE
      modifies data
      ensures data[..] == Expand(Done(old(data[..write]), Some(pad)), old(data[..]))
    {
      ghost var out := data[..write];
      assert |Zeros(SIZE - write)| == SIZE - write;
      hide Zeros;
      if pad == write {
        Fill(write, SIZE);
        assert data[..] == out + Zeros(SIZE - write) + [];
        assert out[..pad] == out && out[pad..] == [];
      } else {
        var padEnd := pad + (SIZE - write);
        Moved(data[..], pad, write);
        MoveToEnd(pad, write);
        Fill(pad, padEnd);
      }
    }

    /** The octets after the first one. */
    method ReadOctets(text: bytes, start: nat, from: nat) returns (error: bool, write: nat)
      requires data.Length == SIZE && from + 3 <= SIZE
      modifies data
      ensures from <= write <= SIZE
      ensures data[..from] == old(data[..from]) && forall j | write <= j < SIZE :: data[j] == old(data[j])
      ensures Octets(text, start, 3) == if error then None else Some(data[from..write])
    {
      error, write := false, from;
      var i, read: nat := 0, start;
      PrependNothing(Octets(text, start, 3));
      assert data[from..write] == [];
      while i < 3 && read < |text|
        invariant 0 <= i <= 3 && write == from + i && !error
        invariant data[..from] == old(data[..from]) && forall j | write <= j < SIZE :: data[j] == old(data[j])
        invariant Octets(text, start, 3) == Prepend(data[from..write], Octets(text, read, 3 - i))
      {
        ghost var done := data[from..write];
        var point: nat := FindDot(text, read);
        if point + 1 < |text| {
          read := point;
        } else {
          error := true;
          break;
        }
        read := read + 1;
        data[write] := Atoi(text, read) % 256;
        PrependTwice(done, [data[write]], Octets(text, read, 3 - i - 1));
        write := write + 1;
        i := i + 1;
        assert data[from..write] == done + [data[write - 1]];
      }
      assert data[from..write] + [] == data[from..write];
    }

    /** The branch for a point, in place. */
    method ReadDotted(text: bytes, start: nat, from: nat, at: Option<nat>, chunk: nat)
      returns (error: bool, write: nat, pad: Option<nat>)
      requires data.Length == SIZE && from + 2 <= SIZE && (at.Some? ==> at.value <= from)
      modifies data
      ensures from <= write <= SIZE && (pad.Some? ==> pad.value <= write)
      ensures forall j | write <= j < SIZE :: data[j] == old(data[j])
      ensures ParseDotted(text, start, old(data[..from]), at, chunk)
           == if error then Error else Done(data[..write], pad)
    {
      hide Octets, FirstOctet, ParseDotted;
      DottedDone(text, start, data[..from], at, chunk);
      ghost var out := data[..from];
      error, write, pad := false, from, at;
      if write == 0 {
        data[0], data[1] := 0xff, 0xff;
        pad := Some(0);
        write := 2;
      } else if write > 12 {
        error := true;
        return;
      }
      data[write] := FirstOctet(chunk);
      write := write + 1;
      ghost var before := data[..write];
      assert before == (if out == [] then [0xff, 0xff] else out) + [FirstOctet(chunk)];
      error, write := ReadOctets(text, start, write);
      assert data[..write] == before + data[|before|..write];
    }

    /** The loop of assign(). */
    method Scan(text: bytes) returns (error: bool, write: nat, pad: Option<nat>)
      requires data.Length == SIZE
      modifies data
      ensures write <= SIZE && (pad.Some? ==> pad.value <= write)
      ensures forall j | write <= j < SIZE :: data[j] == old(data[j])
      ensures Parse(text, 0, [], None, 0) == if error then Error else Done(data[..write], pad)
    {
      hide Octets, ParseDotted;
      var read: nat, chunk: nat := 0, 0;
      error, write, pad := false, 0, None;
      assert data[..0] == [];
      while true
        invariant read <= |text| + 1 && write + 2 <= SIZE && (pad.Some? ==> pad.value <= write) && !error
        invariant forall j | write <= j < SIZE :: data[j] == old(data[j])
        invariant Parse(text, 0, [], None, 0) == Parse(text, read, data[..write], pad, chunk)
        decreases |text| + 2 - read
      {
        ghost var out := data[..write];
        if read >= |text| || text[read] == COLON {
          if read == 0 || At(text, read - 1) == COLON {
            if pad.Some? && pad.value != write {
              error := true;
              break;
            }
            pad := Some(write);
          } else {
            data[write], data[write + 1] := chunk / 256 % 256, chunk % 256;
            write := write + 2;
            assert data[..write] == out + [chunk / 256 % 256, chunk % 256];
            chunk := 0;
            if write + 2 > SIZE || read >= |text| {
              error := read >= |text| && write < SIZE && pad.None?;
              break;
            }
          }
        } else if HexValue(text[read]).Some? {
          chunk := chunk * 16 % 0x10000 + HexValue(text[read]).value;
        } else if text[read] == DOT {
          error, write, pad := ReadDotted(text, read, write, pad, chunk);
          break;
        } else {
          error := true;
          break;
        }
        read := read + 1;
      }
    }

    method Finish(error: bool, write: nat, pad: Option<nat>, ghost before: bytes)
      requires data.Length == SIZE == |before| && write <= SIZE && (pad.Some? ==> pad.value <= write)
      requires data[write..] == before[write..]
      modifies data
      ensures data[..] == Expand(if error then Error else Done(old(data[..write]), pad), before)
    {
      ghost var out := data[..write];
      if error {
        Fill(0, SIZE);
        assert data[..] == [] + Zeros(SIZE) + [];
      } else if pad.Some? {
        PutInZeros(write, pad.value);
      } else {
        assert data[..] == out + data[write..];
      }
    }

    /** assign(): reads the text into the 16 bytes. */
    method Assign(text: bytes)
      requires data.Length == SIZE
      modifies data
      ensures data[..] == Assigned(text, old(data[..]))
    {
      ghost var before := data[..];
      var error, write, pad := Scan(text);
      assert data[write..] == before[write..];
      Finish(error, write, pad, before);
    }

    function GroupAt(i: nat): nat
      requires data.Length == SIZE && i < 8
      reads data
    {
      256 * (data[2 * i] as int) + data[2 * i + 1]
    }

    /** The search for the groups to shorten. */
    method FindRun() returns (run: Run)
      requires data.Length == SIZE
      ensures LastLongest(data[..], run, 8)
    {
      hide LastLongest, Longer;
      ghost var d := data[..];
      run := NoRun;
      NoneYet(d);
      var candidate: nat, inZero := 0, false;
      var it := 0;
      while it < 8
        invariant it <= 8
        invariant if inZero then candidate < it && ZeroRun(data[..], candidate, it - 1)
                       && (candidate > 0 ==> Group(data[..], candidate - 1) != 0)
                  else it > 0 ==> Group(data[..], it - 1) != 0
        invariant LastLongest(data[..], run, if inZero then candidate else it)
      {
        if GroupAt(it) == 0 {
          if !inZero {
            candidate := it;
            inZero := true;
          }
        } else {
          if inZero {
            LongestSoFar(d, run, candidate, it);
            run := Longer(run, candidate, it);
            inZero := false;
          }
          LongestStays(d, run, it);
        }
        it := it + 1;
      }
      if inZero {
        LongestSoFar(d, run, candidate, 8);
        run := Longer(run, candidate, 8);
      }
    }

    method PrintDotted() returns (text: bytes)
      requires data.Length == SIZE
      ensures text == DottedForm(data[..])
    {
      hide Dec, Hex;
      text := [COLON, COLON] + Hex(0xffff) + [COLON];
      ghost var start := text;
      var it := 12;
      while it < SIZE
        invariant 12 <= it <= SIZE && text == start + Pointed(data[12..it])
      {
        assert data[12..it + 1] == data[12..it] + [data[it]];
        PointedOne(data[12..it], data[it]);
        Associate(start, Pointed(data[12..it]), Dec(data[it]) + [DOT]);
        text := text + (Dec(data[it]) + [DOT]);
        it := it + 1;
      }
      text := text[..|text| - 1];
      PointedFour(data[12], data[13], data[14], data[15]);
      assert data[12..it] == [data[12], data[13], data[14], data[15]];
      assert text == DottedForm(data[..]);
    }

    method PrintGroup(run: Run, it: nat) returns (piece: bytes)
      requires data.Length == SIZE && it < 8
      ensures piece == Piece(HexTexts(data[..]), run, it)
    {
      piece := [];
      if run.Run? && run.start <= it <= run.end {
        if it == run.start == 0 { piece := piece + [COLON]; }
        if it == run.end { piece := piece + [COLON]; }
      } else {
        piece := Hex(GroupAt(it));
        if it < 7 { piece := piece + [COLON]; }
      }
    }

    method PrintGroups(run: Run) returns (text: bytes)
      requires data.Length == SIZE
      ensures text == Groups(HexTexts(data[..]), run, 0, Eighth)
    {
      hide Groups, Piece, HexTexts;
      ghost var texts := HexTexts(data[..]);
      GroupsEnd(texts, run);
      text := [];
      var it := 0;
      while it < 8
        invariant 0 <= it <= 8 && text + Groups(texts, run, it, Eighth) == Groups(texts, run, 0, Eighth)
      {
        var piece := PrintGroup(run, it);
        GroupsStep(texts, run, it, Eighth);
        Associate(text, piece, Groups(texts, run, it + 1, Eighth));
        text := text + piece;
        it := it + 1;
      }
    }

    /** operator<<: what it prints is read back as the same address, over whatever
        was there before. */
    method Print() returns (text: bytes)
      requires data.Length == SIZE
      ensures exists run :: LastLongest(data[..], run, 8) && text == Printed(data[..], run)
      ensures |text| < 40
      ensures forall before: bytes | |before| == SIZE :: Assigned(text, before) == data[..]
    {
      var run := FindRun();
      if run.Run? && run.start == 0 && run.end == 4 && GroupAt(5) == 0xffff {
        text := PrintDotted();
      } else {
        text := PrintGroups(run);
      }
      PrintedFits(data[..], run);
      forall before: bytes | |before| == SIZE ensures Assigned(text, before) == data[..] {
        AddressRoundTrip(data[..], run, before);
      }
    }
  }
}
