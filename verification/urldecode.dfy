// Decoding URL-encoded text (src/http.cpp, percentEscapedToRealBytes and
// decodeUrlEncoded), and its agreement with the escaping of the output stream.

module UrlDecoding {
  import opened BigEndian
  import opened Common
  import opened Escaping
  import opened Framing

  const PERCENT: byte := 0x25
  const PLUS: byte := 0x2b
  const EQUALS: byte := 0x3d
  const SPACE: byte := 0x20

  /** c|0x20 */
  function Lower(c: byte): byte {
    if c / 32 % 2 == 0 then c + 32 else c
  }

  /** The value of a hexadecimal digit; anything else contributes nothing. */
  function HexValue(c: byte): (v: nat)
    ensures v < 16
  {
    if 0x61 <= Lower(c) <= 0x66 then Lower(c) - 0x57
    else if 0x30 <= c <= 0x39 then c - 0x30
    else 0
  }

  /** The bytes an escaped text stands for; an escape cut short stands for none. */
  function PercentDecode(s: bytes): bytes {
    if s == [] then []
    else if s[0] == PERCENT then
      if |s| < 3 then [] else [16 * HexValue(s[1]) + HexValue(s[2])] + PercentDecode(s[3..])
    else if s[0] == PLUS then [SPACE] + PercentDecode(s[1..])
    else [s[0]] + PercentDecode(s[1..])
  }

  datatype State = NORMAL | DECODINGFIRST | DECODINGSECOND

  /** The byte the piece at the front stands for, and how long the piece is. */
  function Piece(s: bytes): (r: (byte, nat))
    requires s != [] && (s[0] == PERCENT ==> |s| >= 3)
    ensures 1 <= r.1 <= 3 && r.1 <= |s|
  {
    if s[0] == PERCENT then (16 * HexValue(s[1]) + HexValue(s[2]), 3)
    else if s[0] == PLUS then (SPACE, 1)
    else (s[0], 1)
  }

  lemma DecodeFirst(t: bytes, c: byte, n: nat)
    requires t != [] && (t[0] == PERCENT ==> |t| >= 3) && Piece(t) == (c, n)
    ensures PercentDecode(t) == [c] + PercentDecode(t[n..])
  {
  }

  lemma DecodePiece(decoded: bytes, s: bytes, at: nat, c: byte, n: nat)
    requires at < |s| && (s[at] == PERCENT ==> at + 3 <= |s|) && Piece(s[at..]) == (c, n)
    requires PercentDecode(s) == decoded + PercentDecode(s[at..])
    ensures PercentDecode(s) == (decoded + [c]) + PercentDecode(s[at + n..])
  {
    DecodeFirst(s[at..], c, n);
    assert s[at..][n..] == s[at + n..];
    Associate(decoded, [c], PercentDecode(s[at + n..]));
  }

  lemma DecodeEmpty(s: bytes)
    ensures PercentDecode(s) == [] + PercentDecode(s[0..])
  {
    assert s[0..] == s;
  }

  /** A percent sign with fewer than two characters after it stands for nothing. */
  lemma DecodeCut(s: bytes, at: nat)
    requires at <= |s| <= at + 2 && (at < |s| ==> s[at] == PERCENT)
    ensures PercentDecode(s[at..]) == []
  {
  }

  method PercentEscapedToRealBytes(s: bytes, destination: array<byte>) returns (n: nat)
    requires |s| <= destination.Length
    modifies destination
    ensures n <= |s| && destination[..n] == PercentDecode(s)
  {
    hide HexValue, PercentDecode;
    var state := NORMAL;
    var start := 0;
    n := 0;
    DecodeEmpty(s);
    ghost var at := 0;  // where the piece being decoded starts
    while start != |s|
      invariant n <= at <= start <= |s|
      invariant PercentDecode(s) == destination[..n] + PercentDecode(s[at..])
      invariant match state
        case NORMAL => at == start
        case DECODINGFIRST => at + 1 == start && s[at] == PERCENT
        case DECODINGSECOND => at + 2 == start && s[at] == PERCENT && destination[n] == 16 * HexValue(s[at + 1])
      decreases |s| - start
    {
      ghost var before := destination[..n];
      if state == NORMAL {
        if s[start] == PERCENT {
          destination[n] := 0;
          assert destination[..n] == before;
          state := DECODINGFIRST;
        } else {
          destination[n] := if s[start] == PLUS then SPACE else s[start];
          DecodePiece(before, s, at, destination[n], 1);
          n := n + 1;
          at := at + 1;
          assert destination[..n] == before + [destination[n - 1]];
        }
      } else if state == DECODINGFIRST {
        destination[n] := 16 * HexValue(s[start]);
        assert destination[..n] == before;
        state := DECODINGSECOND;
      } else {
        destination[n] := destination[n] + HexValue(s[start]);
        DecodePiece(before, s, at, destination[n], 3);
        n := n + 1;
        at := at + 3;
        assert destination[..n] == before + [destination[n - 1]];
        state := NORMAL;
      }
      start := start + 1;
    }
    DecodeCut(s, at);
  }

  lemma HexRoundTrip(n: nat)
    requires n < 16
    ensures HexValue(HexDigit(n)) == n
  {
  }

  lemma DecodeEscapedByte(c: byte, rest: bytes)
    ensures PercentDecode(EscapeByte(URL, c) + rest) == [c] + PercentDecode(rest)
  {
    var s := EscapeByte(URL, c) + rest;
    if UrlSpecial(c) {
      HexRoundTrip(c / 16);
      HexRoundTrip(c % 16);
      assert s[3..] == rest;
    } else {
      assert s[1..] == rest;
    }
  }

  /** What xsputn writes in URL encoding decodes to what it was given. */
  lemma {:induction false} DecodeEscape(x: bytes)
    ensures PercentDecode(Escape(URL, x)) == x
  {
    if x != [] {
      DecodeEscapedByte(x[0], Escape(URL, x[1..]));
      DecodeEscape(x[1..]);
    }
  }

  /** A byte in a URL-encoded text: itself, a plus sign for a space, or a percent sign and
      two hexadecimal digits in either case. */
  datatype Spelling = Itself(c: byte) | Plus | Escaped(high: byte, low: byte, value: byte)

  const LOWER_DIGITS := "0123456789abcdef"

  predicate IsHexDigit(c: byte, d: nat) {
    d < 16 && |LOWER_DIGITS| == |UPPER_DIGITS| == 16
    && (c == LOWER_DIGITS[d] as int || c == UPPER_DIGITS[d] as int)
  }

  predicate Fits(x: Spelling) {
    match x
    case Itself(c) => c as char != '%' && c as char != '+'
    case Plus => true
    case Escaped(high, low, value) => IsHexDigit(high, value / 16) && IsHexDigit(low, value % 16)
  }

  function Spelt(x: Spelling): (t: bytes)
    ensures t != []
  {
    match x
    case Itself(c) => [c]
    case Plus => ['+' as int]
    case Escaped(high, low, _) => ['%' as int, high, low]
  }

  function Meaning(x: Spelling): byte {
    match x
    case Itself(c) => c
    case Plus => ' ' as int
    case Escaped(_, _, value) => value
  }

  function TextOf(xs: seq<Spelling>): bytes {
    if xs == [] then [] else Spelt(xs[0]) + TextOf(xs[1..])
  }

  lemma HexDigitRead(c: byte, d: nat)
    requires IsHexDigit(c, d)
    ensures HexValue(c) == d
  {
    assert LOWER_DIGITS[d] as int == if d < 10 then 0x30 + d else 0x61 + (d - 10);
    assert UPPER_DIGITS[d] as int == if d < 10 then 0x30 + d else 0x41 + (d - 10);
  }

  /** Any other character in an escape counts as a zero. */
  lemma OtherDigitRead(c: byte)
    requires forall d: nat | d < 16 :: !IsHexDigit(c, d)
    ensures HexValue(c) == 0
  {
    if 0x30 <= c <= 0x39 {
      assert IsHexDigit(c, c - 0x30) by { assert LOWER_DIGITS[c - 0x30] as int == c; }
    } else if 0x61 <= c <= 0x66 {
      assert IsHexDigit(c, c - 0x57) by { assert LOWER_DIGITS[c - 0x57] as int == c; }
    } else if 0x41 <= c <= 0x46 {
      assert IsHexDigit(c, c - 0x37) by { assert UPPER_DIGITS[c - 0x37] as int == c; }
    }
  }

  lemma SpellingRead(x: Spelling, rest: bytes)
    requires Fits(x)
    ensures PercentDecode(Spelt(x) + rest) == [Meaning(x)] + PercentDecode(rest)
  {
    var t := Spelt(x) + rest;
    match x {
      case Itself(c) =>
        assert t[1..] == rest;
      case Plus =>
        assert t[1..] == rest;
      case Escaped(high, low, value) =>
        HexDigitRead(high, value / 16);
        HexDigitRead(low, value % 16);
        hide HexValue, IsHexDigit;
        assert t[3..] == rest;
    }
  }

  /** However each byte is spelled, decoding gives the bytes. */
  lemma {:induction false} AnySpellingDecoded(xs: seq<Spelling>)
    requires forall x <- xs :: Fits(x)
    ensures |PercentDecode(TextOf(xs))| == |xs|
    ensures forall i | 0 <= i < |xs| :: PercentDecode(TextOf(xs))[i] == Meaning(xs[i])
  {
    if xs != [] {
      hide Fits, Spelt, Meaning, PercentDecode;
      assert xs[0] in xs;
      SpellingRead(xs[0], TextOf(xs[1..]));
      AnySpellingDecoded(xs[1..]);
    } else {
      assert PercentDecode([]) == [];
    }
  }

  // ---- name=value lists -----------------------------------------------------

  type Pair = (bytes, bytes)

  /** Reading a name, of which raw was read already. */
  function ScanName(sep: bytes, rest: bytes, raw: bytes): seq<Pair>
    requires sep != []
    decreases |rest|, 0
  {
    if rest == [] then []
    else if rest[0] == EQUALS then ScanValue(sep, rest[1..], PercentDecode(raw), [])
    else ScanName(sep, rest[1..], raw + [rest[0]])
  }

  /** Reading a value, of which raw was read already. */
  function ScanValue(sep: bytes, rest: bytes, name: bytes, raw: bytes): seq<Pair>
    requires sep != []
    decreases |rest|, 1
  {
    if rest == [] then [(name, PercentDecode(raw))]
    else if sep <= rest then [(name, PercentDecode(raw))] + ScanName(sep, rest[|sep|..], [])
    else ScanValue(sep, rest[1..], name, raw + [rest[0]])
  }

  /** What is still to be inserted at position i, when the name or value being
      read began at position from. */
  ghost function Remaining(sep: bytes, data: bytes, i: nat, name: Option<bytes>, from: nat): seq<Pair>
    requires sep != [] && (i <= |data| ==> from <= i)
  {
    if i > |data| then []
    else if name.None? then ScanName(sep, data[i..], data[from..i])
    else ScanValue(sep, data[i..], name.value, data[from..i])
  }

  /** data continues with sep at position i. */
  predicate SeparatorAt(sep: bytes, data: bytes, i: nat) {
    i + |sep| <= |data| && data[i..i + |sep|] == sep
  }

  lemma SeparatorPrefix(sep: bytes, data: bytes, i: nat)
    requires i <= |data|
    ensures SeparatorAt(sep, data, i) <==> sep <= data[i..]
  {
    if i + |sep| <= |data| {
      assert data[i..][..|sep|] == data[i..i + |sep|];
    }
  }

  lemma ReadOn(sep: bytes, data: bytes, i: nat, name: Option<bytes>, from: nat)
    requires sep != [] && from <= i <= |data|
    requires name.None? ==> i == |data| || data[i] != EQUALS
    requires name.Some? ==> i < |data| && !SeparatorAt(sep, data, i)
    ensures Remaining(sep, data, i, name, from) == Remaining(sep, data, i + 1, name, from)
  {
    hide PercentDecode;
    SeparatorPrefix(sep, data, i);
    if i == |data| {
      assert data[i..] == [];
    } else {
      OneOn(data, from, i);
      if name.None? {
        assert ScanName(sep, data[i..], data[from..i]) == ScanName(sep, data[i + 1..], data[from..i + 1]);
      } else {
        assert ScanValue(sep, data[i..], name.value, data[from..i])
            == ScanValue(sep, data[i + 1..], name.value, data[from..i + 1]);
      }
    }
  }

  lemma OneOn(data: bytes, from: nat, i: nat)
    requires from <= i < |data|
    ensures data[i..] != [] && data[i..][0] == data[i] && data[i..][1..] == data[i + 1..]
    ensures data[from..i] + [data[i]] == data[from..i + 1]
  {
  }

  lemma ReadEquals(sep: bytes, data: bytes, i: nat, from: nat)
    requires sep != [] && from <= i < |data| && data[i] == EQUALS
    ensures Remaining(sep, data, i, None, from)
         == Remaining(sep, data, i + 1, Some(PercentDecode(data[from..i])), i + 1)
  {
    assert data[i..][1..] == data[i + 1..] && data[i + 1..i + 1] == [];
  }

  lemma ReadSeparator(sep: bytes, data: bytes, i: nat, name: bytes, from: nat)
    requires sep != [] && from <= i <= |data| && (i == |data| || SeparatorAt(sep, data, i))
    ensures Remaining(sep, data, i, Some(name), from)
         == [(name, PercentDecode(data[from..i]))] + Remaining(sep, data, i + |sep|, None, i + |sep|)
  {
    SeparatorPrefix(sep, data, i);
    if i < |data| {
      assert data[i..][|sep|..] == data[i + |sep|..] && data[i + |sep|..i + |sep|] == [];
    }
  }

  lemma AllRemains(sep: bytes, data: bytes)
    requires sep != []
    ensures Remaining(sep, data, 0, None, 0) == ScanName(sep, data, [])
  {
    assert data[0..] == data && data[0..0] == [];
  }

  lemma NothingRemains(sep: bytes, data: bytes, i: nat, name: Option<bytes>, from: nat)
    requires sep != [] && i > |data|
    ensures Remaining(sep, data, i, name, from) == []
  {
  }

  lemma OnePair(output: seq<Pair>, pair: Pair, rest: seq<Pair>)
    ensures output + [pair] + rest == output + ([pair] + rest)
  {
  }

  /** The pairs are inserted in the order ScanName lists them. */
  method DecodeUrlEncoded(data: bytes, sep: bytes) returns (output: seq<Pair>)
    requires sep != []
    ensures output == ScanName(sep, data, [])
  {
    hide ScanName, ScanValue, PercentDecode, Remaining;
    var buffer := new byte[|data|];
    var name: Option<bytes> := None;
    var from: nat, i: nat := 0, 0;
    output := [];
    AllRemains(sep, data);
    while i <= |data|
      invariant i <= |data| ==> from <= i
      invariant output + Remaining(sep, data, i, name, from) == ScanName(sep, data, [])
      decreases |data| + |sep| + 1 - i
    {
      if name.Some? {
        if i == |data| || (i + |sep| <= |data| && data[i..i + |sep|] == sep) {
          var valueEnd := PercentEscapedToRealBytes(data[from..i], buffer);
          ReadSeparator(sep, data, i, name.value, from);
          OnePair(output, (name.value, buffer[..valueEnd]), Remaining(sep, data, i + |sep|, None, i + |sep|));
          output := output + [(name.value, buffer[..valueEnd])];
          from := i + |sep|;
          i := i + |sep|;
          name := None;
          continue;
        }
        ReadOn(sep, data, i, name, from);
      } else if i != |data| && data[i] == EQUALS {
        var nameEnd := PercentEscapedToRealBytes(data[from..i], buffer);
        ReadEquals(sep, data, i, from);
        name := Some(buffer[..nameEnd]);
        from := i + 1;
      } else {
        ReadOn(sep, data, i, name, from);
      }
      i := i + 1;
    }
    NothingRemains(sep, data, i, name, from);
  }

  // ---- Round trip -----------------------------------------------------------

  /** name=value pairs, escaped for URLs and joined by sep. */
  function Join(sep: bytes, pairs: seq<Pair>): bytes {
    if pairs == [] then []
    else
      var (name, value) := pairs[0];
      var first := Escape(URL, name) + [EQUALS] + Escape(URL, value);
      if |pairs| == 1 then first else first + (sep + Join(sep, pairs[1..]))
  }

  /** Escaped text holds no special character but the percent sign. */
  lemma {:induction false} EscapedIsPlain(x: bytes)
    ensures forall c <- Escape(URL, x) :: c == PERCENT || !UrlSpecial(c)
  {
    if x != [] {
      EscapedIsPlain(x[1..]);
      assert forall c <- EscapeByte(URL, x[0]) :: c == PERCENT || !UrlSpecial(c);
    }
  }

  lemma {:induction false} SkipName(sep: bytes, plain: bytes, rest: bytes, raw: bytes)
    requires sep != [] && EQUALS !in plain
    ensures ScanName(sep, plain + [EQUALS] + rest, raw) == ScanValue(sep, rest, PercentDecode(raw + plain), [])
    decreases |plain|
  {
    var s := plain + [EQUALS] + rest;
    if plain == [] {
      assert s[1..] == rest && raw + plain == raw;
    } else {
      assert s[1..] == plain[1..] + [EQUALS] + rest;
      assert raw + plain == (raw + [plain[0]]) + plain[1..];
      SkipName(sep, plain[1..], rest, raw + [plain[0]]);
    }
  }

  /** Before the end of v there is no separator. */
  ghost predicate Unseparated(sep: bytes, v: bytes, rest: bytes) {
    forall k | 0 <= k < |v| :: !(sep <= (v + rest)[k..])
  }

  lemma {:induction false} SkipValue(sep: bytes, v: bytes, rest: bytes, name: bytes, raw: bytes)
    requires sep != [] && Unseparated(sep, v, rest) && (rest == [] || sep <= rest)
    ensures ScanValue(sep, v + rest, name, raw)
         == [(name, PercentDecode(raw + v))] + (if rest == [] then [] else ScanName(sep, rest[|sep|..], []))
    decreases |v|
  {
    var s := v + rest;
    if v == [] {
      assert s == rest && raw + v == raw;
    } else {
      assert s[0..] == s && s[1..] == v[1..] + rest && s[0] == v[0];
      assert raw + v == (raw + [v[0]]) + v[1..];
      forall k | 0 <= k < |v| - 1 ensures !(sep <= (v[1..] + rest)[k..]) {
        assert s[k + 1..] == s[1..][k..];
      }
      SkipValue(sep, v[1..], rest, name, raw + [v[0]]);
    }
  }

  /** A field of any text: its name goes up to the first equals sign, whatever else is in
      it, and its value up to the next separator or the end. */
  lemma AnyFieldRead(sep: bytes, n: bytes, v: bytes, rest: bytes)
    requires sep != [] && EQUALS !in n && Unseparated(sep, v, rest) && (rest == [] || sep <= rest)
    ensures ScanName(sep, n + [EQUALS] + (v + rest), [])
         == [(PercentDecode(n), PercentDecode(v))] + (if rest == [] then [] else ScanName(sep, rest[|sep|..], []))
  {
    SkipName(sep, n, v + rest, []);
    SkipValue(sep, v, rest, PercentDecode(n), []);
    assert [] + n == n && [] + v == v;
  }

  /** What has no equals sign is no field. */
  lemma {:induction false} NoFieldWithoutEquals(sep: bytes, rest: bytes, raw: bytes)
    requires sep != [] && EQUALS !in rest
    ensures ScanName(sep, rest, raw) == []
    decreases |rest|
  {
    if rest != [] {
      NoFieldWithoutEquals(sep, rest[1..], raw + [rest[0]]);
    }
  }

  lemma {:induction false} OneField(sep: bytes, name: bytes, value: bytes, rest: bytes)
    requires sep != [] && UrlSpecial(sep[0]) && sep[0] != PERCENT && (rest == [] || sep <= rest)
    ensures ScanName(sep, Escape(URL, name) + [EQUALS] + (Escape(URL, value) + rest), [])
         == [(name, value)] + (if rest == [] then [] else ScanName(sep, rest[|sep|..], []))
  {
    var n, v := Escape(URL, name), Escape(URL, value);
    EscapedIsPlain(name);
    EscapedIsPlain(value);
    forall k | 0 <= k < |v| ensures !(sep <= (v + rest)[k..]) {
      assert (v + rest)[k..][0] == v[k] && v[k] in v;
    }
    AnyFieldRead(sep, n, v, rest);
    DecodeEscape(name);
    DecodeEscape(value);
  }

  /** Any names and values, escaped by the output stream and joined by a separator
      such as "&" or "; ", come back exactly and in order. The separator may be any
      text that begins with an escaped character other than the percent sign. */
  lemma {:induction false} UrlEncodedRoundTrip(sep: bytes, pairs: seq<Pair>)
    requires sep != [] && UrlSpecial(sep[0]) && sep[0] != PERCENT
    ensures ScanName(sep, Join(sep, pairs), []) == pairs
  {
    if pairs != [] {
      var (name, value) := pairs[0];
      var rest := if |pairs| == 1 then [] else sep + Join(sep, pairs[1..]);
      OneField(sep, name, value, rest);
      Associate(Escape(URL, name) + [EQUALS], Escape(URL, value), rest);
      if |pairs| > 1 {
        assert rest[|sep|..] == Join(sep, pairs[1..]);
        UrlEncodedRoundTrip(sep, pairs[1..]);
      } else {
        assert Escape(URL, value) + rest == Escape(URL, value);
      }
    }
  }
}
