// Base64 (include/fastcgi++/http.hpp, base64Encode and base64Decode; section 4 of
// RFC 4648). The source combines bits that do not overlap, so its shifts and ors are
// sums here.

module Base64 {
  import opened BigEndian
  import opened Common

  const UPPER := "ABCDEFGHIJKLMNOPQRSTUVWXYZ"
  const LOWER := "abcdefghijklmnopqrstuvwxyz"
  const DIGITS := "0123456789"

  const CHARACTERS := UPPER + LOWER + DIGITS + "+/"

  const PAD := '='

  /** What the decoder takes a character for. */
  function Value(c: char): (v: Option<nat>)
    ensures v.Some? ==> v.value < 64
  {
    if 'A' <= c <= 'Z' then Some(c as int - 'A' as int)
    else if 'a' <= c <= 'z' then Some(c as int - 'a' as int + 26)
    else if '0' <= c <= '9' then Some(c as int - '0' as int + 52)
    else if c == '+' then Some(62)
    else if c == '/' then Some(63)
    else None
  }

  lemma Upper(v: nat)
    requires v < 26
    ensures Value(UPPER[v]) == Some(v)
  {
    assert UPPER[v] as int == 'A' as int + v;
    hide UPPER;
  }

  lemma Lower(v: nat)
    requires v < 26
    ensures Value(LOWER[v]) == Some(26 + v)
  {
    assert LOWER[v] as int == 'a' as int + v;
    hide LOWER;
  }

  lemma Digit(v: nat)
    requires v < 10
    ensures Value(DIGITS[v]) == Some(52 + v)
  {
    assert DIGITS[v] as int == '0' as int + v;
    hide DIGITS;
  }

  lemma Parts(v: nat)
    requires v < 64
    ensures |CHARACTERS| == 64 && |UPPER| == |LOWER| == 26 && |DIGITS| == 10
    ensures CHARACTERS[v] == if v < 26 then UPPER[v] else if v < 52 then LOWER[v - 26]
      else if v < 62 then DIGITS[v - 52] else if v == 62 then '+' else '/'
  {
    assert |UPPER| == |LOWER| == 26 && |DIGITS| == 10;
    hide UPPER, LOWER, DIGITS;
  }

  /** The decoder inverts the encoder's table. */
  lemma Table(v: nat)
    requires v < 64
    ensures |CHARACTERS| == 64 && Value(CHARACTERS[v]) == Some(v)
  {
    Parts(v);
    assert Value('+') == Some(62) && Value('/') == Some(63);
    hide CHARACTERS, UPPER, LOWER, DIGITS, Value;
    if v < 26 {
      Upper(v);
    } else if v < 52 {
      Lower(v - 26);
    } else if v < 62 {
      Digit(v - 52);
    }
  }

  function Char(v: nat): (c: char)
    requires v < 64
    ensures Value(c) == Some(v)
  {
    Table(v);
    CHARACTERS[v]
  }

  // ---- Encoding -------------------------------------------------------------

  /** The 24 bits of up to three bytes. */
  function Bits(g: bytes): (b: nat)
    requires |g| <= 3
    ensures b < 0x100_0000
  {
    (if |g| > 0 then 0x1_0000 * (g[0] as int) else 0)
    + (if |g| > 1 then 0x100 * (g[1] as int) else 0)
    + (if |g| > 2 then g[2] as int else 0)
  }

  /** Four characters for one to three bytes. */
  function EncodeGroup(g: bytes): (s: string)
    requires 1 <= |g| <= 3
    ensures |s| == 4
  {
    var b := Bits(g);
    [Char(b / 0x4_0000 % 64), Char(b / 0x1000 % 64),
     if |g| > 1 then Char(b / 64 % 64) else PAD, if |g| > 2 then Char(b % 64) else PAD]
  }

  function Encode(x: bytes): string {
    if x == [] then ""
    else if |x| <= 3 then EncodeGroup(x)
    else EncodeGroup(x[..3]) + Encode(x[3..])
  }

  /** RFC 4648: four characters for every three bytes begun. */
  lemma {:induction false} EncodedLength(x: bytes)
    ensures |Encode(x)| == (|x| + 2) / 3 * 4
  {
    hide EncodeGroup;
    if |x| > 3 {
      EncodedLength(x[3..]);
      assert (|x[3..]| + 2) / 3 + 1 == (|x| + 2) / 3;
    }
  }

  // ---- Decoding -------------------------------------------------------------

  /** Up to four characters: their 24 bits, up to a pad and where it was, or neither. */
  datatype Group = Bad | Whole(bits: nat) | Padded(bits: nat, at: nat)

  /** k characters of the group were read before. */
  function Load(s: string, at: nat, k: nat, bits: nat): Group
    requires k <= 4
    decreases 4 - k
  {
    if k == 4 then Whole(bits)
    else if at >= |s| then Bad
    else if s[at] == PAD then Padded(bits, k)
    else if Value(s[at]).None? then Bad
    else Load(s, at + 1, k + 1, bits + Value(s[at]).value * Weight(k))
  }

  function Weight(k: nat): nat {
    if k == 0 then 0x4_0000 else if k == 1 then 0x1000 else if k == 2 then 64 else 1
  }

  function First(bits: nat): byte {
    bits / 0x1_0000 % 256
  }

  function Second(bits: nat): byte {
    bits / 0x100 % 256
  }

  function Third(bits: nat): byte {
    bits % 256
  }

  /** The bytes returned, none on an error, and how many were written. */
  datatype Decoded = Decoded(data: bytes, written: nat)

  /** A padded group: what is returned of it depends on where the first pad was. */
  function DecodePadded(out: bytes, bits: nat, at: nat): Decoded {
    if at == 0 then Decoded(out, |out| + 1)
    else if at == 1 then Decoded(out + [First(bits)], |out| + 1)
    else if at == 2 then Decoded(out + [First(bits)], |out| + 2)
    else Decoded(out + [First(bits), Second(bits)], |out| + 2)
  }

  function DecodeFrom(s: string, at: nat, out: bytes): Decoded
    decreases |s| - at
  {
    if at >= |s| then Decoded(out, |out|)
    else
      match Load(s, at, 0, 0)
      case Bad => Decoded([], |out|)
      case Padded(bits, k) => DecodePadded(out, bits, k)
      case Whole(bits) => DecodeFrom(s, at + 4, out + [First(bits), Second(bits), Third(bits)])
  }

  function Decode(s: string): Decoded {
    DecodeFrom(s, 0, [])
  }

  // ---- Round trip -----------------------------------------------------------

  /** Six bits four times are the 24 bits. */
  lemma Sextets(b: nat)
    requires b < 0x100_0000
    ensures b / 0x4_0000 % 64 * 0x4_0000 + b / 0x1000 % 64 * 0x1000 + b / 64 % 64 * 64 + b % 64 == b
  {
    var q, r := b / 64, b / 0x1000;
    assert b == 64 * q + b % 64;
    assert q == 64 * r + q % 64;
    assert b / 0x4_0000 == r / 64;
  }

  lemma LoadTwo(s: string, at: nat, a: nat, b: nat)
    requires at + 1 < |s| && Value(s[at]) == Some(a) && Value(s[at + 1]) == Some(b)
    ensures Load(s, at, 0, 0) == Load(s, at + 2, 2, a * 0x4_0000 + b * 0x1000)
  {
    assert Value(PAD).None?;
    hide Value, Load;
    LoadMore(s, at, 0, 0);
    LoadMore(s, at + 1, 1, a * 0x4_0000);
  }

  lemma LoadThree(s: string, at: nat, a: nat, b: nat, c: nat)
    requires at + 2 < |s| && Value(s[at]) == Some(a) && Value(s[at + 1]) == Some(b) && Value(s[at + 2]) == Some(c)
    ensures Load(s, at, 0, 0) == Load(s, at + 3, 3, a * 0x4_0000 + b * 0x1000 + c * 64)
  {
    assert Value(PAD).None?;
    hide Value, Load;
    LoadTwo(s, at, a, b);
    LoadMore(s, at + 2, 2, a * 0x4_0000 + b * 0x1000);
  }

  lemma LoadFour(s: string, at: nat, a: nat, b: nat, c: nat, d: nat)
    requires at + 3 < |s| && Value(s[at]) == Some(a) && Value(s[at + 1]) == Some(b)
    requires Value(s[at + 2]) == Some(c) && Value(s[at + 3]) == Some(d)
    ensures Load(s, at, 0, 0) == Whole(a * 0x4_0000 + b * 0x1000 + c * 64 + d)
  {
    assert Value(PAD).None?;
    hide Value, Load;
    LoadThree(s, at, a, b, c);
    LoadMore(s, at + 3, 3, a * 0x4_0000 + b * 0x1000 + c * 64);
    LoadStops(s, at + 4, 4, a * 0x4_0000 + b * 0x1000 + c * 64 + d);
  }

  lemma LoadWhole(s: string, at: nat, b: nat)
    requires b < 0x100_0000 && at + 4 <= |s|
    requires Value(s[at]) == Some(b / 0x4_0000 % 64) && Value(s[at + 1]) == Some(b / 0x1000 % 64)
    requires Value(s[at + 2]) == Some(b / 64 % 64) && Value(s[at + 3]) == Some(b % 64)
    ensures Load(s, at, 0, 0) == Whole(b)
  {
    hide Value, Load;
    Sextets(b);
    LoadFour(s, at, b / 0x4_0000 % 64, b / 0x1000 % 64, b / 64 % 64, b % 64);
  }

  lemma LoadPadded(s: string, at: nat, b: nat, k: nat)
    requires b < 0x100_0000 && at + k < |s| && s[at + k] == PAD
    requires (k == 2 && b / 64 % 64 == b % 64 == 0) || (k == 3 && b % 64 == 0)
    requires Value(s[at]) == Some(b / 0x4_0000 % 64) && Value(s[at + 1]) == Some(b / 0x1000 % 64)
    requires k == 3 ==> Value(s[at + 2]) == Some(b / 64 % 64)
    ensures Load(s, at, 0, 0) == Padded(b, k)
  {
    hide Value, Load;
    Sextets(b);
    if k == 3 {
      LoadThree(s, at, b / 0x4_0000 % 64, b / 0x1000 % 64, b / 64 % 64);
    } else {
      LoadTwo(s, at, b / 0x4_0000 % 64, b / 0x1000 % 64);
    }
    LoadStops(s, at + k, k, b);
  }

  lemma ThreeBytes(a: byte, b: byte, c: byte)
    ensures var v := 0x1_0000 * (a as int) + 0x100 * (b as int) + c;
      First(v) == a && Second(v) == b && Third(v) == c
  {
    var v := 0x1_0000 * (a as int) + 0x100 * (b as int) + c;
    assert v / 0x1_0000 == a && v / 0x100 == 256 * (a as int) + b;
  }

  /** The sextets a missing byte leaves empty. */
  lemma LowSextets(a: byte, b: byte)
    ensures (0x1_0000 * (a as int) + 0x100 * (b as int)) % 64 == 0
    ensures 0x1_0000 * (a as int) / 64 % 64 == 0
  {
    assert 0x1_0000 * (a as int) + 0x100 * (b as int) == 64 * (1024 * (a as int) + 4 * (b as int));
    assert 0x1_0000 * (a as int) / 64 == 64 * (16 * (a as int));
  }

  lemma BitsOf(g: bytes)
    requires 1 <= |g| <= 3
    ensures First(Bits(g)) == g[0]
    ensures if |g| == 1 then Bits(g) / 64 % 64 == Bits(g) % 64 == 0
            else Second(Bits(g)) == g[1] && if |g| == 2 then Bits(g) % 64 == 0 else Third(Bits(g)) == g[2]
  {
    hide First, Second, Third;
    var b: byte := if |g| > 1 then g[1] else 0;
    ThreeBytes(g[0], b, if |g| > 2 then g[2] else 0);
    LowSextets(g[0], b);
  }

  /** One encoded group at a position is loaded as its bits. */
  lemma {:induction false} LoadGroup(s: string, at: nat, g: bytes)
    requires 1 <= |g| <= 3 && at + 4 <= |s| && s[at..at + 4] == EncodeGroup(g)
    ensures Load(s, at, 0, 0) == if |g| == 3 then Whole(Bits(g)) else Padded(Bits(g), |g| + 1)
  {
    var e := EncodeGroup(g);
    var t := s[at..at + 4];
    assert t[0] == s[at] && t[1] == s[at + 1] && t[2] == s[at + 2] && t[3] == s[at + 3];
    BitsOf(g);
    if |g| == 3 {
      LoadWhole(s, at, Bits(g));
    } else {
      LoadPadded(s, at, Bits(g), |g| + 1);
    }
  }

  lemma {:induction false} DecodeRest(s: string, at: nat, out: bytes, x: bytes)
    requires at <= |s| && s[at..] == Encode(x)
    ensures DecodeFrom(s, at, out).data == out + x
    decreases |x|
  {
    hide DecodeFrom, Encode, EncodeGroup, Bits;
    if x == [] {
      EncodedLength([]);
      assert s[at..] == "" && out + x == out;
      DecodeEnd(s, at, out);
    } else if |x| < 3 {
      DecodeLast(s, at, out, x);
    } else {
      var g := x[..3];
      EncodeFront(x);
      Cut(s, at, EncodeGroup(g), Encode(x[3..]));
      DecodeWhole(s, at, out, g);
      DecodeRest(s, at + 4, out + g, x[3..]);
      assert x == g + x[3..];
      assert out + g + x[3..] == out + (g + x[3..]);
    }
  }

  lemma DecodeEnd(s: string, at: nat, out: bytes)
    requires at >= |s|
    ensures DecodeFrom(s, at, out) == Decoded(out, |out|)
  {
  }

  lemma Cut(s: string, at: nat, a: string, c: string)
    requires at <= |s| && s[at..] == a + c
    ensures at + |a| <= |s| && s[at..at + |a|] == a && s[at + |a|..] == c
  {
    assert s[at..][..|a|] == a && s[at..][|a|..] == c;
  }

  lemma {:induction false} DecodeWhole(s: string, at: nat, out: bytes, g: bytes)
    requires |g| == 3 && at + 4 <= |s| && s[at..at + 4] == EncodeGroup(g)
    ensures DecodeFrom(s, at, out) == DecodeFrom(s, at + 4, out + g)
  {
    hide Load, EncodeGroup, Bits, First, Second, Third;
    LoadGroup(s, at, g);
    BitsOf(g);
    assert g == [First(Bits(g)), Second(Bits(g)), Third(Bits(g))];
  }

  lemma {:induction false} DecodeLast(s: string, at: nat, out: bytes, g: bytes)
    requires 1 <= |g| < 3 && at <= |s| && s[at..] == Encode(g)
    ensures DecodeFrom(s, at, out).data == out + g
  {
    hide Load, EncodeGroup, Bits, First, Second, Third;
    Cut(s, at, EncodeGroup(g), "");
    LoadGroup(s, at, g);
    BitsOf(g);
    assert g == if |g| == 1 then [First(Bits(g))] else [First(Bits(g)), Second(Bits(g))];
  }

  lemma {:induction false} EncodeFront(x: bytes)
    requires |x| >= 3
    ensures Encode(x) == EncodeGroup(x[..3]) + Encode(x[3..])
  {
    if |x| == 3 { assert x[..3] == x; }
  }

  /** Decoding what was encoded gives it back, for every byte string. */
  lemma {:induction false} Base64RoundTrip(x: bytes)
    ensures Decode(Encode(x)).data == x
  {
    assert Encode(x)[0..] == Encode(x);
    DecodeRest(Encode(x), 0, [], x);
  }

  // ---- Every text without a pad ----------------------------------------------

  /** The decoder knows the sixty-four characters and no others. */
  lemma KnownCharacters(c: char)
    ensures Value(c).Some? <==> c in CHARACTERS
    ensures Value(c).Some? ==> Char(Value(c).value) == c
  {
    if Value(c).Some? {
      Parts(Value(c).value);
      Table(Value(c).value);
      CharIs(c, Value(c).value);
    } else if c in CHARACTERS {
      var v :| 0 <= v < |CHARACTERS| && CHARACTERS[v] == c;
      Parts(0);
      Table(v);
      assert false;
    }
  }

  lemma UpperIs(c: char)
    requires 'A' <= c <= 'Z'
    ensures |UPPER| == 26 && UPPER[c as int - 'A' as int] == c
  {
    assert UPPER[c as int - 'A' as int] as int == c as int;
    hide UPPER;
  }

  lemma LowerIs(c: char)
    requires 'a' <= c <= 'z'
    ensures |LOWER| == 26 && LOWER[c as int - 'a' as int] == c
  {
    assert LOWER[c as int - 'a' as int] as int == c as int;
    hide LOWER;
  }

  lemma DigitIs(c: char)
    requires '0' <= c <= '9'
    ensures |DIGITS| == 10 && DIGITS[c as int - '0' as int] == c
  {
    assert DIGITS[c as int - '0' as int] as int == c as int;
    hide DIGITS;
  }

  lemma CharIs(c: char, v: nat)
    requires Value(c) == Some(v) && |CHARACTERS| == 64
    ensures CHARACTERS[v] == c
  {
    hide CHARACTERS, UPPER, LOWER, DIGITS;
    Parts(v);
    if v < 26 {
      UpperIs(c);
    } else if v < 52 {
      LowerIs(c);
    } else if v < 62 {
      DigitIs(c);
    }
  }

  predicate AllKnown(s: string) {
    forall c <- s :: c in CHARACTERS
  }

  lemma BitsBack(b: nat)
    requires b < 0x100_0000
    ensures Bits([First(b), Second(b), Third(b)]) == b
  {
    var q := b / 0x100;
    assert b / 0x1_0000 == q / 0x100 && b == 0x100 * q + b % 0x100;
    assert q == 0x100 * (q / 0x100) + q % 0x100;
  }

  /** The sextets of four digits in base 64. */
  lemma SextetsOf(a: nat, b: nat, c: nat, d: nat)
    requires a < 64 && b < 64 && c < 64 && d < 64
    ensures var v := a * 0x4_0000 + b * 0x1000 + c * 64 + d;
      v < 0x100_0000 && v / 0x4_0000 % 64 == a && v / 0x1000 % 64 == b && v / 64 % 64 == c && v % 64 == d
  {
    var v := a * 0x4_0000 + b * 0x1000 + c * 64 + d;
    assert v / 64 == a * 0x1000 + b * 64 + c && v / 0x1000 == a * 64 + b && v / 0x4_0000 == a;
  }

  /** Four known characters are the encoding of three bytes. */
  lemma KnownGroup(t: string) returns (g: bytes)
    requires |t| == 4 && AllKnown(t)
    ensures |g| == 3 && EncodeGroup(g) == t
  {
    hide CHARACTERS, Value, Char;
    KnownCharacters(t[0]);
    KnownCharacters(t[1]);
    KnownCharacters(t[2]);
    KnownCharacters(t[3]);
    hide AllKnown;
    var w, x, y, z := Value(t[0]).value, Value(t[1]).value, Value(t[2]).value, Value(t[3]).value;
    SextetsOf(w, x, y, z);
    var v := w * 0x4_0000 + x * 0x1000 + y * 64 + z;
    BitsBack(v);
    g := [First(v), Second(v), Third(v)];
    hide First, Second, Third, Bits;
    assert t == [Char(w), Char(x), Char(y), Char(z)];
  }

  lemma KnownParts(s: string, at: nat)
    requires at + 4 <= |s|
    ensures AllKnown(s[at..]) <==> AllKnown(s[at..at + 4]) && AllKnown(s[at + 4..])
  {
    hide CHARACTERS;
    assert s[at..] == s[at..at + 4] + s[at + 4..];
  }

  /** Four known characters are loaded whole; a group cut short, or with another, is refused. */
  lemma {:induction false} LoadChecks(s: string, at: nat, k: nat, bits: nat)
    requires at <= |s| && k <= 4 && PAD !in s
    ensures if at + 4 - k <= |s| && AllKnown(s[at..at + 4 - k]) then Load(s, at, k, bits).Whole?
            else Load(s, at, k, bits).Bad?
    decreases 4 - k
  {
    hide CHARACTERS, Value;
    if k < 4 && at < |s| {
      KnownCharacters(s[at]);
      assert s[at] in s;
      if Value(s[at]).Some? {
        LoadChecks(s, at + 1, k + 1, bits + Value(s[at]).value * Weight(k));
      }
      if at + 4 - k <= |s| {
        assert s[at..at + 4 - k] == [s[at]] + s[at + 1..at + 4 - k];
      }
    }
  }

  /** What is left of a text without a pad. */
  lemma {:induction false} DecodeUnpadded(s: string, at: nat, out: bytes) returns (x: bytes)
    requires at <= |s| && PAD !in s
    ensures if (|s| - at) % 4 == 0 && AllKnown(s[at..])
            then Encode(x) == s[at..] && |x| % 3 == 0 && DecodeFrom(s, at, out).data == out + x
            else DecodeFrom(s, at, out).data == []
    decreases |s| - at
  {
    hide EncodeGroup, CHARACTERS, AllKnown, Load, DecodeFrom;
    LoadChecks(s, at, 0, 0);
    if at == |s| {
      x := [];
      DecodeEnd(s, at, out);
      assert out + x == out && s[at..] == "";
      NothingUnknown();
    } else if at + 4 <= |s| && AllKnown(s[at..at + 4]) {
      var g := KnownGroup(s[at..at + 4]);
      DecodeWhole(s, at, out, g);
      var y := DecodeUnpadded(s, at + 4, out + g);
      KnownParts(s, at);
      x := g + y;
      Prepend(g, y);
      assert s[at..] == s[at..at + 4] + s[at + 4..];
      assert out + g + y == out + x;
    } else {
      x := [];
      DecodeBad(s, at, out);
      if at + 4 <= |s| { KnownParts(s, at); }
    }
  }

  lemma NothingUnknown()
    ensures AllKnown("")
  {
  }

  lemma DecodeBad(s: string, at: nat, out: bytes)
    requires at < |s| && Load(s, at, 0, 0).Bad?
    ensures DecodeFrom(s, at, out) == Decoded([], |out|)
  {
    hide Load;
  }

  lemma {:induction false} Prepend(g: bytes, y: bytes)
    requires |g| == 3
    ensures Encode(g + y) == EncodeGroup(g) + Encode(y)
  {
    hide EncodeGroup;
    var x := g + y;
    assert x[..3] == g && x[3..] == y;
    if y == [] { assert x == g; }
  }

  /** A text without a pad is decoded to the bytes it encodes exactly if it consists of
      whole groups of known characters, and to nothing otherwise. */
  lemma TextRoundTrip(s: string)
    requires PAD !in s
    ensures if |s| % 4 == 0 && AllKnown(s) then Encode(Decode(s).data) == s && |Decode(s).data| == |s| / 4 * 3
            else Decode(s).data == []
  {
    hide DecodeFrom, Encode, CHARACTERS;
    var x := DecodeUnpadded(s, 0, []);
    assert s[0..] == s && [] + x == x;
    if Encode(x) == s {
      EncodedLength(x);
    }
  }

  /** A session's 15 bytes are printed as 20 characters and read back from them. */
  lemma {:induction false} SessionIdRoundTrip(id: bytes)
    requires |id| == 15
    ensures |Encode(id)| == 20 && Decode(Encode(id)[..20]).data == id
  {
    hide Encode, Decode;
    EncodedLength(id);
    Base64RoundTrip(id);
    assert Encode(id)[..20] == Encode(id);
  }

  // ---- The room the decoder needs -------------------------------------------

  /** The text is whole groups without padding, and one pad more. */
  predicate LonePad(s: string, at: nat) {
    |s| % 4 == 1 && at < |s| && s[|s| - 1] == PAD && AllValues(s, at, |s| - 1)
  }

  /** What is read of a group before its end or its pad are characters of the table. */
  lemma {:induction false} LoadReads(s: string, at: nat, k: nat, bits: nat)
    requires k <= 4 && at <= |s|
    ensures Load(s, at, k, bits).Whole? ==> AllValues(s, at, at + 4 - k)
    ensures var g := Load(s, at, k, bits); g.Padded? ==>
      k <= g.at < 4 && AllValues(s, at, at + g.at - k) && at + g.at - k < |s| && s[at + g.at - k] == PAD
    decreases 4 - k
  {
    if k < 4 && at < |s| && s[at] != PAD && Value(s[at]).Some? {
      var more := bits + Value(s[at]).value * Weight(k);
      LoadMore(s, at, k, bits);
      hide Load, Weight, Value;
      LoadReads(s, at + 1, k + 1, more);
    } else {
      hide Value;
    }
  }

  predicate AllValues(s: string, from: nat, to: nat) {
    from <= to <= |s| && forall i | from <= i < to :: Value(s[i]).Some?
  }

  lemma LoadMore(s: string, at: nat, k: nat, bits: nat)
    requires k < 4 && at < |s| && s[at] != PAD && Value(s[at]).Some?
    ensures Load(s, at, k, bits) == Load(s, at + 1, k + 1, bits + Value(s[at]).value * Weight(k))
  {
    hide Value, Weight;
  }

  lemma PaddedRoom(s: string, at: nat, k: nat)
    requires at % 4 == 0 && k < 4 && AllValues(s, at, at + k) && at + k < |s| && s[at + k] == PAD
    ensures at / 4 * 3 + (if k < 2 then 1 else 2) <= |s| * 3 / 4 <==> !LonePad(s, at)
  {
    var m := at / 4;
    assert at == 4 * m && Value(PAD).None?;
    hide Value;
    if at + k < |s| - 1 {
      assert |s| * 3 >= 4 * (3 * m + (if k < 2 then 1 else 2));
    } else if k == 0 {
      assert |s| * 3 == 4 * (3 * m) + 3;
    } else {
      assert |s| * 3 >= 4 * (3 * m + (if k < 2 then 1 else 2));
    }
  }

  lemma LoneLoads(s: string, at: nat)
    requires at < |s| && at % 4 == 0 && LonePad(s, at)
    ensures !Load(s, at, 0, 0).Bad?
  {
    assert Value(PAD).None?;
    hide Value, Weight;
    if at < |s| - 1 {
      assert at + 4 <= |s| - 1;
      hide LonePad;
      LoadMore(s, at, 0, 0);
      var b := Value(s[at]).value * Weight(0);
      LoadMore(s, at + 1, 1, b);
      var c := b + Value(s[at + 1]).value * Weight(1);
      LoadMore(s, at + 2, 2, c);
      LoadMore(s, at + 3, 3, c + Value(s[at + 2]).value * Weight(2));
    }
  }

  /** What DecodeFrom does at each kind of group. */
  lemma DecodePad(s: string, at: nat, out: bytes)
    requires at < |s| && Load(s, at, 0, 0).Padded?
    ensures DecodeFrom(s, at, out).written == |out| + if Load(s, at, 0, 0).at < 2 then 1 else 2
  {
    hide Load;
  }

  lemma DecodeOn(s: string, at: nat, out: bytes)
    requires at < |s| && Load(s, at, 0, 0).Whole?
    ensures var bits := Load(s, at, 0, 0).bits;
      DecodeFrom(s, at, out) == DecodeFrom(s, at + 4, out + [First(bits), Second(bits), Third(bits)])
  {
    hide Load;
  }

  lemma NotLone(s: string, at: nat)
    requires at >= |s|
    ensures !LonePad(s, at)
  {
  }

  /** A group without a pad does not decide it. */
  lemma LoneNext(s: string, at: nat)
    requires at % 4 == 0 && AllValues(s, at, at + 4)
    ensures LonePad(s, at) <==> LonePad(s, at + 4)
  {
    hide Value;
  }

  /** The destination needs the documented three quarters of the text's length, in all
      cases but one: whole groups followed by a lone pad. */
  lemma {:induction false} RoomNeeded(s: string, at: nat, out: bytes)
    requires at <= |s| && at % 4 == 0 && |out| == at / 4 * 3
    ensures DecodeFrom(s, at, out).written <= |s| * 3 / 4 <==> !LonePad(s, at)
    decreases |s| - at
  {
    hide DecodeFrom, Load, LonePad, First, Second, Third;
    if at == |s| {
      DecodeEnd(s, at, out);
      NotLone(s, at);
    } else {
      LoadReads(s, at, 0, 0);
      match Load(s, at, 0, 0) {
        case Bad =>
          if LonePad(s, at) {
            LoneLoads(s, at);
          }
          DecodeBad(s, at, out);
        case Padded(bits, k) =>
          PaddedRoom(s, at, k);
          DecodePad(s, at, out);
        case Whole(bits) =>
          LoneNext(s, at);
          var more := out + [First(bits), Second(bits), Third(bits)];
          DecodeOn(s, at, out);
          RoomNeeded(s, at + 4, more);
      }
    }
  }

  /** For every text: the documented size of the destination is enough, except for
      whole groups followed by a lone pad. */
  lemma {:induction false} DocumentedRoom(s: string)
    ensures Decode(s).written <= |s| * 3 / 4 <==> !LonePad(s, 0)
  {
    RoomNeeded(s, 0, []);
  }

  lemma WholeGroupsRoom(s: string, groups: nat)
    requires |s| == groups * 4
    ensures Decode(s).written <= |s| * 3 / 4
  {
    DocumentedRoom(s);
  }

  /** So it is always enough for what was encoded. */
  lemma {:induction false} EncodedRoom(x: bytes)
    ensures Decode(Encode(x)).written <= |Encode(x)| * 3 / 4
  {
    EncodedLength(x);
    WholeGroupsRoom(Encode(x), (|x| + 2) / 3);
  }

  // ---- The loops ------------------------------------------------------------

  /** 2 to the power of a bit position. */
  function Power(bitPos: int): nat
    requires bitPos in [0, 6, 8, 12, 16, 18]
  {
    if bitPos == 0 then 1 else if bitPos == 6 then 64 else if bitPos == 8 then 0x100
    else if bitPos == 12 then 0x1000 else if bitPos == 16 then 0x1_0000 else 0x4_0000
  }

  /** The value of padded before character j of a group. */
  function PaddedAt(g: bytes, j: nat): int
    requires 1 <= |g| <= 3
  {
    if |g| == 3 then -6 else if |g| == 2 || j == 3 then 0 else 6
  }

  lemma BitsOfNone(g: bytes)
    requires g == []
    ensures Bits(g) == 0
  {
  }

  lemma BitsMore(g: bytes, c: byte)
    requires |g| < 3
    ensures Bits(g + [c]) == Bits(g) + c * Power(16 - 8 * |g|)
  {
  }

  /** Up to three bytes into the buffer. */
  method FillBuffer(x: bytes, from: nat) returns (buffer: nat, padded: int, start: nat)
    requires from < |x|
    ensures start == (if from + 3 <= |x| then from + 3 else |x|)
    ensures buffer == Bits(x[from..start]) && padded == PaddedAt(x[from..start], 0)
  {
    hide Bits;
    buffer, padded, start := 0, -6, from;
    var bitPos := 16;
    BitsOfNone(x[from..from]);
    while bitPos != -8
      invariant bitPos in [16, 8, 0, -8] && from <= start <= |x|
      invariant start == if from + (16 - bitPos) / 8 <= |x| then from + (16 - bitPos) / 8 else |x|
      invariant buffer == Bits(x[from..start]) && padded == -6 + 6 * ((16 - bitPos) / 8 - (start - from))
      decreases bitPos + 8
    {
      if start != |x| {
        assert x[from..start + 1] == x[from..start] + [x[start]];
        BitsMore(x[from..start], x[start]);
        buffer := buffer + x[start] * Power(bitPos);
        start := start + 1;
      } else {
        padded := padded + 6;
      }
      bitPos := bitPos - 8;
    }
  }

  lemma GroupAt(g: bytes, j: nat)
    requires 1 <= |g| <= 3 && j < 4
    ensures EncodeGroup(g)[j] == if j > |g| then PAD else Char(Bits(g) / Weight(j) % 64)
  {
    hide Bits, Char;
  }

  method EncodeOne(buffer: nat, bitPos: int, padded: int, ghost g: bytes, ghost j: nat)
    returns (c: char, p: int)
    requires 1 <= |g| <= 3 && j < 4 && bitPos == 18 - 6 * j
    requires buffer == Bits(g) && padded == PaddedAt(g, j)
    ensures c == EncodeGroup(g)[j] && (j < 3 ==> p == PaddedAt(g, j + 1))
  {
    p := padded;
    GroupAt(g, j);
    PowerIsWeight(j);
    hide Bits, EncodeGroup, Power, Weight;
    if p == bitPos {
      c := PAD;
      p := p - 6;
    } else {
      c := Char(buffer / Power(bitPos) % 64);
    }
  }

  /** base64Encode: the documented size of the destination is exactly what is written. */
  method Base64Encode(x: bytes, destination: array<char>) returns (n: nat)
    requires (|x| + 2) / 3 * 4 <= destination.Length
    modifies destination
    ensures n == (|x| + 2) / 3 * 4 && destination[..n] == Encode(x)
    ensures destination[n..] == old(destination[n..])
  {
    hide Encode, EncodeGroup, Bits, Left;
    n := 0;
    var buffer: nat, bitPos, padded: int, start: nat := 0, -6, 0, 0;
    ghost var g: bytes, j: nat := [0], 4;
    LeftAtStart(x, g);
    EncodedLength(x);
    while start != |x| || bitPos > -6
      invariant start <= |x| && 1 <= j <= 4 && bitPos == 18 - 6 * j && 1 <= |g| <= 3 && n <= destination.Length
      invariant j < 4 ==> buffer == Bits(g) && padded == PaddedAt(g, j)
      invariant destination[..n] + Left(x, start, g, j) == Encode(x)
      invariant forall k | n <= k < destination.Length :: destination[k] == old(destination[k])
      decreases |x| - start, 4 - j
    {
      if bitPos == -6 {
        ghost var from := start;
        buffer, padded, start := FillBuffer(x, start);
        bitPos := 18;
        LeftNext(x, from, start, g);
        g, j := x[from..start], 0;
      }
      var c;
      c, padded := EncodeOne(buffer, bitPos, padded, g, j);
      ghost var before := destination[..n];
      LeftFirst(x, start, g, j);
      OneMore(before, c, Left(x, start, g, j + 1), Encode(x));
      destination[n] := c;
      n := n + 1;
      assert destination[..n] == before + [c];
      j := j + 1;
      bitPos := bitPos - 6;
    }
    LeftDone(x, g);
  }

  /** What is still to be written after j characters of a group. */
  ghost function Left(x: bytes, start: nat, g: bytes, j: nat): string
    requires start <= |x| && 1 <= |g| <= 3 && j <= 4
  {
    EncodeGroup(g)[j..] + Encode(x[start..])
  }

  lemma LeftAtStart(x: bytes, g: bytes)
    requires 1 <= |g| <= 3
    ensures Left(x, 0, g, 4) == Encode(x)
  {
    assert x[0..] == x && EncodeGroup(g)[4..] == [];
  }

  lemma LeftDone(x: bytes, g: bytes)
    requires 1 <= |g| <= 3
    ensures Left(x, |x|, g, 4) == []
  {
    assert x[|x|..] == [] && EncodeGroup(g)[4..] == [];
  }

  lemma LeftFirst(x: bytes, start: nat, g: bytes, j: nat)
    requires start <= |x| && 1 <= |g| <= 3 && j < 4
    ensures Left(x, start, g, j) == [EncodeGroup(g)[j]] + Left(x, start, g, j + 1)
  {
    hide EncodeGroup, Encode;
    assert EncodeGroup(g)[j..] == [EncodeGroup(g)[j]] + EncodeGroup(g)[j + 1..];
    Associate([EncodeGroup(g)[j]], EncodeGroup(g)[j + 1..], Encode(x[start..]));
  }

  lemma LeftNext(x: bytes, from: nat, start: nat, g: bytes)
    requires from < |x| && start == (if from + 3 <= |x| then from + 3 else |x|) && 1 <= |g| <= 3
    ensures Left(x, from, g, 4) == Left(x, start, x[from..start], 0)
  {
    hide EncodeGroup, Encode;
    EncodeNext(x, from, start);
    assert EncodeGroup(g)[4..] == [] && EncodeGroup(x[from..start])[0..] == EncodeGroup(x[from..start]);
  }

  lemma OneMore(before: string, c: char, left: string, all: string)
    requires before + ([c] + left) == all
    ensures |before| < |all| && before + [c] + left == all
  {
    Associate(before, [c], left);
  }

  lemma EncodeNext(x: bytes, from: nat, start: nat)
    requires from < |x| && start == (if from + 3 <= |x| then from + 3 else |x|)
    ensures Encode(x[from..]) == EncodeGroup(x[from..start]) + Encode(x[start..])
  {
    var y := x[from..];
    if |y| >= 3 {
      EncodeFront(y);
      assert y[..3] == x[from..start] && y[3..] == x[start..];
    } else {
      assert y == x[from..start] && x[start..] == [];
    }
  }

  lemma PowerIsWeight(k: nat)
    requires k < 4
    ensures Power(18 - 6 * k) == Weight(k)
  {
  }

  lemma LoadStops(s: string, at: nat, k: nat, bits: nat)
    requires k <= 4
    ensures k == 4 ==> Load(s, at, k, bits) == Whole(bits)
    ensures k < 4 && at >= |s| ==> Load(s, at, k, bits) == Bad
    ensures k < 4 && at < |s| && s[at] == PAD ==> Load(s, at, k, bits) == Padded(bits, k)
    ensures k < 4 && at < |s| && s[at] != PAD && Value(s[at]).None? ==> Load(s, at, k, bits) == Bad
  {
    hide Value, Weight;
  }

  /** Up to four characters into the buffer; padStart is the bit position of a pad. */
  method LoadBuffer(s: string, from: nat) returns (ok: bool, buffer: nat, padStart: int, start: nat)
    requires from < |s|
    ensures from < start <= |s| || !ok
    ensures match Load(s, from, 0, 0)
      case Bad => !ok
      case Whole(bits) => ok && buffer == bits && padStart == -9 && start == from + 4
      case Padded(bits, at) => ok && buffer == bits && padStart == 18 - 6 * at && start <= |s| && 0 <= at < 4
  {
    hide Load, Value, Weight, Power;
    ok, buffer, padStart, start := true, 0, -9, from;
    var bitPos := 18;
    ghost var k: nat := 0;
    while bitPos != -6
      invariant k <= 4 && bitPos == 18 - 6 * k && start == from + k <= |s| && padStart == -9
      invariant Load(s, from, 0, 0) == Load(s, start, k, buffer)
      decreases 4 - k
    {
      LoadStops(s, start, k, buffer);
      if start == |s| {
        ok := false;
        return;
      }
      var c := s[start];
      start := start + 1;
      if c == PAD {
        padStart := bitPos;
        return;
      }
      if Value(c).None? {
        ok := false;
        return;
      }
      PowerIsWeight(k);
      LoadMore(s, start - 1, k, buffer);
      buffer := buffer + Value(c).value * Power(bitPos);
      bitPos := bitPos - 6;
      k := k + 1;
    }
    LoadStops(s, start, k, buffer);
  }

  lemma {:induction false} WrittenGrows(s: string, at: nat, out: bytes)
    ensures DecodeFrom(s, at, out).written >= |out|
    decreases |s| - at
  {
    if at < |s| && Load(s, at, 0, 0).Whole? {
      var bits := Load(s, at, 0, 0).bits;
      WrittenGrows(s, at + 4, out + [First(bits), Second(bits), Third(bits)]);
    }
  }

  /** What is still to come when a group is in the buffer. */
  function Finish(s: string, start: nat, out: bytes, buffer: nat, padStart: int): Decoded
    requires padStart <= 18
  {
    if padStart < 0 then DecodeFrom(s, start, out + [First(buffer), Second(buffer), Third(buffer)])
    else DecodePadded(out, buffer, (18 - padStart) / 6)
  }

  /** Byte j of the group in the buffer. */
  function ByteOf(buffer: nat, j: nat): byte {
    if j == 0 then First(buffer) else if j == 1 then Second(buffer) else Third(buffer)
  }

  function Bytes(buffer: nat, j: nat): (b: bytes)
    ensures |b| == j
  {
    seq(j, k requires 0 <= k < j => ByteOf(buffer, k))
  }

  /** After byte j was written: does decoding end, and with how many bytes? */
  lemma ByteWritten(s: string, start: nat, out: bytes, buffer: nat, padStart: int, j: nat)
    requires j < 3 && padStart in [-9, 0, 6, 12, 18] && (j > 0 ==> padStart < 16 - 8 * j)
    ensures var r, bitPos := Finish(s, start, out, buffer, padStart), 16 - 8 * (j + 1);
      && |out| + j < r.written
      && (padStart >= bitPos ==>
            r.data == (if (padStart - bitPos) / 6 != 0 then out + Bytes(buffer, j) else out + Bytes(buffer, j + 1)))
  {
    WrittenGrows(s, start, out + [First(buffer), Second(buffer), Third(buffer)]);
    assert Bytes(buffer, 0) == [] && Bytes(buffer, 1) == [First(buffer)];
    assert Bytes(buffer, 2) == [First(buffer), Second(buffer)];
  }

  lemma GroupLoaded(s: string, from: nat, out: bytes, ok: bool, buffer: nat, padStart: int, start: nat)
    requires from < |s|
    requires match Load(s, from, 0, 0)
      case Bad => !ok
      case Whole(bits) => ok && buffer == bits && padStart == -9 && start == from + 4
      case Padded(bits, at) => ok && buffer == bits && padStart == 18 - 6 * at && 0 <= at < 4
    ensures DecodeFrom(s, from, out) == if ok then Finish(s, start, out, buffer, padStart) else Decoded([], |out|)
    ensures ok ==> padStart in [-9, 0, 6, 12, 18]
  {
  }

  /** One byte of the group in the buffer is written; does decoding end, and where? */
  method WriteByte(destination: array<byte>, at: nat, buffer: nat, bitPos: int, padStart: int,
                   ghost s: string, ghost start: nat, ghost out: bytes, ghost j: nat)
    returns (done: bool, n: nat)
    requires j < 3 && bitPos == 16 - 8 * j && padStart in [-9, 0, 6, 12, 18] && (j > 0 ==> padStart < bitPos)
    requires at == |out| + j < destination.Length && destination[..at] == out + Bytes(buffer, j)
    modifies destination
    ensures n <= at + 1 && forall k | at < k < destination.Length :: destination[k] == old(destination[k])
    ensures done ==> destination[..n] == Finish(s, start, out, buffer, padStart).data
    ensures !done ==> n == at + 1 && padStart < bitPos - 8 && destination[..n] == out + Bytes(buffer, j + 1)
    ensures !done && j == 2 ==> DecodeFrom(s, start, destination[..n]) == Finish(s, start, out, buffer, padStart)
  {
    destination[at] := buffer / Power(bitPos) % 256;
    assert destination[..at] == out + Bytes(buffer, j);
    assert destination[..at + 1] == out + Bytes(buffer, j + 1);
    ByteWritten(s, start, out, buffer, padStart, j);
    done, n := false, at + 1;
    if padStart >= bitPos - 8 {
      done := true;
      if (padStart - (bitPos - 8)) / 6 != 0 {
        n := at;
      }
    }
    assert j == 2 ==> Bytes(buffer, 3) == [First(buffer), Second(buffer), Third(buffer)];
  }

  /** base64Decode: the result is the number of bytes decoded, 0 on an error; the
      destination must have room for what is written. */
  method Base64Decode(s: string, destination: array<byte>) returns (n: nat)
    requires Decode(s).written <= destination.Length
    modifies destination
    ensures n <= destination.Length && destination[..n] == Decode(s).data
    ensures forall k | Decode(s).written <= k < destination.Length :: destination[k] == old(destination[k])
  {
    n := 0;
    var buffer: nat, bitPos: int, padStart: int, start: nat := 0, -8, -9, 0;
    ghost var out: bytes, j: nat, room := [], 3, Decode(s).written;
    while start != |s| || bitPos > -6
      invariant start <= |s| && 1 <= j <= 3 && bitPos == 16 - 8 * j && n <= destination.Length
      invariant j == 3 ==> Decode(s) == DecodeFrom(s, start, destination[..n])
      invariant j < 3 ==> Underway(s, start, out, buffer, padStart, bitPos, j, destination[..n])
      invariant forall k | room <= k < destination.Length :: destination[k] == old(destination[k])
      decreases |s| - start, 3 - j
    {
      if bitPos == -8 {
        var ok, from := true, start;
        ok, buffer, padStart, start := LoadBuffer(s, from);
        out, j := destination[..n], 0;
        GroupLoaded(s, from, out, ok, buffer, padStart, start);
        if !ok {
          return 0;
        }
        bitPos := 16;
        assert out + Bytes(buffer, 0) == out;
      }
      ByteWritten(s, start, out, buffer, padStart, j);
      var done;
      done, n := WriteByte(destination, n, buffer, bitPos, padStart, s, start, out, j);
      if done {
        return;
      }
      bitPos := bitPos - 8;
      j := j + 1;
    }
  }

  /** j bytes of a group were written and there is more of it. */
  ghost predicate Underway(s: string, start: nat, out: bytes, buffer: nat, padStart: int, bitPos: int, j: nat,
                           written: bytes)
  {
    && padStart in [-9, 0, 6, 12, 18] && padStart < bitPos
    && written == out + Bytes(buffer, j) && Decode(s) == Finish(s, start, out, buffer, padStart)
  }
}
