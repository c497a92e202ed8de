// The output stream buffer: escaping into a bounded put area
// (src/webstreambuf.cpp) and cutting the output into records
// (src/fcgistreambuf.cpp).

module Escaping {
  import opened BigEndian
  import opened Common

  datatype Encoding = NONE | HTML | URL

  /** htmlCharacters: &quot; &gt; &lt; &amp; &apos; */
  function HtmlEscape(c: byte): (r: bytes)
    ensures 1 <= |r| <= 6
  {
    if c == 0x22 then [0x26, 0x71, 0x75, 0x6f, 0x74, 0x3b]
    else if c == 0x3e then [0x26, 0x67, 0x74, 0x3b]
    else if c == 0x3c then [0x26, 0x6c, 0x74, 0x3b]
    else if c == 0x26 then [0x26, 0x61, 0x6d, 0x70, 0x3b]
    else if c == 0x27 then [0x26, 0x61, 0x70, 0x6f, 0x73, 0x3b]
    else [c]
  }

  /** The keys of urlCharacters: space ! " # $ % & ' ( ) * + , / : ; < = > ? @ [ ] */
  predicate UrlSpecial(c: byte) {
    0x20 <= c <= 0x2c || c == 0x2f || 0x3a <= c <= 0x40 || c == 0x5b || c == 0x5d
  }

  function HexDigit(n: nat): byte
    requires n < 16
  {
    if n < 10 then 0x30 + n else 0x41 + (n - 10)
  }

  /** A percent sign and two upper-case hexadecimal digits. */
  function Percent(c: byte): bytes {
    [0x25, HexDigit(c / 16), HexDigit(c % 16)]
  }

  function EscapeByte(e: Encoding, c: byte): (r: bytes)
    ensures 1 <= |r| <= 6
  {
    match e
    case NONE => [c]
    case HTML => HtmlEscape(c)
    case URL => if UrlSpecial(c) then Percent(c) else [c]
  }

  function Escape(e: Encoding, s: bytes): bytes {
    if s == [] then [] else EscapeByte(e, s[0]) + Escape(e, s[1..])
  }

  lemma {:induction false} EscapeAppend(e: Encoding, a: bytes, b: bytes)
    ensures Escape(e, a + b) == Escape(e, a) + Escape(e, b)
  {
    if a == [] {
      assert a + b == b;
    } else {
      hide EscapeByte, Escape;
      var c, rest := a[0], a[1..];
      EscapeAppend(e, rest, b);
      FirstAndRest(a, b);
      EscapeFirst(e, c, rest);
      EscapeFirst(e, c, rest + b);
      Associate(EscapeByte(e, c), Escape(e, rest), Escape(e, b));
    }
  }

  lemma EscapeFirst(e: Encoding, c: byte, s: bytes)
    ensures Escape(e, [c] + s) == EscapeByte(e, c) + Escape(e, s)
  {
    hide EscapeByte;
    assert ([c] + s)[1..] == s;
  }

  lemma EscapeNext(e: Encoding, s: bytes, i: nat)
    requires i < |s|
    ensures Escape(e, s[..i + 1]) == Escape(e, s[..i]) + EscapeByte(e, s[i])
  {
    assert Escape(e, []) == [] && [s[i]] + [] == [s[i]];
    hide Escape, EscapeByte;
    EscapeAppend(e, s[..i], [s[i]]);
    assert s[..i + 1] == s[..i] + [s[i]];
    EscapeFirst(e, s[i], []);
  }

  lemma EscapeSlice(e: Encoding, s: bytes, a: nat, b: nat)
    requires a <= b < |s|
    ensures Escape(e, s[a..b + 1]) == Escape(e, s[a..b]) + EscapeByte(e, s[b])
  {
    EscapeNext(e, s[a..], b - a);
    assert s[a..][..b - a] == s[a..b] && s[a..][..b - a + 1] == s[a..b + 1];
  }

  lemma EscapeJoin(e: Encoding, s: bytes, a: nat, b: nat)
    requires a <= b <= |s|
    ensures Escape(e, s[..b]) == Escape(e, s[..a]) + Escape(e, s[a..b])
  {
    EscapeAppend(e, s[..a], s[a..b]);
    assert s[..b] == s[..a] + s[a..b];
  }

  lemma {:induction false} EscapeNone(s: bytes)
    ensures Escape(NONE, s) == s
  {
    if s != [] {
      EscapeNone(s[1..]);
    }
  }

  // ---- What the escapes mean -------------------------------------------------

  function Ascii(text: string): bytes {
    seq(|text|, i requires 0 <= i < |text| => text[i] as int % 256)
  }

  /** The five entities of XML that HTML text needs. */
  function EntityAt(s: bytes): Option<(char, nat)> {
    if Ascii("&quot;") <= s then Some(('"', 6))
    else if Ascii("&gt;") <= s then Some(('>', 4))
    else if Ascii("&lt;") <= s then Some(('<', 4))
    else if Ascii("&amp;") <= s then Some(('&', 5))
    else if Ascii("&apos;") <= s then Some(('\'', 6))
    else None
  }

  /** The text an HTML reader sees. */
  function HtmlRead(s: bytes): bytes {
    if s == [] then []
    else
      match EntityAt(s)
      case Some((c, n)) => [c as int % 256] + HtmlRead(s[if n <= |s| then n else |s|..])
      case None => [s[0]] + HtmlRead(s[1..])
  }

  lemma EntityTexts()
    ensures Ascii("&quot;") == [0x26, 0x71, 0x75, 0x6f, 0x74, 0x3b] && Ascii("&gt;") == [0x26, 0x67, 0x74, 0x3b]
    ensures Ascii("&lt;") == [0x26, 0x6c, 0x74, 0x3b] && Ascii("&amp;") == [0x26, 0x61, 0x6d, 0x70, 0x3b]
    ensures Ascii("&apos;") == [0x26, 0x61, 0x70, 0x6f, 0x73, 0x3b]
  {
  }

  lemma HtmlByteRead(c: byte, rest: bytes)
    ensures HtmlRead(HtmlEscape(c) + rest) == [c] + HtmlRead(rest)
  {
    EntityTexts();
    hide Ascii;
    var e := HtmlEscape(c);
    var s := e + rest;
    assert s[..|e|] == e && s[|e|..] == rest;
    if |e| == 1 {
      assert s[0] == c != 0x26;
    } else {
      EntityRead(c, s);
    }
  }

  lemma EntityRead(c: byte, s: bytes)
    requires |HtmlEscape(c)| > 1 && HtmlEscape(c) <= s
    ensures EntityAt(s).Some? && EntityAt(s).value.0 as int == c && EntityAt(s).value.1 == |HtmlEscape(c)|
  {
    EntityTexts();
    hide Ascii;
    assert s[0] == HtmlEscape(c)[0] && s[1] == HtmlEscape(c)[1] && s[2] == HtmlEscape(c)[2];
  }

  /** The characters that would end an element or an attribute. */
  predicate IsMarkup(c: byte) {
    c as char == '<' || c as char == '>' || c as char == '"' || c as char == '\''
  }

  lemma ByteIsText(c: byte)
    ensures forall d <- HtmlEscape(c) :: !IsMarkup(d)
  {
  }

  lemma HtmlFirst(x: bytes)
    requires x != []
    ensures Escape(HTML, x) == HtmlEscape(x[0]) + Escape(HTML, x[1..])
  {
    hide HtmlEscape;
  }

  /** What is written in HTML encoding is read as what it was, and holds no markup. */
  lemma {:induction false} HtmlRoundTrip(x: bytes)
    ensures HtmlRead(Escape(HTML, x)) == x
    ensures forall c <- Escape(HTML, x) :: !IsMarkup(c)
  {
    if x == [] {
      assert HtmlRead([]) == [] && Escape(HTML, x) == [];
    } else {
      hide HtmlEscape, HtmlRead, Escape, IsMarkup;
      HtmlFirst(x);
      HtmlByteRead(x[0], Escape(HTML, x[1..]));
      HtmlRoundTrip(x[1..]);
      ByteIsText(x[0]);
      assert x == [x[0]] + x[1..];
    }
  }

  const UPPER_DIGITS := "0123456789ABCDEF"

  /** An escape in a URL has upper-case digits, the high one first. */
  lemma PercentText(c: byte)
    ensures |UPPER_DIGITS| == 16
    ensures Percent(c) == ['%' as int, UPPER_DIGITS[c / 16] as int, UPPER_DIGITS[c % 16] as int]
  {
    UpperDigit(c / 16);
    UpperDigit(c % 16);
    hide UPPER_DIGITS, HexDigit;
  }

  lemma UpperDigit(n: nat)
    requires n < 16
    ensures |UPPER_DIGITS| == 16 && HexDigit(n) == UPPER_DIGITS[n] as int
  {
  }

  const URL_CHARACTERS := " !\"#$%&'()*+,/:;<=>?@[]"

  /** The characters that are escaped in a URL. */
  lemma UrlTable(c: byte)
    ensures UrlSpecial(c) <==> c as char in URL_CHARACTERS
  {
    var t := URL_CHARACTERS;
    assert t[0] == ' ' && t[1] == '!' && t[2] == '"' && t[3] == '#' && t[4] == '$' && t[5] == '%' && t[6] == '&';
    assert t[7] == '\'' && t[8] == '(' && t[9] == ')' && t[10] == '*' && t[11] == '+' && t[12] == ',' && t[13] == '/';
    assert t[14] == ':' && t[15] == ';' && t[16] == '<' && t[17] == '=' && t[18] == '>' && t[19] == '?' && t[20] == '@';
    assert t[21] == '[' && t[22] == ']' && |t| == 23;
    hide URL_CHARACTERS;
  }
}

module Streaming {
  import opened BigEndian
  import opened Blocks
  import opened Common
  import opened Escaping
  import opened Framing

  const BUFF_SIZE: nat := 8192
  const VERSION: byte := 1

  function Content(record: bytes): bytes
    requires IsFrame(record)
  {
    record[HEADER..HEADER + ContentLength(record)]
  }

  /** A record as section 3.3 of the FastCGI Specification lays it out, padded to a
      multiple of 8 bytes, carrying between 1 and 65535 bytes. */
  predicate GoodRecord(record: bytes, kind: byte, id: nat) {
    && IsFrame(record)
    && |record| % 8 == 0 && PaddingLength(record) < 8
    && 1 <= ContentLength(record) <= 0xffff
    && record[0] == 1 && record[1] == kind && FcgiId(record) == id
  }

  ghost predicate AllGood(records: seq<bytes>, kind: byte, id: nat) {
    forall i | 0 <= i < |records| :: GoodRecord(records[i], kind, id)
  }

  function Contents(records: seq<bytes>): bytes
    requires forall i | 0 <= i < |records| :: IsFrame(records[i])
  {
    if records == [] then [] else Contents(records[..|records| - 1]) + Content(records[|records| - 1])
  }

  /** The bytes of a record as the loops write them, around its content. */
  ghost predicate HasShape(r: bytes, kind: byte, id: nat, content: bytes)
    requires id < 0x10000
  {
    && 1 <= |content| <= MAX_CONTENT && |r| == RecordSize(|content|)
    && r[0] == VERSION && r[1] == kind && r[2..4] == To(id, 2)
    && r[4..6] == To(|content|, 2) && r[6] == |r| - |content| - HEADER
    && r[HEADER..HEADER + |content|] == content
  }

  lemma RecordIsGood(r: bytes, kind: byte, id: nat, content: bytes)
    requires id < 0x10000 && HasShape(r, kind, id, content)
    ensures GoodRecord(r, kind, id) && Content(r) == content
  {
    assert Range(2) == 0x10000 by { assert Range(1) == 256 * Range(0); }
    FromTo(|content|, 2);
    FromTo(id, 2);
  }

  /** Do these records, after the output before s, end between two escapes of s, n
      characters of which were taken at most? */
  ghost predicate EndsAtEscape(e: Encoding, records: seq<bytes>, output: bytes, s: bytes, n: nat)
    requires n <= |s| && forall i | 0 <= i < |records| :: IsFrame(records[i])
  {
    exists k | 0 <= k <= n :: Contents(records) == output + Escape(e, s[..k])
  }

  /** Did every record sent since before end between two escapes? */
  ghost predicate CutAtEscapes(e: Encoding, before: seq<bytes>, sent: seq<bytes>, output: bytes, s: bytes, n: nat)
    requires n <= |s| && forall i | 0 <= i < |sent| :: IsFrame(sent[i])
  {
    before <= sent && forall r | |before| < r <= |sent| :: EndsAtEscape(e, sent[..r], output, s, n)
  }

  lemma NothingWritten(e: Encoding, sent: seq<bytes>, output: bytes, s: bytes)
    requires forall i | 0 <= i < |sent| :: IsFrame(sent[i])
    ensures output == output + Escape(e, s[..0]) && CutAtEscapes(e, sent, sent, output, s, 0)
  {
    assert s[..0] == [] && Escape(e, []) == [] && output + [] == output;
    hide EndsAtEscape;
  }

  lemma CutsGoOn(e: Encoding, before: seq<bytes>, sent: seq<bytes>, output: bytes, s: bytes, n: nat, m: nat)
    requires n <= m <= |s| && forall i | 0 <= i < |sent| :: IsFrame(sent[i])
    requires CutAtEscapes(e, before, sent, output, s, n)
    ensures CutAtEscapes(e, before, sent, output, s, m)
  {
    hide Escape, Contents;
    forall r | |before| < r <= |sent| ensures EndsAtEscape(e, sent[..r], output, s, m) {
      assert EndsAtEscape(e, sent[..r], output, s, n);
    }
  }

  /** One more record, which ends with the n-th escape. */
  lemma CutOnceMore(e: Encoding, before: seq<bytes>, sent: seq<bytes>, more: seq<bytes>, output: bytes, s: bytes,
                    n: nat)
    requires n <= |s| && (forall i | 0 <= i < |more| :: IsFrame(more[i])) && sent <= more && |more| <= |sent| + 1
    requires CutAtEscapes(e, before, sent, output, s, n)
    requires Contents(more) == output + Escape(e, s[..n])
    ensures CutAtEscapes(e, before, more, output, s, n)
  {
    hide Escape, Contents;
    forall r | |before| < r <= |more| ensures EndsAtEscape(e, more[..r], output, s, n) {
      if r <= |sent| {
        assert more[..r] == sent[..r];
        assert EndsAtEscape(e, sent[..r], output, s, n);
      } else {
        assert more[..r] == more;
      }
    }
  }

  lemma WrittenOn(e: Encoding, s: bytes, a: nat, b: nat, before: bytes, after: bytes)
    requires a <= b <= |s| && after == before + Escape(e, s[..a]) + Escape(e, s[a..b])
    ensures after == before + Escape(e, s[..b])
  {
    hide Escape;
    EscapeJoin(e, s, a, b);
    Associate(before, Escape(e, s[..a]), Escape(e, s[a..b]));
  }

  lemma Placed(d: bytes, at: nat, piece: bytes)
    requires at + |piece| <= |d| && forall k | at <= k < at + |piece| :: d[k] == piece[k - at]
    ensures d[at..at + |piece|] == piece
  {
  }

  lemma OneEscapeOn(e: Encoding, s: bytes, a: nat, b: nat, before: bytes)
    requires a <= b < |s|
    ensures before + Escape(e, s[a..b]) + EscapeByte(e, s[b]) == before + Escape(e, s[a..b + 1])
  {
    hide Escape, EscapeByte;
    EscapeSlice(e, s, a, b);
    Associate(before, Escape(e, s[a..b]), EscapeByte(e, s[b]));
  }

  /** From the single bytes to the fields. */
  lemma ShapeOf(r: bytes, kind: byte, id: nat, content: bytes)
    requires id < 0x10000 && 1 <= |content| <= MAX_CONTENT && |r| == RecordSize(|content|)
    requires r[0] == VERSION && r[1] == kind && r[6] == |r| - |content| - HEADER
    requires r[2] == To(id, 2)[0] && r[3] == To(id, 2)[1]
    requires r[4] == To(|content|, 2)[0] && r[5] == To(|content|, 2)[1]
    requires forall k | HEADER <= k < HEADER + |content| :: r[k] == content[k - HEADER]
    ensures HasShape(r, kind, id, content)
  {
    hide To, RecordSize;
    Placed(r, 2, To(id, 2));
    Placed(r, 4, To(|content|, 2));
    Placed(r, HEADER, content);
  }

  lemma SentOneMore(sent: seq<bytes>, made: bytes, kind: byte, id: nat, output: bytes, data: bytes, from: nat, n: nat)
    requires AllGood(sent, kind, id) && GoodRecord(made, kind, id)
    requires from + n <= |data| && Content(made) == data[from..][..n] && Contents(sent) == output + data[..from]
    ensures AllGood(sent + [made], kind, id) && Contents(sent + [made]) == output + data[..from + n]
  {
    hide Content, IsFrame, PaddingLength, ContentLength, FcgiId;
    assert (sent + [made])[..|sent|] == sent;
    assert data[..from + n] == data[..from] + data[from..][..n];
    Associate(output, data[..from], data[from..][..n]);
  }

  class FcgiStreambuf {
    const m_buffer: array<byte>
    const m_type: byte
    const m_id: nat
    var pptr: nat
    var m_encoding: Encoding
    var sent: seq<bytes>  // the records passed to send

    ghost predicate Valid()
      reads this
    {
      m_buffer.Length == BUFF_SIZE && pptr <= BUFF_SIZE && m_id < 0x10000 && AllGood(sent, m_type, m_id)
    }

    /** Everything written so far: what was sent, then the put area. */
    ghost function Output(): bytes
      requires Valid()
      reads this, m_buffer
    {
      Contents(sent) + m_buffer[..pptr]
    }

    constructor (kind: byte, id: nat)
      requires id < 0x10000
      ensures Valid() && Output() == [] && m_encoding == NONE && fresh(m_buffer)
      ensures m_type == kind && m_id == id && m_buffer.Length == 8192
    {
      m_buffer := new byte[BUFF_SIZE];
      m_type, m_id, pptr, m_encoding, sent := kind, id, 0, NONE, [];
    }

    /** One record around the first bytes of data; what its padding and its
        reserved byte hold is left as the allocation had it. */
    method BuildRecord(record: Block, data: bytes) returns (n: nat, made: bytes)
      requires record.Valid() && record.m_data == null && data != [] && m_id < 0x10000
      modifies record
      ensures record.Valid() && record.m_data == null
      ensures n == Min(|data|, MAX_CONTENT)
      ensures GoodRecord(made, m_type, m_id) && Content(made) == data[..n]
    {
      n := Min(|data|, MAX_CONTENT);
      var size := RecordSize(|data|);
      record.SetSize(size);
      FillRecord(record.m_data, data, n, size);
      var message := new Block();
      message.MoveFrom(record);
      made := message.m_data[..];
      RecordIsGood(made, m_type, m_id, data[..n]);
    }

    method FillRecord(d: array<byte>, data: bytes, n: nat, size: nat)
      requires d.Length == size && 0 < n == Min(|data|, MAX_CONTENT) && size == RecordSize(|data|) && m_id < 0x10000
      modifies d
      ensures HasShape(d[..], m_type, m_id, data[..n])
    {
      hide To, HasShape, RecordSize;
      var length, id := To(n, 2), To(m_id, 2);
      d[4], d[5] := length[0], length[1];
      forall k | HEADER <= k < HEADER + n {
        d[k] := data[k - HEADER];
      }
      d[0], d[1] := VERSION, m_type;
      d[2], d[3] := id[0], id[1];
      d[6] := size - n - HEADER;
      ShapeOf(d[..], m_type, m_id, data[..n]);
    }

    /** The loop shared by dump() and emptyBuffer(): data goes out in records. */
    method SendAll(data: bytes)
      requires Valid()
      modifies this`sent
      ensures Valid() && old(sent) <= sent
      ensures Contents(sent) == Contents(old(sent)) + data
      ensures |data| <= MAX_CONTENT ==> |sent| <= |old(sent)| + 1
    {
      hide Contents, Content, IsFrame, PaddingLength, ContentLength, FcgiId;
      var record := new Block();
      var from := 0;
      while from < |data|
        invariant from <= |data| && record.Valid() && fresh(record)
        invariant record.m_data == null
        invariant Valid() && old(sent) <= sent
        invariant Contents(sent) == Contents(old(sent)) + data[..from]
        invariant |data| <= MAX_CONTENT ==> if from == 0 then sent == old(sent)
                                            else from == |data| && |sent| == |old(sent)| + 1
      {
        var n, made := BuildRecord(record, data[from..]);
        SentOneMore(sent, made, m_type, m_id, Contents(old(sent)), data, from, n);
        sent := sent + [made];
        from := from + n;
      }
      assert data[..from] == data;
    }

    method EmptyBuffer()
      requires Valid()
      modifies this`sent, this`pptr
      ensures Valid() && pptr == 0 && old(sent) <= sent && Output() == old(Output()) == Contents(sent)
      ensures |sent| <= |old(sent)| + 1
    {
      hide Contents, IsFrame, PaddingLength, ContentLength, FcgiId;
      SendAll(m_buffer[..pptr]);
      pptr := 0;
      assert m_buffer[..0] == [];
    }

    /** dump(): raw bytes, past the put area and its encoding. */
    method Dump(data: bytes)
      requires Valid()
      modifies this`sent, this`pptr
      ensures Valid() && pptr == 0 && old(sent) <= sent && Output() == old(Output()) + data
    {
      EmptyBuffer();
      SendAll(data);
    }

    /** Copying one piece into the put area and pbump. */
    method Put(piece: bytes)
      requires Valid() && pptr + |piece| <= BUFF_SIZE
      modifies this`pptr, m_buffer
      ensures Valid() && pptr == old(pptr) + |piece| && Output() == old(Output()) + piece
    {
      ghost var before := m_buffer[..pptr];
      forall i | 0 <= i < |piece| {
        m_buffer[pptr + i] := piece[i];
      }
      pptr := pptr + |piece|;
      assert m_buffer[..pptr] == before + piece;
    }

    /** The inner loop: escapes go in whole as long as they fit. */
    method PutEscapes(s: bytes, start: nat) returns (i: nat)
      requires Valid() && start < |s|
      modifies this`pptr, m_buffer
      ensures Valid() && start <= i <= |s|
      ensures i == start ==> pptr > BUFF_SIZE - 6
      ensures Output() == old(Output()) + Escape(m_encoding, s[start..i])
    {
      assert s[start..start] == [] && Escape(m_encoding, []) == [];
      hide Contents, IsFrame, PaddingLength, ContentLength, FcgiId, Escape, EscapeByte;
      i := start;
      while i < |s|
        invariant start <= i <= |s| && Valid()
        invariant Output() == old(Output()) + Escape(m_encoding, s[start..i])
      {
        var writeSpace := BUFF_SIZE - pptr;
        var piece := EscapeByte(m_encoding, s[i]);
        if writeSpace < |piece| {
          break;
        }
        Put(piece);
        OneEscapeOn(m_encoding, s, start, i, old(Output()));
        i := i + 1;
      }
    }

    /** One filling of the put area, escaped or not. */
    method Fill(s: bytes, start: nat) returns (i: nat)
      requires Valid() && start <= |s|
      modifies this`pptr, m_buffer
      ensures Valid() && start <= i <= |s|
      ensures i == start < |s| ==> pptr > BUFF_SIZE - 6
      ensures Output() == old(Output()) + Escape(m_encoding, s[start..i])
    {
      i := start;
      if m_encoding == NONE {
        var actual := Min(|s| - start, BUFF_SIZE - pptr);
        i := start + actual;
        Put(s[start..i]);
        EscapeNone(s[start..i]);
      } else if start < |s| {
        i := PutEscapes(s, start);
      }
    }

    /** xsputn: exactly the escapes of s are written, in order, whatever is in the
        put area already; no record ends inside an escape. */
    method Xsputn(s: bytes)
      requires Valid()
      modifies this`sent, this`pptr, m_buffer
      ensures Valid() && old(sent) <= sent
      ensures Output() == old(Output()) + Escape(m_encoding, s)
      ensures CutAtEscapes(m_encoding, old(sent), sent, old(Output()), s, |s|)
    {
      NothingWritten(m_encoding, sent, Output(), s);
      hide Escape, CutAtEscapes, Contents, IsFrame, PaddingLength, ContentLength, FcgiId;
      var i := 0;
      while true
        invariant i <= |s| && Valid() && old(sent) <= sent
        invariant Output() == old(Output()) + Escape(m_encoding, s[..i])
        invariant CutAtEscapes(m_encoding, old(sent), sent, old(Output()), s, i)
        decreases |s| - i, pptr
      {
        var start := i;
        ghost var records := sent;
        i := Fill(s, start);
        WrittenOn(m_encoding, s, start, i, old(Output()), Output());
        CutsGoOn(m_encoding, old(sent), sent, old(Output()), s, start, i);
        if i == |s| {
          break;
        }
        EmptyBuffer();
        CutOnceMore(m_encoding, old(sent), records, sent, old(Output()), s, i);
      }
      assert s[..i] == s;
    }
  }

  /** However the bytes of the records arrive, receiving gives back the records. */
  lemma {:induction false} RecordsReassemble(records: seq<bytes>, kind: byte, id: nat)
    requires AllGood(records, kind, id)
    ensures Frames(Concat(records)) == (records, [])
  {
    FramesUnique(records, []);
    assert Concat(records) + [] == Concat(records);
  }

  /** And at every moment before the end, the records received so far are the
      first of the records sent. */
  lemma {:induction false} PrefixOfRecords(records: seq<bytes>, kind: byte, id: nat, k: nat)
    requires AllGood(records, kind, id) && k <= |Concat(records)|
    ensures Frames(Concat(records)[..k]).0 <= records
  {
    FramesOfPrefix(records, Concat(records)[..k]);
  }

  /** Output to input: what a stream buffer sent, cut into records and reassembled
      from the bytes, carries exactly the data written. */
  method WriteAndReassemble(kind: byte, id: nat, e: Encoding, text: bytes, raw: bytes) returns (sent: seq<bytes>)
    requires id < 0x10000
    ensures AllGood(sent, kind, id)
    ensures Frames(Concat(sent)) == (sent, [])
    ensures Contents(Frames(Concat(sent)).0) == Escape(e, text) + raw
  {
    var out := new FcgiStreambuf(kind, id);
    out.m_encoding := e;
    assert out.Output() == [];
    out.Xsputn(text);
    assert out.Output() == Escape(e, text);
    out.Dump(raw);
    sent := out.sent;
    RecordsReassemble(sent, kind, id);
    assert Contents(sent) + out.m_buffer[..0] == Contents(sent);
  }
}
