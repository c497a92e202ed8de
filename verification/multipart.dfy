// Multipart form data (src/http.cpp, parsePostsMultipart; section 4 of RFC 7578).
// Bytes are written as characters here.

module Multipart {
  import opened Common

  const NAME_FIELD := "name=\""
  const FILENAME_FIELD := "filename=\""
  const TYPE_FIELD := "Content-Type: "
  const BODY_MARK := "\r\n\r\n"

  /** What is inserted into posts or files. */
  datatype Entry =
    | Post(name: string, value: string)
    | File(name: string, contentType: string, filename: string, data: string)

  /** The fields of the part being read that were found so far. */
  datatype Fields = Fields(name: Option<string>, filename: Option<string>, contentType: Option<string>)

  const NO_FIELDS := Fields(None, None, None)

  datatype State = HEADER | NAME | FILENAME | CONTENT_TYPE | BODY

  /** The text continues with p at position i. */
  predicate At(d: string, i: nat, p: string) {
    i + |p| <= |d| && d[i..i + |p|] == p
  }

  /** In the header: the state to go to, and how far. */
  function Recognised(d: string, i: nat, f: Fields): (r: (State, nat))
    ensures r.1 > 0 && (i < |d| ==> i + r.1 <= |d|)
  {
    if f.name.None? && At(d, i, NAME_FIELD) then (NAME, |NAME_FIELD|)
    else if f.filename.None? && At(d, i, FILENAME_FIELD) then (FILENAME, |FILENAME_FIELD|)
    else if f.contentType.None? && At(d, i, TYPE_FIELD) then (CONTENT_TYPE, |TYPE_FIELD|)
    else if At(d, i, BODY_MARK) then (BODY, |BODY_MARK|)
    else (HEADER, 1)
  }

  /** Where a body ends whose boundary was found at position i: two dashes and, if
      there is one, a line break are taken off. */
  function BodyEnd(d: string, from: nat, i: nat): (e: nat)
    requires from <= i <= |d|
    ensures from <= e <= i
  {
    if i - 2 < from then from
    else if i - 2 - from >= 2 && d[i - 3] == '\n' && d[i - 4] == '\r' then i - 4
    else i - 2
  }

  /** A part without a name is dropped; one with a content type is a file. */
  function Emit(f: Fields, body: string): seq<Entry> {
    if f.name.None? then []
    else if f.contentType.Some? then
      [File(f.name.value, f.contentType.value, if f.filename.Some? then f.filename.value else "", body)]
    else [Post(f.name.value, body)]
  }

  predicate EndsType(c: char) {
    c == '\r' || c == '\n'
  }

  /** The entries found from position i on, when what is being read began at from. */
  function Scan(b: string, d: string, i: nat, state: State, from: nat, f: Fields): seq<Entry>
    requires from <= i <= |d|
    decreases |d| - i, if state == CONTENT_TYPE then 1 else 0
  {
    if i == |d| then []
    else
      match state
      case HEADER =>
        var (next, n) := Recognised(d, i, f);
        Scan(b, d, i + n, next, i + n, f)
      case NAME =>
        if d[i] == '"' then Scan(b, d, i + 1, HEADER, i + 1, f.(name := Some(d[from..i])))
        else Scan(b, d, i + 1, NAME, from, f)
      case FILENAME =>
        if d[i] == '"' then Scan(b, d, i + 1, HEADER, i + 1, f.(filename := Some(d[from..i])))
        else Scan(b, d, i + 1, FILENAME, from, f)
      case CONTENT_TYPE =>
        if EndsType(d[i]) then Scan(b, d, i, HEADER, i, f.(contentType := Some(d[from..i])))
        else Scan(b, d, i + 1, CONTENT_TYPE, from, f)
      case BODY =>
        if At(d, i, b) then
          Emit(f, d[from..BodyEnd(d, from, i)]) + Scan(b, d, i + 1, HEADER, i + 1, NO_FIELDS)
        else Scan(b, d, i + 1, BODY, from, f)
  }

  // ---- Layout ---------------------------------------------------------------

  /** A part as a user agent sends it. */
  datatype Part = Part(name: string, filename: Option<string>, contentType: Option<string>, body: string)

  const DISPOSITION := "\r\nContent-Disposition: form-data; "

  function FilenameText(p: Part): string {
    if p.filename.Some? then "; " + (FILENAME_FIELD + (p.filename.value + "\"")) else ""
  }

  function TypeText(p: Part): string {
    if p.contentType.Some? then "\r\n" + (TYPE_FIELD + p.contentType.value) else ""
  }

  /** A part, from the line break after one boundary up to and including the next. */
  function PartText(b: string, p: Part, rest: string): string {
    DISPOSITION + (NAME_FIELD + (p.name + ("\"" + (FilenameText(p) + (TypeText(p)
    + (BODY_MARK + (p.body + ("\r\n--" + (b + rest)))))))))
  }

  function PartsText(b: string, parts: seq<Part>): string {
    if parts == [] then "--\r\n" else PartText(b, parts[0], PartsText(b, parts[1..]))
  }

  function Layout(b: string, parts: seq<Part>): string {
    ("--" + b) + PartsText(b, parts)
  }

  /** The entry a part stands for: a value, or a file if it has a content type. */
  function EntryOf(p: Part): Entry {
    if p.contentType.Some? then
      File(p.name, p.contentType.value, if p.filename.Some? then p.filename.value else "", p.body)
    else Post(p.name, p.body)
  }

  function EntriesOf(parts: seq<Part>): seq<Entry> {
    if parts == [] then [] else [EntryOf(parts[0])] + EntriesOf(parts[1..])
  }

  /** No quote in the names, no line break in the content type, and the boundary does
      not occur before its proper place. */
  predicate GoodPart(b: string, p: Part) {
    && '"' !in p.name
    && (p.filename.Some? ==> '"' !in p.filename.value)
    && (p.contentType.Some? ==> '\r' !in p.contentType.value && '\n' !in p.contentType.value)
    && forall k | 0 <= k < |p.body| + 4 :: !At(p.body + ("\r\n--" + b), k, b)
  }

  /** Text in which the header scanner finds nothing. */
  predicate Plain(t: string) {
    && '"' !in t && '\r' !in t && '\n' !in t
    && forall k | 0 <= k < |t| :: !At(t, k, TYPE_FIELD)
  }

  // ---- Scanning over text that changes nothing ------------------------------

  predicate Stays(b: string, d: string, i: nat, state: State, f: Fields)
    requires i < |d|
  {
    match state
    case HEADER => Recognised(d, i, f) == (HEADER, 1)
    case NAME => d[i] != '"'
    case FILENAME => d[i] != '"'
    case CONTENT_TYPE => !EndsType(d[i])
    case BODY => !At(d, i, b)
  }

  lemma {:induction false} Skip(b: string, d: string, i: nat, j: nat, state: State, from: nat, f: Fields)
    requires from <= i <= j <= |d| && (state.HEADER? ==> from == i)
    requires forall k | i <= k < j :: Stays(b, d, k, state, f)
    ensures Scan(b, d, i, state, from, f) == Scan(b, d, j, state, if state.HEADER? then j else from, f)
    decreases j - i
  {
    if i < j {
      assert Stays(b, d, i, state, f);
      Skip(b, d, i + 1, j, state, if state.HEADER? then i + 1 else from, f);
    }
  }

  lemma SplitAfter(d: string, i: nat, a: string, c: string)
    requires i <= |d| && d[i..] == a + c
    ensures i + |a| <= |d| && d[i..i + |a|] == a && d[i + |a|..] == c && At(d, i, a)
    ensures forall k | 0 <= k < |a| :: d[i + k] == a[k]
  {
    assert d[i..][..|a|] == a && d[i..][|a|..] == c;
    forall k | 0 <= k < |a| ensures d[i + k] == a[k] {
      assert d[i..i + |a|][k] == d[i + k];
    }
  }

  /** A quoted text is read up to its quote. */
  lemma ReadQuoted(b: string, d: string, i: nat, state: State, f: Fields, t: string, rest: string)
    returns (next: nat)
    requires state == NAME || state == FILENAME
    requires i <= |d| && d[i..] == t + ("\"" + rest) && '"' !in t
    ensures i <= next <= |d| && d[next..] == rest
    ensures Scan(b, d, i, state, i, f)
         == Scan(b, d, next, HEADER, next, if state == NAME then f.(name := Some(t)) else f.(filename := Some(t)))
  {
    SplitAfter(d, i, t, "\"" + rest);
    var q := i + |t|;
    SplitAfter(d, q, "\"", rest);
    assert d[q] == "\""[0];
    Skip(b, d, i, q, state, i, f);
    next := q + 1;
  }

  /** A field name the header recognises. */
  lemma ReadField(b: string, d: string, i: nat, f: Fields, field: string, state: State, rest: string)
    returns (next: nat)
    requires match state
      case HEADER => false
      case NAME => field == NAME_FIELD && f.name.None?
      case FILENAME => field == FILENAME_FIELD && f.filename.None?
      case CONTENT_TYPE => field == TYPE_FIELD && f.contentType.None?
      case BODY => field == BODY_MARK
    requires i <= |d| && d[i..] == field + rest
    ensures next == i + |field| <= |d| && d[next..] == rest
    ensures Scan(b, d, i, HEADER, i, f) == Scan(b, d, next, state, next, f)
  {
    SplitAfter(d, i, field, rest);
    next := i + |field|;
    assert d[i] == field[0];
    assert Recognised(d, i, f) == (state, |field|);
  }

  lemma AtChar(d: string, k: nat, p: string, j: nat)
    requires j < |p| && k + |p| <= |d|
    ensures At(d, k, p) ==> d[k + j] == p[j]
  {
    assert d[k..k + |p|][j] == d[k + j];
  }

  lemma NotAt(d: string, k: nat, p: string, j: nat)
    requires j < |p| && (k + |p| <= |d| ==> d[k + j] != p[j])
    ensures !At(d, k, p)
  {
    if k + |p| <= |d| { AtChar(d, k, p, j); }
  }

  /** A field that would reach a line break is none. */
  lemma NoBreakInField(d: string, k: nat, at: nat)
    requires k <= at < |d| && d[at] == '\r' && at < k + |TYPE_FIELD|
    ensures !At(d, k, TYPE_FIELD)
  {
    assert forall c <- TYPE_FIELD :: c != '\r';
    NotAt(d, k, TYPE_FIELD, at - k);
  }

  /** In plain text before a line break nothing is recognised, if no quote is near. */
  lemma NothingInPlain(d: string, i: nat, t: string, k: nat, f: Fields)
    requires Plain(t) && i + |t| < |d| && d[i..i + |t|] == t && d[i + |t|] == '\r'
    requires forall j | i + |t| <= j < |d| && j < i + |t| + 9 :: d[j] != '"'
    requires i <= k < i + |t|
    ensures Recognised(d, k, f) == (HEADER, 1)
  {
    NoTypeInPlain(d, i, t, k);
    PlainChar(d, i, t, k);
    if k + 5 < i + |t| { PlainChar(d, i, t, k + 5); }
    if k + 9 < i + |t| { PlainChar(d, i, t, k + 9); }
    hide At, Plain;
    NotAt(d, k, NAME_FIELD, 5);
    NotAt(d, k, FILENAME_FIELD, 9);
    NotAt(d, k, BODY_MARK, 0);
  }

  lemma PlainChar(d: string, i: nat, t: string, j: nat)
    requires Plain(t) && i + |t| <= |d| && d[i..i + |t|] == t && i <= j < i + |t|
    ensures d[j] == t[j - i] && d[j] != '"' && d[j] != '\r'
  {
    assert d[i..i + |t|][j - i] == d[j];
  }

  lemma NoTypeInPlain(d: string, i: nat, t: string, k: nat)
    requires Plain(t) && i + |t| < |d| && d[i..i + |t|] == t && d[i + |t|] == '\r' && i <= k < i + |t|
    ensures !At(d, k, TYPE_FIELD)
  {
    if k + |TYPE_FIELD| <= i + |t| {
      assert !At(t, k - i, TYPE_FIELD);
      AtInside(d, i, t, k - i, TYPE_FIELD);
    } else {
      NoBreakInField(d, k, i + |t|);
    }
  }

  /** What keeps the disposition from being taken for another field. */
  predicate Harmless(u: string) {
    |u| > 10 && u[2] != '\r' && u[10] != 'T' && forall r | 0 <= r < |u| :: HarmlessAt(u, r)
  }

  predicate HarmlessAt(u: string, r: nat)
    requires r < |u|
  {
    && u[r] != '"' && (u[r] == '\r' ==> r == 0) && (u[r] == 'C' ==> r == 2)
    && (u[r] == 'f' ==> r + 1 < |u| && u[r + 1] != 'i')
  }

  lemma DispositionHarmless()
    ensures Harmless(DISPOSITION)
  {
  }

  lemma NothingInHarmless(d: string, i: nat, u: string, k: nat, f: Fields)
    requires Harmless(u) && i <= k < i + |u| <= |d| && forall r | 0 <= r < |u| :: d[i + r] == u[r]
    requires forall j | i + |u| <= j < |d| && j < i + |u| + 5 :: d[j] != '"'
    ensures Recognised(d, k, f) == (HEADER, 1)
  {
    var r := k - i;
    assert d[k] == u[r] && HarmlessAt(u, r);
    assert d[i + 2] == u[2] && d[i + 10] == u[10];
    NotAt(d, k, BODY_MARK, if r == 0 then 2 else 0);
    NotAt(d, k, TYPE_FIELD, if r == 2 then 8 else 0);
    if u[r] == 'f' { assert d[i + (r + 1)] == u[r + 1]; }
    NotAt(d, k, FILENAME_FIELD, if u[r] == 'f' then 1 else 0);
    if r + 5 < |u| { assert d[i + (r + 5)] == u[r + 5] && HarmlessAt(u, r + 5); }
    NotAt(d, k, NAME_FIELD, 5);
  }

  // ---- Reading one part -----------------------------------------------------

  /** From the text after a boundary to the value of the name field. */
  lemma ReadToName(b: string, d: string, i: nat, t: string, rest: string) returns (next: nat)
    requires Plain(t) && i <= |d| && d[i..] == t + (DISPOSITION + (NAME_FIELD + rest))
    ensures i < next <= |d| && d[next..] == rest
    ensures Scan(b, d, i, HEADER, i, NO_FIELDS) == Scan(b, d, next, NAME, next, NO_FIELDS)
  {
    var u := DISPOSITION;
    DispositionHarmless();
    SplitAfter(d, i, t, u + (NAME_FIELD + rest));
    var j := i + |t|;
    SplitAfter(d, j, u, NAME_FIELD + rest);
    SplitAfter(d, j + |u|, NAME_FIELD, rest);
    forall q | j + |u| <= q < j + |u| + 5 ensures d[q] != '"' {
      assert d[j + |u| + (q - j - |u|)] == NAME_FIELD[q - j - |u|];
    }
    SkipDisposition(b, d, i, t, u);
    next := ReadField(b, d, j + |u|, NO_FIELDS, NAME_FIELD, NAME, rest);
  }

  lemma SkipDisposition(b: string, d: string, i: nat, t: string, u: string)
    requires Plain(t) && Harmless(u) && u[0] == '\r' && i + |t| + |u| + 5 <= |d|
    requires d[i..i + |t|] == t && forall r | 0 <= r < |u| :: d[i + |t| + r] == u[r]
    requires forall q | i + |t| + |u| <= q < i + |t| + |u| + 5 :: d[q] != '"'
    ensures var j := i + |t| + |u|;
      Scan(b, d, i, HEADER, i, NO_FIELDS) == Scan(b, d, j, HEADER, j, NO_FIELDS)
  {
    hide Scan, Recognised, Plain, At;
    var j := i + |t|;
    assert d[j + 0] == u[0];
    forall q | j <= q < j + 9 ensures d[q] != '"' {
      NoQuoteIn(d, j, u, q);
    }
    forall k | i <= k < j + |u| ensures Stays(b, d, k, HEADER, NO_FIELDS) {
      hide Harmless;
      if k < j {
        NothingInPlain(d, i, t, k, NO_FIELDS);
      } else {
        NothingInHarmless(d, j, u, k, NO_FIELDS);
      }
    }
    Skip(b, d, i, j + |u|, HEADER, i, NO_FIELDS);
  }

  lemma NoQuoteIn(d: string, j: nat, u: string, q: nat)
    requires Harmless(u) && j + |u| <= |d| && (forall r | 0 <= r < |u| :: d[j + r] == u[r]) && j <= q < j + 9
    ensures d[q] != '"'
  {
    assert d[j + (q - j)] == u[q - j] && HarmlessAt(u, q - j);
  }

  predicate Inert(c: char) {
    c != 'n' && c != 'f' && c != 'C'
  }

  /** The first character tells that nothing begins here. */
  lemma NothingAt(d: string, k: nat, f: Fields)
    requires k < |d| && Inert(d[k])
    requires d[k] == '\r' ==> k + 2 < |d| && d[k + 2] != '\r'
    ensures Recognised(d, k, f) == (HEADER, 1)
  {
    hide At;
    NotAt(d, k, NAME_FIELD, 0);
    NotAt(d, k, FILENAME_FIELD, 0);
    NotAt(d, k, TYPE_FIELD, 0);
    NotAt(d, k, BODY_MARK, if d[k] == '\r' then 2 else 0);
  }

  /** Two characters in which nothing begins. */
  lemma SkipTwo(b: string, d: string, i: nat, f: Fields, two: string, rest: string)
    requires |two| == 2 && Inert(two[0]) && Inert(two[1]) && two[1] != '\r'
    requires two[0] == '\r' ==> rest != [] && rest[0] != '\r'
    requires i <= |d| && d[i..] == two + rest
    ensures i + 2 <= |d| && d[i + 2..] == rest
    ensures Scan(b, d, i, HEADER, i, f) == Scan(b, d, i + 2, HEADER, i + 2, f)
  {
    hide Scan, Recognised;
    SplitAfter(d, i, two, rest);
    assert d[i + 0] == two[0] && d[i + 1] == two[1];
    assert rest != [] ==> d[i + 2] == d[i + 2..][0];
    NothingAt(d, i, f);
    NothingAt(d, i + 1, f);
    Skip(b, d, i, i + 2, HEADER, i, f);
  }

  lemma ReadFilename(b: string, d: string, i: nat, f: Fields, p: Part, rest: string) returns (next: nat)
    requires f.filename.None? && (p.filename.Some? ==> '"' !in p.filename.value)
    requires i <= |d| && d[i..] == FilenameText(p) + rest
    ensures i <= next <= |d| && d[next..] == rest
    ensures Scan(b, d, i, HEADER, i, f) == Scan(b, d, next, HEADER, next, f.(filename := p.filename))
  {
    if p.filename.None? {
      assert "" + rest == rest;
      next := i;
    } else {
      var v := p.filename.value;
      Associate("; ", FILENAME_FIELD + (v + "\""), rest);
      Associate(FILENAME_FIELD, v + "\"", rest);
      Associate(v, "\"", rest);
      SkipTwo(b, d, i, f, "; ", FILENAME_FIELD + (v + ("\"" + rest)));
      next := ReadField(b, d, i + 2, f, FILENAME_FIELD, FILENAME, v + ("\"" + rest));
      next := ReadQuoted(b, d, next, FILENAME, f, v, rest);
    }
  }

  /** A content type ends before the first line feed as well as before a carriage return. */
  lemma TypeEndsAtBreak(b: string, d: string, i: nat, f: Fields, t: string, c: char, rest: string)
    requires i <= |d| && d[i..] == t + ([c] + rest) && c in {'\r', '\n'} && '\r' !in t && '\n' !in t
    ensures var j := i + |t|;
      j <= |d| && Scan(b, d, i, CONTENT_TYPE, i, f) == Scan(b, d, j, HEADER, j, f.(contentType := Some(t)))
  {
    SplitAfter(d, i, t, [c] + rest);
    var j := i + |t|;
    assert d[j] == d[j..][0];
    Skip(b, d, i, j, CONTENT_TYPE, i, f);
  }

  lemma ReadSomeType(b: string, d: string, i: nat, f: Fields, v: string, rest: string) returns (next: nat)
    requires f.contentType.None? && rest != [] && rest[0] == '\r' && '\r' !in v && '\n' !in v
    requires i <= |d| && d[i..] == "\r\n" + (TYPE_FIELD + (v + rest))
    ensures i <= next <= |d| && d[next..] == rest
    ensures Scan(b, d, i, HEADER, i, f) == Scan(b, d, next, HEADER, next, f.(contentType := Some(v)))
  {
    hide Scan, At, Recognised;
    SkipTwo(b, d, i, f, "\r\n", TYPE_FIELD + (v + rest));
    var from := ReadField(b, d, i + 2, f, TYPE_FIELD, CONTENT_TYPE, v + rest);
    hide TYPE_FIELD;
    SplitAfter(d, from, v, rest);
    next := from + |v|;
    HeadAndTail(rest);
    TypeEndsAtBreak(b, d, from, f, v, rest[0], rest[1..]);
  }

  lemma HeadAndTail(s: string)
    requires s != []
    ensures s == [s[0]] + s[1..]
  {
  }

  lemma ReadType(b: string, d: string, i: nat, f: Fields, p: Part, rest: string) returns (next: nat)
    requires f.contentType.None? && rest != [] && rest[0] == '\r'
    requires p.contentType.Some? ==> '\r' !in p.contentType.value && '\n' !in p.contentType.value
    requires i <= |d| && d[i..] == TypeText(p) + rest
    ensures i <= next <= |d| && d[next..] == rest
    ensures Scan(b, d, i, HEADER, i, f) == Scan(b, d, next, HEADER, next, f.(contentType := p.contentType))
  {
    hide Scan;
    if p.contentType.None? {
      assert "" + rest == rest;
      next := i;
    } else {
      var v := p.contentType.value;
      Associate("\r\n", TYPE_FIELD + v, rest);
      Associate(TYPE_FIELD, v, rest);
      next := ReadSomeType(b, d, i, f, v, rest);
    }
  }

  /** The body, cut at its boundary. */
  lemma ReadBody(b: string, d: string, from: nat, f: Fields, p: Part, rest: string) returns (next: nat)
    requires GoodPart(b, p) && from <= |d| && d[from..] == p.body + ("\r\n--" + (b + rest))
    ensures b != "" && from < next <= |d| && d[next..] == b[1..] + rest
    ensures Scan(b, d, from, BODY, from, f)
         == Emit(f, p.body) + Scan(b, d, next, HEADER, next, NO_FIELDS)
  {
    hide Scan, GoodPart, Emit;
    var e := BodyText(b, d, from, p, rest);
    BoundaryFirst(b, d, from, p, rest);
    BodyScanned(b, d, from, e, f);
    next := e + 5;
  }

  lemma BodyScanned(b: string, d: string, from: nat, e: nat, f: Fields)
    requires from <= e && e + 4 < |d| && At(d, e, "\r\n--") && At(d, e + 4, b)
    requires forall k | from <= k < e + 4 :: !At(d, k, b)
    ensures Scan(b, d, from, BODY, from, f)
         == Emit(f, d[from..e]) + Scan(b, d, e + 5, HEADER, e + 5, NO_FIELDS)
  {
    hide Scan, BodyEnd, At, Emit;
    Skip(b, d, from, e + 4, BODY, from, f);
    BreakBefore(d, from, e);
    ScanBoundary(b, d, e + 4, from, f);
  }

  lemma ScanBoundary(b: string, d: string, i: nat, from: nat, f: Fields)
    requires from <= i < |d| && At(d, i, b)
    ensures Scan(b, d, i, BODY, from, f)
         == Emit(f, d[from..BodyEnd(d, from, i)]) + Scan(b, d, i + 1, HEADER, i + 1, NO_FIELDS)
  {
    hide At, BodyEnd, Emit;
  }

  lemma NoEmptyBoundary(b: string, p: Part)
    requires GoodPart(b, p)
    ensures b != ""
  {
    assert !At(p.body + ("\r\n--" + b), 0, b);
  }

  lemma BodyText(b: string, d: string, from: nat, p: Part, rest: string) returns (e: nat)
    requires GoodPart(b, p) && from <= |d| && d[from..] == p.body + ("\r\n--" + (b + rest))
    ensures e == from + |p.body| <= |d| && d[from..e] == p.body && At(d, e, "\r\n--") && At(d, e + 4, b)
    ensures b != "" && e + 5 <= |d| && d[e + 5..] == b[1..] + rest
  {
    NoEmptyBoundary(b, p);
    hide GoodPart, At;
    SplitAfter(d, from, p.body, "\r\n--" + (b + rest));
    e := from + |p.body|;
    BoundaryText(d, e, b, rest);
  }

  lemma BoundaryText(d: string, e: nat, b: string, rest: string)
    requires b != "" && e <= |d| && d[e..] == "\r\n--" + (b + rest)
    ensures At(d, e, "\r\n--") && At(d, e + 4, b) && e + 5 <= |d| && d[e + 5..] == b[1..] + rest
  {
    hide At;
    SplitAfter(d, e, "\r\n--", b + rest);
    SplitAfter(d, e + 4, b, rest);
    NextAfter(d, e + 4, b, rest);
  }

  lemma NextAfter(d: string, i: nat, b: string, rest: string)
    requires b != "" && i <= |d| && d[i..] == b + rest
    ensures i + 1 <= |d| && d[i + 1..] == b[1..] + rest
  {
    assert |d[i..]| == |d| - i > 0;
    assert d[i..][1..] == d[i + 1..];
    assert (b + rest)[1..] == b[1..] + rest;
  }

  lemma BreakBefore(d: string, from: nat, e: nat)
    requires from <= e && At(d, e, "\r\n--")
    ensures BodyEnd(d, from, e + 4) == e
  {
    AtChar(d, e, "\r\n--", 0);
    AtChar(d, e, "\r\n--", 1);
  }

  lemma BodyGrouping(b: string, p: Part, rest: string)
    ensures p.body + ("\r\n--" + (b + rest)) == p.body + ("\r\n--" + b) + rest
  {
    Associate("\r\n--", b, rest);
    Associate(p.body, "\r\n--" + b, rest);
  }

  lemma AtInside(d: string, from: nat, text: string, k: nat, p: string)
    requires from + |text| <= |d| && d[from..from + |text|] == text && k + |p| <= |text|
    ensures At(text, k, p) <==> At(d, from + k, p)
  {
    SliceOfSlice(d, from, from + |text|, k, k + |p|);
  }

  lemma BoundaryFirst(b: string, d: string, from: nat, p: Part, rest: string)
    requires GoodPart(b, p) && from <= |d| && d[from..] == p.body + ("\r\n--" + (b + rest))
    ensures b != "" && forall k | from <= k < from + |p.body| + 4 && k < |d| :: !At(d, k, b)
  {
    var text := p.body + ("\r\n--" + b);
    BodyGrouping(b, p, rest);
    SplitAfter(d, from, text, rest);
    NoEmptyBoundary(b, p);
    forall k | from <= k < from + |p.body| + 4 && k < |d| ensures !At(d, k, b) {
      assert !At(text, k - from, b);
      AtInside(d, from, text, k - from, b);
    }
  }

  /** One part, from the text t after the boundary before it. */
  lemma ReadPart(b: string, d: string, i: nat, t: string, p: Part, rest: string) returns (next: nat)
    requires Plain(t) && GoodPart(b, p) && i <= |d| && d[i..] == t + PartText(b, p, rest)
    ensures b != "" && i < next <= |d| && d[next..] == b[1..] + rest
    ensures Scan(b, d, i, HEADER, i, NO_FIELDS)
         == [EntryOf(p)] + Scan(b, d, next, HEADER, next, NO_FIELDS)
  {
    var body := p.body + ("\r\n--" + (b + rest));
    var afterType := BODY_MARK + body;
    var afterFilename := TypeText(p) + afterType;
    var afterName := FilenameText(p) + afterFilename;
    next := ReadToName(b, d, i, t, p.name + ("\"" + afterName));
    next := ReadQuoted(b, d, next, NAME, NO_FIELDS, p.name, afterName);
    var f := NO_FIELDS.(name := Some(p.name));
    next := ReadFilename(b, d, next, f, p, afterFilename);
    f := f.(filename := p.filename);
    next := ReadType(b, d, next, f, p, afterType);
    f := f.(contentType := p.contentType);
    next := ReadField(b, d, next, f, BODY_MARK, BODY, body);
    next := ReadBody(b, d, next, f, p, rest);
  }

  /** After the last boundary there is nothing but two dashes and a line break. */
  lemma ReadClose(b: string, d: string, i: nat, t: string)
    requires Plain(t) && i <= |d| && d[i..] == t + "--\r\n"
    ensures Scan(b, d, i, HEADER, i, NO_FIELDS) == []
  {
    var u := t + "--";
    assert d[i..] == u + "\r\n";
    PlainDashes(t);
    SplitAfter(d, i, u, "\r\n");
    var j := i + |u|;
    SplitAfter(d, j, "\r\n", "");
    assert d[j + 0] == '\r' && d[j + 1] == '\n' && |d| == j + 2;
    forall k | i <= k < |d| ensures Stays(b, d, k, HEADER, NO_FIELDS) {
      if k < j { NothingInPlain(d, i, u, k, NO_FIELDS); }
    }
    Skip(b, d, i, |d|, HEADER, i, NO_FIELDS);
  }

  lemma PlainDashes(t: string)
    requires Plain(t)
    ensures Plain(t + "--")
  {
    var u := t + "--";
    forall k | 0 <= k < |u| ensures !At(u, k, TYPE_FIELD) {
      if k + |TYPE_FIELD| <= |t| {
        assert u[k..k + |TYPE_FIELD|] == t[k..k + |TYPE_FIELD|];
        assert !At(t, k, TYPE_FIELD);
      } else if k + |TYPE_FIELD| <= |u| {
        NotAt(u, k, TYPE_FIELD, |TYPE_FIELD| - 1);
      }
    }
  }

  lemma DashesPlain(t: string)
    requires Plain(t)
    ensures Plain("--" + t)
  {
    var u := "--" + t;
    forall k | 0 <= k < |u| ensures !At(u, k, TYPE_FIELD) {
      if k < 2 {
        NotAt(u, k, TYPE_FIELD, 0);
      } else {
        assert !At(t, k - 2, TYPE_FIELD);
        if k + |TYPE_FIELD| <= |u| {
          assert u[k..k + |TYPE_FIELD|] == t[k - 2..k - 2 + |TYPE_FIELD|];
        }
      }
    }
  }

  lemma TailPlain(t: string)
    requires Plain(t) && t != ""
    ensures Plain(t[1..])
  {
    var u := t[1..];
    forall k | 0 <= k < |u| ensures !At(u, k, TYPE_FIELD) {
      assert !At(t, k + 1, TYPE_FIELD);
      if k + |TYPE_FIELD| <= |u| {
        assert u[k..k + |TYPE_FIELD|] == t[k + 1..k + 1 + |TYPE_FIELD|];
      }
    }
  }

  lemma {:induction false} ReadParts(b: string, d: string, i: nat, t: string, parts: seq<Part>)
    requires Plain(b) && Plain(t) && i <= |d| && d[i..] == t + PartsText(b, parts)
    requires forall p <- parts :: GoodPart(b, p)
    ensures Scan(b, d, i, HEADER, i, NO_FIELDS) == EntriesOf(parts)
    decreases |parts|
  {
    if parts == [] {
      ReadClose(b, d, i, t);
    } else {
      var next := ReadPart(b, d, i, t, parts[0], PartsText(b, parts[1..]));
      TailPlain(b);
      ReadParts(b, d, next, b[1..], parts[1..]);
    }
  }

  /** Any list of parts laid out as RFC 7578 says is read back exactly and in order. */
  lemma MultipartRoundTrip(b: string, parts: seq<Part>)
    requires Plain(b) && forall p <- parts :: GoodPart(b, p)
    ensures Scan(b, Layout(b, parts), 0, HEADER, 0, NO_FIELDS) == EntriesOf(parts)
  {
    var d := Layout(b, parts);
    assert d[0..] == d;
    DashesPlain(b);
    ReadParts(b, d, 0, "--" + b, parts);
  }

  // ---- Any text -------------------------------------------------------------

  /** The entry that ends a part whose fields so far are these. */
  predicate Takes(state: State, f: Fields, e: Entry) {
    && (f.name.Some? && state != NAME ==> e.name == f.name.value)
    && (f.contentType.Some? && state != CONTENT_TYPE ==> e.File? && e.contentType == f.contentType.value)
    && (f.filename.Some? && state != FILENAME && e.File? ==> e.filename == f.filename.value)
  }

  /** In any text the first of each field of a part counts. */
  lemma {:induction false} FirstFieldCounts(b: string, d: string, i: nat, state: State, from: nat, f: Fields)
    requires from <= i <= |d| && f.name.Some? && state != NAME
    ensures var e := Scan(b, d, i, state, from, f); e == [] || Takes(state, f, e[0])
    decreases |d| - i, if state == CONTENT_TYPE then 1 else 0
  {
    hide At, Takes, BodyEnd;
    if i < |d| {
      match state {
        case HEADER =>
          var (next, n) := Recognised(d, i, f);
          FirstFieldCounts(b, d, i + n, next, i + n, f);
          StillTakes(d, i, f);
        case NAME => assert false;
        case FILENAME =>
          var g := f.(filename := Some(d[from..i]));
          FirstFieldCounts(b, d, i + 1, HEADER, i + 1, g);
          FirstFieldCounts(b, d, i + 1, FILENAME, from, f);
          LastTakes(f);
        case CONTENT_TYPE =>
          if EndsType(d[i]) {
            FirstFieldCounts(b, d, i, HEADER, i, f.(contentType := Some(d[from..i])));
          } else {
            FirstFieldCounts(b, d, i + 1, CONTENT_TYPE, from, f);
          }
          LastTakes(f);
        case BODY =>
          FirstFieldCounts(b, d, i + 1, BODY, from, f);
          LastTakes(f);
      }
    }
  }

  /** Leaving the header changes nothing. */
  lemma StillTakes(d: string, i: nat, f: Fields)
    requires f.name.Some?
    ensures var next := Recognised(d, i, f).0;
      next != NAME && forall e | Takes(next, f, e) :: Takes(HEADER, f, e)
  {
    hide At;
  }

  /** Nor does another value of the field being read. */
  lemma LastTakes(f: Fields)
    ensures forall e, v | Takes(HEADER, f.(filename := v), e) && v.Some? :: Takes(FILENAME, f, e)
    ensures forall e, v | Takes(HEADER, f.(contentType := v), e) && v.Some? :: Takes(CONTENT_TYPE, f, e)
    ensures forall body :: f.name.Some? ==> Emit(f, body) != [] && Takes(BODY, f, Emit(f, body)[0])
  {
  }

  /** Without a name there is no entry. */
  lemma {:induction false} NamelessDropped(b: string, d: string, i: nat, state: State, from: nat, f: Fields)
    requires from <= i <= |d| && f.name.None? && state != NAME
    requires forall k | i <= k < |d| :: !At(d, k, NAME_FIELD)
    ensures Scan(b, d, i, state, from, f) == []
    decreases |d| - i, if state == CONTENT_TYPE then 1 else 0
  {
    hide At, BodyEnd;
    if i < |d| {
      match state {
        case HEADER =>
          var (next, n) := Recognised(d, i, f);
          NamelessDropped(b, d, i + n, next, i + n, f);
        case NAME => assert false;
        case FILENAME =>
          NamelessDropped(b, d, i + 1, HEADER, i + 1, f.(filename := Some(d[from..i])));
          NamelessDropped(b, d, i + 1, FILENAME, from, f);
        case CONTENT_TYPE =>
          if EndsType(d[i]) {
            NamelessDropped(b, d, i, HEADER, i, f.(contentType := Some(d[from..i])));
          } else {
            NamelessDropped(b, d, i + 1, CONTENT_TYPE, from, f);
          }
        case BODY =>
          NamelessDropped(b, d, i + 1, BODY, from, f);
          NamelessDropped(b, d, i + 1, HEADER, i + 1, NO_FIELDS);
      }
    }
  }

  predicate EndsWithBreak(body: string) {
    |body| >= 2 && body[|body| - 2] == '\r' && body[|body| - 1] == '\n'
  }

  lemma FrontOf(d: string, from: nat, i: nat, n: nat)
    requires from + n <= i <= |d|
    ensures d[from..i][..n] == d[from..from + n]
  {
  }

  lemma LastFour(s: string, body: string)
    requires s == body + "\r\n--"
    ensures |s| == |body| + 4 && s[|s| - 4] == '\r' && s[|s| - 3] == '\n'
  {
  }

  /** A body loses the dashes before its boundary, and one line break before them. */
  lemma BodyEnds(d: string, from: nat, i: nat, body: string, last: string)
    requires from <= i <= |d| && d[from..i] == body + last
    requires last == "\r\n--" || (|last| == 2 && !EndsWithBreak(body)) || (|last| < 2 && body == "")
    ensures d[from..BodyEnd(d, from, i)] == body
  {
    var s := d[from..i];
    FrontOf(d, from, i, |body|);
    assert s[..|body|] == body && |s| == |body| + |last| == i - from;
    assert |s| >= 4 ==> s[|s| - 4] == d[i - 4] && s[|s| - 3] == d[i - 3];
    if last == "\r\n--" {
      LastFour(s, body);
    } else if |body| >= 2 {
      assert s[|body| - 1] == body[|body| - 1] && s[|body| - 2] == body[|body| - 2];
    }
    assert BodyEnd(d, from, i) == from + |body|;
  }

  // ---- The scanner ----------------------------------------------------------

  datatype Upload = Upload(contentType: string, filename: string, data: string)

  function PostOf(e: Entry): seq<(string, string)> {
    match e
    case Post(name, value) => [(name, value)]
    case File(_, _, _, _) => []
  }

  function FileOf(e: Entry): seq<(string, Upload)> {
    match e
    case Post(_, _) => []
    case File(name, contentType, filename, data) => [(name, Upload(contentType, filename, data))]
  }

  /** The values among the entries. */
  function Posts(entries: seq<Entry>): seq<(string, string)> {
    if entries == [] then [] else PostOf(entries[0]) + Posts(entries[1..])
  }

  /** The files among the entries. */
  function Files(entries: seq<Entry>): seq<(string, Upload)> {
    if entries == [] then [] else FileOf(entries[0]) + Files(entries[1..])
  }

  lemma {:induction false} PostsAppend(a: seq<Entry>, c: seq<Entry>)
    ensures Posts(a + c) == Posts(a) + Posts(c)
  {
    hide PostOf;
    if a == [] {
      assert a + c == c;
    } else {
      PostsAppend(a[1..], c);
      var all := a + c;
      assert all[0] == a[0] && all[1..] == a[1..] + c;
      Associate(PostOf(a[0]), Posts(a[1..]), Posts(c));
    }
  }

  lemma {:induction false} FilesAppend(a: seq<Entry>, c: seq<Entry>)
    ensures Files(a + c) == Files(a) + Files(c)
  {
    hide FileOf;
    if a == [] {
      assert a + c == c;
    } else {
      FilesAppend(a[1..], c);
      var all := a + c;
      assert all[0] == a[0] && all[1..] == a[1..] + c;
      Associate(FileOf(a[0]), Files(a[1..]), Files(c));
    }
  }

  lemma OneKind(e: Entry)
    ensures Posts([e]) == PostOf(e) && Files([e]) == FileOf(e)
  {
    assert [e][1..] == [];
  }

  /** A stretch of the buffer that was found, if its end is not the end of the buffer. */
  function Found(d: string, start: nat, end: nat): Option<string>
    requires end < |d| ==> start <= end
  {
    if end < |d| then Some(d[start..end]) else None
  }

  /** The scanner's positions in the buffer; what was not found yet has its end at the
      end of the buffer. */
  datatype Marks = Marks(nameStart: nat, nameEnd: nat, filenameStart: nat, filenameEnd: nat,
                         typeStart: nat, typeEnd: nat, bodyStart: nat)

  function NoMarks(d: string): Marks {
    Marks(|d|, |d|, |d|, |d|, |d|, |d|, |d|)
  }

  predicate GoodMarks(d: string, m: Marks) {
    && (m.nameEnd < |d| ==> m.nameStart <= m.nameEnd)
    && (m.filenameEnd < |d| ==> m.filenameStart <= m.filenameEnd)
    && (m.typeEnd < |d| ==> m.typeStart <= m.typeEnd)
  }

  function FieldsOf(d: string, m: Marks): Fields
    requires GoodMarks(d, m)
  {
    Fields(Found(d, m.nameStart, m.nameEnd), Found(d, m.filenameStart, m.filenameEnd),
           Found(d, m.typeStart, m.typeEnd))
  }

  /** Where what is being read began. */
  function Began(state: State, m: Marks, i: nat): nat {
    match state
    case HEADER => i
    case NAME => m.nameStart
    case FILENAME => m.filenameStart
    case CONTENT_TYPE => m.typeStart
    case BODY => m.bodyStart
  }

  predicate Good(d: string, i: nat, state: State, m: Marks) {
    GoodMarks(d, m) && Began(state, m, i) <= i <= |d|
  }

  ghost function Rest(b: string, d: string, i: nat, state: State, m: Marks): seq<Entry>
    requires Good(d, i, state, m)
  {
    Scan(b, d, i, state, Began(state, m, i), FieldsOf(d, m))
  }

  lemma ScanHeader(b: string, d: string, i: nat, f: Fields)
    requires i < |d|
    ensures var (state, n) := Recognised(d, i, f);
      Scan(b, d, i, HEADER, i, f) == Scan(b, d, i + n, state, i + n, f)
  {
    hide Recognised;
  }

  lemma HeaderMarked(b: string, d: string, i: nat, marks: Marks, state: State, next: nat, m: Marks)
    requires Good(d, i, HEADER, marks) && i < |d| && i < next && GoodMarks(d, m)
    requires Recognised(d, i, FieldsOf(d, marks)) == (state, next - i)
    requires FieldsOf(d, m) == FieldsOf(d, marks) && Began(state, m, next) == next
    ensures next <= |d| && Rest(b, d, next, state, m) == Rest(b, d, i, HEADER, marks)
  {
    ScanHeader(b, d, i, FieldsOf(d, marks));
    hide Scan, Recognised, FieldsOf;
  }

  /** Before the first character everything is to come, after the last nothing. */
  lemma RestAtStart(b: string, d: string)
    ensures Good(d, 0, HEADER, NoMarks(d)) && Rest(b, d, 0, HEADER, NoMarks(d)) == Scan(b, d, 0, HEADER, 0, NO_FIELDS)
  {
    hide Scan;
  }

  lemma RestAtEnd(b: string, d: string, state: State, m: Marks)
    requires Good(d, |d|, state, m)
    ensures Rest(b, d, |d|, state, m) == []
  {
  }

  lemma InBodyRest(b: string, d: string, i: nat, m: Marks)
    requires Good(d, i, BODY, m) && i < |d|
    ensures if At(d, i, b)
      then Rest(b, d, i, BODY, m)
        == Emit(FieldsOf(d, m), d[m.bodyStart..BodyEnd(d, m.bodyStart, i)]) + Rest(b, d, i + 1, HEADER, NoMarks(d))
      else Rest(b, d, i, BODY, m) == Rest(b, d, i + 1, BODY, m)
  {
    hide At, Emit, BodyEnd;
  }

  lemma NothingEmitted(rest: seq<Entry>)
    ensures Posts([]) == [] && Files([]) == [] && [] + rest == rest
  {
  }

  // What a form holds, told from its parts.

  predicate IsFile(p: Part) {
    p.contentType.Some?
  }

  /** The parts with a content type, or those without one, in order. */
  function Select(parts: seq<Part>, files: bool): seq<Part> {
    if parts == [] then []
    else (if IsFile(parts[0]) == files then [parts[0]] else []) + Select(parts[1..], files)
  }

  /** The values are the parts without a content type: each with its name and its body. */
  ghost predicate ValuesRead(parts: seq<Part>, posts: seq<(string, string)>) {
    var values := Select(parts, false);
    && |posts| == |values|
    && forall k | 0 <= k < |values| :: posts[k].0 == values[k].name && posts[k].1 == values[k].body
  }

  /** The files are the parts with a content type: each with its name, its content type,
      its filename, empty if it has none, and its body. */
  ghost predicate FilesRead(parts: seq<Part>, files: seq<(string, Upload)>) {
    var uploads := Select(parts, true);
    && |files| == |uploads|
    && forall k | 0 <= k < |uploads| ::
         && files[k].0 == uploads[k].name
         && Some(files[k].1.contentType) == uploads[k].contentType
         && files[k].1.filename == (if uploads[k].filename.Some? then uploads[k].filename.value else "")
         && files[k].1.data == uploads[k].body
  }

  lemma {:induction false} EntriesTell(parts: seq<Part>)
    ensures ValuesRead(parts, Posts(EntriesOf(parts))) && FilesRead(parts, Files(EntriesOf(parts)))
  {
    if parts != [] {
      var p, entries := parts[0], EntriesOf(parts[1..]);
      EntriesTell(parts[1..]);
      assert EntriesOf(parts)[1..] == entries;
      assert Posts(EntriesOf(parts)) == PostOf(EntryOf(p)) + Posts(entries);
      assert Files(EntriesOf(parts)) == FileOf(EntryOf(p)) + Files(entries);
      hide Posts, Files, EntriesOf;
      FirstTold(p, parts[1..], Posts(entries), Files(entries));
      assert parts == [p] + parts[1..];
    }
  }

  lemma FirstTold(p: Part, rest: seq<Part>, posts: seq<(string, string)>, files: seq<(string, Upload)>)
    requires ValuesRead(rest, posts) && FilesRead(rest, files)
    ensures ValuesRead([p] + rest, PostOf(EntryOf(p)) + posts) && FilesRead([p] + rest, FileOf(EntryOf(p)) + files)
  {
    assert ([p] + rest)[1..] == rest;
  }

  /** The text is this form. */
  ghost predicate IsForm(d: string, boundary: string, parts: seq<Part>) {
    Plain(boundary) && d == Layout(boundary, parts) && forall p <- parts :: GoodPart(boundary, p)
  }

  lemma FormRead(d: string, boundary: string, parts: seq<Part>)
    requires IsForm(d, boundary, parts)
    ensures var e := Scan(boundary, d, 0, HEADER, 0, NO_FIELDS);
      ValuesRead(parts, Posts(e)) && FilesRead(parts, Files(e))
  {
    hide Scan, Layout, GoodPart;
    MultipartRoundTrip(boundary, parts);
    EntriesTell(parts);
  }

  lemma FormsRead(d: string, boundary: string)
    ensures var e := Scan(boundary, d, 0, HEADER, 0, NO_FIELDS);
      forall parts | IsForm(d, boundary, parts) :: ValuesRead(parts, Posts(e)) && FilesRead(parts, Files(e))
  {
    hide IsForm, ValuesRead, FilesRead, Scan, Posts, Files;
    forall parts | IsForm(d, boundary, parts) {
      FormRead(d, boundary, parts);
    }
  }

  lemma MoreDone(done: seq<Entry>, e: seq<Entry>, rest: seq<Entry>)
    ensures Posts(done + e) == Posts(done) + Posts(e) && Files(done + e) == Files(done) + Files(e)
    ensures done + e + rest == done + (e + rest)
  {
    PostsAppend(done, e);
    FilesAppend(done, e);
    Associate(done, e, rest);
  }

  class Environment {
    var posts: seq<(string, string)>
    var files: seq<(string, Upload)>

    /** The header: which field begins here, if any. */
    method InHeader(ghost b: string, d: string, i: nat, marks: Marks) returns (state: State, next: nat, m: Marks)
      requires Good(d, i, HEADER, marks) && i < |d|
      ensures i < next <= |d| && Good(d, next, state, m)
      ensures Rest(b, d, next, state, m) == Rest(b, d, i, HEADER, marks)
    {
      hide Rest, At;
      var byte := i;
      m := marks;
      state := HEADER;
      if m.nameEnd >= |d| && At(d, byte, NAME_FIELD) {
        byte := byte + |NAME_FIELD| - 1;
        m := m.(nameStart := byte + 1);
        state := NAME;
      } else if m.filenameEnd >= |d| && At(d, byte, FILENAME_FIELD) {
        byte := byte + |FILENAME_FIELD| - 1;
        m := m.(filenameStart := byte + 1);
        state := FILENAME;
      } else if m.typeEnd >= |d| && At(d, byte, TYPE_FIELD) {
        byte := byte + |TYPE_FIELD| - 1;
        m := m.(typeStart := byte + 1);
        state := CONTENT_TYPE;
      } else if At(d, byte, BODY_MARK) {
        byte := byte + |BODY_MARK| - 1;
        m := m.(bodyStart := byte + 1);
        state := BODY;
      }
      next := byte + 1;
      HeaderMarked(b, d, i, marks, state, next, m);
    }

    /** A field: does it end here? The character that ends a content type is looked at
        again by the header. */
    method InField(ghost b: string, d: string, i: nat, within: State, marks: Marks)
      returns (state: State, next: nat, m: Marks)
      requires within in [NAME, FILENAME, CONTENT_TYPE] && Good(d, i, within, marks) && i < |d|
      ensures i < next || (i == next && within == CONTENT_TYPE && state == HEADER)
      ensures next <= |d| && Good(d, next, state, m) && Rest(b, d, next, state, m) == Rest(b, d, i, within, marks)
    {
      state, next, m := within, i + 1, marks;
      match within {
        case NAME =>
          if d[i] == '"' {
            m := m.(nameEnd := i);
            state := HEADER;
          }
        case FILENAME =>
          if d[i] == '"' {
            m := m.(filenameEnd := i);
            state := HEADER;
          }
        case CONTENT_TYPE =>
          if EndsType(d[i]) {
            m := m.(typeEnd := i);
            next := i;
            state := HEADER;
          }
      }
    }

    /** What the end of a body puts into posts or files. */
    method Insert(name: Option<string>, contentType: Option<string>, filename: Option<string>, body: string)
      modifies this
      ensures var e := Emit(Fields(name, filename, contentType), body);
        posts == old(posts) + Posts(e) && files == old(files) + Files(e)
    {
      ghost var e := Emit(Fields(name, filename, contentType), body);
      if name.Some? {
        OneKind(e[0]);
        if contentType.Some? {
          files := files + [(name.value, Upload(contentType.value,
                                                if filename.Some? then filename.value else "", body))];
        } else {
          posts := posts + [(name.value, body)];
        }
      }
    }

    /** Where the body ends. */
    method EndOfBody(d: string, start: nat, i: nat) returns (bodyEnd: nat)
      requires start <= i <= |d|
      ensures bodyEnd == BodyEnd(d, start, i)
    {
      var end := i - 2;
      if end < start {
        end := start;
      } else if end - start >= 2 && d[end - 1] == '\n' && d[end - 2] == '\r' {
        end := end - 2;
      }
      bodyEnd := end;
    }

    /** The body: does the boundary begin here? */
    method InBody(b: string, d: string, i: nat, marks: Marks) returns (state: State, m: Marks, ghost e: seq<Entry>)
      requires Good(d, i, BODY, marks) && i < |d|
      modifies this
      ensures Good(d, i + 1, state, m) && e + Rest(b, d, i + 1, state, m) == Rest(b, d, i, BODY, marks)
      ensures posts == old(posts) + Posts(e) && files == old(files) + Files(e)
    {
      InBodyRest(b, d, i, marks);
      NothingEmitted(Rest(b, d, i, BODY, marks));
      hide Rest, At, Posts, Files, BodyEnd, Emit;
      state, m, e := BODY, marks, [];
      if At(d, i, b) {
        var bodyEnd := EndOfBody(d, m.bodyStart, i);
        var f := FieldsOf(d, m);
        Insert(f.name, f.contentType, f.filename, d[m.bodyStart..bodyEnd]);
        e := Emit(f, d[m.bodyStart..bodyEnd]);
        state := HEADER;
        m := NoMarks(d);
      }
    }

    /** What is in the posted text is added, in order, to posts and files. */
    method ParsePostsMultipart(d: string, boundary: string)
      modifies this
      ensures posts == old(posts) + Posts(Scan(boundary, d, 0, HEADER, 0, NO_FIELDS))
      ensures files == old(files) + Files(Scan(boundary, d, 0, HEADER, 0, NO_FIELDS))
      ensures forall parts | IsForm(d, boundary, parts) ::
                ValuesRead(parts, posts[|old(posts)|..]) && FilesRead(parts, files[|old(files)|..])
    {
      assert Posts([]) == [] && Files([]) == [];
      hide Scan, Rest, Posts, Files, Good, IsForm, ValuesRead, FilesRead;
      var m := NoMarks(d);
      var state: State, byte: nat := HEADER, 0;
      RestAtStart(boundary, d);
      ghost var done: seq<Entry> := [];
      while byte < |d|
        invariant byte <= |d| && Good(d, byte, state, m)
        invariant done + Rest(boundary, d, byte, state, m) == Scan(boundary, d, 0, HEADER, 0, NO_FIELDS)
        invariant posts == old(posts) + Posts(done) && files == old(files) + Files(done)
        decreases |d| - byte, if state == CONTENT_TYPE then 1 else 0
      {
        if state == HEADER {
          state, byte, m := InHeader(boundary, d, byte, m);
        } else if state == BODY {
          ghost var e;
          state, m, e := InBody(boundary, d, byte, m);
          byte := byte + 1;
          MoreDone(done, e, Rest(boundary, d, byte, state, m));
          done := done + e;
        } else {
          state, byte, m := InField(boundary, d, byte, state, m);
        }
      }
      RestAtEnd(boundary, d, state, m);
      assert done + [] == done;
      FormsRead(d, boundary);
      assert posts[|old(posts)|..] == Posts(done) && files[|old(files)|..] == Files(done);
    }
  }
}
