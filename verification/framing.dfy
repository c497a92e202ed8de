// FastCGI records as byte strings (section 3.3 of the FastCGI Specification,
// include/fastcgi++/protocol.hpp, src/protocol.cpp) and how a stream of bytes
// falls into them.

module Framing {
  import opened BigEndian
  import opened Common

  const HEADER: nat := 8
  const CHUNK: nat := 8
  const MAX_CONTENT: nat := 0xffff

  function ContentLength(h: bytes): (n: nat)
    requires |h| >= HEADER
    ensures n <= MAX_CONTENT
  {
    assert Range(2) == 0x10000 by { assert Range(1) == 256 * Range(0); }
    From(h[4..6])
  }

  function PaddingLength(h: bytes): nat
    requires |h| >= HEADER
  {
    h[6]
  }

  function FcgiId(h: bytes): nat
    requires |h| >= HEADER
  {
    From(h[2..4])
  }

  /** The length of the record a header announces. */
  function FrameLength(h: bytes): (n: nat)
    requires |h| >= HEADER
    ensures n >= HEADER
  {
    HEADER + ContentLength(h) + PaddingLength(h)
  }

  predicate StartsWithFrame(s: bytes) {
    |s| >= HEADER && |s| >= FrameLength(s)
  }

  /** s is one record, whole and nothing else. */
  predicate IsFrame(s: bytes) {
    |s| >= HEADER && |s| == FrameLength(s)
  }

  /** The records a byte stream contains, and the incomplete rest. */
  function Frames(s: bytes): (r: (seq<bytes>, bytes))
    ensures !StartsWithFrame(r.1)
  {
    if StartsWithFrame(s) then
      var n := FrameLength(s);
      var (frames, rest) := Frames(s[n..]);
      ([s[..n]] + frames, rest)
    else ([], s)
  }

  function Concat(parts: seq<bytes>): bytes {
    if parts == [] then [] else parts[0] + Concat(parts[1..])
  }

  lemma FramePrefix(s: bytes, t: bytes)
    requires |s| >= HEADER
    ensures |s + t| >= HEADER && FrameLength(s + t) == FrameLength(s)
  {
    assert (s + t)[4..6] == s[4..6];
  }

  /** Nothing is lost, every piece is a record, and no other division of the
      stream into records and a rest without a record exists. */
  lemma {:induction false} FramesUnique(frames: seq<bytes>, rest: bytes)
    requires forall f <- frames :: IsFrame(f)
    requires !StartsWithFrame(rest)
    ensures Frames(Concat(frames) + rest) == (frames, rest)
  {
    if frames == [] {
      assert Concat(frames) + rest == rest;
    } else {
      var f, more := frames[0], Concat(frames[1..]) + rest;
      assert f in frames && IsFrame(f);
      assert Concat(frames) + rest == f + more;
      hide Concat, ContentLength;
      FramePrefix(f, more);
      assert (f + more)[..|f|] == f && (f + more)[|f|..] == more;
      FramesUnique(frames[1..], rest);
      assert frames == [f] + frames[1..];
    }
  }

  lemma ConcatCons(part: bytes, parts: seq<bytes>)
    ensures Concat([part] + parts) == part + Concat(parts)
  {
    assert ([part] + parts)[1..] == parts;
  }

  lemma {:induction false} ConcatAppend(a: seq<bytes>, b: seq<bytes>)
    ensures Concat(a + b) == Concat(a) + Concat(b)
  {
    if a == [] {
      assert a + b == b;
    } else {
      hide Concat;
      var part, rest := a[0], a[1..];
      ConcatAppend(rest, b);
      assert a == [part] + rest && a + b == [part] + (rest + b);
      ConcatCons(part, rest);
      ConcatCons(part, rest + b);
      Associate(part, Concat(rest), Concat(b));
    }
  }

  /** What Frames does at a record. */
  lemma FrameFirst(s: bytes)
    requires StartsWithFrame(s)
    ensures var n := FrameLength(s);
      Frames(s) == ([s[..n]] + Frames(s[n..]).0, Frames(s[n..]).1) && IsFrame(s[..n]) && s == s[..n] + s[n..]
  {
    hide ContentLength;
    var n := FrameLength(s);
    assert s == s[..n] + s[n..];
    FramePrefix(s[..n], s[n..]);
  }

  lemma {:induction false} FramesWhole(s: bytes)
    ensures Concat(Frames(s).0) + Frames(s).1 == s
    ensures forall f <- Frames(s).0 :: IsFrame(f)
  {
    if StartsWithFrame(s) {
      hide Frames, Concat, ContentLength;
      var n := FrameLength(s);
      FrameFirst(s);
      hide IsFrame, FrameLength;
      var (frames, rest) := Frames(s[n..]);
      FramesWhole(s[n..]);
      ConcatCons(s[..n], frames);
      Associate(s[..n], Concat(frames), rest);
    }
  }

  /** Framing can go on from the incomplete rest. */
  lemma FramesExtend(s: bytes, t: bytes)
    ensures Frames(s + t) == (Frames(s).0 + Frames(Frames(s).1 + t).0, Frames(Frames(s).1 + t).1)
  {
    var (a, r) := Frames(s);
    var (b, q) := Frames(r + t);
    FramesWhole(s);
    FramesWhole(r + t);
    ConcatAppend(a, b);
    Associate(Concat(a), r, t);
    Associate(Concat(a), Concat(b), q);
    FramesUnique(a + b, q);
  }

  /** A prefix of a stream of whole records frames into the first of them, and the
      whole stream into all of them. */
  lemma FramesOfPrefix(frames: seq<bytes>, s: bytes)
    requires (forall f <- frames :: IsFrame(f)) && s <= Concat(frames)
    ensures Frames(s).0 <= frames
    ensures s == Concat(frames) ==> Frames(s) == (frames, [])
  {
    var stream := Concat(frames);
    FramesUnique(frames, []);
    assert stream + [] == stream && stream == s + stream[|s|..];
    FramesExtend(s, stream[|s|..]);
  }

  /** getRecordSize: the record that holds up to 0xffff bytes of content, rounded
      up to a multiple of the chunk size. */
  function RecordSize(contentLength: nat): (n: nat)
    ensures n % 8 == 0
    ensures var c := if contentLength > 0xffff then 0xffff else contentLength; 8 + c <= n < 8 + c + 8
  {
    var c := if contentLength > MAX_CONTENT then MAX_CONTENT else contentLength;
    (c + HEADER + CHUNK - 1) / CHUNK * CHUNK
  }
}
