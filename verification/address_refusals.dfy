// The texts assign() refuses: a strange character, two places for zeros, too few groups,
// and a dotted address cut short.

module AddressRefusals {
  import opened BigEndian
  import opened Common
  import opened AddressText

  /** An empty group ends here: at a colon or at the end, with a colon before it or nothing. */
  predicate Gap(text: bytes, i: nat) {
    i <= |text| && (i == |text| || text[i] == COLON) && (i == 0 || text[i - 1] == COLON)
  }

  /** Nothing before position k makes the reader stop early: there are digits and colons,
      and too few of these for eight groups. */
  predicate Open(text: bytes, k: nat) {
    k <= |text| && Colons(text, k) < 8 && forall j | 0 <= j < k :: InGroup(text[j])
  }

  /** The reader's state at a position. */
  datatype Here = Here(out: bytes, pad: Option<nat>, chunk: nat)

  predicate Sound(text: bytes, read: nat, h: Here) {
    && read <= |text| && |h.out| <= 2 * Colons(text, read)
    && |h.out| + 2 <= SIZE && (h.pad.Some? ==> h.pad.value <= |h.out|)
  }

  function From(text: bytes, read: nat, h: Here): Outcome
    requires Sound(text, read, h)
  {
    Parse(text, read, h.out, h.pad, h.chunk)
  }

  /** The state after one more character, or nothing if two places for zeros were found. */
  function Next(text: bytes, read: nat, h: Here): Option<Here>
    requires read < |text|
  {
    if text[read] != COLON then
      Some(h.(chunk := h.chunk * 16 % 0x10000 + match HexValue(text[read]) case Some(v) => v case None => 0))
    else if Gap(text, read) then
      if h.pad.Some? && h.pad.value != |h.out| then None else Some(h.(pad := Some(|h.out|)))
    else Some(Here(h.out + [h.chunk / 256 % 256, h.chunk % 256], h.pad, 0))
  }

  lemma ReadsOn(text: bytes, k: nat, read: nat, h: Here)
    requires Open(text, k) && read < k && Sound(text, read, h)
    ensures var n := Next(text, read, h);
      if n.Some? then Sound(text, read + 1, n.value) && From(text, read, h) == From(text, read + 1, n.value)
      else From(text, read, h) == Error
  {
    ColonsGrow(text, read + 1, k);
    assert InGroup(text[read]);
    hide ParseDotted;
  }

  // ---- A strange character --------------------------------------------------

  /** Neither a digit nor a colon, nor a point that three octets follow. */
  predicate Strange(text: bytes, k: nat) {
    && k < |text| && !InGroup(text[k])
    && (text[k] == DOT ==> FindDot(text, FindDot(text, k + 1) + 1) + 1 >= |text|)
  }

  lemma {:induction false} StrangeStops(text: bytes, k: nat, read: nat, h: Here)
    requires Open(text, k) && Strange(text, k) && read <= k && Sound(text, read, h)
    ensures From(text, read, h) == Error
    decreases k - read
  {
    hide FindDot, Octets;
    if read == k {
      if text[k] == DOT {
        OctetsFrom(text, k);
      }
    } else {
      hide Parse, Open, Strange, Sound;
      ReadsOn(text, k, read, h);
      var n := Next(text, read, h);
      if n.Some? {
        StrangeStops(text, k, read + 1, n.value);
      }
    }
  }

  lemma AtStart(text: bytes)
    ensures Sound(text, 0, Here([], None, 0))
  {
  }

  /** A character that is no part of an address, or a dotted address that is cut short:
      all zeros. */
  lemma StrangeRefused(text: bytes, k: nat, before: bytes)
    requires Open(text, k) && Strange(text, k) && |before| == SIZE
    ensures Assigned(text, before) == Zeros(SIZE)
  {
    hide Parse, Open, Strange, Sound;
    AtStart(text);
    StrangeStops(text, k, 0, Here([], None, 0));
  }

  // ---- Two places for zeros -------------------------------------------------

  /** There is a digit between the positions. */
  predicate DigitIn(text: bytes, i: nat, j: nat) {
    exists k | i <= k < j <= |text| :: text[k] != COLON
  }

  /** The place for zeros is not the place where the reader writes when it gets to j. */
  predicate Behind(text: bytes, read: nat, h: Here, j: nat) {
    h.pad.Some? && (h.pad.value < |h.out| || DigitIn(text, if read == 0 then 0 else read - 1, j))
  }

  lemma StillBehind(text: bytes, read: nat, h: Here, j: nat)
    requires read < j <= |text| && Behind(text, read, h, j) && Next(text, read, h).Some?
    requires h.pad.value <= |h.out|
    ensures Behind(text, read + 1, Next(text, read, h).value, j)
  {
    var n := Next(text, read, h).value;
    if DigitIn(text, if read == 0 then 0 else read - 1, j) {
      var k :| (if read == 0 then 0 else read - 1) <= k < j && text[k] != COLON;
      if k >= read {
        assert DigitIn(text, read, j);
      }
    }
  }

  lemma {:induction false} SecondGapStops(text: bytes, j: nat, read: nat, h: Here)
    requires Open(text, j) && Gap(text, j) && read <= j && Sound(text, read, h) && Behind(text, read, h, j)
    ensures From(text, read, h) == Error
    decreases j - read
  {
    if read == j {
      assert h.pad.value < |h.out|;
    } else {
      hide Parse, Open, Behind;
      ReadsOn(text, j, read, h);
      if Next(text, read, h).Some? {
        StillBehind(text, read, h, j);
        SecondGapStops(text, j, read + 1, Next(text, read, h).value);
      }
    }
  }

  lemma {:induction false} FirstGapCounts(text: bytes, i: nat, j: nat, read: nat, h: Here)
    requires Open(text, j) && Gap(text, i) && Gap(text, j) && read <= i < j && Sound(text, read, h)
    requires DigitIn(text, i, j)
    ensures From(text, read, h) == Error
    decreases i - read
  {
    hide Parse, Open, DigitIn;
    ReadsOn(text, j, read, h);
    var n := Next(text, read, h);
    if n.Some? {
      if read == i {
        SecondGapStops(text, j, i + 1, n.value);
      } else {
        FirstGapCounts(text, i, j, read + 1, n.value);
      }
    }
  }

  /** Empty groups in two places: all zeros. */
  lemma TwoGapsRefused(text: bytes, i: nat, j: nat, before: bytes)
    requires Open(text, j) && i < j && Gap(text, i) && Gap(text, j) && DigitIn(text, i, j) && |before| == SIZE
    ensures Assigned(text, before) == Zeros(SIZE)
  {
    hide Parse, Open, Gap, DigitIn, Sound;
    AtStart(text);
    FirstGapCounts(text, i, j, 0, Here([], None, 0));
  }

  // ---- Too few groups -------------------------------------------------------

  lemma {:induction false} ShortStops(text: bytes, read: nat, h: Here)
    requires Open(text, |text|) && Colons(text, |text|) < 7 && (forall i | 0 <= i <= |text| :: !Gap(text, i))
    requires read <= |text| && Sound(text, read, h) && h.pad.None?
    ensures From(text, read, h) == Error
    decreases |text| - read
  {
    if read == |text| {
      assert !Gap(text, read);
    } else {
      assert !Gap(text, read);
      hide Parse, Open;
      ReadsOn(text, |text|, read, h);
      ShortStops(text, read + 1, Next(text, read, h).value);
    }
  }

  /** Fewer than eight groups and no empty one: all zeros. */
  lemma TooFewRefused(text: bytes, before: bytes)
    requires Open(text, |text|) && Colons(text, |text|) < 7 && (forall i | 0 <= i <= |text| :: !Gap(text, i))
    requires |before| == SIZE
    ensures Assigned(text, before) == Zeros(SIZE)
  {
    hide Parse, Open, Gap, Sound;
    AtStart(text);
    ShortStops(text, 0, Here([], None, 0));
  }
}
