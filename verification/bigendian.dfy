// Byte order: the integers FastCGI headers and PostgreSQL arrays carry are
// stored most significant byte first (include/fastcgi++/endian.hpp).

module BigEndian {

  type byte = x: int | 0 <= x < 256

  type bytes = seq<byte>

  /** The number of values that fit in n bytes. */
  function Range(n: nat): (r: nat)
    ensures r > 0
  {
    if n == 0 then 1 else 256 * Range(n - 1)
  }

  /** BigEndian_base::from: fold the bytes, the first one being the highest. */
  function From(b: bytes): (v: nat)
    ensures v < Range(|b|)
  {
    if |b| == 0 then 0 else 256 * From(b[..|b| - 1]) + b[|b| - 1]
  }

  /** BigEndian_base::to: the n low bytes of v, highest first. */
  function To(v: nat, n: nat): (b: bytes)
    ensures |b| == n
  {
    if n == 0 then [] else To(v / 256, n - 1) + [v % 256]
  }

  lemma {:induction false} FromTo(v: nat, n: nat)
    requires v < Range(n)
    ensures From(To(v, n)) == v
  {
    if n > 0 {
      FromTo(v / 256, n - 1);
      var b := To(v, n);
      assert b[..n - 1] == To(v / 256, n - 1);
    }
  }

  lemma Distribute(a: nat, r: nat, f: nat, last: nat)
    ensures 256 * (a * r + f) + last == a * (256 * r) + (256 * f + last)
  {
  }

  /** The first byte counts most. */
  lemma {:induction false} HighestFirst(a: byte, b: bytes)
    ensures From([a] + b) == a * Range(|b|) + From(b)
  {
    var all := [a] + b;
    if b == [] {
      assert all[..0] == [];
    } else {
      var n := |b| - 1;
      HighestFirst(a, b[..n]);
      assert all[..|all| - 1] == [a] + b[..n] && all[|all| - 1] == b[n];
      assert From(all) == 256 * From([a] + b[..n]) + b[n];
      assert From(b) == 256 * From(b[..n]) + b[n] && Range(|b|) == 256 * Range(n);
      hide From, Range;
      Distribute(a, Range(n), From(b[..n]), b[n]);
    }
  }

  lemma {:induction false} ToFrom(b: bytes)
    ensures To(From(b), |b|) == b
  {
    if |b| > 0 {
      var front := b[..|b| - 1];
      ToFrom(front);
      assert b == front + [b[|b| - 1]];
    }
  }

  /** Is v a value of the signed integer type of n bytes? */
  predicate FitsSigned(v: int, n: nat) {
    0 <= 2 * v + Range(n) < 2 * Range(n)
  }

  /** The union cast in BigEndian<T>::set for a signed T: two's complement. */
  function ToSigned(v: int, n: nat): (b: bytes)
    requires FitsSigned(v, n)
    ensures |b| == n
  {
    To(if v < 0 then v + Range(n) else v, n)
  }

  /** The union cast in BigEndian<T>::read for a signed T. */
  function FromSigned(b: bytes): int {
    var u := From(b);
    if 2 * u >= Range(|b|) then u - Range(|b|) else u
  }

  lemma SignedRoundTrip(v: int, n: nat)
    requires FitsSigned(v, n)
    ensures FromSigned(ToSigned(v, n)) == v
  {
    FromTo(if v < 0 then v + Range(n) else v, n);
  }
}
