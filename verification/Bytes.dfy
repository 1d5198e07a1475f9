/** Bytes, two's complement integers and their network byte order (big-endian) form. */
module Bytes {

  datatype Option<+T> = None | Some(value: T)

  type byte = b: int | 0 <= b < 256

  const TWO32: int := 0x1_0000_0000
  const TWO64: int := 0x1_0000_0000_0000_0000

  function Pow256(k: nat): (r: nat)
    ensures r > 0
  {
    if k == 0 then 1 else 256 * Pow256(k - 1)
  }

  /** v is a value of the signed integer type of k bytes. */
  predicate Fits(v: int, k: nat) {
    var p: int := Pow256(k); -p <= 2 * v < p
  }

  lemma Widths()
    ensures Pow256(1) == 0x100 && Pow256(2) == 0x1_0000 && Pow256(4) == TWO32 && Pow256(8) == TWO64
  {}

  /** The k low-order base-256 digits of n, most significant first. */
  function BigEndian(n: nat, k: nat): (s: seq<byte>)
    ensures |s| == k
    decreases k, n
  {
    if k == 0 then [] else BigEndian(n / 256, k - 1) + [n % 256]
  }

  function FromBigEndian(s: seq<byte>): (n: nat)
    ensures n < Pow256(|s|)
  {
    if s == [] then 0 else 256 * FromBigEndian(s[..|s| - 1]) + s[|s| - 1]
  }

  lemma {:induction false} BigEndianRoundTrip(n: nat, k: nat)
    requires n < Pow256(k)
    ensures FromBigEndian(BigEndian(n, k)) == n
  {
    if k > 0 {
      BigEndianRoundTrip(n / 256, k - 1);
      assert BigEndian(n, k)[..k - 1] == BigEndian(n / 256, k - 1);
    }
  }

  /** The signed k-byte reading of an unsigned k-byte value. */
  function ToSigned(u: nat, k: nat): (v: int)
    requires u < Pow256(k)
    ensures Fits(v, k)
  {
    if 2 * u >= Pow256(k) then u - Pow256(k) else u
  }

  /** A cast to the signed integer type of k bytes. */
  function Wrap(v: int, k: nat): (w: int)
    ensures Fits(w, k)
    ensures Fits(v, k) ==> w == v
  {
    WrapFits(v, k);
    ToSigned(v % Pow256(k), k)
  }

  lemma WrapFits(v: int, k: nat)
    ensures Fits(v, k) ==> ToSigned(v % Pow256(k), k) == v
  {
    var p := Pow256(k);
    if Fits(v, k) {
      if v < 0 { ModShift(v, p); } else { assert v < p; ModSmall(v, p); }
    }
  }

  lemma ModSmall(v: int, p: int)
    requires 0 <= v < p
    ensures v % p == v
  {}

  lemma ModShift(v: int, p: int)
    requires -p <= v < 0
    ensures v % p == v + p
  {}

  /** What htobeNN followed by a raw store leaves in the buffer. */
  function EncodeInt(v: int, k: nat): (s: seq<byte>)
    ensures |s| == k
  {
    BigEndian(v % Pow256(k), k)
  }

  function DecodeInt(s: seq<byte>): (v: int)
    ensures Fits(v, |s|)
  {
    ToSigned(FromBigEndian(s), |s|)
  }

  lemma ModDiv(v: int, p: int)
    requires p > 0
    ensures (v % (256 * p)) / 256 == (v / 256) % p && (v % (256 * p)) % 256 == v % 256
  {
    var q, r := v / (256 * p), v % (256 * p);
    assert v == q * (256 * p) + r;
    assert q * (256 * p) == 256 * (q * p);
    assert v / 256 == q * p + r / 256;
    Remainder(v / 256, p, q, r / 256);
  }

  lemma Grows(a: int, b: int, d: int)
    requires a < b && 0 < d
    ensures a * d + d <= b * d
  {
    assert (b - a - 1) * d >= 0;
    assert b * d == a * d + d + (b - a - 1) * d;
  }

  lemma Remainder(n: int, d: int, q: int, r: int)
    requires 0 <= r < d && n == q * d + r
    ensures n % d == r && n / d == q
  {
    if n / d < q { Grows(n / d, q, d); }
    if q < n / d { Grows(q, n / d, d); }
  }

  lemma DivDiv(v: int, p: int)
    requires p > 0
    ensures v / 256 / p == v / (256 * p)
  {
    var q, r := v / 256 / p, v / 256 % p;
    assert v / 256 == q * p + r;
    assert v == 256 * (q * p + r) + v % 256;
    assert 256 * (q * p) == q * (256 * p);
    Remainder(v, 256 * p, q, 256 * r + v % 256);
  }

  /** One byte more is the next digit at the end. */
  lemma EncodeIntSnoc(v: int, k: nat)
    ensures EncodeInt(v, k + 1) == EncodeInt(v / 256, k) + [v % 256]
  {
    ModDiv(v, Pow256(k));
  }

  /** Network byte order: the most significant byte comes first. */
  lemma {:induction false} NetworkOrder(v: int, k: nat, i: nat)
    requires i < k
    ensures EncodeInt(v, k)[i] == (v / Pow256(k - 1 - i)) % 256
    decreases k
  {
    EncodeIntSnoc(v, k - 1);
    hide EncodeInt;
    if i < k - 1 {
      NetworkOrder(v / 256, k - 1, i);
      DivDiv(v, Pow256(k - 2 - i));
    }
  }

  lemma {:induction false} FirstByteHighest(b: byte, s: seq<byte>)
    ensures FromBigEndian([b] + s) == b * Pow256(|s|) + FromBigEndian(s)
    decreases |s|
  {
    var t := [b] + s;
    if s == [] {
      assert t[..0] == [];
    } else {
      var n := |s|;
      assert t[..n] == [b] + s[..n - 1];
      FirstByteHighest(b, s[..n - 1]);
      Scaled(b, Pow256(n - 1));
    }
  }

  lemma Scaled(b: int, p: int)
    ensures 256 * (b * p) == b * (256 * p)
  {}

  /** Writing an integer of any width and reading it back is the cast to that width. */
  lemma IntRoundTrip(v: int, k: nat)
    ensures DecodeInt(EncodeInt(v, k)) == Wrap(v, k)
    ensures Fits(v, k) ==> DecodeInt(EncodeInt(v, k)) == v
  {
    BigEndianRoundTrip(v % Pow256(k), k);
  }
}
