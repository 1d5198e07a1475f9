/**
 The sample CRC code of section 8 of RFC 1952, over integers and with its table, and that the
 shift register computes the same.
 */
module Rfc1952 {
  import opened Bytes
  import opened Crc32

  function XorNat(a: nat, b: nat): nat {
    if a == 0 && b == 0 then 0 else (a + b) % 2 + 2 * XorNat(a / 2, b / 2)
  }

  function Shift(c: nat): nat {
    if c % 2 == 1 then XorNat(0xEDB88320, c / 2) else c / 2
  }

  function Shifts(c: nat, k: nat): nat
    decreases k
  {
    if k == 0 then c else Shifts(Shift(c), k - 1)
  }

  /** An entry of crc_table. */
  function Entry(n: byte): nat {
    Shifts(n, 8)
  }

  /** The loop of update_crc. */
  function Update(c: nat, s: seq<byte>): nat
    decreases |s|
  {
    if s == [] then c else Update(XorNat(Entry(XorNat(c, s[0]) % 256), c / 256), s[1..])
  }

  function Checksum(s: seq<byte>): nat {
    XorNat(Update(0xFFFF_FFFF, s), 0xFFFF_FFFF)
  }

  // ---------- registers as integers ----------

  lemma XorNext(x: nat, y: nat, a: nat, b: nat)
    requires x < 2 && y < 2
    ensures XorNat(x + 2 * a, y + 2 * b) == (if x == y then 0 else 1) + 2 * XorNat(a, b)
  {
    Halves(x, a);
    Halves(y, b);
    Parity(x, y, a, b);
    if x + 2 * a == 0 && y + 2 * b == 0 { assert XorNat(a, b) == 0; }
  }

  lemma Halves(x: nat, a: nat)
    requires x < 2
    ensures (x + 2 * a) / 2 == a
  {}

  lemma Parity(x: nat, y: nat, a: nat, b: nat)
    requires x < 2 && y < 2
    ensures (x + 2 * a + (y + 2 * b)) % 2 == if x == y then 0 else 1
  {}

  lemma {:induction false} XorBits(a: seq<bool>, b: seq<bool>)
    requires |a| == |b|
    ensures XorNat(FromBits(a), FromBits(b)) == FromBits(Xor(a, b))
  {
    if a != [] {
      XorBits(a[1..], b[1..]);
      assert Xor(a, b)[1..] == Xor(a[1..], b[1..]);
      XorNext(Bit(a[0]), Bit(b[0]), FromBits(a[1..]), FromBits(b[1..]));
      hide XorNat;
    }
  }

  function Bit(b: bool): nat { if b then 1 else 0 }

  lemma OneBit(c: seq<bool>, k: nat)
    requires k < |c|
    ensures FromBits(c[k..]) == Bit(c[k]) + 2 * FromBits(c[k + 1..])
  {
    assert c[k..][1..] == c[k + 1..];
  }

  function FourBits(c: seq<bool>, k: nat): nat
    requires k + 4 <= |c|
  {
    Bit(c[k]) + 2 * Bit(c[k + 1]) + 4 * Bit(c[k + 2]) + 8 * Bit(c[k + 3])
  }

  /** Four bits and those above them. */
  lemma Nibble(c: seq<bool>, k: nat)
    requires k + 4 <= |c|
    ensures FromBits(c[k..]) == FourBits(c, k) + 16 * FromBits(c[k + 4..])
  {
    hide FromBits;
    OneBit(c, k);
    OneBit(c, k + 1);
    OneBit(c, k + 2);
    OneBit(c, k + 3);
  }

  lemma {:induction false} FromFill(k: nat)
    ensures FromBits(Fill(false, k)) == 0
  {
    if k > 0 {
      FromFill(k - 1);
      assert Fill(false, k)[1..] == Fill(false, k - 1);
    }
  }

  lemma {:induction false} Padded(a: seq<bool>, k: nat)
    ensures FromBits(a + Fill(false, k)) == FromBits(a)
  {
    if a == [] {
      FromFill(k);
      assert a + Fill(false, k) == Fill(false, k);
    } else {
      Padded(a[1..], k);
      assert (a + Fill(false, k))[1..] == a[1..] + Fill(false, k);
    }
  }

  lemma NoBits()
    ensures FromBits([]) == 0
  {}

  /** The low byte of a register and the rest of it. */
  lemma LowByte(c: Register)
    ensures FromBits(c) % 256 == FromBits(c[..8]) && FromBits(c) / 256 == FromBits(c[8..])
  {
    hide FromBits, FourBits;
    var low := c[..8];
    Nibble(c, 0);
    Nibble(c, 4);
    Nibble(low, 0);
    Nibble(low, 4);
    NoBits();
    assert c[0..] == c && low[0..] == low && low[8..] == [];
    SameBits(c, 0);
    SameBits(c, 4);
    TwoNibbles(FourBits(c, 0), FourBits(c, 4), FromBits(c[8..]));
  }

  lemma TwoNibbles(a: nat, b: nat, n: nat)
    requires a < 16 && b < 16
    ensures (a + 16 * (b + 16 * n)) % 256 == a + 16 * b && (a + 16 * (b + 16 * n)) / 256 == n
  {}

  lemma SameBits(c: Register, k: nat)
    requires k + 4 <= 8
    ensures FourBits(c[..8], k) == FourBits(c, k) < 16
  {}

  lemma PolyHigh()
    ensures var c := Poly();
      FourBits(c, 28) == 0xE && FourBits(c, 24) == 0xD && FourBits(c, 20) == 0xB && FourBits(c, 16) == 0x8
  {}

  lemma PolyLow()
    ensures var c := Poly();
      FourBits(c, 12) == 0x8 && FourBits(c, 8) == 0x3 && FourBits(c, 4) == 0x2 && FourBits(c, 0) == 0x0
  {}

  lemma PolyValue()
    ensures FromBits(Poly()) == 0xEDB88320
  {
    PolyHigh();
    PolyLow();
    hide FromBits, FourBits, Poly;
    var c := Poly();
    Nibble(c, 0);
    Nibble(c, 4);
    Nibble(c, 8);
    Nibble(c, 12);
    Nibble(c, 16);
    Nibble(c, 20);
    Nibble(c, 24);
    Nibble(c, 28);
    NoBits();
    assert c[0..] == c && c[32..] == [];
  }

  lemma {:induction false} OnesBelow(k: nat)
    ensures FromBits(Fill(true, k)) + 1 == Pow2(k)
  {
    if k > 0 {
      OnesBelow(k - 1);
      assert Fill(true, k)[1..] == Fill(true, k - 1);
    }
  }

  lemma OnesValue()
    ensures FromBits(ONES) == 0xFFFF_FFFF
  {
    OnesBelow(32);
    Pow32();
    Widths();
  }

  // ---------- eight steps at a time ----------

  lemma XorSwap(a: seq<bool>, b: seq<bool>)
    requires |a| == |b|
    ensures Xor(a, b) == Xor(b, a)
  {}

  lemma ShiftIsStep(c: Register)
    ensures FromBits(Step(c, false)) == Shift(FromBits(c))
  {
    hide FromBits, XorNat, Poly, Xor;
    var down := c[1..] + [false];
    assert Fill(false, 1) == [false];
    Padded(c[1..], 1);
    OneBit(c, 0);
    assert c[0..] == c;
    PolyValue();
    XorBits(Poly(), down);
    XorSwap(Poly(), down);
  }

  lemma {:induction false} ShiftsAreIdle(c: Register, k: nat)
    ensures FromBits(Idle(c, k)) == Shifts(FromBits(c), k)
    decreases k
  {
    if k > 0 {
      ShiftIsStep(c);
      ShiftsAreIdle(Step(c, false), k - 1);
    }
  }

  /** Bits fed one by one are bits added beforehand. */
  lemma {:induction false} FeedAhead(c: Register, x: seq<bool>)
    requires |x| <= 32
    ensures Feed(c, x) == Idle(Xor(c, x + Fill(false, 32 - |x|)), |x|)
    decreases |x|
  {
    var d := Xor(c, x + Fill(false, 32 - |x|));
    if x == [] {
      assert d == c;
    } else {
      StepAhead(c, x);
      hide Step, Xor;
      FeedAhead(Step(c, x[0]), x[1..]);
    }
  }

  lemma StepAhead(c: Register, x: seq<bool>)
    requires 0 < |x| <= 32
    ensures Xor(Step(c, x[0]), x[1..] + Fill(false, 33 - |x|)) == Step(Xor(c, x + Fill(false, 32 - |x|)), false)
  {
    var d, e := Xor(c, x + Fill(false, 32 - |x|)), Xor(Step(c, x[0]), x[1..] + Fill(false, 33 - |x|));
    assert d[0] == (c[0] != x[0]);
    var f := Step(d, false);
    forall i | 0 <= i < 32 ensures e[i] == f[i] {
      if i < 31 { assert d[i + 1] == (c[i + 1] != (x + Fill(false, 32 - |x|))[i + 1]); }
    }
  }

  /** Without feedback a register is only shifted. */
  lemma {:induction false} IdleShifts(c: Register, k: nat)
    requires k <= 32 && forall i :: 0 <= i < k ==> !c[i]
    ensures Idle(c, k) == c[k..] + Fill(false, k)
    decreases k
  {
    if k > 0 {
      var d := Step(c, false);
      assert d == c[1..] + [false];
      IdleShifts(d, k - 1);
      assert d[k - 1..] == c[k..] + [false];
    }
  }

  /** The table takes care of the low byte, the rest is shifted. */
  lemma TableStep(c: Register)
    ensures FromBits(Idle(c, 8)) == XorNat(Entry(FromBits(c) % 256), FromBits(c) / 256)
  {
    LowByte(c);
    var low, high := c[..8] + Fill(false, 24), Fill(false, 8) + c[8..];
    assert c == Xor(low, high);
    IdleLinear(low, high, 8);
    IdleShifts(high, 8);
    Padded(c[8..], 8);
    ShiftsAreIdle(low, 8);
    Padded(c[..8], 24);
    XorBits(Idle(low, 8), Idle(high, 8));
  }

  lemma ByteStep(c: Register, b: byte)
    ensures FromBits(Feed(c, Bits(b, 8))) == XorNat(Entry(XorNat(FromBits(c), b) % 256), FromBits(c) / 256)
  {
    hide FromBits, XorNat, Entry, Feed, Idle;
    var x := Bits(b, 8) + Fill(false, 24);
    var d := Xor(c, x);
    FeedAhead(c, Bits(b, 8));
    TableStep(d);
    assert Pow2(8) == 256;
    BitsRoundTrip(b, 8);
    Padded(Bits(b, 8), 24);
    XorBits(c, x);
    LowByte(c);
    LowByte(d);
    assert d[8..] == c[8..];
  }

  lemma {:induction false} UpdateIsFeed(c: Register, s: seq<byte>)
    ensures FromBits(Feed(c, BitsOf(s))) == Update(FromBits(c), s)
    decreases |s|
  {
    if s != [] {
      FeedAppend(c, Bits(s[0], 8), BitsOf(s[1..]));
      ByteStep(c, s[0]);
      UpdateIsFeed(Feed(c, Bits(s[0], 8)), s[1..]);
    }
  }

  /** The checksum of any bytes is the one of RFC 1952. */
  lemma CrcIsRfc1952(s: seq<byte>)
    ensures Checksum(s) < Pow256(4) && Crc(s) == ToSigned(Checksum(s), 4)
  {
    Pow32();
    OnesValue();
    UpdateIsFeed(ONES, s);
    XorBits(Feed(ONES, BitsOf(s)), ONES);
  }

  /** What a checksum field holds: the checksum of RFC 1952 in network byte order. */
  lemma ChecksumField(s: seq<byte>, i: nat)
    requires i < 4
    ensures EncodeInt(Crc(s), 4)[i] == (Checksum(s) / Pow256(3 - i)) % 256
  {
    CrcIsRfc1952(s);
    hide Crc, Checksum;
    SameCast(Checksum(s), Pow256(4));
    NetworkOrder(Checksum(s), 4, i);
  }

  lemma SameCast(u: nat, p: nat)
    requires u < p
    ensures (u - p) % p == u % p
  {}
}
