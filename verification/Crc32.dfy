/**
 The CRC-32 of section 8 of RFC 1952: a reflected 32-bit shift register fed with the
 message bits, least significant bit of each byte first. The register is a sequence of
 32 bits, index 31 the most significant.

 The properties are the ones the message format leans on: the register step is injective,
 so no change confined to four consecutive bytes leaves the checksum unchanged, and an
 all-zero record does not carry its own checksum.
 */
module Crc32 {
  import opened Bytes

  // ---------- bits ----------

  function Pow2(k: nat): (r: nat)
    ensures r > 0
  {
    if k == 0 then 1 else 2 * Pow2(k - 1)
  }

  /** The k low-order bits of n, least significant first. */
  function Bits(n: nat, k: nat): (s: seq<bool>)
    ensures |s| == k
    decreases k, n
  {
    if k == 0 then [] else [n % 2 == 1] + Bits(n / 2, k - 1)
  }

  function FromBits(s: seq<bool>): (n: nat)
    ensures n < Pow2(|s|)
  {
    if s == [] then 0 else (if s[0] then 1 else 0) + 2 * FromBits(s[1..])
  }

  lemma {:induction false} BitsRoundTrip(n: nat, k: nat)
    requires n < Pow2(k)
    ensures FromBits(Bits(n, k)) == n
  {
    if k > 0 {
      BitsRoundTrip(n / 2, k - 1);
      assert Bits(n, k)[1..] == Bits(n / 2, k - 1);
    }
  }

  lemma {:induction false} FromBitsInjective(a: seq<bool>, b: seq<bool>)
    requires |a| == |b| && FromBits(a) == FromBits(b)
    ensures a == b
  {
    if a != [] {
      FromBitsInjective(a[1..], b[1..]);
      assert a == [a[0]] + a[1..] && b == [b[0]] + b[1..];
    }
  }

  function Xor(a: seq<bool>, b: seq<bool>): (c: seq<bool>)
    requires |a| == |b|
    ensures |c| == |a|
    ensures forall i :: 0 <= i < |c| ==> c[i] == (a[i] != b[i])
  {
    seq(|a|, i requires 0 <= i < |a| => a[i] != b[i])
  }

  function Fill(b: bool, k: nat): (c: seq<bool>)
    ensures |c| == k
    ensures forall i :: 0 <= i < k ==> c[i] == b
  {
    seq(k, i requires 0 <= i < k => b)
  }

  /** The bits of a run of bytes in the order they enter the register. */
  function BitsOf(s: seq<byte>): (t: seq<bool>)
    ensures |t| == 8 * |s|
  {
    if s == [] then [] else Bits(s[0], 8) + BitsOf(s[1..])
  }

  lemma {:induction false} BitsOfAppend(a: seq<byte>, b: seq<byte>)
    ensures BitsOf(a + b) == BitsOf(a) + BitsOf(b)
  {
    if a == [] {
      assert a + b == b;
    } else {
      assert (a + b)[1..] == a[1..] + b;
      BitsOfAppend(a[1..], b);
    }
  }

  lemma {:induction false} BitsOfInjective(a: seq<byte>, b: seq<byte>)
    requires |a| == |b| && BitsOf(a) == BitsOf(b)
    ensures a == b
  {
    if a != [] {
      var x, y := BitsOf(a), BitsOf(b);
      assert Bits(a[0], 8) == x[..8] == y[..8] == Bits(b[0], 8);
      assert BitsOf(a[1..]) == x[8..] == y[8..] == BitsOf(b[1..]);
      assert Pow2(8) == 256;
      BitsRoundTrip(a[0], 8);
      BitsRoundTrip(b[0], 8);
      BitsOfInjective(a[1..], b[1..]);
    }
  }

  // ---------- the shift register ----------

  type Register = c: seq<bool> | |c| == 32 witness Fill(false, 32)

  /** The set bits of the reflected polynomial 0xEDB88320. */
  predicate Tap(i: nat) {
    i == 5 || i == 8 || i == 9 || i == 15 || i == 19 || i == 20 || i == 21
    || i == 23 || i == 24 || i == 26 || i == 27 || i == 29 || i == 30 || i == 31
  }

  function Poly(): (c: Register)
    ensures forall i :: 0 <= i < 32 ==> c[i] == Tap(i)
  {
    seq(32, i requires 0 <= i < 32 => Tap(i))
  }

  const ZEROS: Register := Fill(false, 32)
  const ONES: Register := Fill(true, 32)

  function Step(c: Register, bit: bool): Register {
    var down := c[1..] + [false];
    if c[0] != bit then Xor(down, Poly()) else down
  }

  function Feed(c: Register, bits: seq<bool>): Register
    decreases |bits|
  {
    if bits == [] then c else Feed(Step(c, bits[0]), bits[1..])
  }

  /** zlib's crc32, cast to int32 as both codecs do. */
  function Crc(s: seq<byte>): (v: int)
    ensures Fits(v, 4)
  {
    var n := FromBits(Xor(Feed(ONES, BitsOf(s)), ONES));
    assert n < Pow256(4) by { Pow32(); }
    ToSigned(n, 4)
  }

  lemma {:induction false} PowSum(m: nat, n: nat)
    ensures Pow2(m + n) == Pow2(m) * Pow2(n)
  {
    if m > 0 {
      PowSum(m - 1, n);
      assert m + n - 1 == (m - 1) + n;
    }
  }

  lemma Pow32()
    ensures Pow2(32) == Pow256(4)
  {
    Widths();
    PowSum(8, 8);
    PowSum(16, 16);
  }

  lemma {:induction false} FeedAppend(c: Register, x: seq<bool>, y: seq<bool>)
    ensures Feed(c, x + y) == Feed(Feed(c, x), y)
    decreases |x|
  {
    if x == [] {
      assert x + y == y;
    } else {
      assert (x + y)[1..] == x[1..] + y;
      FeedAppend(Step(c, x[0]), x[1..], y);
    }
  }

  /** A register that disagrees at or above index p still does after p bits, whatever they are. */
  predicate Disagree(c: Register, d: Register, p: nat) {
    exists i :: p <= i < 32 && c[i] != d[i]
  }

  lemma StepDisagree(c: Register, d: Register, p: nat, x: bool, y: bool)
    requires Disagree(c, d, p) && (0 < p || x == y)
    ensures Disagree(Step(c, x), Step(d, y), if p == 0 then 0 else p - 1)
  {
    var i :| p <= i < 32 && c[i] != d[i];
    var c', d' := Step(c, x), Step(d, y);
    if (c[0] != x) != (d[0] != y) {
      assert c'[31] != d'[31];
    } else {
      assert i > 0;
      assert c'[i - 1] != d'[i - 1];
    }
  }

  /** Different register states stay different whatever common bits follow. */
  lemma {:induction false} FeedInjective(c: Register, d: Register, bits: seq<bool>)
    requires Disagree(c, d, 0)
    ensures Disagree(Feed(c, bits), Feed(d, bits), 0)
    decreases |bits|
  {
    if bits != [] {
      StepDisagree(c, d, 0, bits[0], bits[0]);
      FeedInjective(Step(c, bits[0]), Step(d, bits[0]), bits[1..]);
    }
  }

  lemma {:induction false} FeedDisagree(c: Register, d: Register, p: nat, x: seq<bool>, y: seq<bool>)
    requires |x| == |y| <= p && Disagree(c, d, p)
    ensures Disagree(Feed(c, x), Feed(d, y), 0)
    decreases |x|
  {
    if x != [] {
      StepDisagree(c, d, p, x[0], y[0]);
      FeedDisagree(Step(c, x[0]), Step(d, y[0]), p - 1, x[1..], y[1..]);
    }
  }

  /** Up to 32 bits are told apart from any common starting state. */
  lemma {:induction false} FeedBurst(c: Register, x: seq<bool>, y: seq<bool>)
    requires |x| == |y| <= 32 && x != y
    ensures Disagree(Feed(c, x), Feed(c, y), 0)
    decreases |x|
  {
    var c', d' := Step(c, x[0]), Step(c, y[0]);
    if x[0] == y[0] {
      assert x == [x[0]] + x[1..] && y == [y[0]] + y[1..];
      FeedBurst(c', x[1..], y[1..]);
    } else {
      assert c'[31] != d'[31];
      FeedDisagree(c', d', 31, x[1..], y[1..]);
    }
  }

  lemma CrcInjective(a: seq<byte>, b: seq<byte>)
    requires Crc(a) == Crc(b)
    ensures Feed(ONES, BitsOf(a)) == Feed(ONES, BitsOf(b))
  {
    var x, y := Feed(ONES, BitsOf(a)), Feed(ONES, BitsOf(b));
    Pow32();
    FromBitsInjective(Xor(x, ONES), Xor(y, ONES));
    forall i | 0 <= i < 32 ensures x[i] == y[i] {
      assert Xor(x, ONES)[i] == Xor(y, ONES)[i];
    }
  }

  /** Replacing up to four consecutive bytes by different ones changes the checksum. */
  lemma CrcBurst(before: seq<byte>, x: seq<byte>, y: seq<byte>, after: seq<byte>)
    requires |x| == |y| <= 4 && x != y
    ensures Crc(before + x + after) != Crc(before + y + after)
  {
    if BitsOf(x) == BitsOf(y) { BitsOfInjective(x, y); }
    var c := Feed(ONES, BitsOf(before));
    FeedBurst(c, BitsOf(x), BitsOf(y));
    FeedInjective(Feed(c, BitsOf(x)), Feed(c, BitsOf(y)), BitsOf(after));
    FeedThree(before, x, after);
    FeedThree(before, y, after);
    if Crc(before + x + after) == Crc(before + y + after) {
      CrcInjective(before + x + after, before + y + after);
    }
  }

  lemma FeedThree(a: seq<byte>, b: seq<byte>, c: seq<byte>)
    ensures Feed(ONES, BitsOf(a + b + c)) == Feed(Feed(Feed(ONES, BitsOf(a)), BitsOf(b)), BitsOf(c))
  {
    BitsOfAppend(a + b, c);
    BitsOfAppend(a, b);
    FeedAppend(ONES, BitsOf(a) + BitsOf(b), BitsOf(c));
    FeedAppend(ONES, BitsOf(a), BitsOf(b));
  }

  // ---------- the all-zero record ----------

  /** k steps on zero bits. */
  function Idle(c: Register, k: nat): Register
    decreases k
  {
    if k == 0 then c else Idle(Step(c, false), k - 1)
  }

  lemma {:induction false} IdleIsFeed(c: Register, zeros: seq<bool>)
    requires forall i :: 0 <= i < |zeros| ==> !zeros[i]
    ensures Feed(c, zeros) == Idle(c, |zeros|)
    decreases |zeros|
  {
    if zeros != [] {
      IdleIsFeed(Step(c, false), zeros[1..]);
    }
  }

  lemma {:induction false} IdleSum(c: Register, j: nat, k: nat)
    ensures Idle(c, j + k) == Idle(Idle(c, j), k)
    decreases j
  {
    if j > 0 {
      IdleSum(Step(c, false), j - 1, k);
      assert j + k - 1 == (j - 1) + k;
    }
  }

  lemma StepLinear(c: Register, d: Register)
    ensures Step(Xor(c, d), false) == Xor(Step(c, false), Step(d, false))
  {}

  lemma {:induction false} IdleLinear(c: Register, d: Register, k: nat)
    ensures Idle(Xor(c, d), k) == Xor(Idle(c, k), Idle(d, k))
    decreases k
  {
    if k > 0 {
      StepLinear(c, d);
      IdleLinear(Step(c, false), Step(d, false), k - 1);
    }
  }

  predicate In(c: Register, i: nat) {
    i < 32 && c[i]
  }

  lemma StepAt(c: Register, i: nat)
    ensures In(Step(c, false), i) == (In(c, i + 1) != (c[0] && Tap(i)))
  {}

  /** What five feedback bits add to bit i of the register. */
  predicate Row(i: nat, f0: bool, f1: bool, f2: bool, f3: bool, f4: bool) {
    (f0 && Tap(i + 4)) != ((f1 && Tap(i + 3)) != ((f2 && Tap(i + 2))
    != ((f3 && Tap(i + 1)) != (f4 && Tap(i)))))
  }

  ghost predicate Recurrence(c: Register, f0: bool, f1: bool, f2: bool, f3: bool, f4: bool) {
    forall i: nat :: i < 32 ==> In(c, i) == (In(c, i + 5) != Row(i, f0, f1, f2, f3, f4))
  }

  lemma LowFeedback(c: Register)
    ensures Step(c, false)[0] == c[1] && Step(c, false)[1] == c[2]
    ensures Step(c, false)[2] == c[3] && Step(c, false)[3] == c[4]
  {}

  /** A register that returns after five zero bits obeys a five-step recurrence in its own low bits. */
  lemma FiveStepRecurrence(c: Register)
    requires Idle(c, 5) == c
    ensures Recurrence(c, c[0], c[1], c[2], c[3], c[4])
  {
    var c1 := Step(c, false);
    var c2 := Step(c1, false);
    var c3 := Step(c2, false);
    var c4 := Step(c3, false);
    assert Step(c4, false) == c;
    LowFeedback(c);
    LowFeedback(c1);
    LowFeedback(c2);
    LowFeedback(c3);
    forall i: nat | i < 32
      ensures In(c, i) == (In(c, i + 5) != Row(i, c[0], c[1], c[2], c[3], c[4]))
    {
      FiveStepsAt(c, c1, c2, c3, c4, i);
    }
  }

  lemma FiveStepsAt(c: Register, c1: Register, c2: Register, c3: Register, c4: Register, i: nat)
    requires c1 == Step(c, false) && c2 == Step(c1, false) && c3 == Step(c2, false) && c4 == Step(c3, false)
    ensures In(Step(c4, false), i) == (In(c, i + 5) != Row(i, c[0], c1[0], c2[0], c3[0], c4[0]))
  {
    StepAt(c4, i);
    StepAt(c3, i + 1);
    StepAt(c2, i + 2);
    StepAt(c1, i + 3);
    StepAt(c, i + 4);
  }

  lemma LowBit0(c: Register, f0: bool, f1: bool, f2: bool, f3: bool, f4: bool)
    requires Recurrence(c, f0, f1, f2, f3, f4)
    ensures c[0] == (f2 != f3)
  {
    assert Row(30, f0, f1, f2, f3, f4) == (f3 != f4);
    assert In(c, 30) == (In(c, 35) != Row(30, f0, f1, f2, f3, f4));
    assert Row(25, f0, f1, f2, f3, f4) == (f0 != (f2 != f3));
    assert In(c, 25) == (In(c, 30) != Row(25, f0, f1, f2, f3, f4));
    assert Row(20, f0, f1, f2, f3, f4) == (f0 != (f1 != (f3 != f4)));
    assert In(c, 20) == (In(c, 25) != Row(20, f0, f1, f2, f3, f4));
    assert Row(15, f0, f1, f2, f3, f4) == (f0 != f4);
    assert In(c, 15) == (In(c, 20) != Row(15, f0, f1, f2, f3, f4));
    assert Row(10, f0, f1, f2, f3, f4) == false;
    assert In(c, 10) == (In(c, 15) != Row(10, f0, f1, f2, f3, f4));
    assert Row(5, f0, f1, f2, f3, f4) == (f0 != (f1 != f4));
    assert In(c, 5) == (In(c, 10) != Row(5, f0, f1, f2, f3, f4));
    assert Row(0, f0, f1, f2, f3, f4) == false;
    assert In(c, 0) == (In(c, 5) != Row(0, f0, f1, f2, f3, f4));
  }

  lemma LowBit1(c: Register, f0: bool, f1: bool, f2: bool, f3: bool, f4: bool)
    requires Recurrence(c, f0, f1, f2, f3, f4)
    ensures c[1] == (f3 != f4)
  {
    assert Row(31, f0, f1, f2, f3, f4) == f4;
    assert In(c, 31) == (In(c, 36) != Row(31, f0, f1, f2, f3, f4));
    assert Row(26, f0, f1, f2, f3, f4) == (f0 != (f1 != (f3 != f4)));
    assert In(c, 26) == (In(c, 31) != Row(26, f0, f1, f2, f3, f4));
    assert Row(21, f0, f1, f2, f3, f4) == (f1 != (f2 != f4));
    assert In(c, 21) == (In(c, 26) != Row(21, f0, f1, f2, f3, f4));
    assert Row(16, f0, f1, f2, f3, f4) == (f0 != f1);
    assert In(c, 16) == (In(c, 21) != Row(16, f0, f1, f2, f3, f4));
    assert Row(11, f0, f1, f2, f3, f4) == f0;
    assert In(c, 11) == (In(c, 16) != Row(11, f0, f1, f2, f3, f4));
    assert Row(6, f0, f1, f2, f3, f4) == (f1 != f2);
    assert In(c, 6) == (In(c, 11) != Row(6, f0, f1, f2, f3, f4));
    assert Row(1, f0, f1, f2, f3, f4) == f0;
    assert In(c, 1) == (In(c, 6) != Row(1, f0, f1, f2, f3, f4));
  }

  lemma LowBit2(c: Register, f0: bool, f1: bool, f2: bool, f3: bool, f4: bool)
    requires Recurrence(c, f0, f1, f2, f3, f4)
    ensures c[2] == (f0 != f4)
  {
    assert Row(27, f0, f1, f2, f3, f4) == (f0 != (f1 != (f2 != f4)));
    assert In(c, 27) == (In(c, 32) != Row(27, f0, f1, f2, f3, f4));
    assert Row(22, f0, f1, f2, f3, f4) == (f0 != (f2 != f3));
    assert In(c, 22) == (In(c, 27) != Row(22, f0, f1, f2, f3, f4));
    assert Row(17, f0, f1, f2, f3, f4) == (f0 != (f1 != f2));
    assert In(c, 17) == (In(c, 22) != Row(17, f0, f1, f2, f3, f4));
    assert Row(12, f0, f1, f2, f3, f4) == f1;
    assert In(c, 12) == (In(c, 17) != Row(12, f0, f1, f2, f3, f4));
    assert Row(7, f0, f1, f2, f3, f4) == (f2 != f3);
    assert In(c, 7) == (In(c, 12) != Row(7, f0, f1, f2, f3, f4));
    assert Row(2, f0, f1, f2, f3, f4) == f1;
    assert In(c, 2) == (In(c, 7) != Row(2, f0, f1, f2, f3, f4));
  }

  lemma LowBit3(c: Register, f0: bool, f1: bool, f2: bool, f3: bool, f4: bool)
    requires Recurrence(c, f0, f1, f2, f3, f4)
    ensures c[3] == (f0 != f1)
  {
    assert Row(28, f0, f1, f2, f3, f4) == (f1 != (f2 != f3));
    assert In(c, 28) == (In(c, 33) != Row(28, f0, f1, f2, f3, f4));
    assert Row(23, f0, f1, f2, f3, f4) == (f0 != (f1 != (f3 != f4)));
    assert In(c, 23) == (In(c, 28) != Row(23, f0, f1, f2, f3, f4));
    assert Row(18, f0, f1, f2, f3, f4) == (f1 != (f2 != f3));
    assert In(c, 18) == (In(c, 23) != Row(18, f0, f1, f2, f3, f4));
    assert Row(13, f0, f1, f2, f3, f4) == f2;
    assert In(c, 13) == (In(c, 18) != Row(13, f0, f1, f2, f3, f4));
    assert Row(8, f0, f1, f2, f3, f4) == (f3 != f4);
    assert In(c, 8) == (In(c, 13) != Row(8, f0, f1, f2, f3, f4));
    assert Row(3, f0, f1, f2, f3, f4) == f2;
    assert In(c, 3) == (In(c, 8) != Row(3, f0, f1, f2, f3, f4));
  }

  lemma LowBit4(c: Register, f0: bool, f1: bool, f2: bool, f3: bool, f4: bool)
    requires Recurrence(c, f0, f1, f2, f3, f4)
    ensures c[4] == (f1 != f2)
  {
    assert Row(29, f0, f1, f2, f3, f4) == (f2 != (f3 != f4));
    assert In(c, 29) == (In(c, 34) != Row(29, f0, f1, f2, f3, f4));
    assert Row(24, f0, f1, f2, f3, f4) == (f1 != (f2 != f4));
    assert In(c, 24) == (In(c, 29) != Row(24, f0, f1, f2, f3, f4));
    assert Row(19, f0, f1, f2, f3, f4) == (f0 != (f2 != (f3 != f4)));
    assert In(c, 19) == (In(c, 24) != Row(19, f0, f1, f2, f3, f4));
    assert Row(14, f0, f1, f2, f3, f4) == f3;
    assert In(c, 14) == (In(c, 19) != Row(14, f0, f1, f2, f3, f4));
    assert Row(9, f0, f1, f2, f3, f4) == f4;
    assert In(c, 9) == (In(c, 14) != Row(9, f0, f1, f2, f3, f4));
    assert Row(4, f0, f1, f2, f3, f4) == (f0 != f3);
    assert In(c, 4) == (In(c, 9) != Row(4, f0, f1, f2, f3, f4));
  }

  lemma {:induction false} ZeroFeedback(c: Register, i: nat)
    requires i < 32 && Recurrence(c, false, false, false, false, false)
    ensures !c[i]
    decreases 32 - i
  {
    assert In(c, i) == (In(c, i + 5) != Row(i, false, false, false, false, false));
    if i + 5 < 32 { ZeroFeedback(c, i + 5); }
  }

  lemma FiveSteps(c: Register)
    requires Idle(c, 5) == c
    ensures c == ZEROS
  {
    FiveStepRecurrence(c);
    LowBit0(c, c[0], c[1], c[2], c[3], c[4]);
    LowBit1(c, c[0], c[1], c[2], c[3], c[4]);
    LowBit2(c, c[0], c[1], c[2], c[3], c[4]);
    LowBit3(c, c[0], c[1], c[2], c[3], c[4]);
    LowBit4(c, c[0], c[1], c[2], c[3], c[4]);
    forall i | 0 <= i < 32 ensures !c[i] { ZeroFeedback(c, i); }
  }

  /**
   Only the zero register comes back to itself after 5 * 2^j zero bits: over GF(2) the map
   "idle for 2k bits and add" is "idle for k bits and add" done twice.
   */
  lemma {:induction false} OnlyZeroReturns(c: Register, j: nat)
    requires Idle(c, 5 * Pow2(j)) == c
    ensures c == ZEROS
    decreases j
  {
    var k := 5 * Pow2(if j == 0 then 0 else j - 1);
    if j == 0 {
      FiveSteps(c);
    } else {
      var d := Idle(c, k);
      IdleSum(c, k, k);
      var e := Xor(d, c);
      IdleLinear(d, c, k);
      assert Idle(e, k) == e;
      OnlyZeroReturns(e, j - 1);
      assert d == c by {
        forall i | 0 <= i < 32 ensures d[i] == c[i] { assert !e[i]; }
      }
      OnlyZeroReturns(c, j - 1);
    }
  }

  lemma {:induction false} ZeroBits(s: seq<byte>, i: nat)
    requires i < 8 * |s| && forall j :: 0 <= j < |s| ==> s[j] == 0
    ensures !BitsOf(s)[i]
  {
    if i < 8 { ZeroByte(8, i); } else { ZeroBits(s[1..], i - 8); }
  }

  lemma {:induction false} ZeroByte(k: nat, i: nat)
    requires i < k
    ensures !Bits(0, k)[i]
  {
    if i > 0 { ZeroByte(k - 1, i - 1); }
  }

  lemma {:induction false} FromZero(s: seq<bool>)
    requires FromBits(s) == 0
    ensures forall i :: 0 <= i < |s| ==> !s[i]
  {
    if s != [] { FromZero(s[1..]); }
  }

  /** The ten bytes a zero-filled record checksums do not have checksum zero. */
  lemma ZeroRecordCrc(s: seq<byte>)
    requires |s| == 10 && forall i :: 0 <= i < |s| ==> s[i] == 0
    ensures Crc(s) != 0
  {
    var bits := BitsOf(s);
    forall i | 0 <= i < |bits| ensures !bits[i] { ZeroBits(s, i); }
    IdleIsFeed(ONES, bits);
    if Crc(s) == 0 {
      var r := Feed(ONES, bits);
      Pow32();
      FromZero(Xor(r, ONES));
      forall i | 0 <= i < 32 ensures r[i] == ONES[i] { assert !Xor(r, ONES)[i]; }
      assert Pow2(4) == 16;
      OnlyZeroReturns(ONES, 4);
      assert false;
    }
  }
}
