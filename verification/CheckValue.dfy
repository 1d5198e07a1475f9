/** The CRC-32 of the digits 1 to 9, the value by which it is known, worked out on 32-bit words. */
module CheckValues {
  import opened Bytes
  import opened Crc32
  import opened Rfc1952

  predicate Odd(v: bv32) { v & 1 != 0 }
  function Half(v: bv32): bv32 { v >> 1 }
  function XorWord(v: bv32, w: bv32): bv32 { v ^ w }

  predicate BitAt(v: bv32, i: nat)
    decreases i
  {
    if i == 0 then Odd(v) else BitAt(Half(v), i - 1)
  }

  /** A register written as a word. */
  function Word(v: bv32): Register {
    seq(32, i requires 0 <= i < 32 => BitAt(v, i))
  }

  function ShiftWord(v: bv32): bv32 {
    if Odd(v) then XorWord(0xEDB88320, Half(v)) else Half(v)
  }

  lemma XorLow(v: bv32, w: bv32)
    ensures Odd(XorWord(v, w)) == (Odd(v) != Odd(w)) && Half(XorWord(v, w)) == XorWord(Half(v), Half(w))
  {}

  lemma {:induction false} XorAt(v: bv32, w: bv32, i: nat)
    ensures BitAt(XorWord(v, w), i) == (BitAt(v, i) != BitAt(w, i))
    decreases i
  {
    hide Odd, Half, XorWord;
    XorLow(v, w);
    if i > 0 { XorAt(Half(v), Half(w), i - 1); }
  }

  lemma XorWords(v: bv32, w: bv32)
    ensures Xor(Word(v), Word(w)) == Word(XorWord(v, w))
  {
    hide BitAt, XorWord;
    forall i | 0 <= i < 32 ensures BitAt(XorWord(v, w), i) == (BitAt(v, i) != BitAt(w, i)) { XorAt(v, w, i); }
  }

  /** Below 2^k there is no bit at k. */
  predicate Below(v: bv32, k: nat) {
    if k == 0 then v == 0 else Below(Half(v), k - 1)
  }

  lemma {:induction false} NoBitAt(v: bv32, k: nat)
    requires Below(v, k)
    ensures !BitAt(v, k)
    decreases k
  {
    if k > 0 { hide Odd, Half; NoBitAt(Half(v), k - 1); }
  }

  lemma Half8(v: bv32)
    ensures Half(Half(Half(Half(Half(Half(Half(Half(v)))))))) == v >> 8
  {}

  lemma BelowSteps(v: bv32, k: nat)
    requires Below(v >> 8, k)
    ensures Below(v, k + 8)
  {
    Half8(v);
    hide Half;
    var a := Half(Half(Half(Half(v))));
    assert Below(Half(Half(a)), k + 2);
    assert Below(a, k + 4);
    assert Below(Half(Half(v)), k + 6);
  }

  lemma WordBelow(v: bv32)
    ensures Below(v, 32)
  {
    Bytes4(v);
    hide Below;
    BelowNone();
    BelowSteps(v >> 24, 0);
    BelowSteps(v >> 16, 8);
    BelowSteps(v >> 8, 16);
    BelowSteps(v, 24);
  }

  lemma BelowNone()
    ensures Below(0, 0)
  {}

  lemma Bytes4(v: bv32)
    ensures v >> 8 >> 8 == v >> 16 && v >> 16 >> 8 == v >> 24 && v >> 24 >> 8 == 0
  {}

  lemma ShiftWordIsStep(v: bv32)
    ensures Step(Word(v), false) == Word(ShiftWord(v))
  {
    WordBelow(v);
    NoBitAt(v, 32);
    PolyWord();
    XorWords(0xEDB88320, Half(v));
    HalfWord(v);
    hide Odd, Half, XorWord, Word, Poly, Xor, Below;
    assert Word(v)[0] == Odd(v) by { HalfWord(v); }
    XorSwap(Poly(), Word(Half(v)));
  }

  lemma HalfWord(v: bv32)
    requires !BitAt(v, 32)
    ensures Word(v)[1..] + [false] == Word(Half(v)) && Word(v)[0] == Odd(v)
  {
    hide Odd, Half;
    forall i | 0 <= i < 32 ensures BitAt(Half(v), i) == BitAt(v, i + 1) {}
  }

  /** From index k on, a register has the bits of v. */
  ghost predicate Agrees(v: bv32, c: Register, k: nat) {
    forall i :: k <= i < 32 ==> c[i] == BitAt(v, i - k)
  }

  lemma Half4(v: bv32)
    ensures Half(Half(Half(Half(v)))) == v >> 4
  {}

  lemma FourAgree(v: bv32, c: Register, k: nat)
    requires k <= 28 && Agrees(v >> 4, c, k + 4)
    requires c[k..k + 4] == FourOf(v)
    ensures Agrees(v, c, k)
  {
    Half4(v);
    hide Odd, Half;
    var f := c[k..k + 4];
    assert c[k] == f[0] && c[k + 1] == f[1] && c[k + 2] == f[2] && c[k + 3] == f[3];
    forall i | k <= i < 32 ensures c[i] == BitAt(v, i - k) {
      FourHalves(v, i - k);
    }
  }

  function FourOf(v: bv32): seq<bool> {
    [Odd(v), Odd(Half(v)), Odd(Half(Half(v))), Odd(Half(Half(Half(v))))]
  }

  lemma FourHalves(v: bv32, i: nat)
    ensures BitAt(v, i) == if i < 4 then FourOf(v)[i] else BitAt(Half(Half(Half(Half(v)))), i - 4)
  {
    hide Odd, Half;
    if i == 1 { assert BitAt(v, 1) == BitAt(Half(v), 0); }
    if i == 2 { assert BitAt(v, 2) == BitAt(Half(v), 1) == BitAt(Half(Half(v)), 0); }
    if i == 3 { assert BitAt(v, 3) == BitAt(Half(v), 2) == BitAt(Half(Half(v)), 1) == BitAt(Half(Half(Half(v))), 0); }
    if i >= 4 {
      assert BitAt(v, i) == BitAt(Half(v), i - 1) == BitAt(Half(Half(v)), i - 2) == BitAt(Half(Half(Half(v))), i - 3);
    }
  }

  lemma PolyWord()
    ensures Word(0xEDB88320) == Poly()
  {
    var c := Poly();
    hide BitAt;
    FourAgree(0xE, c, 28);
    FourAgree(0xED, c, 24);
    FourAgree(0xEDB, c, 20);
    FourAgree(0xEDB8, c, 16);
    FourAgree(0xEDB88, c, 12);
    FourAgree(0xEDB883, c, 8);
    FourAgree(0xEDB8832, c, 4);
    FourAgree(0xEDB88320, c, 0);
    Agreed(0xEDB88320, c);
  }

  lemma Agreed(v: bv32, c: Register)
    requires Agrees(v, c, 0)
    ensures c == Word(v)
  {}


  function Round(v: bv32, b: bv32): bv32 {
    ShiftWord(ShiftWord(ShiftWord(ShiftWord(ShiftWord(ShiftWord(ShiftWord(ShiftWord(XorWord(v, b)))))))))
  }

  /** A byte enters a register as it does a word. */
  lemma RoundIsFeed(v: bv32, b: byte, w: bv32)
    requires Bits(b, 8) + Fill(false, 24) == Word(w)
    ensures Feed(Word(v), Bits(b, 8)) == Word(Round(v, w))
  {
    FeedAhead(Word(v), Bits(b, 8));
    XorWords(v, w);
    hide Word, ShiftWord, XorWord, Feed, Bits;
    EightSteps(XorWord(v, w));
  }

  lemma EightSteps(v: bv32)
    ensures Idle(Word(v), 8) == Word(ShiftWord(ShiftWord(ShiftWord(ShiftWord(
      ShiftWord(ShiftWord(ShiftWord(ShiftWord(v)))))))))
  {
    hide Word, ShiftWord, Step;
    var v1 := ShiftWord(v);
    var v2 := ShiftWord(v1);
    var v3 := ShiftWord(v2);
    var v4 := ShiftWord(v3);
    var v5 := ShiftWord(v4);
    var v6 := ShiftWord(v5);
    var v7 := ShiftWord(v6);
    ShiftWordIsStep(v);
    ShiftWordIsStep(v1);
    ShiftWordIsStep(v2);
    ShiftWordIsStep(v3);
    ShiftWordIsStep(v4);
    ShiftWordIsStep(v5);
    ShiftWordIsStep(v6);
    ShiftWordIsStep(v7);
    assert Idle(Word(v), 8) == Idle(Word(v4), 4);
  }

  lemma {:induction false} ZeroAt(i: nat)
    ensures !BitAt(0, i)
  {
    if i > 0 { ZeroAt(i - 1); }
  }

  /** A byte written as a word. */
  lemma ByteWord(b: byte, w: bv32)
    requires Same(b, w)
    ensures Bits(b, 8) + Fill(false, 24) == Word(w)
  {
    hide BitAt, Odd, Half, Bits;
    var c: Register := Bits(b, 8) + Fill(false, 24);
    ZerosAgree(c);
    assert c[..4] == FourOf(w) && c[4..8] == FourOf(w >> 4);
    assert c[0..0 + 4] == c[..4] && c[4..4 + 4] == c[4..8];
    FourAgree(w >> 4, c, 4);
    FourAgree(w, c, 0);
    Agreed(w, c);
  }

  lemma ZerosAgree(c: Register)
    requires forall i :: 8 <= i < 32 ==> !c[i]
    ensures Agrees(0, c, 8)
  {
    forall i | 8 <= i < 32 ensures c[i] == BitAt(0, i - 8) { ZeroAt(i - 8); }
  }

  /** A register that stands at a word after s, and one byte more. */
  lemma Next(s: seq<byte>, v: bv32, b: byte, w: bv32)
    requires Feed(ONES, BitsOf(s)) == Word(v)
    requires Same(b, w)
    ensures Feed(ONES, BitsOf(s + [b])) == Word(Round(v, w))
  {
    ByteWord(b, w);
    hide Word, Feed, Same, Round, Bits;
    RoundIsFeed(v, b, w);
    OneByte(b);
    BitsOfAppend(s, [b]);
    FeedAppend(ONES, BitsOf(s), Bits(b, 8));
  }

  lemma OneByte(x: byte)
    ensures BitsOf([x]) == Bits(x, 8)
  {}

  /** w is the byte b as a word. */
  predicate Same(b: byte, w: bv32) {
    w >> 4 >> 4 == 0 && Bits(b, 8) == FourOf(w) + FourOf(w >> 4)
  }

  /** A digit from the four low bits of its code; the high ones are those of 3. */
  lemma AsciiDigit(b0: nat, b1: nat, b2: nat, b3: nat, w: bv32)
    requires b0 < 2 && b1 < 2 && b2 < 2 && b3 < 2
    requires w >> 4 == 3 && FourOf(w) == [b0 == 1, b1 == 1, b2 == 1, b3 == 1]
    ensures Same(b0 + 2 * (b1 + 2 * (b2 + 2 * (b3 + 2 * 3))), w)
  {
    FourDigits(b0, b1, b2, b3, 3, 4);
    Three();
    TwoShifts(w);
    hide FourOf, Bits;
  }

  lemma TwoShifts(w: bv32)
    requires w >> 4 == 3
    ensures w >> 4 >> 4 == 0
  {}

  lemma Three()
    ensures FourOf(3) == Bits(3, 4)
  {}

  lemma NextBit(b: nat, half: nat, k: nat)
    requires b < 2
    ensures Bits(b + 2 * half, k + 1) == [b == 1] + Bits(half, k)
  {
    assert (b + 2 * half) / 2 == half && (b + 2 * half) % 2 == b;
  }

  lemma FourDigits(b0: nat, b1: nat, b2: nat, b3: nat, n: nat, k: nat)
    requires b0 < 2 && b1 < 2 && b2 < 2 && b3 < 2
    ensures Bits(b0 + 2 * (b1 + 2 * (b2 + 2 * (b3 + 2 * n))), k + 4) ==
      [b0 == 1, b1 == 1, b2 == 1, b3 == 1] + Bits(n, k)
  {
    hide Bits;
    NextBit(b0, b1 + 2 * (b2 + 2 * (b3 + 2 * n)), k + 3);
    NextBit(b1, b2 + 2 * (b3 + 2 * n), k + 2);
    NextBit(b2, b3 + 2 * n, k + 1);
    NextBit(b3, n, k);
  }

  lemma SameDigits1()
    ensures Same(0x31, 0x31) && Same(0x32, 0x32) && Same(0x33, 0x33)
  {
    hide Same;
    AsciiDigit(1, 0, 0, 0, 0x31);
    AsciiDigit(0, 1, 0, 0, 0x32);
    AsciiDigit(1, 1, 0, 0, 0x33);
  }

  lemma SameDigits4()
    ensures Same(0x34, 0x34) && Same(0x35, 0x35) && Same(0x36, 0x36)
  {
    hide Same;
    AsciiDigit(0, 0, 1, 0, 0x34);
    AsciiDigit(1, 0, 1, 0, 0x35);
    AsciiDigit(0, 1, 1, 0, 0x36);
  }

  lemma SameDigits7()
    ensures Same(0x37, 0x37) && Same(0x38, 0x38) && Same(0x39, 0x39)
  {
    hide Same;
    AsciiDigit(1, 1, 1, 0, 0x37);
    AsciiDigit(0, 0, 0, 1, 0x38);
    AsciiDigit(1, 0, 0, 1, 0x39);
  }

  lemma Rounds1()
    ensures Round(0xFFFFFFFF, 0x31) == 0x7C231048
    ensures Round(0x7C231048, 0x32) == 0xB0ACBB32
    ensures Round(0xB0ACBB32, 0x33) == 0x77B79C2D
  {}

  lemma Rounds4()
    ensures Round(0x77B79C2D, 0x34) == 0x641C1F5C
    ensures Round(0x641C1F5C, 0x35) == 0x340AC5E3
    ensures Round(0x340AC5E3, 0x36) == 0xF68D2C9E
  {}

  lemma Rounds7()
    ensures Round(0xF68D2C9E, 0x37) == 0xAFFC9660
    ensures Round(0xAFFC9660, 0x38) == 0x651F2550
    ensures Round(0x651F2550, 0x39) == 0x340BC6D9
  {}

  lemma Digits1(s: seq<byte>)
    requires Feed(ONES, BitsOf(s)) == Word(0xFFFFFFFF)
    ensures Feed(ONES, BitsOf(s + [0x31] + [0x32] + [0x33])) == Word(0x77B79C2D)
  {
    hide Word, BitsOf, Feed, Same, Round;
    SameDigits1();
    Rounds1();
    Next(s, 0xFFFFFFFF, 0x31, 0x31);
    Next(s + [0x31], 0x7C231048, 0x32, 0x32);
    Next(s + [0x31] + [0x32], 0xB0ACBB32, 0x33, 0x33);
  }

  lemma Digits4(s: seq<byte>)
    requires Feed(ONES, BitsOf(s)) == Word(0x77B79C2D)
    ensures Feed(ONES, BitsOf(s + [0x34] + [0x35] + [0x36])) == Word(0xF68D2C9E)
  {
    hide Word, BitsOf, Feed, Same, Round;
    SameDigits4();
    Rounds4();
    Next(s, 0x77B79C2D, 0x34, 0x34);
    Next(s + [0x34], 0x641C1F5C, 0x35, 0x35);
    Next(s + [0x34] + [0x35], 0x340AC5E3, 0x36, 0x36);
  }

  lemma Digits7(s: seq<byte>)
    requires Feed(ONES, BitsOf(s)) == Word(0xF68D2C9E)
    ensures Feed(ONES, BitsOf(s + [0x37] + [0x38] + [0x39])) == Word(0x340BC6D9)
  {
    hide Word, BitsOf, Feed, Same, Round;
    SameDigits7();
    Rounds7();
    Next(s, 0xF68D2C9E, 0x37, 0x37);
    Next(s + [0x37], 0xAFFC9660, 0x38, 0x38);
    Next(s + [0x37] + [0x38], 0x651F2550, 0x39, 0x39);
  }

  lemma OnesWord()
    ensures ONES == Word(0xFFFF_FFFF)
  {
    var c := ONES;
    hide BitAt;
    FourAgree(0xF, c, 28);
    FourAgree(0xFF, c, 24);
    FourAgree(0xFFF, c, 20);
    FourAgree(0xFFFF, c, 16);
    FourAgree(0xFFFFF, c, 12);
    FourAgree(0xFFFFFF, c, 8);
    FourAgree(0xFFFFFFF, c, 4);
    FourAgree(0xFFFFFFFF, c, 0);
    Agreed(0xFFFFFFFF, c);
  }

  lemma NoBytes()
    ensures Feed(ONES, BitsOf([])) == ONES
  {}

  lemma NineDigits(a: seq<byte>, b: seq<byte>, c: seq<byte>)
    requires a == [0x31, 0x32, 0x33] && b == [0x34, 0x35, 0x36] && c == [0x37, 0x38, 0x39]
    ensures Feed(ONES, BitsOf(a + b + c)) == Word(0x340BC6D9)
  {
    hide Word, BitsOf, Feed;
    NoBytes();
    OnesWord();
    Digits1([]);
    assert [] + [0x31] + [0x32] + [0x33] == a;
    Digits4(a);
    assert a + [0x34] + [0x35] + [0x36] == a + b;
    Digits7(a + b);
    assert a + b + [0x37] + [0x38] + [0x39] == a + b + c;
  }

  /** The value of a word, four bits at a time. */
  lemma FourMore(v: bv32, c: Register, k: nat, b0: nat, b1: nat, b2: nat, b3: nat)
    requires k <= 28 && Agrees(v, c, k) && b0 < 2 && b1 < 2 && b2 < 2 && b3 < 2
    requires FourOf(v) == [b0 == 1, b1 == 1, b2 == 1, b3 == 1]
    ensures Agrees(v >> 4, c, k + 4)
    ensures FromBits(c[k..]) == b0 + 2 * b1 + 4 * b2 + 8 * b3 + 16 * FromBits(c[k + 4..])
  {
    var four := FourOf(v);
    Half4(v);
    hide Odd, Half, FromBits;
    forall i | k <= i < 32 ensures c[i] == if i < k + 4 then four[i - k] else BitAt(v >> 4, i - k - 4) {
      FourHalves(v, i - k);
    }
    Nibble(c, k);
  }

  lemma CheckWord(c: Register)
    requires Agrees(0xCBF43926, c, 0)
    ensures FromBits(c) == 0xCBF43926
  {
    hide FromBits, BitAt;
    FourMore(0xCBF43926, c, 0, 0, 1, 1, 0);
    FourMore(0xCBF4392, c, 4, 0, 1, 0, 0);
    FourMore(0xCBF439, c, 8, 1, 0, 0, 1);
    FourMore(0xCBF43, c, 12, 1, 1, 0, 0);
    FourMore(0xCBF4, c, 16, 0, 0, 1, 0);
    FourMore(0xCBF, c, 20, 1, 1, 1, 1);
    FourMore(0xCB, c, 24, 1, 1, 0, 1);
    FourMore(0xC, c, 28, 0, 0, 1, 1);
    NoBits();
    assert c[0..] == c && c[32..] == [];
  }

  lemma WordAgrees(v: bv32)
    ensures Agrees(v, Word(v), 0)
  {}

  /** The check value by which the CRC-32 is known: that of the digits 1 to 9. */
  lemma CheckValue(digits: seq<byte>)
    requires digits == [0x31, 0x32, 0x33, 0x34, 0x35, 0x36, 0x37, 0x38, 0x39]
    ensures Crc(digits) == ToSigned(0xCBF43926, 4)
  {
    hide BitsOf, Feed, FromBits, Word;
    var a, b: seq<byte>, c: seq<byte> := [0x31, 0x32, 0x33], [0x34, 0x35, 0x36], [0x37, 0x38, 0x39];
    assert digits == a + b + c;
    NineDigits(a, b, c);
    OnesWord();
    XorWords(0x340BC6D9, 0xFFFF_FFFF);
    WordAgrees(0xCBF43926);
    CheckWord(Word(0xCBF43926));
  }
}
