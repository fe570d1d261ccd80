/**
 What singles this CRC out from others of its width: the check value of the nine-digit string, and the
 residue that a message followed by its own checksum leaves.
 */
module CheckValues {
  import opened Bytes
  import opened Crc32

  /** The shift register as 32 flip-flops, b0 the one shifted out. */
  datatype Register = Register(
    b0: bool, b1: bool, b2: bool, b3: bool, b4: bool, b5: bool, b6: bool, b7: bool,
    b8: bool, b9: bool, b10: bool, b11: bool, b12: bool, b13: bool, b14: bool, b15: bool,
    b16: bool, b17: bool, b18: bool, b19: bool, b20: bool, b21: bool, b22: bool, b23: bool,
    b24: bool, b25: bool, b26: bool, b27: bool, b28: bool, b29: bool, b30: bool, b31: bool)

  /** The word holds what the flip-flops do. */
  predicate Holds(w: Word, r: Register) {
    && w[0] == r.b0 && w[1] == r.b1 && w[2] == r.b2 && w[3] == r.b3
    && w[4] == r.b4 && w[5] == r.b5 && w[6] == r.b6 && w[7] == r.b7
    && w[8] == r.b8 && w[9] == r.b9 && w[10] == r.b10 && w[11] == r.b11
    && w[12] == r.b12 && w[13] == r.b13 && w[14] == r.b14 && w[15] == r.b15
    && w[16] == r.b16 && w[17] == r.b17 && w[18] == r.b18 && w[19] == r.b19
    && w[20] == r.b20 && w[21] == r.b21 && w[22] == r.b22 && w[23] == r.b23
    && w[24] == r.b24 && w[25] == r.b25 && w[26] == r.b26 && w[27] == r.b27
    && w[28] == r.b28 && w[29] == r.b29 && w[30] == r.b30 && w[31] == r.b31
  }

  lemma SameByte(w: Word, v: Word, k: nat)
    requires k <= 24
    requires w[k] == v[k] && w[k + 1] == v[k + 1] && w[k + 2] == v[k + 2] && w[k + 3] == v[k + 3]
    requires w[k + 4] == v[k + 4] && w[k + 5] == v[k + 5] && w[k + 6] == v[k + 6] && w[k + 7] == v[k + 7]
    ensures w[k..k + 8] == v[k..k + 8]
  {
    forall i | k <= i < k + 8
      ensures w[i] == v[i]
    {
      assert i == k || i == k + 1 || i == k + 2 || i == k + 3 || i == k + 4 || i == k + 5 || i == k + 6 || i == k + 7;
    }
  }

  lemma HoldsOne(w: Word, v: Word, r: Register)
    requires Holds(w, r) && Holds(v, r)
    ensures w == v
  {
    SameByte(w, v, 0);
    SameByte(w, v, 8);
    SameByte(w, v, 16);
    SameByte(w, v, 24);
    FourBytes(w);
    FourBytes(v);
  }

  lemma FourBytes(w: Word)
    ensures w == w[0..8] + w[8..16] + w[16..24] + w[24..32]
  {
  }

  /** One bit of the message enters: it meets the bit shifted out, and their sum is fed back at the generator's taps. */
  function Feed(r: Register, c: bool): Register {
    Register(
      r.b1, r.b2, r.b3, r.b4,
      r.b5, r.b6 != (r.b0 != c), r.b7, r.b8,
      r.b9 != (r.b0 != c), r.b10 != (r.b0 != c), r.b11, r.b12,
      r.b13, r.b14, r.b15, r.b16 != (r.b0 != c),
      r.b17, r.b18, r.b19, r.b20 != (r.b0 != c),
      r.b21 != (r.b0 != c), r.b22 != (r.b0 != c), r.b23, r.b24 != (r.b0 != c),
      r.b25 != (r.b0 != c), r.b26, r.b27 != (r.b0 != c), r.b28 != (r.b0 != c),
      r.b29, r.b30 != (r.b0 != c), r.b31 != (r.b0 != c), r.b0 != c)
  }

  lemma ShiftAt(w: Word, i: nat)
    requires i < 31
    ensures Shift(w)[i] == (w[i + 1] != (w[0] && POLYNOMIAL[i]))
  {
    hide ToBits;
  }

  lemma ShiftEight(w: Word, k: nat)
    requires k < 24
    ensures Shift(w)[k] == (w[k + 1] != (w[0] && POLYNOMIAL[k]))
    ensures Shift(w)[k + 1] == (w[k + 2] != (w[0] && POLYNOMIAL[k + 1]))
    ensures Shift(w)[k + 2] == (w[k + 3] != (w[0] && POLYNOMIAL[k + 2]))
    ensures Shift(w)[k + 3] == (w[k + 4] != (w[0] && POLYNOMIAL[k + 3]))
    ensures Shift(w)[k + 4] == (w[k + 5] != (w[0] && POLYNOMIAL[k + 4]))
    ensures Shift(w)[k + 5] == (w[k + 6] != (w[0] && POLYNOMIAL[k + 5]))
    ensures Shift(w)[k + 6] == (w[k + 7] != (w[0] && POLYNOMIAL[k + 6]))
    ensures Shift(w)[k + 7] == (w[k + 8] != (w[0] && POLYNOMIAL[k + 7]))
  {
    hide Shift, ToBits;
    ShiftAt(w, k);
    ShiftAt(w, k + 1);
    ShiftAt(w, k + 2);
    ShiftAt(w, k + 3);
    ShiftAt(w, k + 4);
    ShiftAt(w, k + 5);
    ShiftAt(w, k + 6);
    ShiftAt(w, k + 7);
  }

  lemma ShiftTop(w: Word)
    ensures Shift(w)[31] == (w[0] && POLYNOMIAL[31])
  {
    hide ToBits;
  }

  // ----- numbers -----

  lemma NextBit(x: nat, n: nat)
    requires n > 0
    ensures ToBits(x, n)[0] == (x % 2 == 1) && forall i | 0 < i < n :: ToBits(x, n)[i] == ToBits(x / 2, n - 1)[i - 1]
  {
  }

  /** The k-th bit of a hexadecimal digit. */
  predicate Bit(d: nat, k: nat) {
    if k == 0 then d == 1 || d == 3 || d == 5 || d == 7 || d == 9 || d == 11 || d == 13 || d == 15
    else if k == 1 then d == 2 || d == 3 || d == 6 || d == 7 || d == 10 || d == 11 || d == 14 || d == 15
    else if k == 2 then d == 4 || d == 5 || d == 6 || d == 7 || d == 12 || d == 13 || d == 14 || d == 15
    else d >= 8
  }

  lemma BitIsBit(d: nat)
    requires d < 16
    ensures Bit(d, 0) == (d % 2 == 1) && Bit(d, 1) == (d / 2 % 2 == 1) && Bit(d, 2) == (d / 4 % 2 == 1)
    ensures Bit(d, 3) == (d / 8 % 2 == 1)
  {
  }

  /** The lowest hexadecimal digit of a number, and the rest. */
  lemma LowDigit(x: nat, rest: nat, digit: nat, n: nat)
    requires x == 16 * rest + digit && digit < 16 && n >= 4
    ensures ToBits(x, n)[0] == Bit(digit, 0) && ToBits(x, n)[1] == Bit(digit, 1)
    ensures ToBits(x, n)[2] == Bit(digit, 2) && ToBits(x, n)[3] == Bit(digit, 3)
    ensures ToBits(x, n)[4..] == ToBits(rest, n - 4)
  {
    hide ToBits, Bit;
    BitIsBit(digit);
    NextBit(x, n);
    NextBit(x / 2, n - 1);
    NextBit(x / 2 / 2, n - 2);
    NextBit(x / 2 / 2 / 2, n - 3);
    assert x / 2 == 8 * rest + digit / 2 && x / 2 / 2 == 4 * rest + digit / 4;
    assert x / 2 / 2 / 2 == 2 * rest + digit / 8 && x / 2 / 2 / 2 / 2 == rest;
  }

  /** A 32-bit number by its hexadecimal digits, lowest first. */
  function Hex(d0: nat, d1: nat, d2: nat, d3: nat, d4: nat, d5: nat, d6: nat, d7: nat): nat {
    16 * (16 * (16 * (16 * (16 * (16 * (16 * d7 + d6) + d5) + d4) + d3) + d2) + d1) + d0
  }

  function HexRegister(d0: nat, d1: nat, d2: nat, d3: nat, d4: nat, d5: nat, d6: nat, d7: nat): Register {
    Register(
      Bit(d0, 0), Bit(d0, 1), Bit(d0, 2), Bit(d0, 3),
      Bit(d1, 0), Bit(d1, 1), Bit(d1, 2), Bit(d1, 3),
      Bit(d2, 0), Bit(d2, 1), Bit(d2, 2), Bit(d2, 3),
      Bit(d3, 0), Bit(d3, 1), Bit(d3, 2), Bit(d3, 3),
      Bit(d4, 0), Bit(d4, 1), Bit(d4, 2), Bit(d4, 3),
      Bit(d5, 0), Bit(d5, 1), Bit(d5, 2), Bit(d5, 3),
      Bit(d6, 0), Bit(d6, 1), Bit(d6, 2), Bit(d6, 3),
      Bit(d7, 0), Bit(d7, 1), Bit(d7, 2), Bit(d7, 3))
  }

  lemma HexHolds(d0: nat, d1: nat, d2: nat, d3: nat, d4: nat, d5: nat, d6: nat, d7: nat)
    requires d0 < 16 && d1 < 16 && d2 < 16 && d3 < 16 && d4 < 16 && d5 < 16 && d6 < 16 && d7 < 16
    ensures Holds(ToBits(Hex(d0, d1, d2, d3, d4, d5, d6, d7), 32), HexRegister(d0, d1, d2, d3, d4, d5, d6, d7))
  {
    hide ToBits, Bit;
    var x6 := 16 * d7 + d6;
    var x5 := 16 * x6 + d5;
    var x4 := 16 * x5 + d4;
    var x3 := 16 * x4 + d3;
    var x2 := 16 * x3 + d2;
    var x1 := 16 * x2 + d1;
    var x0 := 16 * x1 + d0;
    LowDigit(x0, x1, d0, 32);
    LowDigit(x1, x2, d1, 28);
    LowDigit(x2, x3, d2, 24);
    LowDigit(x3, x4, d3, 20);
    LowDigit(x4, x5, d4, 16);
    LowDigit(x5, x6, d5, 12);
    LowDigit(x6, d7, d6, 8);
    LowDigit(d7, 0, d7, 4);
    var w := ToBits(x0, 32);
    assert ToBits(x1, 28) == w[4..] && ToBits(x2, 24) == w[8..] && ToBits(x3, 20) == w[12..];
    assert ToBits(x4, 16) == w[16..] && ToBits(x5, 12) == w[20..] && ToBits(x6, 8) == w[24..] && ToBits(d7, 4) == w[28..];
  }

  // ----- the generator -----

  /** x^32 + x^26 + x^23 + x^22 + x^16 + x^12 + x^11 + x^10 + x^8 + x^7 + x^5 + x^4 + x^2 + x + 1, lowest bit the highest power. */
  const TAPS: Register := Register(
    false, false, false, false, false, true, false, false, true, true, false, false, false, false, false, true,
    false, false, false, true, true, true, false, true, true, false, true, true, false, true, true, true)

  lemma Generator()
    ensures Holds(POLYNOMIAL, TAPS)
  {
    hide ToBits;
    HexHolds(0x0, 0x2, 0x3, 0x8, 0x8, 0xB, 0xD, 0xE);
    assert Hex(0x0, 0x2, 0x3, 0x8, 0x8, 0xB, 0xD, 0xE) == 0xEDB88320;
  }

  /** v is w with the bit added to its lowest. */
  ghost predicate Mixed(w: Word, v: Word, c: bool) {
    v[0] == (w[0] != c) && forall i: nat | 1 <= i < 32 :: v[i] == w[i]
  }

  lemma MixAt(w: Word, c: bool)
    ensures Mixed(w, Xor(w, Widen([c])), c)
  {
  }

  lemma FeedLow(w: Word, v: Word, r: Register, c: bool)
    requires Holds(w, r) && Mixed(w, v, c)
    ensures Shift(v)[0] == Feed(r, c).b0 && Shift(v)[1] == Feed(r, c).b1 && Shift(v)[2] == Feed(r, c).b2
    ensures Shift(v)[3] == Feed(r, c).b3
    ensures Shift(v)[4] == Feed(r, c).b4 && Shift(v)[5] == Feed(r, c).b5 && Shift(v)[6] == Feed(r, c).b6
    ensures Shift(v)[7] == Feed(r, c).b7
  {
    hide Shift, ToBits, POLYNOMIAL;
    Generator();
    ShiftEight(v, 0);
  }

  lemma FeedMidLow(w: Word, v: Word, r: Register, c: bool)
    requires Holds(w, r) && Mixed(w, v, c)
    ensures Shift(v)[8] == Feed(r, c).b8 && Shift(v)[9] == Feed(r, c).b9 && Shift(v)[10] == Feed(r, c).b10
    ensures Shift(v)[11] == Feed(r, c).b11
    ensures Shift(v)[12] == Feed(r, c).b12 && Shift(v)[13] == Feed(r, c).b13 && Shift(v)[14] == Feed(r, c).b14
    ensures Shift(v)[15] == Feed(r, c).b15
  {
    hide Shift, ToBits, POLYNOMIAL;
    Generator();
    ShiftEight(v, 8);
  }

  lemma FeedMidHigh(w: Word, v: Word, r: Register, c: bool)
    requires Holds(w, r) && Mixed(w, v, c)
    ensures Shift(v)[16] == Feed(r, c).b16 && Shift(v)[17] == Feed(r, c).b17 && Shift(v)[18] == Feed(r, c).b18
    ensures Shift(v)[19] == Feed(r, c).b19
    ensures Shift(v)[20] == Feed(r, c).b20 && Shift(v)[21] == Feed(r, c).b21 && Shift(v)[22] == Feed(r, c).b22
    ensures Shift(v)[23] == Feed(r, c).b23
  {
    hide Shift, ToBits, POLYNOMIAL;
    Generator();
    ShiftEight(v, 16);
  }

  lemma FeedHigh(w: Word, v: Word, r: Register, c: bool)
    requires Holds(w, r) && Mixed(w, v, c)
    ensures Shift(v)[24] == Feed(r, c).b24 && Shift(v)[25] == Feed(r, c).b25 && Shift(v)[26] == Feed(r, c).b26
    ensures Shift(v)[27] == Feed(r, c).b27
  {
    hide Shift, ToBits, POLYNOMIAL;
    Generator();
    ShiftEight(v, 23);
  }

  lemma FeedTop(w: Word, v: Word, r: Register, c: bool)
    requires Holds(w, r) && Mixed(w, v, c)
    ensures Shift(v)[28] == Feed(r, c).b28 && Shift(v)[29] == Feed(r, c).b29 && Shift(v)[30] == Feed(r, c).b30
    ensures Shift(v)[31] == Feed(r, c).b31
  {
    hide Shift, ToBits, POLYNOMIAL;
    Generator();
    ShiftEight(v, 23);
    ShiftTop(v);
  }

  /** The flip-flops take a bit as the word does. */
  lemma FeedHolds(w: Word, r: Register, c: bool)
    requires Holds(w, r)
    ensures Holds(Shift(Xor(w, Widen([c]))), Feed(r, c))
  {
    hide Shift, Feed, Xor, Widen;
    var v: Word := Xor(w, Widen([c]));
    MixAt(w, c);
    FeedLow(w, v, r, c);
    FeedMidLow(w, v, r, c);
    FeedMidHigh(w, v, r, c);
    FeedHigh(w, v, r, c);
    FeedTop(w, v, r, c);
  }

  // ----- bit strings -----

  function FeedBits(r: Register, bits: seq<bool>): Register
    decreases |bits|
  {
    if bits == [] then r else FeedBits(Feed(r, bits[0]), bits[1..])
  }

  /** And a whole bit string. */
  lemma {:induction false} RunHolds(w: Word, r: Register, bits: seq<bool>)
    requires Holds(w, r)
    ensures Holds(BitRun(w, bits), FeedBits(r, bits))
    decreases |bits|
  {
    hide Holds, Shift, Xor, Feed;
    if bits != [] {
      FeedHolds(w, r, bits[0]);
      RunHolds(Shift(Xor(w, Widen([bits[0]]))), Feed(r, bits[0]), bits[1..]);
    }
  }

  lemma {:induction false} FeedConcat(r: Register, a: seq<bool>, b: seq<bool>)
    ensures FeedBits(r, a + b) == FeedBits(FeedBits(r, a), b)
    decreases |a|
  {
    hide Feed;
    if a == [] {
      assert a + b == b;
    } else {
      assert (a + b)[1..] == a[1..] + b;
      FeedConcat(Feed(r, a[0]), a[1..], b);
    }
  }

  function FeedFour(r: Register, c0: bool, c1: bool, c2: bool, c3: bool): Register {
    Feed(Feed(Feed(Feed(r, c0), c1), c2), c3)
  }

  lemma FourFeed(r: Register, bits: seq<bool>)
    requires |bits| >= 4
    ensures FeedBits(r, bits) == FeedBits(FeedFour(r, bits[0], bits[1], bits[2], bits[3]), bits[4..])
  {
    hide Feed;
    assert bits[1..][1..][1..][1..] == bits[4..];
    var r1 := Feed(r, bits[0]);
    var r2 := Feed(r1, bits[1]);
    var r3 := Feed(r2, bits[2]);
    assert FeedBits(r, bits) == FeedBits(r1, bits[1..]);
    assert FeedBits(r1, bits[1..]) == FeedBits(r2, bits[1..][1..]);
    assert FeedBits(r2, bits[1..][1..]) == FeedBits(r3, bits[1..][1..][1..]);
  }

  lemma EightFeed(r: Register, bits: seq<bool>)
    requires |bits| == 8
    ensures FeedBits(r, bits)
            == FeedFour(FeedFour(r, bits[0], bits[1], bits[2], bits[3]), bits[4], bits[5], bits[6], bits[7])
  {
    hide FeedFour;
    FourFeed(r, bits);
    FourFeed(FeedFour(r, bits[0], bits[1], bits[2], bits[3]), bits[4..]);
  }

  // ----- the check value -----

  /** The ASCII digits 1 to 9. */
  const DIGITS: seq<byte> := [0x31, 0x32, 0x33, 0x34, 0x35, 0x36, 0x37, 0x38, 0x39]

  /** The bits of a digit's ASCII code: its own four, then those of 3. */
  lemma DigitBits(digit: nat)
    requires digit < 10
    ensures var bits := ToBits(0x30 + digit, 8);
            && bits[0] == Bit(digit, 0) && bits[1] == Bit(digit, 1) && bits[2] == Bit(digit, 2) && bits[3] == Bit(digit, 3)
            && bits[4] && bits[5] && !bits[6] && !bits[7]
  {
    hide ToBits;
    LowDigit(0x30 + digit, 3, digit, 8);
    LowDigit(3, 0, 3, 4);
    var bits := ToBits(0x30 + digit, 8);
    assert bits[4..] == ToBits(3, 4);
  }

  lemma DigitEnters(i: nat, r: Register)
    requires i < 9 && Holds(BitRun(INITIAL, Bits(DIGITS[..i])), r)
    ensures Holds(BitRun(INITIAL, Bits(DIGITS[..i + 1])), FeedBits(r, ToBits(0x31 + i, 8)))
  {
    hide Holds, FeedBits, BitRun, Bits, ToBits, INITIAL;
    assert DIGITS[..i + 1] == DIGITS[..i] + [DIGITS[i]] && DIGITS[i] == 0x31 + i;
    BitsSnoc(DIGITS[..i], DIGITS[i]);
    BitRunConcat(INITIAL, Bits(DIGITS[..i]), ToBits(DIGITS[i], 8));
    RunHolds(BitRun(INITIAL, Bits(DIGITS[..i])), r, ToBits(DIGITS[i], 8));
  }

  // The register as the digits enter.

  const AFTER0: Register := Register( // 0xFFFFFFFF
    true, true, true, true, true, true, true, true, true, true, true, true, true, true, true, true,
    true, true, true, true, true, true, true, true, true, true, true, true, true, true, true, true)

  const AFTER1: Register := Register( // 0x7C231048
    false, false, false, true, false, false, true, false, false, false, false, false, true, false, false, false,
    true, true, false, false, false, true, false, false, false, false, true, true, true, true, true, false)

  const AFTER2: Register := Register( // 0xB0ACBB32
    false, true, false, false, true, true, false, false, true, true, false, true, true, true, false, true,
    false, false, true, true, false, true, false, true, false, false, false, false, true, true, false, true)

  const AFTER3: Register := Register( // 0x77B79C2D
    true, false, true, true, false, true, false, false, false, false, true, true, true, false, false, true,
    true, true, true, false, true, true, false, true, true, true, true, false, true, true, true, false)

  const AFTER4: Register := Register( // 0x641C1F5C
    false, false, true, true, true, false, true, false, true, true, true, true, true, false, false, false,
    false, false, true, true, true, false, false, false, false, false, true, false, false, true, true, false)

  const AFTER5: Register := Register( // 0x340AC5E3
    true, true, false, false, false, true, true, true, true, false, true, false, false, false, true, true,
    false, true, false, true, false, false, false, false, false, false, true, false, true, true, false, false)

  const AFTER6: Register := Register( // 0xF68D2C9E
    false, true, true, true, true, false, false, true, false, false, true, true, false, true, false, false,
    true, false, true, true, false, false, false, true, false, true, true, false, true, true, true, true)

  const AFTER7: Register := Register( // 0xAFFC9660
    false, false, false, false, false, true, true, false, false, true, true, false, true, false, false, true,
    false, false, true, true, true, true, true, true, true, true, true, true, false, true, false, true)

  const AFTER8: Register := Register( // 0x651F2550
    false, false, false, false, true, false, true, false, true, false, true, false, false, true, false, false,
    true, true, true, true, true, false, false, false, true, false, true, false, false, true, true, false)

  const AFTER9: Register := Register( // 0x340BC6D9
    true, false, false, true, true, false, true, true, false, true, true, false, false, false, true, true,
    true, true, false, true, false, false, false, false, false, false, true, false, true, true, false, false)

  lemma Digit1()
    ensures FeedFour(FeedFour(AFTER0, true, false, false, false), true, true, false, false) == AFTER1
  {
  }

  lemma Digit2()
    ensures FeedFour(FeedFour(AFTER1, false, true, false, false), true, true, false, false) == AFTER2
  {
  }

  lemma Digit3()
    ensures FeedFour(FeedFour(AFTER2, true, true, false, false), true, true, false, false) == AFTER3
  {
  }

  lemma Digit4()
    ensures FeedFour(FeedFour(AFTER3, false, false, true, false), true, true, false, false) == AFTER4
  {
  }

  lemma Digit5()
    ensures FeedFour(FeedFour(AFTER4, true, false, true, false), true, true, false, false) == AFTER5
  {
  }

  lemma Digit6()
    ensures FeedFour(FeedFour(AFTER5, false, true, true, false), true, true, false, false) == AFTER6
  {
  }

  lemma Digit7()
    ensures FeedFour(FeedFour(AFTER6, true, true, true, false), true, true, false, false) == AFTER7
  {
  }

  lemma Digit8()
    ensures FeedFour(FeedFour(AFTER7, false, false, false, true), true, true, false, false) == AFTER8
  {
  }

  lemma Digit9()
    ensures FeedFour(FeedFour(AFTER8, true, false, false, true), true, true, false, false) == AFTER9
  {
  }

  lemma AllOnes()
    ensures Holds(ToBits(0xFFFFFFFF, 32), AFTER0)
  {
    hide ToBits;
    HexHolds(0xF, 0xF, 0xF, 0xF, 0xF, 0xF, 0xF, 0xF);
    assert Hex(0xF, 0xF, 0xF, 0xF, 0xF, 0xF, 0xF, 0xF) == 0xFFFFFFFF;
  }

  lemma LastRegister()
    ensures Holds(ToBits(0x340BC6D9, 32), AFTER9)
  {
    hide ToBits;
    HexHolds(0x9, 0xD, 0x6, 0xC, 0xB, 0x0, 0x4, 0x3);
    assert Hex(0x9, 0xD, 0x6, 0xC, 0xB, 0x0, 0x4, 0x3) == 0x340BC6D9;
  }

  lemma {:induction false} ComplementLow(x: nat, n: nat)
    requires x < Pow2(n)
    ensures forall i | 0 <= i < n :: ToBits(Pow2(n) - 1 - x, n)[i] == !ToBits(x, n)[i]
  {
    if n > 0 {
      ComplementLow(x / 2, n - 1);
      assert (Pow2(n) - 1 - x) / 2 == Pow2(n - 1) - 1 - x / 2 && ((Pow2(n) - 1 - x) % 2 == 1) == (x % 2 == 0);
    }
  }

  lemma ComplementBits(x: nat)
    requires x <= 0xFFFF_FFFF
    ensures Complement(ToBits(x, 32)) == ToBits(0xFFFF_FFFF - x, 32)
  {
    hide ToBits;
    assert Pow2(8) == 0x100 && Pow2(16) == 0x1_0000 && Pow2(24) == 0x100_0000 && Pow2(32) == 0x1_0000_0000;
    ComplementLow(x, 32);
  }

  lemma NothingEntered()
    ensures Holds(BitRun(INITIAL, Bits(DIGITS[..0])), AFTER0)
  {
    hide Holds, ToBits, AFTER0;
    AllOnes();
    assert DIGITS[..0] == [];
  }

  lemma ThreeEntered()
    ensures Holds(BitRun(INITIAL, Bits(DIGITS[..3])), AFTER3)
  {
    hide Holds, BitRun, Feed, FeedBits, FeedFour, Bits, ToBits, INITIAL, AFTER0, AFTER1, AFTER2, AFTER3;
    NothingEntered();
    DigitEnters(0, AFTER0);
    DigitBits(1);
    EightFeed(AFTER0, ToBits(0x31, 8));
    Digit1();
    DigitEnters(1, AFTER1);
    DigitBits(2);
    EightFeed(AFTER1, ToBits(0x32, 8));
    Digit2();
    DigitEnters(2, AFTER2);
    DigitBits(3);
    EightFeed(AFTER2, ToBits(0x33, 8));
    Digit3();
  }

  lemma SixEntered()
    ensures Holds(BitRun(INITIAL, Bits(DIGITS[..6])), AFTER6)
  {
    hide Holds, BitRun, Feed, FeedBits, FeedFour, Bits, ToBits, INITIAL, AFTER3, AFTER4, AFTER5, AFTER6;
    ThreeEntered();
    DigitEnters(3, AFTER3);
    DigitBits(4);
    EightFeed(AFTER3, ToBits(0x34, 8));
    Digit4();
    DigitEnters(4, AFTER4);
    DigitBits(5);
    EightFeed(AFTER4, ToBits(0x35, 8));
    Digit5();
    DigitEnters(5, AFTER5);
    DigitBits(6);
    EightFeed(AFTER5, ToBits(0x36, 8));
    Digit6();
  }

  lemma RegisterAfterDigits()
    ensures BitRun(INITIAL, Bits(DIGITS)) == ToBits(0x340BC6D9, 32)
  {
    hide Holds, BitRun, Feed, FeedBits, FeedFour, Bits, ToBits, INITIAL, AFTER6, AFTER7, AFTER8, AFTER9;
    SixEntered();
    DigitEnters(6, AFTER6);
    DigitBits(7);
    EightFeed(AFTER6, ToBits(0x37, 8));
    Digit7();
    DigitEnters(7, AFTER7);
    DigitBits(8);
    EightFeed(AFTER7, ToBits(0x38, 8));
    Digit8();
    DigitEnters(8, AFTER8);
    DigitBits(9);
    EightFeed(AFTER8, ToBits(0x39, 8));
    Digit9();
    assert DIGITS[..9] == DIGITS;
    LastRegister();
    HoldsOne(BitRun(INITIAL, Bits(DIGITS)), ToBits(0x340BC6D9, 32), AFTER9);
  }

  /** The check value of CRC-32: polynomial, initial value and complement are the standard's. */
  lemma {:induction false} CheckValue()
    ensures Crc(DIGITS) == ToBits(0xCBF43926, 32)
  {
    hide BitRun, Bits, ToBits, Complement, DIGITS;
    RegisterAfterDigits();
    ComplementBits(0x340BC6D9);
  }

  // ----- the residue -----

  lemma {:induction false} FromBitsConcat(a: seq<bool>, b: seq<bool>)
    ensures FromBits(a + b) == FromBits(a) + Pow2(|a|) * FromBits(b)
  {
    if a == [] {
      assert a + b == b;
    } else {
      FromBitsConcat(a[1..], b);
      assert (a + b)[1..] == a[1..] + b;
      assert 2 * (Pow2(|a| - 1) * FromBits(b)) == Pow2(|a|) * FromBits(b);
    }
  }

  lemma ByteOfBits(bits: seq<bool>)
    requires |bits| >= 8
    ensures FromBits(bits) % 256 == FromBits(bits[..8]) && FromBits(bits) / 256 == FromBits(bits[8..])
  {
    hide FromBits;
    assert bits == bits[..8] + bits[8..];
    FromBitsConcat(bits[..8], bits[8..]);
    FromBitsBound(bits[..8]);
    assert Pow2(4) == 16 && Pow2(8) == 256;
    ModuloUnique(FromBits(bits), 256, FromBits(bits[8..]), FromBits(bits[..8]));
  }

  lemma {:induction false} BytesOfBits(bits: seq<bool>, width: nat)
    requires |bits| == 8 * width
    ensures Bits(Encode(FromBits(bits), width)) == bits
  {
    hide FromBits, ToBits;
    if width > 0 {
      ByteOfBits(bits);
      BytesOfBits(bits[8..], width - 1);
      ToBitsFromBits(bits[..8]);
      var bytes := Encode(FromBits(bits), width);
      assert bytes[0] == FromBits(bits[..8]) && bytes[1..] == Encode(FromBits(bits[8..]), width - 1);
      assert bits == bits[..8] + bits[8..];
    }
  }

  // The register as 32 zero bits follow, eight at a time.

  const ZEROS1: Register := Register( // 0x2DFD1072
    false, true, false, false, true, true, true, false, false, false, false, false, true, false, false, false,
    true, false, true, true, true, true, true, true, true, false, true, true, false, true, false, false)

  const ZEROS2: Register := Register( // 0xBE26ED00
    false, false, false, false, false, false, false, false, true, false, true, true, false, true, true, true,
    false, true, true, false, false, true, false, false, false, true, true, true, true, true, false, true)

  const ZEROS3: Register := Register( // 0x00BE26ED
    true, false, true, true, false, true, true, true, false, true, true, false, false, true, false, false,
    false, true, true, true, true, true, false, true, false, false, false, false, false, false, false, false)

  const ZEROS4: Register := Register( // 0xDEBB20E3
    true, true, false, false, false, true, true, true, false, false, false, false, false, true, false, false,
    true, true, false, true, true, true, false, true, false, true, true, true, true, false, true, true)

  lemma EightZeros1()
    ensures FeedFour(FeedFour(AFTER0, false, false, false, false), false, false, false, false) == ZEROS1
  {
  }

  lemma EightZeros2()
    ensures FeedFour(FeedFour(ZEROS1, false, false, false, false), false, false, false, false) == ZEROS2
  {
  }

  lemma EightZeros3()
    ensures FeedFour(FeedFour(ZEROS2, false, false, false, false), false, false, false, false) == ZEROS3
  {
  }

  lemma EightZeros4()
    ensures FeedFour(FeedFour(ZEROS3, false, false, false, false), false, false, false, false) == ZEROS4
  {
  }

  lemma ResidueRegister()
    ensures Holds(ToBits(0xDEBB20E3, 32), ZEROS4)
  {
    hide ToBits;
    HexHolds(0x3, 0xE, 0x0, 0x2, 0xB, 0xB, 0xE, 0xD);
    assert Hex(0x3, 0xE, 0x0, 0x2, 0xB, 0xB, 0xE, 0xD) == 0xDEBB20E3;
  }

  lemma OnesRunOut(ones: Word)
    requires Holds(ones, AFTER0)
    ensures BitRun(ones, Zeros(32)) == ToBits(0xDEBB20E3, 32)
  {
    hide Holds, Feed, FeedBits, FeedFour, BitRun, ToBits, AFTER0, ZEROS1, ZEROS2, ZEROS3, ZEROS4;
    EightFeed(AFTER0, Zeros(8));
    EightZeros1();
    EightFeed(ZEROS1, Zeros(8));
    EightZeros2();
    EightFeed(ZEROS2, Zeros(8));
    EightZeros3();
    EightFeed(ZEROS3, Zeros(8));
    EightZeros4();
    assert Zeros(16) == Zeros(8) + Zeros(8) && Zeros(24) == Zeros(16) + Zeros(8) && Zeros(32) == Zeros(24) + Zeros(8);
    FeedConcat(AFTER0, Zeros(8), Zeros(8));
    FeedConcat(AFTER0, Zeros(16), Zeros(8));
    FeedConcat(AFTER0, Zeros(24), Zeros(8));
    RunHolds(ones, AFTER0, Zeros(32));
    ResidueRegister();
    HoldsOne(BitRun(ones, Zeros(32)), ToBits(0xDEBB20E3, 32), ZEROS4);
  }

  lemma ComplementMeets(w: Word, ones: Word)
    requires Holds(ones, AFTER0)
    ensures Xor(w, Widen(Complement(w))) == Xor(ones, Widen(Zeros(32)))
  {
    AllOf(ones);
  }

  lemma AllOf(ones: Word)
    requires Holds(ones, AFTER0)
    ensures forall i | 0 <= i < 32 :: ones[i]
  {
  }

  /** A register followed by its own complement ends the same way, whatever it held. */
  lemma ComplementRunsOut(w: Word)
    ensures BitRun(w, Complement(w)) == ToBits(0xDEBB20E3, 32)
  {
    hide Holds, Shifts, BitRun, Xor, Widen, Complement, ToBits, AFTER0;
    AllOnes();
    var ones: Word := ToBits(0xFFFF_FFFF, 32);
    ComplementMeets(w, ones);
    ShiftsAreBitRun(w, Complement(w));
    ShiftsAreBitRun(ones, Zeros(32));
    OnesRunOut(ones);
  }

  /** Any data followed by the four bytes of its own checksum leaves the standard's residue in the register. */
  lemma {:induction false} Residue(data: seq<byte>)
    ensures BitRun(INITIAL, Bits(data + Encode(FromBits(Crc(data)), 4))) == ToBits(0xDEBB20E3, 32)
  {
    hide BitRun, Bits, ToBits, FromBits, Encode, Complement, INITIAL;
    var check := Crc(data);
    BytesOfBits(check, 4);
    BitsConcat(data, Encode(FromBits(check), 4));
    BitRunConcat(INITIAL, Bits(data), check);
    ComplementRunsOut(BitRun(INITIAL, Bits(data)));
  }
}
