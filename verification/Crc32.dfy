/**
 The table-driven CRC-32 of MessageBuffer.h, the bit-at-a-time definition it has to agree with
 (reflected CRC-32 of IEEE 802.3, section 3.2.9), and the errors the checksum is bound to detect.
 A machine word is modelled by its bits, least significant first.
 */
module Crc32 {
  import opened Bytes

  type Word = w: seq<bool> | |w| == 32 witness seq(32, _ => false)

  function Zeros(n: nat): (w: seq<bool>)
    ensures |w| == n
  {
    seq(n, _ => false)
  }

  const POLYNOMIAL: Word := ToBits(0xEDB88320, 32)
  const INITIAL: Word := ToBits(0xFFFF_FFFF, 32)

  function Xor(x: seq<bool>, y: seq<bool>): (z: seq<bool>)
    requires |x| == |y|
    ensures |z| == |x|
  {
    seq(|x|, i requires 0 <= i < |x| => x[i] != y[i])
  }

  function Complement(x: Word): Word {
    seq(32, i requires 0 <= i < 32 => !x[i])
  }

  function ShiftRight(x: Word, n: nat): Word
    requires n <= 32
  {
    x[n..] + Zeros(n)
  }

  /** The word with the given low bits and zeros above. */
  function Widen(low: seq<bool>): Word
    requires |low| <= 32
  {
    low + Zeros(32 - |low|)
  }

  // ----- bit-at-a-time definition -----

  /** One step of the reflected shift register. */
  function Shift(x: Word): Word {
    Xor(ShiftRight(x, 1), if x[0] then POLYNOMIAL else Zeros(32))
  }

  function Shifts(x: Word, n: nat): Word
    decreases n
  {
    if n == 0 then x else Shifts(Shift(x), n - 1)
  }

  /** Divides the bit string by the polynomial, starting from remainder `crc`. */
  function BitRun(crc: Word, bits: seq<bool>): Word
    decreases |bits|
  {
    if bits == [] then crc else BitRun(Shift(Xor(crc, Widen([bits[0]]))), bits[1..])
  }

  /** The bits of a byte string, least significant bit of each byte first. */
  function Bits(data: seq<byte>): (bits: seq<bool>)
    ensures |bits| == 8 * |data|
  {
    if data == [] then [] else ToBits(data[0], 8) + Bits(data[1..])
  }

  /** The checksum, by definition. */
  function Crc(data: seq<byte>): Word {
    Complement(BitRun(INITIAL, Bits(data)))
  }

  // ----- table-driven computation -----

  function TableEntry(index: nat): Word {
    Shifts(Widen(ToBits(index, 8)), 8)
  }

  function TableIndex(crc: Word, b: byte): (index: nat) {
    FromBits(Xor(crc, Widen(ToBits(b, 8)))[..8])
  }

  function TableStep(crc: Word, b: byte): Word {
    Xor(ShiftRight(crc, 8), TableEntry(TableIndex(crc, b)))
  }

  // ----- the register is linear -----

  lemma ShiftXor(x: Word, y: Word)
    ensures Shift(Xor(x, y)) == Xor(Shift(x), Shift(y))
  {
  }

  lemma {:induction false} ShiftsXor(x: Word, y: Word, n: nat)
    ensures Shifts(Xor(x, y), n) == Xor(Shifts(x, n), Shifts(y, n))
    decreases n
  {
    hide Shift, Xor;
    if n > 0 {
      ShiftXor(x, y);
      ShiftsXor(Shift(x), Shift(y), n - 1);
    }
  }

  lemma EvenShift(x: Word)
    requires !x[0]
    ensures Shift(x) == ShiftRight(x, 1)
  {
  }

  lemma {:induction false} HighShifts(x: Word, n: nat)
    requires n <= 32 && forall i | 0 <= i < n :: !x[i]
    ensures Shifts(x, n) == ShiftRight(x, n)
    decreases n
  {
    hide Shift;
    if n > 0 {
      EvenShift(x);
      HighShifts(ShiftRight(x, 1), n - 1);
    }
  }

  // ----- table-driven equals bit-at-a-time -----

  lemma {:induction false} ShiftsAreBitRun(c: Word, bits: seq<bool>)
    requires |bits| <= 32
    ensures Shifts(Xor(c, Widen(bits)), |bits|) == BitRun(c, bits)
    decreases |bits|
  {
    hide Shift;
    if bits == [] {
      assert Xor(c, Widen(bits)) == c;
    } else {
      var first: Word := Xor(c, Widen([bits[0]]));
      var rest: Word := Widen([false] + bits[1..]);
      assert Xor(c, Widen(bits)) == Xor(first, rest);
      ShiftXor(first, rest);
      EvenShift(rest);
      assert ShiftRight(rest, 1) == Widen(bits[1..]);
      ShiftsAreBitRun(Shift(first), bits[1..]);
    }
  }

  lemma {:induction false} BitRunConcat(crc: Word, a: seq<bool>, b: seq<bool>)
    ensures BitRun(crc, a + b) == BitRun(BitRun(crc, a), b)
    decreases |a|
  {
    hide Shift, Xor, Widen;
    if a == [] {
      assert a + b == b;
    } else {
      assert (a + b)[1..] == a[1..] + b;
      BitRunConcat(Shift(Xor(crc, Widen([a[0]]))), a[1..], b);
    }
  }

  /** One table look-up does the work of eight register steps. */
  lemma TableStepIsBitRun(crc: Word, b: byte)
    ensures TableStep(crc, b) == BitRun(crc, ToBits(b, 8))
  {
    hide Shift, Shifts, BitRun, ToBits;
    var x: Word := Xor(crc, Widen(ToBits(b, 8)));
    var high: Word := Zeros(8) + x[8..];
    var low: Word := Widen(x[..8]);
    ToBitsFromBits(x[..8]);
    assert x == Xor(high, low);
    ShiftsXor(high, low, 8);
    HighShifts(high, 8);
    assert ShiftRight(high, 8) == ShiftRight(crc, 8);
    ShiftsAreBitRun(crc, ToBits(b, 8));
  }

  lemma {:induction false} BitsSnoc(data: seq<byte>, b: byte)
    ensures Bits(data + [b]) == Bits(data) + ToBits(b, 8)
  {
    hide ToBits;
    if data == [] {
      assert data + [b] == [b];
    } else {
      assert (data + [b])[1..] == data[1..] + [b];
      BitsSnoc(data[1..], b);
    }
  }

  lemma {:induction false} BitsConcat(a: seq<byte>, b: seq<byte>)
    ensures Bits(a + b) == Bits(a) + Bits(b)
  {
    hide ToBits;
    if a == [] {
      assert a + b == b;
    } else {
      assert (a + b)[1..] == a[1..] + b;
      BitsConcat(a[1..], b);
    }
  }

  // ----- the loops of the source -----

  /** One table entry: eight conditional shifts of the index. */
  method GenerateEntry(index: byte) returns (crc: Word)
    ensures crc == TableEntry(index)
  {
    crc := Widen(ToBits(index, 8));
    var i := 0;
    while i < 8
      invariant 0 <= i <= 8
      invariant Shifts(crc, 8 - i) == TableEntry(index)
    {
      crc := Xor(ShiftRight(crc, 1), if crc[0] then POLYNOMIAL else Zeros(32));
      i := i + 1;
    }
  }

  ghost predicate IsTable(table: seq<Word>) {
    |table| == 256 && forall k: byte :: table[k] == TableEntry(k)
  }

  method MakeTable() returns (table: seq<Word>)
    ensures IsTable(table)
  {
    hide TableEntry;
    table := [];
    var i := 0;
    while i < 256
      invariant 0 <= i <= 256 && |table| == i
      invariant forall k: byte | k < i :: table[k] == TableEntry(k)
    {
      var entry := GenerateEntry(i);
      table := table + [entry];
      i := i + 1;
    }
  }

  lemma TableIndexBound(crc: Word, b: byte)
    ensures TableIndex(crc, b) < 256
  {
    FromBitsBound(Xor(crc, Widen(ToBits(b, 8)))[..8]);
    assert Pow2(4) == 16 && Pow2(8) == 256;
  }

  /** The look-up loop of every checksum computation; the result is the bit-at-a-time remainder. */
  method Update(table: seq<Word>, data: seq<byte>, start: Word) returns (crc: Word)
    requires IsTable(table)
    ensures crc == BitRun(start, Bits(data))
  {
    crc := start;
    var i := 0;
    while i < |data|
      invariant 0 <= i <= |data|
      invariant crc == BitRun(start, Bits(data[..i]))
    {
      hide BitRun, Bits, TableIndex, TableEntry;
      var index := TableIndex(crc, data[i]);
      TableIndexBound(crc, data[i]);
      TableStepIsBitRun(crc, data[i]);
      assert data[..i + 1] == data[..i] + [data[i]];
      BitsSnoc(data[..i], data[i]);
      BitRunConcat(start, Bits(data[..i]), ToBits(data[i], 8));
      crc := Xor(ShiftRight(crc, 8), table[index]);
      i := i + 1;
    }
    assert data[..|data|] == data;
  }

  /** calculateCRC32. */
  method Calculate(table: seq<Word>, data: seq<byte>) returns (crc: Word)
    requires IsTable(table)
    ensures crc == Crc(data)
  {
    crc := Update(table, data, INITIAL);
    crc := Complement(crc);
  }

  // ----- which errors are detected -----

  lemma PolynomialTopBit()
    ensures POLYNOMIAL[31]
  {
    hide ToBits;
    ToBitsAt(0xEDB88320, 32, 31);
    assert Pow2(8) == 0x100 && Pow2(16) == 0x1_0000 && Pow2(24) == 0x100_0000 && Pow2(31) == 0x8000_0000;
    assert 0xEDB88320 / 0x8000_0000 == 1;
  }

  lemma {:induction false} ToBitsAt(x: nat, n: nat, i: nat)
    requires i < n
    ensures ToBits(x, n)[i] == (x / Pow2(i) % 2 == 1)
  {
    if i > 0 {
      ToBitsAt(x / 2, n - 1, i - 1);
      assert x / 2 / Pow2(i - 1) == x / Pow2(i) by { DivideTwice(x, Pow2(i - 1)); }
    }
  }

  lemma DivideTwice(x: nat, p: nat)
    requires p > 0
    ensures x / 2 / p == x / (2 * p)
  {
    ModuloByHalves(x, p);
    var q := x / 2 / p;
    assert x == q * (2 * p) + (x % 2 + 2 * (x / 2 % p)) by {
      assert x / 2 == q * p + x / 2 % p;
      assert 2 * (q * p) == q * (2 * p);
    }
    ModuloUnique(x, 2 * p, q, x % 2 + 2 * (x / 2 % p));
  }

  lemma ShiftTopBit(x: Word)
    ensures Shift(x)[31] == x[0]
  {
    PolynomialTopBit();
  }

  lemma ShiftInjective(x: Word, y: Word)
    requires Shift(x) == Shift(y)
    ensures x == y
  {
    ShiftTopBit(x);
    ShiftTopBit(y);
    forall i | 1 <= i < 32
      ensures x[i] == y[i]
    {
      assert Shift(x)[i - 1] == Shift(y)[i - 1];
    }
  }

  lemma XorRightInjective(x: seq<bool>, y: seq<bool>, z: seq<bool>)
    requires |x| == |y| == |z| && Xor(x, z) == Xor(y, z)
    ensures x == y
  {
    forall i | 0 <= i < |x|
      ensures x[i] == y[i]
    {
      assert Xor(x, z)[i] == Xor(y, z)[i];
    }
  }

  lemma {:induction false} BitRunInjective(s: Word, t: Word, bits: seq<bool>)
    requires BitRun(s, bits) == BitRun(t, bits)
    ensures s == t
    decreases |bits|
  {
    hide Shift, Xor;
    if bits != [] {
      var w := Widen([bits[0]]);
      BitRunInjective(Shift(Xor(s, w)), Shift(Xor(t, w)), bits[1..]);
      ShiftInjective(Xor(s, w), Xor(t, w));
      XorRightInjective(s, t, w);
    }
  }

  /** Two runs of at most 32 bits that meet started exactly as far apart as their bits differ. */
  lemma {:induction false} MeetingRuns(s: Word, t: Word, a: seq<bool>, b: seq<bool>)
    requires |a| == |b| <= 32
    requires BitRun(s, a) == BitRun(t, b)
    ensures Xor(s, t) == Widen(Xor(a, b))
    decreases |a|
  {
    hide Shift;
    if a != [] {
      var x: Word := Xor(s, Widen([a[0]]));
      var y: Word := Xor(t, Widen([b[0]]));
      MeetingRuns(Shift(x), Shift(y), a[1..], b[1..]);
      var d: Word := Xor(x, y);
      ShiftXor(x, y);
      ShiftTopBit(d);
      EvenShift(d);
      assert ShiftRight(d, 1) == Widen(Xor(a[1..], b[1..]));
      UnshiftEven(d, Xor(a[1..], b[1..]));
      forall i | 0 <= i < 32
        ensures Xor(s, t)[i] == Widen(Xor(a, b))[i]
      {
        assert d[i] == Widen([false] + Xor(a[1..], b[1..]))[i];
      }
    }
  }

  lemma UnshiftEven(d: Word, low: seq<bool>)
    requires |low| < 32 && !d[0] && ShiftRight(d, 1) == Widen(low)
    ensures d == Widen([false] + low)
  {
    forall i | 1 <= i < 32
      ensures d[i] == Widen([false] + low)[i]
    {
      assert ShiftRight(d, 1)[i - 1] == Widen(low)[i - 1];
    }
  }

  /** A change confined to 32 consecutive bits, wherever they lie, always changes the remainder. */
  lemma WindowDetected(crc: Word, pre: seq<bool>, a: seq<bool>, b: seq<bool>, post: seq<bool>)
    requires |a| == |b| <= 32
    requires BitRun(crc, pre + a + post) == BitRun(crc, pre + b + post)
    ensures a == b
  {
    hide BitRun;
    BitRunConcat(crc, pre + a, post);
    BitRunConcat(crc, pre + b, post);
    BitRunConcat(crc, pre, a);
    BitRunConcat(crc, pre, b);
    var s := BitRun(crc, pre);
    BitRunInjective(BitRun(s, a), BitRun(s, b), post);
    MeetingRuns(s, s, a, b);
    forall i | 0 <= i < |a|
      ensures a[i] == b[i]
    {
      assert Xor(s, s)[i] == Widen(Xor(a, b))[i];
    }
  }

  lemma ByteBitsInjective(b: byte, c: byte)
    requires ToBits(b, 8) == ToBits(c, 8)
    ensures b == c
  {
    assert Pow2(4) == 16 && Pow2(8) == 256;
    FromBitsToBits(b, 8);
    FromBitsToBits(c, 8);
  }

  lemma {:induction false} BitsInjective(u: seq<byte>, v: seq<byte>)
    requires |u| == |v| && Bits(u) == Bits(v)
    ensures u == v
  {
    hide ToBits;
    if u != [] {
      assert Bits(u)[..8] == ToBits(u[0], 8) && Bits(u)[8..] == Bits(u[1..]);
      assert Bits(v)[..8] == ToBits(v[0], 8) && Bits(v)[8..] == Bits(v[1..]);
      ByteBitsInjective(u[0], v[0]);
      BitsInjective(u[1..], v[1..]);
    }
  }

  lemma ComplementInjective(x: Word, y: Word)
    requires Complement(x) == Complement(y)
    ensures x == y
  {
    forall i | 0 <= i < 32
      ensures x[i] == y[i]
    {
      assert Complement(x)[i] == Complement(y)[i];
    }
  }

  /** The strings have the same length and agree outside the 32 bits from `start`. */
  ghost predicate SameOutsideWindow(u: seq<byte>, v: seq<byte>, start: nat) {
    && |u| == |v|
    && forall i | 0 <= i < 8 * |u| && !(start <= i < start + 32) :: Bits(u)[i] == Bits(v)[i]
  }

  /** Burst detection: no error burst of up to 32 bits goes unnoticed, at any bit offset. */
  lemma {:induction false} BurstDetected(u: seq<byte>, v: seq<byte>, start: nat)
    requires SameOutsideWindow(u, v, start) && u != v
    ensures Crc(u) != Crc(v)
  {
    hide BitRun, Bits, Complement, ToBits;
    var p := Bits(u);
    var q := Bits(v);
    var lo := if start < |p| then start else |p|;
    var hi := if start + 32 < |p| then start + 32 else |p|;
    if Crc(u) == Crc(v) {
      ComplementInjective(BitRun(INITIAL, p), BitRun(INITIAL, q));
      assert p == p[..lo] + p[lo..hi] + p[hi..];
      assert q == q[..lo] + q[lo..hi] + q[hi..];
      assert q[..lo] == p[..lo] && q[hi..] == p[hi..];
      WindowDetected(INITIAL, p[..lo], p[lo..hi], q[lo..hi], p[hi..]);
      BitsInjective(u, v);
    }
  }

  lemma {:induction false} BitRunXor(s: Word, t: Word, a: seq<bool>, b: seq<bool>)
    requires |a| == |b|
    ensures BitRun(Xor(s, t), Xor(a, b)) == Xor(BitRun(s, a), BitRun(t, b))
    decreases |a|
  {
    if a != [] {
      var p := Widen([a[0]]);
      var q := Widen([b[0]]);
      assert Xor(a, b)[1..] == Xor(a[1..], b[1..]);
      assert Xor(Xor(s, t), Widen([Xor(a, b)[0]])) == Xor(Xor(s, p), Xor(t, q));
      ShiftXor(Xor(s, p), Xor(t, q));
      BitRunXor(Shift(Xor(s, p)), Shift(Xor(t, q)), a[1..], b[1..]);
    }
  }

  lemma XorZero(x: Word, y: Word)
    ensures Xor(x, y) == Zeros(32) <==> x == y
  {
    if Xor(x, y) == Zeros(32) {
      forall i | 0 <= i < 32
        ensures x[i] == y[i]
      {
        assert Xor(x, y)[i] == Zeros(32)[i];
      }
    }
  }

  /** Two checksums are as far apart as the error pattern alone leads. */
  lemma {:induction false} PatternDifference(u: seq<byte>, v: seq<byte>)
    requires |u| == |v|
    ensures Xor(Crc(u), Crc(v)) == BitRun(Zeros(32), Xor(Bits(u), Bits(v)))
  {
    hide BitRun, Bits, ToBits;
    assert Xor(INITIAL, INITIAL) == Zeros(32);
    BitRunXor(INITIAL, INITIAL, Bits(u), Bits(v));
  }

  /** Detection depends on the error pattern alone: missed iff the pattern itself leaves remainder zero. */
  lemma {:induction false} MissedIffPatternDivisible(u: seq<byte>, v: seq<byte>)
    requires |u| == |v|
    ensures Crc(u) == Crc(v) <==> BitRun(Zeros(32), Xor(Bits(u), Bits(v))) == Zeros(32)
  {
    hide BitRun, Bits, Crc;
    PatternDifference(u, v);
    XorZero(Crc(u), Crc(v));
  }

  lemma {:induction false} ZerosRunToZero(n: nat)
    ensures BitRun(Zeros(32), Zeros(n)) == Zeros(32)
  {
    if n > 0 {
      assert Zeros(n)[1..] == Zeros(n - 1);
      assert Xor(Zeros(32), Widen([false])) == Zeros(32);
      assert Shift(Zeros(32)) == Zeros(32);
      ZerosRunToZero(n - 1);
    }
  }

  /** Unchanged bits around a pattern decide nothing. */
  lemma {:induction false} PaddedPattern(before: nat, pattern: seq<bool>, after: nat)
    ensures BitRun(Zeros(32), Zeros(before) + pattern + Zeros(after)) == Zeros(32)
            <==> BitRun(Zeros(32), pattern) == Zeros(32)
  {
    hide BitRun;
    BitRunConcat(Zeros(32), Zeros(before) + pattern, Zeros(after));
    BitRunConcat(Zeros(32), Zeros(before), pattern);
    ZerosRunToZero(before);
    ZerosRunToZero(after);
    if BitRun(BitRun(Zeros(32), pattern), Zeros(after)) == Zeros(32) {
      BitRunInjective(BitRun(Zeros(32), pattern), Zeros(32), Zeros(after));
    }
  }

  lemma RunsOut(w: Word)
    ensures BitRun(w, w) == Zeros(32)
  {
    hide BitRun;
    ShiftsAreBitRun(w, w);
    assert Xor(w, Widen(w)) == Zeros(32);
    ShiftsAreBitRun(Zeros(32), Zeros(32));
    assert Xor(Zeros(32), Widen(Zeros(32))) == Zeros(32);
    ZerosRunToZero(32);
  }

  /** Of 64 bits the first 32 determine the only second half that leaves remainder zero. */
  lemma {:induction false} PairDivisibleIff(first: Word, second: Word)
    ensures BitRun(Zeros(32), first + second) == Zeros(32) <==> second == BitRun(Zeros(32), first)
  {
    hide BitRun;
    BitRunConcat(Zeros(32), first, second);
    RunsOut(second);
    if BitRun(BitRun(Zeros(32), first), second) == Zeros(32) {
      BitRunInjective(BitRun(Zeros(32), first), second, second);
    }
  }
}
