/**
 Bytes, little-endian integers, the two's-complement reading of 64-bit words, and the bit masks the
 ring queues use as a modulo.
 */
module Bytes {
  type byte = b: int | 0 <= b < 256

  const TWO_TO_63: int := 0x8000_0000_0000_0000
  const TWO_TO_64: int := 0x1_0000_0000_0000_0000

  type int64 = i: int | -TWO_TO_63 <= i < TWO_TO_63

  function ZeroBytes(n: nat): (bytes: seq<byte>)
    ensures |bytes| == n
  {
    seq(n, _ => 0)
  }

  function Pow256(n: nat): (p: nat)
    ensures p > 0
  {
    if n == 0 then 1 else 256 * Pow256(n - 1)
  }

  /** The `width` low bytes of `value`, least significant first. */
  function Encode(value: nat, width: nat): (bytes: seq<byte>)
    ensures |bytes| == width
  {
    if width == 0 then [] else [value % 256] + Encode(value / 256, width - 1)
  }

  function Decode(bytes: seq<byte>): (value: nat) {
    if bytes == [] then 0 else bytes[0] + 256 * Decode(bytes[1..])
  }

  lemma {:induction false} DecodeBound(bytes: seq<byte>)
    ensures Decode(bytes) < Pow256(|bytes|)
  {
    if bytes != [] {
      DecodeBound(bytes[1..]);
    }
  }

  lemma {:induction false} DecodeEncode(value: nat, width: nat)
    requires value < Pow256(width)
    ensures Decode(Encode(value, width)) == value
  {
    if width > 0 {
      DecodeEncode(value / 256, width - 1);
      assert Encode(value, width)[1..] == Encode(value / 256, width - 1);
    }
  }

  lemma {:induction false} EncodeDecode(bytes: seq<byte>)
    ensures Encode(Decode(bytes), |bytes|) == bytes
  {
    if bytes != [] {
      EncodeDecode(bytes[1..]);
      LowByte(bytes[0], Decode(bytes[1..]));
      assert Decode(bytes) == bytes[0] + 256 * Decode(bytes[1..]);
    }
  }

  lemma LowByte(b: byte, rest: nat)
    ensures (b + 256 * rest) % 256 == b && (b + 256 * rest) / 256 == rest
  {
  }

  lemma DecodeInjective(a: seq<byte>, b: seq<byte>)
    requires |a| == |b| && Decode(a) == Decode(b)
    ensures a == b
  {
    EncodeDecode(a);
    EncodeDecode(b);
  }

  /** Byte i is the i-th base-256 digit. */
  lemma {:induction false} EncodedByte(value: nat, width: nat, i: nat)
    requires i < width
    ensures Encode(value, width)[i] == value / Pow256(i) % 256
  {
    if i > 0 {
      EncodedByte(value / 256, width - 1, i - 1);
      DivideByNext(value, Pow256(i - 1));
    }
  }

  lemma DivideByNext(x: nat, p: nat)
    requires p > 0
    ensures x / 256 / p == x / (256 * p)
  {
    var y := x / 256;
    var q, r := y / p, y % p;
    assert y == q * p + r;
    assert 256 * (q * p) == q * (256 * p);
    ModuloUnique(x, 256 * p, q, 256 * r + x % 256);
  }

  lemma PowersOf256()
    ensures Pow256(1) == 0x100 && Pow256(2) == 0x1_0000 && Pow256(4) == 0x1_0000_0000 && Pow256(8) == TWO_TO_64
  {
    assert Pow256(3) == 0x100_0000 && Pow256(5) == 0x100_0000_0000 && Pow256(6) == 0x1_0000_0000_0000;
  }

  /** The int64 reading of a uint64 value, and back. */
  function ToSigned(u: nat): int {
    if u < TWO_TO_63 then u else u - TWO_TO_64
  }

  function FromSigned(i: int): (u: nat)
    requires -TWO_TO_63 <= i < TWO_TO_63
    ensures u < TWO_TO_64 && ToSigned(u) == i
  {
    if i < 0 then i + TWO_TO_64 else i
  }

  /** A uint64 counter stored in an int64. */
  function AsInt64(n: nat): int64 {
    ToSigned(n % TWO_TO_64)
  }

  lemma SmallCounter(n: nat)
    requires n < 0x8000_0000_0000_0000
    ensures AsInt64(n) == n
  {
  }

  /** The uint64 that an int64 is stored as is its residue modulo 2^64. */
  lemma SignedIsResidue(i: int)
    requires -TWO_TO_63 <= i < TWO_TO_63
    ensures FromSigned(i) == i % 0x1_0000_0000_0000_0000
  {
  }

  // ----- bits -----

  /** The n low bits of x, least significant first. */
  function ToBits(x: nat, n: nat): (bits: seq<bool>)
    ensures |bits| == n
  {
    if n == 0 then [] else [x % 2 == 1] + ToBits(x / 2, n - 1)
  }

  function FromBits(bits: seq<bool>): nat {
    if bits == [] then 0 else (if bits[0] then 1 else 0) + 2 * FromBits(bits[1..])
  }

  function Pow2(n: nat): (p: nat)
    ensures p > 0
  {
    if n == 0 then 1 else 2 * Pow2(n - 1)
  }

  lemma {:induction false} FromBitsBound(bits: seq<bool>)
    ensures FromBits(bits) < Pow2(|bits|)
  {
    if bits != [] {
      FromBitsBound(bits[1..]);
    }
  }

  lemma {:induction false} ToBitsFromBits(bits: seq<bool>)
    ensures ToBits(FromBits(bits), |bits|) == bits
  {
    if bits != [] {
      ToBitsFromBits(bits[1..]);
      var x := FromBits(bits);
      assert x / 2 == FromBits(bits[1..]) && (x % 2 == 1) == bits[0];
    }
  }

  lemma {:induction false} FromBitsToBits(x: nat, n: nat)
    requires x < Pow2(n)
    ensures FromBits(ToBits(x, n)) == x
  {
    if n > 0 {
      FromBitsToBits(x / 2, n - 1);
      assert ToBits(x, n)[1..] == ToBits(x / 2, n - 1);
    }
  }

  /** Bitwise and on naturals. */
  function BitAnd(a: nat, b: nat): nat {
    if a == 0 || b == 0 then 0 else (a % 2) * (b % 2) + 2 * BitAnd(a / 2, b / 2)
  }

  lemma {:induction false} BitAndSelf(a: nat)
    ensures BitAnd(a, a) == a
  {
    if a > 0 {
      BitAndSelf(a / 2);
    }
  }

  /** The queues' static assertion on their size. */
  predicate IsPowerOfTwo(size: nat) {
    size > 0 && BitAnd(size, size - 1) == 0
  }

  /** Every power of two is one the queues accept. */
  lemma {:induction false} AcceptsPowers(n: nat)
    ensures IsPowerOfTwo(Pow2(n))
  {
    if n > 0 {
      AcceptsPowers(n - 1);
      var half := Pow2(n - 1);
      assert (2 * half - 1) / 2 == half - 1 && 2 * half / 2 == half;
    }
  }

  lemma {:induction false} HalfIsPowerOfTwo(size: nat)
    requires IsPowerOfTwo(size) && size > 1
    ensures size % 2 == 0 && IsPowerOfTwo(size / 2)
  {
    if size % 2 == 1 {
      assert (size - 1) / 2 == size / 2;
      BitAndSelf(size / 2);
    } else {
      assert (size - 1) / 2 == size / 2 - 1;
    }
  }

  /** Masking with size - 1 is reduction modulo size. */
  lemma {:induction false} MaskIsModulo(x: nat, size: nat)
    requires IsPowerOfTwo(size)
    ensures BitAnd(x, size - 1) == x % size
  {
    if size > 1 {
      HalfIsPowerOfTwo(size);
      var half := size / 2;
      assert (size - 1) / 2 == half - 1 && (size - 1) % 2 == 1;
      MaskIsModulo(x / 2, half);
      ModuloByHalves(x, half);
    }
  }

  lemma ModuloByHalves(x: nat, half: nat)
    requires half > 0
    ensures x % (2 * half) == x % 2 + 2 * (x / 2 % half)
  {
    var q := x / 2 / half;
    var r := x / 2 % half;
    assert x / 2 == q * half + r;
    assert 2 * (q * half) == q * (2 * half);
    ModuloUnique(x, 2 * half, q, 2 * r + x % 2);
  }

  lemma ModuloUnique(x: int, m: int, q: int, r: int)
    requires m > 0 && x == q * m + r && 0 <= r < m
    ensures x % m == r && x / m == q
  {
    var k := x / m;
    assert x == k * m + x % m;
    assert (q - k) * m == q * m - k * m && (k - q) * m == k * m - q * m;
    if k < q {
      MulAtLeast(q - k, m);
    } else if k > q {
      MulAtLeast(k - q, m);
    }
  }

  lemma MulAtLeast(d: int, m: int)
    requires d >= 1 && m > 0
    ensures d * m >= m
  {
  }

  lemma {:induction false} DividesPow2(size: nat, n: nat) returns (k: nat)
    requires IsPowerOfTwo(size) && size <= Pow2(n)
    ensures k * size == Pow2(n)
  {
    if size == 1 {
      k := Pow2(n);
    } else {
      HalfIsPowerOfTwo(size);
      var half := size / 2;
      k := DividesPow2(half, n - 1);
      assert k * (2 * half) == 2 * (k * half);
    }
  }

  lemma WrapThenModulo(d: int, wide: nat, size: nat)
    requires size > 0 && wide * size == TWO_TO_64
    ensures d % TWO_TO_64 % size == d % size
  {
    var turns := d / TWO_TO_64;
    var w := d % TWO_TO_64;
    var q := turns * wide + w / size;
    assert q * size == turns * wide * size + w / size * size;
    assert turns * wide * size == turns * TWO_TO_64;
    ModuloUnique(d, size, q, w % size);
  }

  /** The unsigned difference of two indices wraps at 2^64 before it is masked; the wrap is harmless. */
  lemma WrapThenMask(a: nat, b: nat, size: nat)
    requires IsPowerOfTwo(size) && size <= 65536
    ensures BitAnd((a - b) % TWO_TO_64, size - 1) == (a - b) % size
  {
    assert Pow2(4) == 16 && Pow2(8) == 256 && Pow2(12) == 4096 && Pow2(16) == 65536;
    var k := DividesPow2(size, 16);
    var wide := TWO_TO_64 / 65536 * k;
    assert wide * size == TWO_TO_64;
    WrapThenModulo(a - b, wide, size);
    MaskIsModulo((a - b) % TWO_TO_64, size);
  }

  // ----- ring indices -----

  /** Index reduction by whole turns of the ring; the queues write it as a mask with size - 1. */
  function Wrap(n: nat, size: nat): (index: nat)
    requires size > 0
    ensures index < size
  {
    if n < size then n else Wrap(n - size, size)
  }

  lemma {:induction false} WrapIsModulo(n: nat, size: nat)
    requires size > 0
    ensures Wrap(n, size) == n % size
  {
    if n < size {
      ModuloUnique(n, size, 0, n);
    } else {
      WrapIsModulo(n - size, size);
      var q := (n - size) / size;
      assert (q + 1) * size == q * size + size;
      ModuloUnique(n, size, q + 1, (n - size) % size);
    }
  }

  lemma {:induction false} WrapNext(n: nat, size: nat)
    requires size > 0
    ensures Wrap(n + 1, size) == Wrap(Wrap(n, size) + 1, size)
  {
    if n >= size {
      WrapNext(n - size, size);
    }
  }

  /** History positions less than a ring apart never share a slot. */
  lemma {:induction false} SlotsDistinct(i: nat, j: nat, size: nat)
    requires 0 < size && i < j < i + size
    ensures Wrap(i, size) != Wrap(j, size)
  {
    if i >= size {
      SlotsDistinct(i - size, j - size, size);
    }
  }

  lemma WrapAround(n: nat, size: nat)
    requires size > 0
    ensures Wrap(n + size, size) == Wrap(n, size)
  {
  }
}
