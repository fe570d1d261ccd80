/**
 MessageBuffer.h: the 64-byte header, the checksum over a message, and the buffer that receives one.
 */
module MessageFrame {
  import opened Bytes
  import Crc32

  const HEADER_SIZE: nat := 64
  const MAX_PAYLOAD_SIZE: nat := 4096
  const MAGIC: seq<byte> := [0x53, 0x45, 0x4B, 0x52]
  const MSG_TEST: nat := 99
  const FLAG_CHECKSUM_ENABLED: nat := 1

  type Header = h: seq<byte> | |h| == 64 witness ZeroBytes(64)

  const BLANK: Header := ZeroBytes(64)

  /** What a buffer holds in wire format: its header and the payload bytes in use. */
  datatype Content = Content(header: Header, payload: seq<byte>)

  /** The header's fields, read as little-endian integers. */
  datatype Fields = Fields(
    magic: seq<byte>, version: nat, messageType: nat, sequenceNumber: nat,
    eventTime: nat, publishTime: nat, recvTime: nat,
    messageLength: nat, publisherId: nat, priority: nat, flags: nat, sessionId: nat,
    checksum: nat, reserved: nat)

  function Parse(h: Header): Fields {
    Fields(
      h[0..4], Decode(h[4..6]), Decode(h[6..8]), Decode(h[8..16]),
      Decode(h[16..24]), Decode(h[24..32]), Decode(h[32..40]),
      Decode(h[40..44]), Decode(h[44..46]), Decode(h[46..47]), Decode(h[47..48]), Decode(h[48..56]),
      Decode(h[56..60]), Decode(h[60..64]))
  }

  /** The fields are within the widths the packed struct gives them. */
  predicate InRange(f: Fields) {
    && |f.magic| == 4
    && f.version < 0x1_0000 && f.messageType < 0x1_0000 && f.publisherId < 0x1_0000
    && f.priority < 0x100 && f.flags < 0x100
    && f.messageLength < 0x1_0000_0000 && f.checksum < 0x1_0000_0000 && f.reserved < 0x1_0000_0000
    && f.sequenceNumber < TWO_TO_64 && f.sessionId < TWO_TO_64
    && f.eventTime < TWO_TO_64 && f.publishTime < TWO_TO_64 && f.recvTime < TWO_TO_64
  }

  function Layout(f: Fields): Header
    requires |f.magic| == 4
  {
    f.magic + Encode(f.version, 2) + Encode(f.messageType, 2) + Encode(f.sequenceNumber, 8)
    + Encode(f.eventTime, 8) + Encode(f.publishTime, 8) + Encode(f.recvTime, 8)
    + Encode(f.messageLength, 4) + Encode(f.publisherId, 2) + Encode(f.priority, 1) + Encode(f.flags, 1)
    + Encode(f.sessionId, 8) + Encode(f.checksum, 4) + Encode(f.reserved, 4)
  }

  /** Writing the struct and reading it back loses nothing. */
  lemma ParseLayout(f: Fields)
    requires InRange(f)
    ensures Parse(Layout(f)) == f
  {
    hide Encode, Decode;
    PowersOf256();
    DecodeEncode(f.version, 2);
    DecodeEncode(f.messageType, 2);
    DecodeEncode(f.sequenceNumber, 8);
    DecodeEncode(f.eventTime, 8);
    DecodeEncode(f.publishTime, 8);
    DecodeEncode(f.recvTime, 8);
    DecodeEncode(f.messageLength, 4);
    DecodeEncode(f.publisherId, 2);
    DecodeEncode(f.priority, 1);
    DecodeEncode(f.flags, 1);
    DecodeEncode(f.sessionId, 8);
    DecodeEncode(f.checksum, 4);
    DecodeEncode(f.reserved, 4);
    var h := Layout(f);
    assert h[0..4] == f.magic && h[4..6] == Encode(f.version, 2) && h[6..8] == Encode(f.messageType, 2);
    assert h[8..16] == Encode(f.sequenceNumber, 8) && h[16..24] == Encode(f.eventTime, 8);
    assert h[24..32] == Encode(f.publishTime, 8) && h[32..40] == Encode(f.recvTime, 8);
    assert h[40..44] == Encode(f.messageLength, 4) && h[44..46] == Encode(f.publisherId, 2);
    assert h[46..47] == Encode(f.priority, 1) && h[47..48] == Encode(f.flags, 1);
    assert h[48..56] == Encode(f.sessionId, 8) && h[56..60] == Encode(f.checksum, 4) && h[60..64] == Encode(f.reserved, 4);
  }

  /** The 64 bytes are exactly the fields: no byte of the header escapes them. */
  lemma LayoutParse(h: Header)
    ensures InRange(Parse(h)) && Layout(Parse(h)) == h
  {
    hide Encode, Decode;
    PowersOf256();
    Slice(h, 4, 6);
    Slice(h, 6, 8);
    Slice(h, 8, 16);
    Slice(h, 16, 24);
    Slice(h, 24, 32);
    Slice(h, 32, 40);
    Slice(h, 40, 44);
    Slice(h, 44, 46);
    Slice(h, 46, 47);
    Slice(h, 47, 48);
    Slice(h, 48, 56);
    Slice(h, 56, 60);
    Slice(h, 60, 64);
  }

  lemma Slice(h: Header, from: nat, to: nat)
    requires from <= to <= 64
    ensures Encode(Decode(h[from..to]), to - from) == h[from..to]
    ensures Decode(h[from..to]) < Pow256(to - from)
  {
    EncodeDecode(h[from..to]);
    DecodeBound(h[from..to]);
  }

  /** Little-endian integers at a place in the header, byte by byte. */
  function Two(h: Header, at: nat): nat
    requires at + 2 <= 64
  {
    var b0: nat, b1: nat := h[at], h[at + 1];
    b0 + 0x100 * b1
  }

  function Four(h: Header, at: nat): nat
    requires at + 4 <= 64
  {
    Two(h, at) + 0x1_0000 * Two(h, at + 2)
  }

  function Eight(h: Header, at: nat): nat
    requires at + 8 <= 64
  {
    Four(h, at) + 0x1_0000_0000 * Four(h, at + 4)
  }

  /** A two's-complement integer of eight bytes. */
  function Signed(h: Header, at: nat): int
    requires at + 8 <= 64
  {
    var n := Eight(h, at);
    if n < 0x8000_0000_0000_0000 then n else n - 0x1_0000_0000_0000_0000
  }

  lemma FieldAt(h: Header, at: nat)
    ensures at + 1 <= 64 ==> Decode(h[at..at + 1]) == h[at]
    ensures at + 2 <= 64 ==> Decode(h[at..at + 2]) == Two(h, at)
    ensures at + 4 <= 64 ==> Decode(h[at..at + 4]) == Four(h, at)
    decreases 64 - at
  {
    hide Decode;
    if at + 1 <= 64 {
      FirstByte(h, at, at + 1);
      NoByte(h, at + 1);
    }
    if at + 2 <= 64 {
      FirstByte(h, at, at + 2);
      FieldAt(h, at + 1);
    }
    if at + 4 <= 64 {
      FirstByte(h, at, at + 4);
      FirstByte(h, at + 1, at + 4);
      FieldAt(h, at + 2);
    }
  }

  lemma NoByte(h: Header, at: nat)
    requires at <= 64
    ensures Decode(h[at..at]) == 0
  {
  }

  lemma FirstByte(h: Header, from: nat, to: nat)
    requires from < to <= 64
    ensures Decode(h[from..to]) == h[from] + 0x100 * Decode(h[from + 1..to])
  {
    assert h[from..to][1..] == h[from + 1..to];
  }

  lemma LongFieldAt(h: Header, at: nat)
    requires at + 8 <= 64
    ensures Decode(h[at..at + 8]) == Eight(h, at)
  {
    hide Decode;
    FirstByte(h, at, at + 8);
    FirstByte(h, at + 1, at + 8);
    FirstByte(h, at + 2, at + 8);
    FirstByte(h, at + 3, at + 8);
    FieldAt(h, at + 4);
  }

  /** Where each field of the packed struct lies. */
  lemma HeaderOffsets(h: Header)
    ensures var f := Parse(h);
            && f.magic == [h[0], h[1], h[2], h[3]] && f.version == Two(h, 4) && f.messageType == Two(h, 6)
            && f.sequenceNumber == Eight(h, 8) && f.eventTime == Eight(h, 16) && f.publishTime == Eight(h, 24)
            && f.recvTime == Eight(h, 32) && f.messageLength == Four(h, 40) && f.publisherId == Two(h, 44)
            && f.priority == h[46] && f.flags == h[47] && f.sessionId == Eight(h, 48)
            && f.checksum == Four(h, 56) && f.reserved == Four(h, 60)
  {
    hide Parse, Two, Four, Eight;
    ShortFields(h);
    LongFields(h);
  }

  lemma ShortFields(h: Header)
    ensures var f := Parse(h);
            && f.magic == [h[0], h[1], h[2], h[3]] && f.version == Two(h, 4) && f.messageType == Two(h, 6)
            && f.messageLength == Four(h, 40) && f.publisherId == Two(h, 44) && f.priority == h[46] && f.flags == h[47]
            && f.checksum == Four(h, 56) && f.reserved == Four(h, 60)
  {
    hide Decode, Two, Four, Eight;
    FieldAt(h, 4);
    FieldAt(h, 6);
    FieldAt(h, 40);
    FieldAt(h, 44);
    FieldAt(h, 46);
    FieldAt(h, 47);
    FieldAt(h, 56);
    FieldAt(h, 60);
  }

  lemma LongFields(h: Header)
    ensures var f := Parse(h);
            && f.sequenceNumber == Eight(h, 8) && f.eventTime == Eight(h, 16) && f.publishTime == Eight(h, 24)
            && f.recvTime == Eight(h, 32) && f.sessionId == Eight(h, 48)
  {
    hide Decode, Two, Four, Eight;
    LongFieldAt(h, 8);
    LongFieldAt(h, 16);
    LongFieldAt(h, 24);
    LongFieldAt(h, 32);
    LongFieldAt(h, 48);
  }

  // ----- checksum and validation -----

  function HasChecksum(h: Header): bool {
    Parse(h).flags % 2 == 1
  }

  function ClearChecksum(h: Header): Header {
    h[..56] + [0, 0, 0, 0] + h[60..]
  }

  /** The bytes the checksum covers. */
  function Covered(c: Content): (bytes: seq<byte>)
    ensures |bytes| == HEADER_SIZE + |c.payload|
  {
    ClearChecksum(c.header) + c.payload
  }

  function Checksum(c: Content): nat {
    FromBits(Crc32.Crc(Covered(c)))
  }

  /** Magic, version and length: what validate() asks before it looks at the checksum. */
  predicate PlausibleHeader(h: Header) {
    var f := Parse(h);
    f.magic == MAGIC && 1 <= f.version <= 100 && f.messageLength <= HEADER_SIZE + MAX_PAYLOAD_SIZE
  }

  predicate IsValid(c: Content) {
    PlausibleHeader(c.header) && (HasChecksum(c.header) ==> Parse(c.header).checksum == Checksum(c))
  }

  lemma ChecksumInjective(c: Content, d: Content)
    requires Checksum(c) == Checksum(d)
    ensures Crc32.Crc(Covered(c)) == Crc32.Crc(Covered(d))
  {
    hide ToBits, FromBits;
    ToBitsFromBits(Crc32.Crc(Covered(c)));
    ToBitsFromBits(Crc32.Crc(Covered(d)));
  }

  /**
   A change to covered bytes confined to 32 consecutive bits is noticed exactly when the flag that
   turns the checksum on survives it: with the flag cleared only the plausibility checks remain.
   */
  lemma {:induction false} BurstRejected(c: Content, d: Content, start: nat)
    requires IsValid(c) && HasChecksum(c.header)
    requires d.header[56..60] == c.header[56..60] && |d.payload| == |c.payload| && d != c
    requires Crc32.SameOutsideWindow(Covered(c), Covered(d), start)
    ensures IsValid(d) <==> !HasChecksum(d.header) && PlausibleHeader(d.header)
  {
    hide Crc32.SameOutsideWindow, Crc32.Crc, FromBits, Decode;
    if Covered(c) == Covered(d) {
      SameCovered(c, d);
    }
    Crc32.BurstDetected(Covered(c), Covered(d), start);
    if Checksum(c) == Checksum(d) {
      ChecksumInjective(c, d);
    }
  }

  lemma SameCovered(c: Content, d: Content)
    requires d.header[56..60] == c.header[56..60] && |d.payload| == |c.payload|
    requires Covered(c) == Covered(d)
    ensures c == d
  {
    var u := Covered(c);
    var v := Covered(d);
    assert c.header == u[..56] + c.header[56..60] + u[60..64];
    assert d.header == v[..56] + d.header[56..60] + v[60..64];
    assert c.payload == u[64..] && d.payload == v[64..];
  }

  /** A checksum field that no longer matches is always noticed while the flag is set. */
  lemma {:induction false} AlteredChecksumRejected(c: Content, d: Content)
    requires IsValid(c) && HasChecksum(c.header)
    requires d.header != c.header && ClearChecksum(d.header) == ClearChecksum(c.header) && d.payload == c.payload
    ensures !IsValid(d)
  {
    hide Crc32.Crc, Decode;
    var z := ClearChecksum(c.header);
    assert c.header[47..48] == z[47..48] && d.header[47..48] == ClearChecksum(d.header)[47..48];
    if Decode(c.header[56..60]) == Decode(d.header[56..60]) {
      DecodeInjective(c.header[56..60], d.header[56..60]);
      SameCovered(c, d);
    }
  }

  lemma ChecksumFieldMatches(d: Content)
    ensures Parse(d.header).checksum == Checksum(d) <==> ToBits(Parse(d.header).checksum, 32) == Crc32.Crc(Covered(d))
  {
    hide Crc32.Crc, ToBits, FromBits, Parse;
    var field := Parse(d.header).checksum;
    var crc := Crc32.Crc(Covered(d));
    ToBitsFromBits(crc);
    ChecksumFits(d.header);
    FromBitsToBits(field, 32);
  }

  lemma ChecksumFits(h: Header)
    ensures Parse(h).checksum < Pow2(32)
  {
    DecodeBound(h[56..60]);
    PowersOf256();
    assert Pow2(8) == 0x100 && Pow2(16) == 0x1_0000 && Pow2(24) == 0x100_0000;
  }

  /**
   Which messages validate() accepts, in bytes: "SEKR", a version from 1 to 100, a length of at most
   4160 and, with the lowest flag set, the checksum of everything else.
   */
  lemma {:induction false} ValidIff(c: Content)
    ensures var h := c.header;
            IsValid(c)
            <==> h[0..4] == [0x53, 0x45, 0x4B, 0x52] && 1 <= Two(h, 4) <= 100 && Four(h, 40) <= 4160
                 && (h[47] % 2 == 1
                     ==> ToBits(Four(h, 56), 32) == Crc32.Crc(h[..56] + [0, 0, 0, 0] + h[60..] + c.payload))
  {
    hide Crc32.Crc, ToBits, Parse, Two, Four, Eight, Checksum;
    HeaderOffsets(c.header);
    ChecksumFieldMatches(c);
  }

  // ----- any error at all -----

  lemma XorCancels(x: Crc32.Word, y: Crc32.Word, z: Crc32.Word)
    ensures Crc32.Xor(x, y) == Crc32.Xor(x, z) <==> y == z
  {
    if Crc32.Xor(x, y) == Crc32.Xor(x, z) {
      forall i | 0 <= i < 32
        ensures y[i] == z[i]
      {
        assert Crc32.Xor(x, y)[i] == Crc32.Xor(x, z)[i];
      }
    }
  }

  /** How two contents of one length differ in the bits the checksum covers, and in the checksum field. */
  function ErrorPattern(c: Content, d: Content): seq<bool>
    requires |c.payload| == |d.payload|
  {
    Crc32.Xor(Crc32.Bits(Covered(c)), Crc32.Bits(Covered(d)))
  }

  function FieldPattern(c: Content, d: Content): Crc32.Word {
    Crc32.Xor(ToBits(Parse(c.header).checksum, 32), ToBits(Parse(d.header).checksum, 32))
  }

  /**
   Every error that keeps the length, wherever it falls: it passes exactly when the header stays
   plausible and, with the flag still set, the covered bits' error runs to that of the checksum field.
   */
  lemma {:induction false} ErrorPassesIff(c: Content, d: Content)
    requires IsValid(c) && HasChecksum(c.header) && |d.payload| == |c.payload|
    ensures IsValid(d)
            <==> PlausibleHeader(d.header)
                 && (HasChecksum(d.header) ==> Crc32.BitRun(Crc32.Zeros(32), ErrorPattern(c, d)) == FieldPattern(c, d))
  {
    hide Crc32.Crc, Crc32.BitRun, Crc32.Bits, Crc32.Xor, ToBits, FromBits, Covered, HasChecksum, PlausibleHeader,
      Parse, Checksum;
    ChecksumFieldMatches(c);
    ChecksumFieldMatches(d);
    Crc32.PatternDifference(Covered(c), Covered(d));
    XorCancels(Crc32.Crc(Covered(c)), Crc32.Crc(Covered(d)), ToBits(Parse(d.header).checksum, 32));
  }

  lemma ByteWindow(u: seq<byte>, v: seq<byte>, k: nat)
    requires |u| == |v| && k + 4 <= |u|
    requires u[..k] == v[..k] && u[k + 4..] == v[k + 4..]
    ensures Crc32.SameOutsideWindow(u, v, 8 * k)
  {
    hide ToBits, Crc32.Bits;
    assert u == u[..k] + u[k..k + 4] + u[k + 4..];
    assert v == v[..k] + v[k..k + 4] + v[k + 4..];
    Crc32.BitsConcat(u[..k] + u[k..k + 4], u[k + 4..]);
    Crc32.BitsConcat(u[..k], u[k..k + 4]);
    Crc32.BitsConcat(v[..k] + v[k..k + 4], v[k + 4..]);
    Crc32.BitsConcat(v[..k], v[k..k + 4]);
  }

  // ----- receiving -----

  function Min(a: nat, b: nat): nat {
    if a < b then a else b
  }

  /** The header after copying the front of `data` over `h`. */
  function Overlay(h: Header, data: seq<byte>): Header {
    var n := Min(|data|, HEADER_SIZE);
    data[..n] + h[n..]
  }

  function PayloadOf(data: seq<byte>): (payload: seq<byte>)
    ensures |payload| <= MAX_PAYLOAD_SIZE
  {
    if |data| > HEADER_SIZE then data[HEADER_SIZE..HEADER_SIZE + Min(|data| - HEADER_SIZE, MAX_PAYLOAD_SIZE)] else []
  }

  /** What a freshly reset buffer holds after copyFromAeron; a function of the fragment alone. */
  function FromAeron(data: seq<byte>): Content {
    Content(Overlay(BLANK, data), PayloadOf(data))
  }

  /** The receive stamp, at byte 32 of the header. */
  function Stamped(c: Content, time: nat): (stamped: Content)
    ensures stamped.payload == c.payload
  {
    c.(header := c.header[..32] + Encode(time, 8) + c.header[40..])
  }

  /** A fragment as the fast path leaves it in a buffer: copied into a reset buffer, then stamped. */
  function AsReceived(data: seq<byte>, now: nat): Content {
    Stamped(FromAeron(data), now)
  }

  /**
   The buffer carries the fragment: its payload is what follows the first 64 bytes, cut at 4096, and its
   header the first 64, with zeros where there are fewer, except that bytes 32 to 39 are the clock reading.
   */
  ghost predicate Carries(c: Content, data: seq<byte>, now: nat) {
    && c.payload == (if |data| <= 64 then [] else if |data| <= 4160 then data[64..] else data[64..4160])
    && (forall i | 0 <= i < 32 || 40 <= i < 64 :: c.header[i] == if i < |data| then data[i] else 0)
    && Eight(c.header, 32) == now % 0x1_0000_0000_0000_0000
  }

  /** It carries the fragment exactly when it is what the fast path leaves. */
  lemma {:induction false} CarriesIff(c: Content, data: seq<byte>, now: nat)
    ensures Carries(c, data, now) <==> c == AsReceived(data, now)
  {
    hide Encode, Eight;
    var d := AsReceived(data, now);
    StampBytes(FromAeron(data), now);
    assert Carries(d, data, now);
    if Carries(c, data, now) {
      LongFieldAt(c.header, 32);
      LongFieldAt(d.header, 32);
      DecodeInjective(c.header[32..40], d.header[32..40]);
      forall i | 0 <= i < 64
        ensures c.header[i] == d.header[i]
      {
        if 32 <= i < 40 {
          assert c.header[i] == c.header[32..40][i - 32] && d.header[i] == d.header[32..40][i - 32];
        }
      }
    }
  }

  lemma StampBytes(c: Content, time: nat)
    ensures Eight(Stamped(c, time).header, 32) == time % 0x1_0000_0000_0000_0000
  {
    hide Encode, Eight, Decode;
    var h := Stamped(c, time).header;
    LongFieldAt(h, 32);
    assert h[32..40] == Encode(time, 8);
    PowersOf256();
    LowBytes(time, 8, 8);
    assert Encode(time, 8)[..8] == Encode(time, 8);
    DecodeEncode(time % TWO_TO_64, 8);
  }

  /** The message number as the subscriber reads it: the header's uint64 taken as int64. */
  function NumberIn(h: Header): int64 {
    DecodeBound(h[8..16]);
    PowersOf256();
    ToSigned(Parse(h).sequenceNumber)
  }

  function MessageNumber(c: Content): int64 {
    NumberIn(c.header)
  }

  /** It is bytes 8 to 15 as a two's-complement integer. */
  lemma NumberBytes(c: Content)
    ensures MessageNumber(c) == Signed(c.header, 8)
  {
    hide Eight;
    LongFieldAt(c.header, 8);
  }

  lemma StampKeepsRest(c: Content, time: nat)
    requires time < TWO_TO_64
    ensures Parse(Stamped(c, time).header) == Parse(c.header).(recvTime := time)
  {
    hide Encode, Decode;
    PowersOf256();
    DecodeEncode(time, 8);
    var h := c.header;
    var s := Stamped(c, time).header;
    assert s[0..4] == h[0..4] && s[4..6] == h[4..6] && s[6..8] == h[6..8] && s[8..16] == h[8..16];
    assert s[16..24] == h[16..24] && s[24..32] == h[24..32] && s[32..40] == Encode(time, 8) && s[40..44] == h[40..44];
    assert s[44..46] == h[44..46] && s[46..47] == h[46..47] && s[47..48] == h[47..48] && s[48..56] == h[48..56];
    assert s[56..60] == h[56..60] && s[60..64] == h[60..64];
  }

  lemma CoveredStamp(c: Content, time: nat)
    ensures Covered(Stamped(c, time))
            == c.header[..32] + Encode(time, 8) + (c.header[40..56] + [0, 0, 0, 0] + c.header[60..] + c.payload)
  {
    hide Encode;
    var h := Stamped(c, time).header;
    assert h[..56] == c.header[..32] + Encode(time, 8) + c.header[40..56] && h[60..] == c.header[60..];
  }

  /** Stamps with the same high half differ in four bytes. */
  lemma StampWindow(c: Content, s: nat, t: nat)
    requires s / 0x1_0000_0000 == t / 0x1_0000_0000
    ensures Crc32.SameOutsideWindow(Covered(Stamped(c, s)), Covered(Stamped(c, t)), 8 * 32)
  {
    hide Crc32.SameOutsideWindow, Covered, Stamped, Encode;
    var front := c.header[..32];
    var tail := c.header[40..56] + [0, 0, 0, 0] + c.header[60..] + c.payload;
    var u, v := Encode(s, 8), Encode(t, 8);
    CoveredStamp(c, s);
    CoveredStamp(c, t);
    HighHalf(s);
    HighHalf(t);
    assert front + u + tail == front + u[..4] + (u[4..] + tail);
    assert front + v + tail == front + v[..4] + (v[4..] + tail);
    ByteWindow(front + u[..4] + (u[4..] + tail), front + v[..4] + (v[4..] + tail), 32);
  }

  /**
   The checksum covers the receive stamp, so stamping spoils it: of all stamps that share their high
   32 bits at most one can leave a checksummed message valid.
   */
  lemma {:induction false} StampsCannotBothValidate(c: Content, s: nat, t: nat)
    requires HasChecksum(c.header)
    requires s < TWO_TO_64 && t < TWO_TO_64 && s != t && s / 0x1_0000_0000 == t / 0x1_0000_0000
    ensures !(IsValid(Stamped(c, s)) && IsValid(Stamped(c, t)))
  {
    hide Crc32.SameOutsideWindow, Parse, Encode, IsValid, Covered;
    StampKeepsRest(c, s);
    StampKeepsRest(c, t);
    StampWindow(c, s, t);
    BurstRejectedIfStamped(Stamped(c, s), Stamped(c, t));
  }

  /** How two stamps differ, bit for bit. */
  function StampPattern(s: nat, t: nat): (pattern: seq<bool>)
    ensures |pattern| == 64
  {
    Crc32.Xor(Crc32.Bits(Encode(s, 8)), Crc32.Bits(Encode(t, 8)))
  }

  lemma SameBits(bits: seq<bool>)
    ensures Crc32.Xor(bits, bits) == Crc32.Zeros(|bits|)
  {
  }

  lemma XorThree(a: seq<bool>, b: seq<bool>, c: seq<bool>, d: seq<bool>)
    requires |b| == |c|
    ensures Crc32.Xor(a + b + d, a + c + d) == Crc32.Zeros(|a|) + Crc32.Xor(b, c) + Crc32.Zeros(|d|)
  {
  }

  lemma StampErrorPattern(c: Content, s: nat, t: nat)
    ensures exists after: nat :: ErrorPattern(Stamped(c, s), Stamped(c, t)) == Crc32.Zeros(256) + StampPattern(s, t) + Crc32.Zeros(after)
  {
    hide Crc32.Bits, Crc32.Zeros, Crc32.Xor, Encode, Covered, Stamped;
    var front := c.header[..32];
    var tail := c.header[40..56] + [0, 0, 0, 0] + c.header[60..] + c.payload;
    CoveredStamp(c, s);
    CoveredStamp(c, t);
    SplitBits(front, Encode(s, 8), tail);
    SplitBits(front, Encode(t, 8), tail);
    XorThree(Crc32.Bits(front), Crc32.Bits(Encode(s, 8)), Crc32.Bits(Encode(t, 8)), Crc32.Bits(tail));
  }

  lemma SplitBits(a: seq<byte>, b: seq<byte>, c: seq<byte>)
    ensures Crc32.Bits(a + b + c) == Crc32.Bits(a) + Crc32.Bits(b) + Crc32.Bits(c)
  {
    Crc32.BitsConcat(a + b, c);
    Crc32.BitsConcat(a, b);
  }

  /** A content is stamped with its own receive time already. */
  lemma OwnStamp(c: Content)
    ensures Parse(c.header).recvTime < TWO_TO_64 && Stamped(c, Parse(c.header).recvTime) == c
  {
    hide Encode, Decode;
    Slice(c.header, 32, 40);
    PowersOf256();
  }

  /**
   When a valid checksummed message is still valid after its stamp is overwritten: exactly when the
   high half of the two stamps' difference is the one remainder that the low half leaves.
   */
  lemma {:induction false} StampedValidIff(c: Content, t: nat)
    requires IsValid(c) && HasChecksum(c.header) && t < TWO_TO_64
    ensures var pattern := StampPattern(Parse(c.header).recvTime, t);
            IsValid(Stamped(c, t)) <==> pattern[32..] == Crc32.BitRun(Crc32.Zeros(32), pattern[..32])
  {
    hide Crc32.BitRun, Crc32.Zeros, IsValid, Parse, Stamped, StampPattern, ErrorPattern;
    var s := Parse(c.header).recvTime;
    var d := Stamped(c, t);
    var pattern := StampPattern(s, t);
    StampKeepsRest(c, t);
    OwnStamp(c);
    StampErrorPattern(c, s, t);
    var after: nat :| ErrorPattern(c, d) == Crc32.Zeros(256) + pattern + Crc32.Zeros(after);
    Crc32.PaddedPattern(256, pattern, after);
    Crc32.PairDivisibleIff(pattern[..32], pattern[32..]);
    assert pattern[..32] + pattern[32..] == pattern;
    PlausibleWhenStamped(c, t);
    ErrorPassesIff(c, d);
    SameBits(ToBits(Parse(c.header).checksum, 32));
  }

  lemma PlausibleWhenStamped(c: Content, t: nat)
    requires IsValid(c) && HasChecksum(c.header) && t < TWO_TO_64
    ensures PlausibleHeader(Stamped(c, t).header) && HasChecksum(Stamped(c, t).header)
    ensures FieldPattern(c, Stamped(c, t)) == Crc32.Xor(ToBits(Parse(c.header).checksum, 32), ToBits(Parse(c.header).checksum, 32))
  {
    hide Parse, Stamped, Checksum, ToBits, Crc32.Xor;
    StampKeepsRest(c, t);
  }

  lemma BurstRejectedIfStamped(a: Content, b: Content)
    requires HasChecksum(a.header) && HasChecksum(b.header) && a != b
    requires a.header[56..60] == b.header[56..60] && |a.payload| == |b.payload|
    requires Crc32.SameOutsideWindow(Covered(a), Covered(b), 8 * 32)
    ensures !(IsValid(a) && IsValid(b))
  {
    hide Crc32.SameOutsideWindow, IsValid, HasChecksum, Covered;
    if IsValid(a) {
      BurstRejected(a, b, 8 * 32);
    }
  }

  lemma DropByte(x: nat, width: nat)
    requires width > 0
    ensures Encode(x, width)[1..] == Encode(x / 0x100, width - 1)
  {
  }

  lemma HighHalf(x: nat)
    ensures Encode(x, 8)[4..] == Encode(x / 0x1_0000_0000, 4)
  {
    hide Encode;
    var y := x / 0x100;
    var z := y / 0x100;
    DropByte(x, 8);
    DropByte(y, 7);
    DropByte(z, 6);
    DropByte(z / 0x100, 5);
    assert z / 0x100 / 0x100 == x / 0x1_0000_0000;
    var bytes := Encode(x, 8);
    assert bytes[4..] == bytes[1..][1..][1..][1..];
  }

  // ----- sending -----

  /** The header the publisher stamps before the checksum is filled in. */
  function Unsigned(sequence: nat, eventTime: nat, publishTime: nat, payloadLength: nat): Fields {
    Fields(MAGIC, 1, MSG_TEST, sequence, eventTime, publishTime, 0,
           HEADER_SIZE + payloadLength, 1, 128, FLAG_CHECKSUM_ENABLED, 1, 0, 0)
  }

  function Frame(sequence: nat, eventTime: nat, publishTime: nat, payload: seq<byte>): seq<byte> {
    var f := Unsigned(sequence, eventTime, publishTime, |payload|);
    Layout(f.(checksum := Checksum(Content(Layout(f), payload)))) + payload
  }

  lemma ChecksumBound(c: Content)
    ensures Checksum(c) < 0x1_0000_0000
  {
    hide FromBits, Crc32.Crc;
    FromBitsBound(Crc32.Crc(Covered(c)));
    assert Pow2(8) == 0x100 && Pow2(16) == 0x1_0000 && Pow2(24) == 0x100_0000 && Pow2(32) == 0x1_0000_0000;
  }

  lemma ChecksumFieldUncovered(f: Fields, sum: nat)
    requires |f.magic| == 4
    ensures ClearChecksum(Layout(f.(checksum := sum))) == ClearChecksum(Layout(f))
  {
    hide Encode;
    var h := Layout(f.(checksum := sum));
    assert h[..56] == Layout(f)[..56] && h[60..] == Layout(f)[60..];
  }

  /**
   The frame round trip: what the publisher stamps arrives byte for byte, with every field readable,
   and validates until it is stamped with its receive time.
   */
  lemma {:induction false} FrameRoundTrip(sequence: nat, eventTime: nat, publishTime: nat, payload: seq<byte>)
    requires sequence < TWO_TO_64 && eventTime < TWO_TO_64 && publishTime < TWO_TO_64
    requires |payload| <= MAX_PAYLOAD_SIZE
    ensures var frame := Frame(sequence, eventTime, publishTime, payload);
            var c := FromAeron(frame);
            && c.header + c.payload == frame
            && c.payload == payload
            && IsValid(c)
            && HasChecksum(c.header)
            && Parse(c.header) == Unsigned(sequence, eventTime, publishTime, |payload|).(checksum := Checksum(c))
            && HEADER_SIZE + |c.payload| == |frame| == Parse(c.header).messageLength
  {
    hide Crc32.Crc, FromBits, Parse, Layout;
    var f := Unsigned(sequence, eventTime, publishTime, |payload|);
    var sum := Checksum(Content(Layout(f), payload));
    var g := f.(checksum := sum);
    ChecksumBound(Content(Layout(f), payload));
    ChecksumFieldUncovered(f, sum);
    ParseLayout(g);
    var frame := Frame(sequence, eventTime, publishTime, payload);
    assert frame == Layout(g) + payload;
    var c := FromAeron(frame);
    assert c.header == Layout(g) && c.payload == payload;
  }

  /** The fields of a frame, each in its own bytes. */
  lemma {:induction false} FrameFields(sequence: nat, eventTime: nat, publishTime: nat, payload: seq<byte>)
    requires sequence < TWO_TO_64 && eventTime < TWO_TO_64 && publishTime < TWO_TO_64
    requires |payload| <= MAX_PAYLOAD_SIZE
    ensures var frame := Frame(sequence, eventTime, publishTime, payload);
            |frame| == 64 + |payload| && frame[64..] == payload
            && var h: Header := frame[..64];
               && h[0..4] == [0x53, 0x45, 0x4B, 0x52] && Two(h, 4) == 1 && Two(h, 6) == 99
               && Eight(h, 8) == sequence && Eight(h, 16) == eventTime && Eight(h, 24) == publishTime && Eight(h, 32) == 0
               && Four(h, 40) == 64 + |payload| && Two(h, 44) == 1 && h[46] == 128 && h[47] == 1 && Eight(h, 48) == 1
               && ToBits(Four(h, 56), 32) == Crc32.Crc(h[..56] + [0, 0, 0, 0] + h[60..] + payload) && Four(h, 60) == 0
  {
    hide Crc32.Crc, ToBits, Parse, Frame, IsValid, Checksum, Two, Four, Eight;
    FrameRoundTrip(sequence, eventTime, publishTime, payload);
    var frame := Frame(sequence, eventTime, publishTime, payload);
    var c := FromAeron(frame);
    assert frame[..64] == c.header && frame[64..] == payload;
    HeaderOffsets(c.header);
    ChecksumFieldMatches(c);
  }

  /** The subscriber reads the number the publisher stamped. */
  lemma FrameNumber(sequence: nat, eventTime: nat, publishTime: nat, payload: seq<byte>)
    requires sequence < TWO_TO_64 && eventTime < TWO_TO_64 && publishTime < TWO_TO_64
    requires |payload| <= MAX_PAYLOAD_SIZE
    ensures MessageNumber(FromAeron(Frame(sequence, eventTime, publishTime, payload))) == ToSigned(sequence)
  {
    hide Frame, Parse, IsValid, FromAeron, HasChecksum, Checksum;
    FrameRoundTrip(sequence, eventTime, publishTime, payload);
  }

  // ----- what spoils a frame, and what does not -----

  lemma {:induction false} ZeroByteBits(data: seq<byte>)
    requires forall i | 0 <= i < |data| :: data[i] == 0
    ensures Crc32.Bits(data) == Crc32.Zeros(8 * |data|)
  {
    if data != [] {
      ZeroByteBits(data[1..]);
      NoBits(8);
    }
  }

  lemma {:induction false} NoBits(n: nat)
    ensures ToBits(0, n) == Crc32.Zeros(n)
  {
    if n > 0 {
      NoBits(n - 1);
    }
  }

  lemma XorWithZeros(bits: seq<bool>)
    ensures Crc32.Xor(Crc32.Zeros(|bits|), bits) == bits
  {
  }

  lemma {:induction false} EncodeZero(width: nat)
    ensures Encode(0, width) == ZeroBytes(width)
  {
    if width > 0 {
      EncodeZero(width - 1);
    }
  }

  lemma {:induction false} SomeBit(data: seq<byte>)
    requires Crc32.Bits(data) == Crc32.Zeros(8 * |data|)
    ensures data == ZeroBytes(|data|)
  {
    ZeroByteBits(ZeroBytes(|data|));
    Crc32.BitsInjective(data, ZeroBytes(|data|));
  }

  /** A first stamp whose low half is zero: nothing in the high half can make up for it. */
  lemma {:induction false} HighStampPattern(t: nat)
    requires 0 < t < TWO_TO_64 && t % 0x1_0000_0000 == 0
    ensures var pattern := StampPattern(0, t);
            pattern[32..] != Crc32.BitRun(Crc32.Zeros(32), pattern[..32])
  {
    hide Crc32.BitRun, Crc32.Bits, Crc32.Zeros, Crc32.Xor, Encode;
    var low, high := Encode(t, 8)[..4], Encode(t, 8)[4..];
    LowHalf(t);
    EncodeZero(4);
    EncodeZero(8);
    HighHalf(t);
    assert Encode(t, 8) == low + high;
    Crc32.BitsConcat(low, high);
    ZeroByteBits(ZeroBytes(8));
    ZeroByteBits(low);
    XorWithZeros(Crc32.Bits(Encode(t, 8)));
    var pattern := StampPattern(0, t);
    assert pattern[..32] == Crc32.Bits(low) && pattern[32..] == Crc32.Bits(high);
    Crc32.ZerosRunToZero(32);
    if Crc32.Bits(high) == Crc32.Zeros(32) {
      SomeBit(high);
      PowersOf256();
      DecodeEncode(t / 0x1_0000_0000, 4);
      DecodeEncode(0, 4);
    }
  }

  lemma LowHalf(x: nat)
    ensures Encode(x, 8)[..4] == Encode(x % 0x1_0000_0000, 4)
  {
    LowBytes(x, 8, 4);
    assert Pow256(2) == 0x1_0000 && Pow256(3) == 0x100_0000 && Pow256(4) == 0x1_0000_0000;
  }

  lemma {:induction false} LowBytes(x: nat, width: nat, n: nat)
    requires n <= width
    ensures Encode(x, width)[..n] == Encode(x % Pow256(n), n)
    decreases n
  {
    if n > 0 {
      LowBytes(x / 0x100, width - 1, n - 1);
      var p := Pow256(n - 1);
      SplitModulo(x, p);
      assert Encode(x, width)[..n] == [x % 0x100] + Encode(x / 0x100, width - 1)[..n - 1];
    }
  }

  lemma SplitModulo(x: nat, p: nat)
    requires p > 0
    ensures x % (0x100 * p) % 0x100 == x % 0x100 && x % (0x100 * p) / 0x100 == x / 0x100 % p
  {
    var q := x / 0x100 / p;
    var r := x / 0x100 % p;
    assert x / 0x100 == q * p + r;
    assert 0x100 * (q * p) == q * (0x100 * p);
    ModuloUnique(x, 0x100 * p, q, 0x100 * r + x % 0x100);
  }

  /** A clock reading in nanoseconds, of July 2022. */
  const CLOCK: nat := 0x1700_0000_0000_0000

  /** No frame the publisher sends validates once it bears that reading as its receive stamp. */
  lemma {:induction false} StampSpoilsFrame(sequence: nat, eventTime: nat, publishTime: nat, payload: seq<byte>)
    requires sequence < TWO_TO_64 && eventTime < TWO_TO_64 && publishTime < TWO_TO_64
    requires |payload| <= MAX_PAYLOAD_SIZE
    ensures !IsValid(Stamped(FromAeron(Frame(sequence, eventTime, publishTime, payload)), CLOCK))
  {
    hide Crc32.BitRun, Frame, Parse, IsValid, FromAeron, Stamped, StampPattern, Crc32.Zeros;
    FrameRoundTrip(sequence, eventTime, publishTime, payload);
    HighStampPattern(CLOCK);
    StampedValidIff(FromAeron(Frame(sequence, eventTime, publishTime, payload)), CLOCK);
  }

  /** A content with the lowest bit of its flags cleared. */
  function FlagCleared(c: Content): Content {
    c.(header := c.header[47 := c.header[47] / 2 * 2])
  }

  /** Clearing the checksum flag, one bit of one covered byte, leaves every frame valid. */
  lemma {:induction false} FlagBitUnnoticed(sequence: nat, eventTime: nat, publishTime: nat, payload: seq<byte>)
    requires sequence < TWO_TO_64 && eventTime < TWO_TO_64 && publishTime < TWO_TO_64
    requires |payload| <= MAX_PAYLOAD_SIZE
    ensures var c := FromAeron(Frame(sequence, eventTime, publishTime, payload));
            var d := FlagCleared(c);
            d != c && IsValid(c) && IsValid(d) && c.header[47] == 1 && d.header[47] == 0
  {
    hide Frame, Parse, FromAeron, Checksum;
    FrameRoundTrip(sequence, eventTime, publishTime, payload);
    FlagByte(FromAeron(Frame(sequence, eventTime, publishTime, payload)).header);
  }

  lemma FlagByte(h: Header)
    ensures Parse(h).flags == h[47]
    ensures var g := h[47 := h[47] / 2 * 2];
            Parse(g) == Parse(h).(flags := h[47] / 2 * 2)
  {
    hide Encode;
    var g: Header := h[47 := h[47] / 2 * 2];
    assert g[0..4] == h[0..4] && g[4..6] == h[4..6] && g[6..8] == h[6..8] && g[8..16] == h[8..16];
    assert g[16..24] == h[16..24] && g[24..32] == h[24..32] && g[32..40] == h[32..40] && g[40..44] == h[40..44];
    assert g[44..46] == h[44..46] && g[46..47] == h[46..47] && g[48..56] == h[48..56];
    assert g[56..60] == h[56..60] && g[60..64] == h[60..64];
    OneByte(h[47..48]);
    OneByte(g[47..48]);
  }

  lemma OneByte(bytes: seq<byte>)
    requires |bytes| == 1
    ensures Decode(bytes) == bytes[0]
  {
    assert Decode(bytes[1..]) == 0;
  }

  // ----- the buffer -----

  class MessageBuffer {
    var header: Header
    const payload: array<byte>
    var inUse: bool
    var actualPayloadLength: nat
    var workerDequeueTimeNs: int

    ghost predicate Valid()
      reads this`actualPayloadLength
    {
      payload.Length == MAX_PAYLOAD_SIZE && actualPayloadLength <= MAX_PAYLOAD_SIZE
    }

    ghost function Contents(): (c: Content)
      requires Valid()
      reads this`header, this`actualPayloadLength, payload
    {
      Content(header, payload[..actualPayloadLength])
    }

    constructor ()
      ensures Valid() && fresh(payload)
      ensures Contents() == Content(BLANK, []) && !inUse && workerDequeueTimeNs == 0
    {
      payload := new byte[MAX_PAYLOAD_SIZE];
      header := BLANK;
      inUse := false;
      actualPayloadLength := 0;
      workerDequeueTimeNs := 0;
    }

    /** in_use is left to the pool; the payload bytes are left as they are. */
    method Reset()
      requires Valid()
      modifies this
      ensures Valid() && Contents() == Content(BLANK, [])
      ensures inUse == old(inUse) && workerDequeueTimeNs == 0
    {
      header := BLANK;
      actualPayloadLength := 0;
      workerDequeueTimeNs := 0;
    }

    method CopyFromAeron(data: seq<byte>)
      requires Valid()
      modifies this, payload
      ensures Valid() && Contents() == Content(Overlay(old(header), data), PayloadOf(data))
      ensures forall i | 0 <= i < 64 :: header[i] == if i < |data| then data[i] else old(header)[i]
      ensures Contents().payload == if |data| <= 64 then [] else if |data| <= 4160 then data[64..] else data[64..4160]
      ensures old(header) == BLANK ==> Contents() == FromAeron(data)
      ensures inUse == old(inUse) && workerDequeueTimeNs == old(workerDequeueTimeNs)
    {
      var headerSize := Min(|data|, HEADER_SIZE);
      header := data[..headerSize] + header[headerSize..];
      if |data| > HEADER_SIZE {
        var payloadSize := Min(|data| - HEADER_SIZE, MAX_PAYLOAD_SIZE);
        forall i | 0 <= i < payloadSize {
          payload[i] := data[HEADER_SIZE + i];
        }
        actualPayloadLength := payloadSize;
        assert payload[..payloadSize] == PayloadOf(data);
      } else {
        actualPayloadLength := 0;
      }
    }

    /** The subscriber's receive stamp, written over the copied header. */
    method StampReceiveTime(time: nat)
      requires Valid()
      modifies this
      ensures Valid() && Contents() == Stamped(old(Contents()), time)
      ensures inUse == old(inUse) && workerDequeueTimeNs == old(workerDequeueTimeNs)
    {
      header := header[..32] + Encode(time, 8) + header[40..];
    }

    method WireSize() returns (size: nat)
      requires Valid()
      ensures size == HEADER_SIZE + |Contents().payload|
    {
      size := HEADER_SIZE + actualPayloadLength;
    }

    method Validate(table: seq<Crc32.Word>) returns (ok: bool)
      requires Valid() && Crc32.IsTable(table)
      ensures ok == IsValid(Contents())
    {
      var f := Parse(header);
      if f.magic != MAGIC {
        return false;
      }
      if f.version == 0 || f.version > 100 {
        return false;
      }
      if f.messageLength > HEADER_SIZE + MAX_PAYLOAD_SIZE {
        return false;
      }
      if f.flags % 2 == 1 {
        var expected := CalculateMessageCrc32(table, header, payload[..actualPayloadLength]);
        if f.checksum != FromBits(expected) {
          return false;
        }
      }
      return true;
    }
  }

  /** Header with a zeroed checksum first, payload second, one running register. */
  method CalculateMessageCrc32(table: seq<Crc32.Word>, header: Header, payload: seq<byte>) returns (crc: Crc32.Word)
    requires Crc32.IsTable(table)
    ensures crc == Crc32.Crc(Covered(Content(header, payload)))
  {
    hide Crc32.BitRun, Crc32.Bits, Crc32.IsTable;
    var temp := ClearChecksum(header);
    crc := Crc32.Update(table, temp, Crc32.INITIAL);
    crc := Crc32.Update(table, payload, crc);
    Crc32.BitsConcat(temp, payload);
    Crc32.BitRunConcat(Crc32.INITIAL, Crc32.Bits(temp), Crc32.Bits(payload));
    crc := Crc32.Complement(crc);
  }
}
