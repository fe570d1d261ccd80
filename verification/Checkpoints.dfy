/**
 CheckpointManager.cpp: the checkpoint record, its file format, and the manager that updates it in
 memory, writes it behind a temporary file and loads it back.
 */
module Checkpoints {
  import opened Bytes
  import opened Wrappers

  const MAGIC: nat := 0x43484B50
  const VERSION: nat := 1
  const RECORD_SIZE: nat := 40

  datatype Record = Record(sequence: int64, position: int64, count: int64, timestamp: int64)

  const NO_RECORD: Record := Record(0, 0, 0, 0)

  function EncodeRecord(r: Record): (bytes: seq<byte>)
    ensures |bytes| == RECORD_SIZE
  {
    Encode(MAGIC, 4) + Encode(VERSION, 2) + Encode(0, 2)
    + Encode(FromSigned(r.sequence), 8) + Encode(FromSigned(r.position), 8)
    + Encode(FromSigned(r.count), 8) + Encode(FromSigned(r.timestamp), 8)
  }

  function SignedAt(bytes: seq<byte>, at: nat): int64
    requires at + 8 <= |bytes|
  {
    SignedRange(bytes[at..at + 8]);
    ToSigned(Decode(bytes[at..at + 8]))
  }

  lemma SignedRange(bytes: seq<byte>)
    requires |bytes| == 8
    ensures -TWO_TO_63 <= ToSigned(Decode(bytes)) < TWO_TO_63
  {
    DecodeBound(bytes);
    PowersOf256();
  }

  /** What a file's bytes mean; the padding and anything after the record are ignored. */
  function DecodeRecord(bytes: seq<byte>): Option<Record> {
    if |bytes| < RECORD_SIZE || Decode(bytes[0..4]) != MAGIC || Decode(bytes[4..6]) != VERSION then None
    else Some(Record(SignedAt(bytes, 8), SignedAt(bytes, 16), SignedAt(bytes, 24), SignedAt(bytes, 32)))
  }

  lemma SignedEncoded(bytes: seq<byte>, at: nat, v: int64)
    requires at + 8 <= |bytes| && bytes[at..at + 8] == Encode(FromSigned(v), 8)
    ensures SignedAt(bytes, at) == v
  {
    PowersOf256();
    DecodeEncode(FromSigned(v), 8);
  }

  /** A written record is read back, whatever follows it in the file. */
  lemma DecodeEncodeRecord(r: Record, rest: seq<byte>)
    ensures DecodeRecord(EncodeRecord(r) + rest) == Some(r)
  {
    hide Encode, Decode, SignedAt;
    var bytes := EncodeRecord(r) + rest;
    PowersOf256();
    DecodeEncode(MAGIC, 4);
    DecodeEncode(VERSION, 2);
    assert bytes[0..4] == Encode(MAGIC, 4) && bytes[4..6] == Encode(VERSION, 2);
    assert bytes[8..16] == Encode(FromSigned(r.sequence), 8) && bytes[16..24] == Encode(FromSigned(r.position), 8);
    assert bytes[24..32] == Encode(FromSigned(r.count), 8) && bytes[32..40] == Encode(FromSigned(r.timestamp), 8);
    SignedEncoded(bytes, 8, r.sequence);
    SignedEncoded(bytes, 16, r.position);
    SignedEncoded(bytes, 24, r.count);
    SignedEncoded(bytes, 32, r.timestamp);
  }

  lemma EncodedAt(bytes: seq<byte>, at: nat)
    requires at + 8 <= |bytes|
    ensures Encode(FromSigned(SignedAt(bytes, at)), 8) == bytes[at..at + 8]
  {
    var word := bytes[at..at + 8];
    DecodeBound(word);
    PowersOf256();
    EncodeDecode(word);
  }

  /** What load accepts is a record's encoding in every byte but the two of padding. */
  lemma EncodeDecodeRecord(bytes: seq<byte>)
    requires DecodeRecord(bytes).Some?
    ensures var image := EncodeRecord(DecodeRecord(bytes).value);
            bytes[..6] == image[..6] && bytes[8..RECORD_SIZE] == image[8..]
  {
    hide Encode, Decode, SignedAt, FromSigned;
    EncodeDecode(bytes[0..4]);
    EncodeDecode(bytes[4..6]);
    EncodedAt(bytes, 8);
    EncodedAt(bytes, 16);
    EncodedAt(bytes, 24);
    EncodedAt(bytes, 32);
    assert bytes[..6] == bytes[0..4] + bytes[4..6];
    assert bytes[8..40] == bytes[8..16] + bytes[16..24] + bytes[24..32] + bytes[32..40];
  }

  /** The image byte by byte: "PKHC", version 1, two zeros, then the four numbers, lowest byte first. */
  lemma RecordBytes(r: Record, i: nat)
    requires i < 8
    ensures var image := EncodeRecord(r);
            && |image| == 40 && image[..8] == [0x50, 0x4B, 0x48, 0x43, 1, 0, 0, 0]
            && image[8 + i] == r.sequence % 0x1_0000_0000_0000_0000 / Pow256(i) % 256
            && image[16 + i] == r.position % 0x1_0000_0000_0000_0000 / Pow256(i) % 256
            && image[24 + i] == r.count % 0x1_0000_0000_0000_0000 / Pow256(i) % 256
            && image[32 + i] == r.timestamp % 0x1_0000_0000_0000_0000 / Pow256(i) % 256
  {
    hide Encode, FromSigned;
    Preamble();
    SignedIsResidue(r.sequence);
    SignedIsResidue(r.position);
    SignedIsResidue(r.count);
    SignedIsResidue(r.timestamp);
    EncodedByte(FromSigned(r.sequence), 8, i);
    EncodedByte(FromSigned(r.position), 8, i);
    EncodedByte(FromSigned(r.count), 8, i);
    EncodedByte(FromSigned(r.timestamp), 8, i);
  }

  lemma Preamble()
    ensures Encode(MAGIC, 4) + Encode(VERSION, 2) + Encode(0, 2) == [0x50, 0x4B, 0x48, 0x43, 1, 0, 0, 0]
  {
    assert Encode(0x4348, 2) == [0x48, 0x43];
    assert Encode(0x43484B50, 4) == [0x50, 0x4B] + Encode(0x4348, 2);
    assert Encode(VERSION, 2) == [1, 0] && Encode(0, 2) == [0, 0];
  }

  /** A file is accepted exactly when it holds at least a record's bytes and opens with magic and version. */
  lemma AcceptedIff(bytes: seq<byte>)
    ensures DecodeRecord(bytes).Some? <==> |bytes| >= 40 && bytes[..6] == [0x50, 0x4B, 0x48, 0x43, 1, 0]
  {
    hide Encode, Decode, SignedAt;
    Preamble();
    var opening := Encode(MAGIC, 4) + Encode(VERSION, 2);
    assert (opening + Encode(0, 2))[..6] == opening;
    PowersOf256();
    DecodeEncode(MAGIC, 4);
    DecodeEncode(VERSION, 2);
    if |bytes| >= 40 {
      assert bytes[..6] == bytes[0..4] + bytes[4..6];
      if DecodeRecord(bytes).Some? {
        DecodeInjective(bytes[0..4], Encode(MAGIC, 4));
        DecodeInjective(bytes[4..6], Encode(VERSION, 2));
      }
      if bytes[..6] == opening {
        assert bytes[0..4] == opening[..4] && bytes[4..6] == opening[4..];
      }
    }
  }

  /** The checkpoint file and its temporary neighbour. */
  datatype Disk = Disk(main: Option<seq<byte>>, temp: Option<seq<byte>>)

  /** What a loader finds: nothing when there is no file or its contents are refused. */
  function Stored(disk: Disk): Option<Record> {
    if disk.main.None? then None else DecodeRecord(disk.main.value)
  }

  /** How the file system treats one flush: each operation may fail, a write after some bytes. */
  datatype Fate = NoOpen | ShortWrite(bytes: nat) | NoRename | Smooth

  class CheckpointManager {
    var lastSequence: int64
    var lastPosition: int64
    var messageCount: int64
    var timestamp: int64
    var disk: Disk
    var flushCount: nat
    var flushFailures: nat

    ghost function Memory(): Record
      reads this
    {
      Record(lastSequence, lastPosition, messageCount, timestamp)
    }

    /** `garbage` is what the uninitialised version holds when the file ends before it. */
    constructor (disk: Disk, garbage: nat)
      ensures this.disk == disk && flushCount == 0 && flushFailures == 0
      ensures Memory() == if Stored(disk).Some? then Stored(disk).value else NO_RECORD
    {
      lastSequence, lastPosition, messageCount, timestamp := 0, 0, 0, 0;
      this.disk := disk;
      flushCount, flushFailures := 0, 0;
      new;
      Load(garbage);
    }

    /** All four fields are replaced or none is. */
    method Load(garbage: nat)
      modifies this`lastSequence, this`lastPosition, this`messageCount, this`timestamp
      ensures Memory() == if Stored(disk).Some? then Stored(disk).value else old(Memory())
    {
      if disk.main.None? {
        return;
      }
      var bytes := disk.main.value;
      if |bytes| < 4 || Decode(bytes[0..4]) != MAGIC {
        return;
      }
      var version := if |bytes| >= 6 then Decode(bytes[4..6]) else garbage;
      if version != VERSION {
        return;
      }
      if |bytes| < RECORD_SIZE {
        return;
      }
      lastSequence := SignedAt(bytes, 8);
      lastPosition := SignedAt(bytes, 16);
      messageCount := SignedAt(bytes, 24);
      timestamp := SignedAt(bytes, 32);
    }

    method Update(sequence: int64, position: int64, count: int64, now: int64)
      modifies this`lastSequence, this`lastPosition, this`messageCount, this`timestamp
      ensures Memory() == Record(sequence, position, count, now)
    {
      lastSequence := sequence;
      lastPosition := position;
      messageCount := count;
      timestamp := now;
    }

    /** A flush replaces the whole file by the record in memory, or leaves the file as it was. */
    method Flush(fate: Fate)
      modifies this`disk, this`flushCount, this`flushFailures
      ensures var r := old(Memory());
              var idle := r.sequence == 0 && r.position == 0 && r.count == 0;
              && disk.main == (if !idle && fate == Smooth then Some(EncodeRecord(r)) else old(disk.main))
              && disk.temp == (if idle || fate == NoOpen then old(disk.temp)
                               else if fate == Smooth then None
                               else if fate.ShortWrite? && fate.bytes < RECORD_SIZE then Some(EncodeRecord(r)[..fate.bytes])
                               else Some(EncodeRecord(r)))
              && flushCount == old(flushCount) + (if !idle && fate == Smooth then 1 else 0)
              && flushFailures == old(flushFailures) + (if !idle && fate != Smooth then 1 else 0)
              && (!idle && fate == Smooth ==> Stored(disk) == Some(r))
    {
      var sequence, position, count, now := lastSequence, lastPosition, messageCount, timestamp;
      if sequence == 0 && position == 0 && count == 0 {
        return;
      }
      if fate == NoOpen {
        flushFailures := flushFailures + 1;
        return;
      }
      var image := EncodeRecord(Record(sequence, position, count, now));
      DecodeEncodeRecord(Record(sequence, position, count, now), []);
      assert image + [] == image;
      if fate.ShortWrite? {
        disk := disk.(temp := Some(image[..if fate.bytes < |image| then fate.bytes else |image|]));
        flushFailures := flushFailures + 1;
        return;
      }
      disk := disk.(temp := Some(image));
      if fate == NoRename {
        flushFailures := flushFailures + 1;
        return;
      }
      disk := Disk(disk.temp, None);
      flushCount := flushCount + 1;
    }
  }
}
