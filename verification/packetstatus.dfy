/**
 * `PacketStatus::from(PKTSTATUS)` of src/lowlevel/types/packet_status.rs:
 * seven flags, each read through the PKTSTATUS table and converted by
 * `BoolU8`, which panics on anything but 0 or 1.
 */
module PacketStatuses {
  import opened Wrappers
  import opened Traits
  import opened Layouts
  import BitField

  datatype PacketStatus = PacketStatus(
    crcOk: bool,
    carrierSense: bool,
    preambleQualityReached: bool,
    ccaChannelClear: bool,
    sofDelimiter: bool,
    gdo2: bool,
    gdo0: bool)

  /** `bool::from(BoolU8)`: `None` stands for the `panic!` on a value other than 0 or 1. */
  function BoolU8(v: Byte): (r: Option<bool>)
    ensures r.Some? <==> v <= 1
    ensures r == Some(true) <==> v == 1
  {
    if v == 0 then Some(false)
    else if v == 1 then Some(true)
    else None
  }

  /**
   * The seven accessor results, in field order: `crc_ok` at 7, `cs` at 6,
   * `pqt_reached` at 5, `cca` at 4, `sfd` at 3, `gdo2` at 2, `gdo0` at 0.
   */
  function Raw(b: Byte): seq<Byte> {
    [BitField.Read(b, Bit(7)), BitField.Read(b, Bit(6)), BitField.Read(b, Bit(5)),
     BitField.Read(b, Bit(4)), BitField.Read(b, Bit(3)), BitField.Read(b, Bit(2)),
     BitField.Read(b, Bit(0))]
  }

  /**
   * `PacketStatus::from` as written: every accessor uses the two-bit mask of
   * a bare offset, and the conversion fails as soon as one result is not 0
   * or 1.
   */
  function FromAsWritten(b: Byte): Option<PacketStatus> {
    var r := Raw(b);
    if BoolU8(r[0]).Some? && BoolU8(r[1]).Some? && BoolU8(r[2]).Some?
       && BoolU8(r[3]).Some? && BoolU8(r[4]).Some? && BoolU8(r[5]).Some?
       && BoolU8(r[6]).Some?
    then
      Some(PacketStatus(
        BoolU8(r[0]).value, BoolU8(r[1]).value, BoolU8(r[2]).value,
        BoolU8(r[3]).value, BoolU8(r[4]).value, BoolU8(r[5]).value,
        BoolU8(r[6]).value))
    else None
  }

  /** A bare-offset read at `n` is bits n and n + 1 of the byte. */
  lemma RawBits(b: Byte)
    ensures Raw(b) == [(b >> 7) & 3, (b >> 6) & 3, (b >> 5) & 3, (b >> 4) & 3,
                       (b >> 3) & 3, (b >> 2) & 3, b & 3]
  {
    BitField.ShrConst(b);
    assert BitField.Ones(2) == 3;
  }

  /**
   * The as-written conversion succeeds exactly on the bytes whose bits 7, 6,
   * 5, 4, 3 and 1 are all clear: a set bit n + 1 makes the read at n 2 or 3.
   */
  lemma AsWrittenAccepts(b: Byte)
    ensures FromAsWritten(b).Some? <==> b & 0xFA == 0
  {
    RawBits(b);
  }

  /**
   * When it succeeds, `crc_ok` is true iff bit 7 is set — which never
   * happens, and neither do carrier sense, preamble quality, channel clear
   * or start of frame: a packet with a good CRC makes the decode panic.
   */
  lemma AsWrittenOutcome(b: Byte)
    requires FromAsWritten(b).Some?
    ensures FromAsWritten(b).value.crcOk <==> b & 0x80 != 0
    ensures !FromAsWritten(b).value.crcOk && !FromAsWritten(b).value.carrierSense
    ensures !FromAsWritten(b).value.preambleQualityReached
    ensures !FromAsWritten(b).value.ccaChannelClear && !FromAsWritten(b).value.sofDelimiter
  {
    RawBits(b);
  }

  /** A concrete byte that panics: CRC good and nothing else set. */
  lemma CrcOkPanics()
    ensures FromAsWritten(0x80).None?
  {
    AsWrittenAccepts(0x80);
  }

  /** The bit a flag evidently stands for, set or clear. */
  predicate BitSet(b: Byte, p: FieldPos) {
    BitField.Read(b, Intended(p)) == 1
  }

  /** The evidently intended conversion: total, each flag exactly its own bit. */
  function Decode(b: Byte): PacketStatus {
    PacketStatus(
      b & 0x80 != 0, b & 0x40 != 0, b & 0x20 != 0, b & 0x10 != 0,
      b & 0x08 != 0, b & 0x04 != 0, b & 0x01 != 0)
  }

  // Each flag of `Decode` is what the accessor reads once its position is
  // taken as a single bit.

  lemma CrcOkBit(b: Byte)
    ensures Decode(b).crcOk <==> BitSet(b, Bit(7))
  {
    assert BitField.Ones(1) == 1;
    BitField.ShrConst(b);
    assert BitField.Read(b, Intended(Bit(7))) == (b >> 7) & 1;
  }

  lemma CsBit(b: Byte)
    ensures Decode(b).carrierSense <==> BitSet(b, Bit(6))
  {
    assert BitField.Ones(1) == 1;
    BitField.ShrConst(b);
    assert BitField.Read(b, Intended(Bit(6))) == (b >> 6) & 1;
  }

  lemma PqtReachedBit(b: Byte)
    ensures Decode(b).preambleQualityReached <==> BitSet(b, Bit(5))
  {
    assert BitField.Ones(1) == 1;
    BitField.ShrConst(b);
    assert BitField.Read(b, Intended(Bit(5))) == (b >> 5) & 1;
  }

  lemma CcaBit(b: Byte)
    ensures Decode(b).ccaChannelClear <==> BitSet(b, Bit(4))
  {
    assert BitField.Ones(1) == 1;
    BitField.ShrConst(b);
    assert BitField.Read(b, Intended(Bit(4))) == (b >> 4) & 1;
  }

  lemma SfdBit(b: Byte)
    ensures Decode(b).sofDelimiter <==> BitSet(b, Bit(3))
  {
    assert BitField.Ones(1) == 1;
    BitField.ShrConst(b);
    assert BitField.Read(b, Intended(Bit(3))) == (b >> 3) & 1;
  }

  lemma Gdo2Bit(b: Byte)
    ensures Decode(b).gdo2 <==> BitSet(b, Bit(2))
  {
    assert BitField.Ones(1) == 1;
    BitField.ShrConst(b);
    assert BitField.Read(b, Intended(Bit(2))) == (b >> 2) & 1;
  }

  lemma Gdo0Bit(b: Byte)
    ensures Decode(b).gdo0 <==> BitSet(b, Bit(0))
  {
    assert BitField.Ones(1) == 1;
    assert BitField.Read(b, Intended(Bit(0))) == b & 1;
  }

  /** `Decode` reads every flag at its intended single-bit position. */
  lemma DecodeReadsIntended(b: Byte)
    ensures Decode(b).crcOk <==> BitSet(b, Bit(7))
    ensures Decode(b).carrierSense <==> BitSet(b, Bit(6))
    ensures Decode(b).preambleQualityReached <==> BitSet(b, Bit(5))
    ensures Decode(b).ccaChannelClear <==> BitSet(b, Bit(4))
    ensures Decode(b).sofDelimiter <==> BitSet(b, Bit(3))
    ensures Decode(b).gdo2 <==> BitSet(b, Bit(2))
    ensures Decode(b).gdo0 <==> BitSet(b, Bit(0))
  {
    CrcOkBit(b);
    CsBit(b);
    PqtReachedBit(b);
    CcaBit(b);
    SfdBit(b);
    Gdo2Bit(b);
    Gdo0Bit(b);
  }

  /** The PKTSTATUS byte a packet status describes; bit 1 is not a flag and stays clear. */
  function Encode(p: PacketStatus): Byte {
    (if p.crcOk then 0x80 else 0) | (if p.carrierSense then 0x40 else 0)
    | (if p.preambleQualityReached then 0x20 else 0) | (if p.ccaChannelClear then 0x10 else 0)
    | (if p.sofDelimiter then 0x08 else 0) | (if p.gdo2 then 0x04 else 0)
    | (if p.gdo0 then 0x01 else 0)
  }

  /** Decoding an encoded status gives it back. */
  lemma DecodeEncode(p: PacketStatus)
    ensures Decode(Encode(p)) == p
  {
  }

  /** Encoding a decoded byte rebuilds it, except bit 1, which no flag owns. */
  lemma EncodeDecode(b: Byte)
    ensures Encode(Decode(b)) == b & 0xFD
  {
  }

  /** Where the as-written conversion succeeds it agrees with the intended one. */
  lemma AsWrittenAgrees(b: Byte)
    requires FromAsWritten(b).Some?
    ensures FromAsWritten(b).value == Decode(b)
  {
    RawBits(b);
  }
}
