/**
 * The packet-handling setters of src/lib.rs: `append_status_enable`,
 * `set_address_filter`, `set_packet_length` and `set_sync_mode`.  The
 * first three also keep the driver's shadow flags, which `read_data` and
 * `write_data` consult; each flag is updated before any SPI traffic, so it
 * changes even when the transfer then fails.
 */
module Setters {
  import opened Wrappers
  import opened LowLevel
  import opened Errors
  import opened RegisterViews
  import Packets
  import Configs
  import Encoders
  import BitField
  import Traits
  import Settings

  /** The driver after a setter: its shadow flags and the outcome of its SPI traffic. */
  datatype Configured = Configured(framing: Packets.Framing, run: Run<()>)

  /** The frame reading configuration register `c`. */
  function ConfigRead(c: Configs.Config): Frame {
    ReadFrame(Encoders.LegacyConfig(c))
  }

  /** The frame writing `b` to configuration register `c`. */
  function ConfigWrite(c: Configs.Config, b: Byte): Frame {
    WriteFrame(Encoders.LegacyConfig(c), b)
  }

  /** The byte the chip returns for a read of `c` issued after `tr`. */
  function ConfigReply(chip: Chip, tr: Trace, c: Configs.Config): Byte {
    ReadReply(chip, tr, Encoders.LegacyConfig(c))
  }

  /** What `C(r).modify().<field k>(x).bits()` makes of the byte `prev`. */
  function SetByte(c: Configs.Config, prev: Byte, k: nat, x: Byte): Byte
    requires HasField(c, k) && x <= BitField.Mask(FieldPosOf(c, k))
  {
    Bits(Set(Modify(Of(c, prev)), k, x))
  }

  /**
   * `modify_register(c, |r| C(r).modify().<field k>(x).bits())`: read the
   * register, then write back the byte with the field set; a failed read
   * writes nothing.
   */
  function SetField(chip: Chip, tr: Trace, c: Configs.Config, k: nat, x: Byte): (r: Run<()>)
    requires HasField(c, k) && x <= BitField.Mask(FieldPosOf(c, k))
    ensures chip.fault(tr, ConfigRead(c).mosi).Some? ==>
      r == Run(Failure(Spi(chip.fault(tr, ConfigRead(c).mosi).value)), tr + [ConfigRead(c)])
    ensures chip.fault(tr, ConfigRead(c).mosi).None? ==>
      r.trace == tr + [ConfigRead(c), ConfigWrite(c, SetByte(c, ConfigReply(chip, tr, c), k, x))]
      && (r.result.Success? <==> chip.fault(tr + [ConfigRead(c)], ConfigWrite(c, SetByte(c, ConfigReply(chip, tr, c), k, x)).mosi).None?)
  {
    Lift(ModifyRegister(chip, tr, Encoders.LegacyConfig(c), b => SetByte(c, b, k, x)))
  }

  /** A register write after an earlier step, skipped when that step failed. */
  function ThenWrite(chip: Chip, m: Run<()>, c: Configs.Config, b: Byte): (r: Run<()>)
    ensures m.result.Failure? ==> r == m
    ensures m.result.Success? ==> r.trace == m.trace + [ConfigWrite(c, b)]
    ensures m.result.Success? ==> (r.result.Success? <==> chip.fault(m.trace, ConfigWrite(c, b).mosi).None?)
  {
    match m.result
    case Failure(_) => m
    case Success(_) => Lift(WriteRegister(chip, m.trace, Encoders.LegacyConfig(c), b))
  }

  /** The reset values the setters fall back on. */
  lemma ResetBytes()
    ensures Configs.Reset(Configs.ADDR) == 0x00 && Configs.Reset(Configs.PKTLEN) == 0xFF
    ensures Configs.Reset(Configs.SYNC1) == 0xD3 && Configs.Reset(Configs.SYNC0) == 0x91
  {
  }

  /** The byte a field set writes back is the field write on the byte read. */
  lemma SetByteIsWrite(c: Configs.Config, prev: Byte, k: nat, x: Byte)
    requires HasField(c, k) && x <= BitField.Mask(FieldPosOf(c, k))
    ensures SetByte(c, prev, k, x) == BitField.Write(prev, FieldPosOf(c, k), x)
  {
  }

  /**
   * A field set followed by a register write, when it succeeds, issued the
   * read, the write-back and the write, in that order.
   */
  lemma SetFieldThenWrite(chip: Chip, tr: Trace, c: Configs.Config, k: nat, x: Byte, c2: Configs.Config, v: Byte)
    requires HasField(c, k) && x <= BitField.Mask(FieldPosOf(c, k))
    ensures var r := ThenWrite(chip, SetField(chip, tr, c, k, x), c2, v);
      r.result.Success? ==>
        r.trace == tr + [ConfigRead(c), ConfigWrite(c, SetByte(c, ConfigReply(chip, tr, c), k, x)), ConfigWrite(c2, v)]
  {
    var m := SetField(chip, tr, c, k, x);
    var r := ThenWrite(chip, m, c2, v);
    if r.result.Success? {
      assert m.result.Success?;
      ThreeFrames(tr, ConfigRead(c), ConfigWrite(c, SetByte(c, ConfigReply(chip, tr, c), k, x)), ConfigWrite(c2, v));
    }
  }

  /** A field set followed by two register writes, when it succeeds, issued all four frames. */
  lemma SetFieldThenTwoWrites(chip: Chip, tr: Trace, c: Configs.Config, k: nat, x: Byte,
                              c2: Configs.Config, v2: Byte, c3: Configs.Config, v3: Byte)
    requires HasField(c, k) && x <= BitField.Mask(FieldPosOf(c, k))
    ensures var r := ThenWrite(chip, ThenWrite(chip, SetField(chip, tr, c, k, x), c2, v2), c3, v3);
      r.result.Success? ==>
        r.trace == tr + [ConfigRead(c), ConfigWrite(c, SetByte(c, ConfigReply(chip, tr, c), k, x)),
                         ConfigWrite(c2, v2), ConfigWrite(c3, v3)]
  {
    var m := ThenWrite(chip, SetField(chip, tr, c, k, x), c2, v2);
    var r := ThenWrite(chip, m, c3, v3);
    if r.result.Success? {
      assert m.result.Success?;
      SetFieldThenWrite(chip, tr, c, k, x, c2, v2);
      FourFrames(tr, ConfigRead(c), ConfigWrite(c, SetByte(c, ConfigReply(chip, tr, c), k, x)), ConfigWrite(c2, v2), ConfigWrite(c3, v3));
    }
  }

  /** Two frames and then a third: the trace of a modify followed by a write. */
  lemma ThreeFrames(tr: Trace, a: Frame, b: Frame, c: Frame)
    ensures (tr + [a, b]) + [c] == tr + [a, b, c]
  {
  }

  /** Three frames and then a fourth. */
  lemma FourFrames(tr: Trace, a: Frame, b: Frame, c: Frame, d: Frame)
    ensures (tr + [a, b, c]) + [d] == tr + [a, b, c, d]
  {
  }

  // ---------------------------------------------------------------------
  // The bytes the setters write
  // ---------------------------------------------------------------------

  /**
   * A two-bit field at bits 0..1 (`adr_chk`, `length_config`): the written
   * byte holds the value in those bits and keeps bits 2..7.
   */
  lemma LowTwoBitsWrite(prev: Byte, x: Byte)
    requires x <= 3
    ensures BitField.Codable(Traits.Span(0, 1)) && BitField.Mask(Traits.Span(0, 1)) == 3
    ensures BitField.Write(prev, Traits.Span(0, 1), x) & 0x03 == x
    ensures BitField.Write(prev, Traits.Span(0, 1), x) & 0xFC == prev & 0xFC
  {
    assert BitField.Ones(2) == 3;
  }

  /**
   * A three-bit field at bits 0..2 (`sync_mode`): the written byte holds the
   * value in those bits and keeps bits 3..7.
   */
  lemma LowThreeBitsWrite(prev: Byte, x: Byte)
    requires x <= 7
    ensures BitField.Codable(Traits.Span(0, 2)) && BitField.Mask(Traits.Span(0, 2)) == 7
    ensures BitField.Write(prev, Traits.Span(0, 2), x) & 0x07 == x
    ensures BitField.Write(prev, Traits.Span(0, 2), x) & 0xF8 == prev & 0xF8
  {
    assert BitField.Ones(3) == 7;
  }

  /**
   * `append_status` at bare offset 2, as written two bits wide: writing 0
   * or 1 sets bit 2 to it, clears bit 3 (`crc_autoflush`) and keeps the
   * other bits.
   */
  lemma AppendStatusBitWrite(prev: Byte, x: Byte)
    requires x <= 1
    ensures BitField.Codable(Traits.Bit(2)) && BitField.Mask(Traits.Bit(2)) == 3
    ensures BitField.Write(prev, Traits.Bit(2), x) & 0x04 != 0 <==> x == 1
    ensures BitField.Write(prev, Traits.Bit(2), x) & 0x08 == 0
    ensures BitField.Write(prev, Traits.Bit(2), x) & 0xF3 == prev & 0xF3
  {
    assert BitField.Ones(2) == 3;
    assert BitField.Shl(3, 2) == 0x0C;
    if x == 0 {
      assert BitField.Shl(x & 3, 2) == 0;
    } else {
      assert x & 3 == 1;
      assert BitField.Shl(1, 1) == 2;
      assert BitField.Shl(1, 2) == 0x04;
    }
  }

  // ---------------------------------------------------------------------
  // append_status_enable
  // ---------------------------------------------------------------------

  /** `append_status_enable`: set the flag, then set `append_status` in PKTCTRL1. */
  function AppendStatusEnable(chip: Chip, tr: Trace, fr: Packets.Framing, enable: bool): (r: Configured)
    ensures r.framing.rxStatusFields == enable
    ensures r.framing.lengthField == fr.lengthField && r.framing.addressField == fr.addressField
  {
    Settings.PKTCTRL1Fields();
    Configured(fr.(rxStatusFields := enable), SetField(chip, tr, Configs.PKTCTRL1, 2, if enable then 1 else 0))
  }

  /**
   * On success `append_status_enable` read PKTCTRL1 and wrote it back with
   * bit 2 set exactly when the shadow flag now says status bytes are
   * appended; bit 3 (`crc_autoflush`) comes out clear, and bits 0, 1 and
   * 4..7 are as read.
   */
  lemma AppendStatusEnableWrites(chip: Chip, tr: Trace, fr: Packets.Framing, enable: bool)
    ensures var r := AppendStatusEnable(chip, tr, fr, enable);
      r.run.result.Success? ==>
        var prev := ConfigReply(chip, tr, Configs.PKTCTRL1);
        exists b: Byte {:trigger ConfigWrite(Configs.PKTCTRL1, b)} ::
          r.run.trace == tr + [ConfigRead(Configs.PKTCTRL1), ConfigWrite(Configs.PKTCTRL1, b)]
          && (b & 0x04 != 0 <==> r.framing.rxStatusFields)
          && b & 0x08 == 0
          && b & 0xF3 == prev & 0xF3
  {
    var r := AppendStatusEnable(chip, tr, fr, enable);
    if r.run.result.Success? {
      Settings.PKTCTRL1Fields();
      var prev := ConfigReply(chip, tr, Configs.PKTCTRL1);
      var x: Byte := if enable then 1 else 0;
      var b := SetByte(Configs.PKTCTRL1, prev, 2, x);
      assert b == BitField.Write(prev, Traits.Bit(2), x);
      AppendStatusBitWrite(prev, x);
      assert r.run.trace == tr + [ConfigRead(Configs.PKTCTRL1), ConfigWrite(Configs.PKTCTRL1, b)];
    }
  }

  // ---------------------------------------------------------------------
  // set_address_filter
  // ---------------------------------------------------------------------

  /** `AddressFilter` of src/types.rs. */
  datatype AddressFilter =
    | Disabled
    | Device(addr: Byte)
    | DeviceLowBroadcast(addr: Byte)
    | DeviceHighLowBroadcast(addr: Byte)

  /** The address check `set_address_filter` selects for a filter. */
  function AddressMode(filter: AddressFilter): Settings.AddressCheck {
    match filter
    case Disabled => Settings.AddressCheck.DISABLED
    case Device(_) => Settings.SELF
    case DeviceLowBroadcast(_) => Settings.SELF_LOW_BROADCAST
    case DeviceHighLowBroadcast(_) => Settings.SELF_HIGH_LOW_BROADCAST
  }

  /** Only `AddressFilter.Disabled` selects the check value 0, which turns address filtering off. */
  lemma AddressModeOff(filter: AddressFilter)
    ensures Settings.AddressCheckValue(AddressMode(filter)) == 0 <==> filter.Disabled?
  {
    match filter
    case Disabled =>
    case Device(_) =>
    case DeviceLowBroadcast(_) =>
    case DeviceHighLowBroadcast(_) =>
  }

  /** The byte `set_address_filter` writes to ADDR: the device address, or the reset value. */
  function FilterAddress(filter: AddressFilter): Byte {
    if filter.Disabled? then Configs.Reset(Configs.ADDR) else filter.addr
  }

  /**
   * `set_address_filter`: the address flag is set, and cleared again when
   * filtering is off; then `adr_chk` in PKTCTRL1 gets the mode and ADDR
   * the address.
   */
  function SetAddressFilter(chip: Chip, tr: Trace, fr: Packets.Framing, filter: AddressFilter): (r: Configured)
    ensures r.framing.addressField <==> !filter.Disabled?
    ensures r.framing.lengthField == fr.lengthField && r.framing.rxStatusFields == fr.rxStatusFields
  {
    var framing := fr.(addressField := true);
    var framing := if filter.Disabled? then framing.(addressField := false) else framing;
    Settings.AddressCheckFits(AddressMode(filter));
    var m := SetField(chip, tr, Configs.PKTCTRL1, 3, Settings.AddressCheckValue(AddressMode(filter)));
    Configured(framing, ThenWrite(chip, m, Configs.ADDR, FilterAddress(filter)))
  }

  /**
   * On success `set_address_filter` read PKTCTRL1, wrote it back with the
   * filter's check in bits 0..1 and bits 2..7 as read, then wrote the
   * address (0x00 when filtering is off) to ADDR.  The shadow flag says an
   * address byte is on air exactly when the chip now checks addresses.
   */
  lemma SetAddressFilterWrites(chip: Chip, tr: Trace, fr: Packets.Framing, filter: AddressFilter)
    ensures var r := SetAddressFilter(chip, tr, fr, filter);
      r.run.result.Success? ==>
        var prev := ConfigReply(chip, tr, Configs.PKTCTRL1);
        exists b: Byte {:trigger ConfigWrite(Configs.PKTCTRL1, b)} ::
          r.run.trace == tr + [ConfigRead(Configs.PKTCTRL1), ConfigWrite(Configs.PKTCTRL1, b),
                               ConfigWrite(Configs.ADDR, FilterAddress(filter))]
          && b & 0x03 == Settings.AddressCheckValue(AddressMode(filter))
          && b & 0xFC == prev & 0xFC
          && (r.framing.addressField <==> b & 0x03 != 0)
  {
    var r := SetAddressFilter(chip, tr, fr, filter);
    if r.run.result.Success? {
      Settings.PKTCTRL1Fields();
      var prev := ConfigReply(chip, tr, Configs.PKTCTRL1);
      var x := Settings.AddressCheckValue(AddressMode(filter));
      Settings.AddressCheckFits(AddressMode(filter));
      SetFieldThenWrite(chip, tr, Configs.PKTCTRL1, 3, x, Configs.ADDR, FilterAddress(filter));
      SetByteIsWrite(Configs.PKTCTRL1, prev, 3, x);
      LowTwoBitsWrite(prev, x);
      var b := SetByte(Configs.PKTCTRL1, prev, 3, x);
      assert b & 0x03 == x && b & 0xFC == prev & 0xFC;
      assert r.framing.addressField <==> !filter.Disabled?;
      AddressModeOff(filter);
      assert r.run.trace == tr + [ConfigRead(Configs.PKTCTRL1), ConfigWrite(Configs.PKTCTRL1, b),
                                  ConfigWrite(Configs.ADDR, FilterAddress(filter))];
    }
  }

  // ---------------------------------------------------------------------
  // set_packet_length
  // ---------------------------------------------------------------------

  /** `PacketLength` of src/types.rs. */
  datatype PacketLength = Fixed(limit: Byte) | Variable(maxLimit: Byte) | Infinite

  /** The length configuration `set_packet_length` selects. */
  function LengthMode(length: PacketLength): Settings.LengthConfig {
    match length
    case Fixed(_) => Settings.FIXED
    case Variable(_) => Settings.VARIABLE
    case Infinite => Settings.INFINITE
  }

  /** The byte `set_packet_length` writes to PKTLEN: the limit, or the reset value. */
  function PacketLimit(length: PacketLength): (n: Byte)
    ensures length.Infinite? ==> n == 0xFF
  {
    match length
    case Fixed(limit) => limit
    case Variable(maxLimit) => maxLimit
    case Infinite => Configs.Reset(Configs.PKTLEN)
  }

  /** The SPI traffic of `set_packet_length`: `length_config` in PKTCTRL0, then PKTLEN. */
  function PacketLengthRun(chip: Chip, tr: Trace, length: PacketLength): Run<()> {
    Settings.LengthConfigFits(LengthMode(length));
    var m := SetField(chip, tr, Configs.PKTCTRL0, 3, Settings.LengthConfigValue(LengthMode(length)));
    ThenWrite(chip, m, Configs.PKTLEN, PacketLimit(length))
  }

  /**
   * On success `set_packet_length` read PKTCTRL0, wrote it back with the
   * length configuration in bits 0..1 (0 fixed, 1 variable, 2 infinite) and
   * bits 2..7 as read, then wrote the limit (0xFF when infinite) to PKTLEN.
   */
  lemma PacketLengthWrites(chip: Chip, tr: Trace, length: PacketLength)
    ensures var r := PacketLengthRun(chip, tr, length);
      r.result.Success? ==>
        var prev := ConfigReply(chip, tr, Configs.PKTCTRL0);
        exists b: Byte {:trigger ConfigWrite(Configs.PKTCTRL0, b)} ::
          r.trace == tr + [ConfigRead(Configs.PKTCTRL0), ConfigWrite(Configs.PKTCTRL0, b),
                           ConfigWrite(Configs.PKTLEN, PacketLimit(length))]
          && b & 0x03 == (if length.Fixed? then 0 else if length.Variable? then 1 else 2)
          && b & 0xFC == prev & 0xFC
  {
    var r := PacketLengthRun(chip, tr, length);
    if r.result.Success? {
      Settings.PKTCTRL0Field3();
      var prev := ConfigReply(chip, tr, Configs.PKTCTRL0);
      var x := Settings.LengthConfigValue(LengthMode(length));
      Settings.LengthConfigFits(LengthMode(length));
      SetFieldThenWrite(chip, tr, Configs.PKTCTRL0, 3, x, Configs.PKTLEN, PacketLimit(length));

      SetByteIsWrite(Configs.PKTCTRL0, prev, 3, x);
      LowTwoBitsWrite(prev, x);
    }
  }

  /**
   * `set_packet_length` as written: only `Variable` touches the length
   * flag, setting it; `Fixed` and `Infinite` leave whatever an earlier
   * call set.
   */
  function SetPacketLengthAsWritten(chip: Chip, tr: Trace, fr: Packets.Framing, length: PacketLength): (r: Configured)
    ensures length.Variable? ==> r.framing.lengthField
    ensures !length.Variable? ==> r.framing.lengthField == fr.lengthField
    ensures r.framing.addressField == fr.addressField && r.framing.rxStatusFields == fr.rxStatusFields
  {
    var framing := if length.Variable? then fr.(lengthField := true) else fr;
    Configured(framing, PacketLengthRun(chip, tr, length))
  }

  /**
   * The stale flag: after `Variable`, a call with `Fixed` configures the
   * chip for fixed-length packets (no length byte on air) yet leaves the
   * flag saying there is one, so `read_data` and `write_data` would keep
   * treating the first payload byte as the length.
   */
  lemma SetPacketLengthLeavesStaleFlag(chip: Chip, tr: Trace, fr: Packets.Framing, n: Byte)
    ensures var v := SetPacketLengthAsWritten(chip, tr, fr, Variable(n));
      var f := SetPacketLengthAsWritten(chip, v.run.trace, v.framing, Fixed(n));
      f.framing.lengthField
      && (f.run.result.Success? ==>
            exists b: Byte {:trigger ConfigWrite(Configs.PKTCTRL0, b)} ::
              f.run.trace[|v.run.trace| + 1] == ConfigWrite(Configs.PKTCTRL0, b) && b & 0x03 == 0)
  {
    var v := SetPacketLengthAsWritten(chip, tr, fr, Variable(n));
    var f := SetPacketLengthAsWritten(chip, v.run.trace, v.framing, Fixed(n));
    if f.run.result.Success? {
      PacketLengthWrites(chip, v.run.trace, Fixed(n));
    }
  }

  /**
   * `set_packet_length` as evidently intended: the length flag says
   * whether the chip is configured for variable-length packets.
   */
  function SetPacketLength(chip: Chip, tr: Trace, fr: Packets.Framing, length: PacketLength): (r: Configured)
    ensures r.framing.lengthField <==> length.Variable?
    ensures r.framing.addressField == fr.addressField && r.framing.rxStatusFields == fr.rxStatusFields
  {
    Configured(fr.(lengthField := length.Variable?), PacketLengthRun(chip, tr, length))
  }

  /**
   * After a successful `set_packet_length`, as intended, the length flag
   * agrees with the `length_config` written to the chip, whatever the
   * flag was before.
   */
  lemma SetPacketLengthAgrees(chip: Chip, tr: Trace, fr: Packets.Framing, length: PacketLength)
    ensures var r := SetPacketLength(chip, tr, fr, length);
      r.run.result.Success? ==>
        exists b: Byte {:trigger ConfigWrite(Configs.PKTCTRL0, b)} ::
          r.run.trace[|tr| + 1] == ConfigWrite(Configs.PKTCTRL0, b)
          && (r.framing.lengthField <==> b & 0x03 == 1)
  {
    PacketLengthWrites(chip, tr, length);
  }

  // ---------------------------------------------------------------------
  // set_sync_mode
  // ---------------------------------------------------------------------

  /** `SyncMode` of src/types.rs, with its 16-bit sync word. */
  datatype SyncMode =
    | Disabled
    | MatchPartial(word: bv16)
    | MatchPartialRepeated(word: bv16)
    | MatchFull(word: bv16)

  /** The sync check `set_sync_mode` selects. */
  function SyncModeCheck(mode: SyncMode): Settings.SyncCheck {
    match mode
    case Disabled => Settings.SyncCheck.DISABLED
    case MatchPartial(_) => Settings.CHECK_15_16
    case MatchPartialRepeated(_) => Settings.CHECK_30_32
    case MatchFull(_) => Settings.CHECK_16_16
  }

  /** The reset sync word: SYNC1's reset value above SYNC0's. */
  function ResetWord(): (w: bv16)
    ensures w == 0xD391
  {
    ((Configs.Reset(Configs.SYNC1) as bv16) << 8) | (Configs.Reset(Configs.SYNC0) as bv16)
  }

  /** The word `set_sync_mode` writes: the given one, or the reset word. */
  function SyncWord(mode: SyncMode): (w: bv16)
    ensures mode.Disabled? ==> w == 0xD391
  {
    if mode.Disabled? then ResetWord() else mode.word
  }

  /** `((word >> 8) & 0xff) as u8`, written to SYNC1. */
  function HighByte(w: bv16): Byte {
    ((w >> 8) & 0xFF) as Byte
  }

  /** `(word & 0xff) as u8`, written to SYNC0. */
  function LowByte(w: bv16): Byte {
    (w & 0xFF) as Byte
  }

  /** The two sync bytes put back together give the word. */
  lemma SyncBytesRecombine(w: bv16)
    ensures ((HighByte(w) as bv16) << 8) | (LowByte(w) as bv16) == w
  {
  }

  /**
   * `set_sync_mode`: `sync_mode` in MDMCFG2, then the word's high byte to
   * SYNC1 and its low byte to SYNC0; a failed step skips the rest.
   */
  function SetSyncMode(chip: Chip, tr: Trace, mode: SyncMode): (r: Run<()>)
    ensures r.result.Success? ==> |r.trace| == |tr| + 4
  {
    Settings.SyncCheckFits(SyncModeCheck(mode));
    var m := SetField(chip, tr, Configs.MDMCFG2, 3, Settings.SyncCheckValue(SyncModeCheck(mode)));
    var m := ThenWrite(chip, m, Configs.SYNC1, HighByte(SyncWord(mode)));
    ThenWrite(chip, m, Configs.SYNC0, LowByte(SyncWord(mode)))
  }

  /**
   * On success `set_sync_mode` read MDMCFG2, wrote it back with the check
   * level in bits 0..2 (0 none, 1 for 15 of 16 bits, 2 for 16 of 16, 3 for
   * 30 of 32) and bits 3..7 as read, then wrote two bytes to SYNC1 and
   * SYNC0 that make up the sync word, 0xD391 when the check is off.
   */
  lemma SetSyncModeWrites(chip: Chip, tr: Trace, mode: SyncMode)
    ensures var r := SetSyncMode(chip, tr, mode);
      r.result.Success? ==>
        var prev := ConfigReply(chip, tr, Configs.MDMCFG2);
        var w := SyncWord(mode);
        exists b: Byte {:trigger ConfigWrite(Configs.MDMCFG2, b)} ::
          r.trace == tr + [ConfigRead(Configs.MDMCFG2), ConfigWrite(Configs.MDMCFG2, b),
                           ConfigWrite(Configs.SYNC1, HighByte(w)), ConfigWrite(Configs.SYNC0, LowByte(w))]
          && b & 0x07 == Settings.SyncCheckValue(SyncModeCheck(mode))
          && b & 0xF8 == prev & 0xF8
  {
    var r := SetSyncMode(chip, tr, mode);
    if r.result.Success? {
      Settings.MDMCFG2Field3();
      var prev := ConfigReply(chip, tr, Configs.MDMCFG2);
      var x := Settings.SyncCheckValue(SyncModeCheck(mode));
      var w := SyncWord(mode);
      Settings.SyncCheckFits(SyncModeCheck(mode));
      SetFieldThenTwoWrites(chip, tr, Configs.MDMCFG2, 3, x, Configs.SYNC1, HighByte(w), Configs.SYNC0, LowByte(w));
      SetByteIsWrite(Configs.MDMCFG2, prev, 3, x);
      LowThreeBitsWrite(prev, x);
    }
  }
}
