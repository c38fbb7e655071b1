/**
 * Concrete uses of the register views by the driver's setters in
 * src/lib.rs: the DEVIATN builder of `set_deviation`, and two setters whose
 * bare-offset field clears the neighbouring field as written.
 */
module Builders {
  import opened Wrappers
  import opened Traits
  import BitField
  import Configs
  import opened RegisterViews
  import Settings

  /** DEVIATN's fields: `deviation_e` at 4..6 and `deviation_m` at 0..2, both three bits. */
  lemma DeviatnFields()
    ensures HasField(Configs.DEVIATN, 0) && HasField(Configs.DEVIATN, 1)
    ensures FieldPosOf(Configs.DEVIATN, 0) == Span(4, 6)
    ensures FieldPosOf(Configs.DEVIATN, 1) == Span(0, 2)
    ensures BitField.Mask(Span(4, 6)) == 7 && BitField.Mask(Span(0, 2)) == 7
  {
    assert BitField.Ones(3) == 7;
  }

  /** `DEVIATN::default().deviation_m(m).deviation_e(e).bits()`. */
  function Deviation(m: Byte, e: Byte): Byte
    requires m <= 7 && e <= 7
  {
    DeviatnFields();
    Bits(Set(Set(Default(Configs.DEVIATN), 1, m), 0, e))
  }

  /**
   * The builder puts the mantissa in bits 0..2 and the exponent in bits
   * 4..6; bits 3 and 7 keep the reset value 0x47's, which are clear.
   */
  lemma DeviationBuilder(m: Byte, e: Byte)
    requires m <= 7 && e <= 7
    ensures Deviation(m, e) & 0x07 == m
    ensures (Deviation(m, e) >> 4) & 0x07 == e
    ensures Deviation(m, e) & 0x88 == Configs.Reset(Configs.DEVIATN) & 0x88
    ensures Deviation(m, e) == (e << 4) | m
  {
    DeviationWrites(m, e);
    MantissaWrite(m);
    ExponentWrite(m, e);
    var b := (e << 4) | m;
    assert Deviation(m, e) == b;
    assert b & 0x07 == m && (b >> 4) & 0x07 == e && b & 0x88 == 0;
  }

  /** The builder is the codec's two writes on the reset value. */
  lemma DeviationWrites(m: Byte, e: Byte)
    requires m <= 7 && e <= 7
    ensures Deviation(m, e)
         == BitField.Write(BitField.Write(Configs.Reset(Configs.DEVIATN), Span(0, 2), m), Span(4, 6), e)
  {
    var v0 := Default(Configs.DEVIATN);
    SetMantissa(v0, m);
    var v1 := Set(v0, 1, m);
    SetExponent(v1, e);
  }

  lemma SetMantissa(v: View, m: Byte)
    requires v.reg == Configs.DEVIATN && v.mode == W && m <= 7
    ensures HasField(Configs.DEVIATN, 1)
    ensures BitField.Mask(FieldPosOf(Configs.DEVIATN, 1)) == 7
    ensures Set(v, 1, m).bits == BitField.Write(v.bits, Span(0, 2), m)
  {
    DeviatnFields();
  }

  lemma SetExponent(v: View, e: Byte)
    requires v.reg == Configs.DEVIATN && v.mode == W && e <= 7
    ensures HasField(Configs.DEVIATN, 0)
    ensures BitField.Mask(FieldPosOf(Configs.DEVIATN, 0)) == 7
    ensures Set(v, 0, e).bits == BitField.Write(v.bits, Span(4, 6), e)
  {
    DeviatnFields();
  }

  lemma MantissaWrite(m: Byte)
    requires m <= 7
    ensures BitField.Mask(Span(0, 2)) == 7
    ensures BitField.Write(Configs.Reset(Configs.DEVIATN), Span(0, 2), m) == 0x40 | m
    ensures Configs.Reset(Configs.DEVIATN) & 0x88 == 0
  {
    assert BitField.Ones(3) == 7;
    assert Configs.Reset(Configs.DEVIATN) == 0x47;
  }

  lemma ExponentWrite(m: Byte, e: Byte)
    requires m <= 7 && e <= 7
    ensures BitField.Mask(Span(4, 6)) == 7
    ensures BitField.Write(0x40 | m, Span(4, 6), e) == (e << 4) | m
  {
    assert BitField.Ones(3) == 7;
    BitField.ShlConst(7);
    BitField.ShlConst(e & 7);
  }

  /** The getters read the built byte back as the two values. */
  lemma DeviationReadsBack(m: Byte, e: Byte)
    requires m <= 7 && e <= 7
    ensures HasField(Configs.DEVIATN, 0) && HasField(Configs.DEVIATN, 1)
    ensures Get(Of(Configs.DEVIATN, Deviation(m, e)), 1) == m
    ensures Get(Of(Configs.DEVIATN, Deviation(m, e)), 0) == e
  {
    DeviatnFields();
    DeviationBuilder(m, e);
    var b := Deviation(m, e);
    assert Get(Of(Configs.DEVIATN, b), 1) == BitField.Read(b, Span(0, 2));
    assert Get(Of(Configs.DEVIATN, b), 0) == BitField.Read(b, Span(4, 6));
    BitField.ShrConst(b);
  }

  // -------------------------------------------------------------------
  // Setters whose two-bit mask reaches the next field
  // -------------------------------------------------------------------

  /** IOCFG1's fields: `gdo1_ds` at 7, `gdo1_inv` at 6, both bare offsets. */
  lemma Iocfg1Fields()
    ensures HasField(Configs.IOCFG1, 0) && HasField(Configs.IOCFG1, 1)
    ensures FieldPosOf(Configs.IOCFG1, 0) == Bit(7)
    ensures FieldPosOf(Configs.IOCFG1, 1) == Bit(6)
    ensures BitField.Mask(Bit(6)) == 3
  {
    assert BitField.Ones(2) == 3;
  }

  /**
   * `set_gdo1_active_state(Low)` writes 1 to `gdo1_inv` at bit 6; with
   * high drive strength set (`gdo1_ds`, bit 7), the two-bit mask clears it:
   * 0xAE becomes 0x6E and `gdo1_ds()` goes from 1 to 0.
   */
  lemma ActiveLowClearsDriveStrength()
    ensures HasField(Configs.IOCFG1, 0) && HasField(Configs.IOCFG1, 1)
    ensures BitField.Mask(FieldPosOf(Configs.IOCFG1, 1)) == 3
    ensures Get(Of(Configs.IOCFG1, 0xAE), 0) == 1
    ensures Bits(Set(Modify(Of(Configs.IOCFG1, 0xAE)), 1, 1)) == 0x6E
    ensures Get(Of(Configs.IOCFG1, 0x6E), 0) == 0
  {
    Iocfg1Fields();
    BitField.ShrConst(0xAE);
    BitField.ShrConst(0x6E);
    assert BitField.Shl(3, 6) == 0xC0 && BitField.Shl(1, 6) == 0x40;
  }

  /** With `gdo1_inv` at the single bit 6, the drive strength survives: 0xAE becomes 0xEE. */
  lemma ActiveLowKeepsDriveStrengthAsIntended()
    ensures HasField(Configs.IOCFG1, 0) && HasField(Configs.IOCFG1, 1)
    ensures BitField.Mask(IntendedPosOf(Configs.IOCFG1, 1)) == 1
    ensures Bits(IntendedSet(Modify(Of(Configs.IOCFG1, 0xAE)), 1, 1)) == 0xEE
    ensures IntendedGet(Of(Configs.IOCFG1, 0xEE), 0) == 1
  {
    Iocfg1Fields();
    assert BitField.Ones(1) == 1;
    BitField.ShrConst(0xEE);
    assert BitField.Shl(1, 6) == 0x40;
  }

  /**
   * `append_status_enable(false)` writes 0 to `append_status` at bit 2;
   * the two-bit mask also clears `crc_autoflush` at bit 3: 0x0C becomes
   * 0x00 and `crc_autoflush()` goes from 1 to 0.
   */
  lemma AppendStatusClearsAutoflush()
    ensures HasField(Configs.PKTCTRL1, 1) && HasField(Configs.PKTCTRL1, 2)
    ensures BitField.Mask(FieldPosOf(Configs.PKTCTRL1, 2)) == 3
    ensures Get(Of(Configs.PKTCTRL1, 0x0C), 1) == 1
    ensures Bits(Set(Modify(Of(Configs.PKTCTRL1, 0x0C)), 2, 0)) == 0x00
    ensures Get(Of(Configs.PKTCTRL1, 0x00), 1) == 0
  {
    Settings.PKTCTRL1Fields();
    BitField.ShrConst(0x0C);
    assert BitField.Shl(3, 2) == 0x0C && BitField.Shl(0, 2) == 0;
  }

  /** With `append_status` at the single bit 2, `crc_autoflush` survives: 0x0C becomes 0x08. */
  lemma AppendStatusKeepsAutoflushAsIntended()
    ensures HasField(Configs.PKTCTRL1, 1) && HasField(Configs.PKTCTRL1, 2)
    ensures BitField.Mask(IntendedPosOf(Configs.PKTCTRL1, 2)) == 1
    ensures Bits(IntendedSet(Modify(Of(Configs.PKTCTRL1, 0x0C)), 2, 0)) == 0x08
    ensures IntendedGet(Of(Configs.PKTCTRL1, 0x08), 1) == 1
  {
    Settings.PKTCTRL1Fields();
    assert BitField.Ones(1) == 1;
    BitField.ShrConst(0x08);
    assert BitField.Shl(1, 2) == 0x04 && BitField.Shl(0, 2) == 0;
  }
}
