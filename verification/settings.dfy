/**
 * The setting enums the driver passes to field setters, from
 * src/lowlevel/types/, with their discriminants, and the fact that each
 * discriminant fits the field it is written to, so the setter's
 * `debug_assert!(bits <= mask)` holds.
 */
module Settings {
  import opened Wrappers
  import opened Traits
  import BitField
  import Configs
  import RegisterViews

  /** `SyncCheck` of src/lowlevel/types/sync_check.rs. */
  datatype SyncCheck =
    DISABLED | CHECK_15_16 | CHECK_16_16 | CHECK_30_32 | CHECK_0_0_CS | CHECK_15_16_CS
    | CHECK_16_16_CS | CHECK_30_32_CS

  /** The discriminant of a `SyncCheck`. */
  function SyncCheckValue(e: SyncCheck): Byte {
    match e
    case DISABLED => 0x00
    case CHECK_15_16 => 0x01
    case CHECK_16_16 => 0x02
    case CHECK_30_32 => 0x03
    case CHECK_0_0_CS => 0x04
    case CHECK_15_16_CS => 0x05
    case CHECK_16_16_CS => 0x06
    case CHECK_30_32_CS => 0x07
  }

  /** Every `SyncCheck` fits `sync_mode`, bits 0..2 of MDMCFG2. */
  lemma SyncCheckFits(e: SyncCheck)
    ensures RegisterViews.HasField(Configs.MDMCFG2, 3)
    ensures SyncCheckValue(e) <= BitField.Mask(RegisterViews.FieldPosOf(Configs.MDMCFG2, 3))
  {
    MDMCFG2Field3();
  }

  /** `AddressCheck` of src/lowlevel/types/address_check.rs. */
  datatype AddressCheck =
    DISABLED | SELF | SELF_LOW_BROADCAST | SELF_HIGH_LOW_BROADCAST

  /** The discriminant of a `AddressCheck`. */
  function AddressCheckValue(e: AddressCheck): Byte {
    match e
    case DISABLED => 0x00
    case SELF => 0x01
    case SELF_LOW_BROADCAST => 0x02
    case SELF_HIGH_LOW_BROADCAST => 0x03
  }

  /** Every `AddressCheck` fits `adr_chk`, bits 0..1 of PKTCTRL1. */
  lemma AddressCheckFits(e: AddressCheck)
    ensures RegisterViews.HasField(Configs.PKTCTRL1, 3)
    ensures AddressCheckValue(e) <= BitField.Mask(RegisterViews.FieldPosOf(Configs.PKTCTRL1, 3))
  {
    PKTCTRL1Fields();
  }

  /** `LengthConfig` of src/lowlevel/types/length_config.rs. */
  datatype LengthConfig =
    FIXED | VARIABLE | INFINITE

  /** The discriminant of a `LengthConfig`. */
  function LengthConfigValue(e: LengthConfig): Byte {
    match e
    case FIXED => 0x00
    case VARIABLE => 0x01
    case INFINITE => 0x02
  }

  /** Every `LengthConfig` fits `length_config`, bits 0..1 of PKTCTRL0. */
  lemma LengthConfigFits(e: LengthConfig)
    ensures RegisterViews.HasField(Configs.PKTCTRL0, 3)
    ensures LengthConfigValue(e) <= BitField.Mask(RegisterViews.FieldPosOf(Configs.PKTCTRL0, 3))
  {
    PKTCTRL0Field3();
  }

  /** `CcaMode` of src/lowlevel/types/cca_mode.rs. */
  datatype CcaMode =
    CciAlways | CciRssiBelowThreshold | CciUnlessCurrentlyReceivingPacket
    | CciRssiBelowThresholdUnlessCurrentlyReceivingPacket

  /** The discriminant of a `CcaMode`. */
  function CcaModeValue(e: CcaMode): Byte {
    match e
    case CciAlways => 0x00
    case CciRssiBelowThreshold => 0x01
    case CciUnlessCurrentlyReceivingPacket => 0x02
    case CciRssiBelowThresholdUnlessCurrentlyReceivingPacket => 0x03
  }

  /** Every `CcaMode` fits `cca_mode`, bits 4..5 of MCSM1. */
  lemma CcaModeFits(e: CcaMode)
    ensures RegisterViews.HasField(Configs.MCSM1, 0)
    ensures CcaModeValue(e) <= BitField.Mask(RegisterViews.FieldPosOf(Configs.MCSM1, 0))
  {
    MCSM1Field0();
  }

  /** `AutoCalibration` of src/lowlevel/types/auto_calibration.rs. */
  datatype AutoCalibration =
    DISABLED | FROM_IDLE | TO_IDLE | TO_IDLE_EVERY_4TH

  /** The discriminant of a `AutoCalibration`. */
  function AutoCalibrationValue(e: AutoCalibration): Byte {
    match e
    case DISABLED => 0x00
    case FROM_IDLE => 0x01
    case TO_IDLE => 0x02
    case TO_IDLE_EVERY_4TH => 0x03
  }

  /** Every `AutoCalibration` fits `fs_autocal`, bits 4..5 of MCSM0. */
  lemma AutoCalibrationFits(e: AutoCalibration)
    ensures RegisterViews.HasField(Configs.MCSM0, 0)
    ensures AutoCalibrationValue(e) <= BitField.Mask(RegisterViews.FieldPosOf(Configs.MCSM0, 0))
  {
    MCSM0Field0();
  }

  /** `NumPreamble` of src/lowlevel/types/num_preamble.rs. */
  datatype NumPreamble =
    N_2 | N_3 | N_4 | N_6 | N_8 | N_12 | N_16 | N_24

  /** The discriminant of a `NumPreamble`. */
  function NumPreambleValue(e: NumPreamble): Byte {
    match e
    case N_2 => 0x00
    case N_3 => 0x01
    case N_4 => 0x02
    case N_6 => 0x03
    case N_8 => 0x04
    case N_12 => 0x05
    case N_16 => 0x06
    case N_24 => 0x07
  }

  /** Every `NumPreamble` fits `num_preamble`, bits 4..6 of MDMCFG1. */
  lemma NumPreambleFits(e: NumPreamble)
    ensures RegisterViews.HasField(Configs.MDMCFG1, 1)
    ensures NumPreambleValue(e) <= BitField.Mask(RegisterViews.FieldPosOf(Configs.MDMCFG1, 1))
  {
    MDMCFG1Field1();
  }

  /** `GdoCfg` of src/lowlevel/types/gdo_cfg.rs. */
  datatype GdoCfg =
    RX_FIFO_FILLED | RX_FIFO_FILLED_END_OF_PKT | TX_FIFO_FILLED | TX_FIFO_FULL
    | RX_FIFO_OVERFLOW | TX_FIFO_UNDERFLOW | SYNC_WORD | CRC_OK | PQT_REACHED
    | CHANNEL_CLEAR | PLL_LOCK | SERIAL_CLOCK | SERIAL_SYNC_DATA_OUT | SERIAL_DATA_OUT
    | CARRIER_SENSE | LAST_CRC_OK | RX_HARD_DATA_1 | RX_HARD_DATA_0 | PA_PD | LNA_PD
    | RX_SYMBOL_TICK | WOR_EVNT0 | WOR_EVNT1 | CLK_256 | CLK_32k | CHIP_RDYn
    | XOSC_STABLE | HIGH_IMPEDANCE | HARDWIRE_TO_0 | CLK_XOSC_1 | CLK_XOSC_1_5
    | CLK_XOSC_2 | CLK_XOSC_3 | CLK_XOSC_4 | CLK_XOSC_6 | CLK_XOSC_8 | CLK_XOSC_12
    | CLK_XOSC_16 | CLK_XOSC_24 | CLK_XOSC_32 | CLK_XOSC_48 | CLK_XOSC_64 | CLK_XOSC_96
    | CLK_XOSC_128 | CLK_XOSC_192

  /** The discriminant of a `GdoCfg`. */
  function GdoCfgValue(e: GdoCfg): Byte {
    match e
    case RX_FIFO_FILLED => 0x00
    case RX_FIFO_FILLED_END_OF_PKT => 0x01
    case TX_FIFO_FILLED => 0x02
    case TX_FIFO_FULL => 0x03
    case RX_FIFO_OVERFLOW => 0x04
    case TX_FIFO_UNDERFLOW => 0x05
    case SYNC_WORD => 0x06
    case CRC_OK => 0x07
    case PQT_REACHED => 0x08
    case CHANNEL_CLEAR => 0x09
    case PLL_LOCK => 0x0A
    case SERIAL_CLOCK => 0x0B
    case SERIAL_SYNC_DATA_OUT => 0x0C
    case SERIAL_DATA_OUT => 0x0D
    case CARRIER_SENSE => 0x0E
    case LAST_CRC_OK => 0x0F
    case RX_HARD_DATA_1 => 0x16
    case RX_HARD_DATA_0 => 0x17
    case PA_PD => 0x1B
    case LNA_PD => 0x1C
    case RX_SYMBOL_TICK => 0x1D
    case WOR_EVNT0 => 0x24
    case WOR_EVNT1 => 0x25
    case CLK_256 => 0x26
    case CLK_32k => 0x27
    case CHIP_RDYn => 0x29
    case XOSC_STABLE => 0x2B
    case HIGH_IMPEDANCE => 0x2E
    case HARDWIRE_TO_0 => 0x2F
    case CLK_XOSC_1 => 0x30
    case CLK_XOSC_1_5 => 0x31
    case CLK_XOSC_2 => 0x32
    case CLK_XOSC_3 => 0x33
    case CLK_XOSC_4 => 0x34
    case CLK_XOSC_6 => 0x35
    case CLK_XOSC_8 => 0x36
    case CLK_XOSC_12 => 0x37
    case CLK_XOSC_16 => 0x38
    case CLK_XOSC_24 => 0x39
    case CLK_XOSC_32 => 0x3A
    case CLK_XOSC_48 => 0x3B
    case CLK_XOSC_64 => 0x3C
    case CLK_XOSC_96 => 0x3D
    case CLK_XOSC_128 => 0x3E
    case CLK_XOSC_192 => 0x3F
  }

  /** Every `GdoCfg` fits `gdo2_cfg`, bits 0..5 of IOCFG2 (and `gdo1_cfg`, `gdo0_cfg` at the same bits of IOCFG1 and IOCFG0). */
  lemma GdoCfgFits(e: GdoCfg)
    ensures RegisterViews.HasField(Configs.IOCFG2, 1)
    ensures GdoCfgValue(e) <= BitField.Mask(RegisterViews.FieldPosOf(Configs.IOCFG2, 1))
    ensures RegisterViews.HasField(Configs.IOCFG1, 2) && RegisterViews.HasField(Configs.IOCFG0, 2)
    ensures GdoCfgValue(e) <= BitField.Mask(RegisterViews.FieldPosOf(Configs.IOCFG1, 2))
    ensures GdoCfgValue(e) <= BitField.Mask(RegisterViews.FieldPosOf(Configs.IOCFG0, 2))
  {
    IOCFG2Field1();
    IOCFG1Field2();
    IOCFG0Field2();
  }

  lemma MDMCFG2Field3()
    ensures RegisterViews.HasField(Configs.MDMCFG2, 3)
    ensures RegisterViews.FieldPosOf(Configs.MDMCFG2, 3) == Span(0, 2)
    ensures BitField.Mask(RegisterViews.FieldPosOf(Configs.MDMCFG2, 3)) == 0x07
  {
    assert RegisterViews.FieldPosOf(Configs.MDMCFG2, 3) == Span(0, 2);
    assert BitField.Mask(Span(0, 2)) == BitField.Ones(3);
  }

  lemma PKTCTRL1Fields()
    ensures RegisterViews.HasField(Configs.PKTCTRL1, 1) && RegisterViews.FieldPosOf(Configs.PKTCTRL1, 1) == Bit(3)
    ensures RegisterViews.HasField(Configs.PKTCTRL1, 2) && RegisterViews.FieldPosOf(Configs.PKTCTRL1, 2) == Bit(2)
    ensures RegisterViews.HasField(Configs.PKTCTRL1, 3) && RegisterViews.FieldPosOf(Configs.PKTCTRL1, 3) == Span(0, 1)
    ensures BitField.Mask(Bit(2)) == 0x03
    ensures BitField.Mask(RegisterViews.FieldPosOf(Configs.PKTCTRL1, 3)) == 0x03
  {
    var l := Configs.Layout(Configs.PKTCTRL1);
    assert l == [Span(5, 7), Bit(3), Bit(2), Span(0, 1)];
    assert l[1] == Bit(3) && l[2] == Bit(2) && l[3] == Span(0, 1);
    assert BitField.Ones(2) == 3;
    assert BitField.Mask(Span(0, 1)) == 3 && BitField.Mask(Bit(2)) == 3;
  }

  lemma PKTCTRL0Field3()
    ensures RegisterViews.HasField(Configs.PKTCTRL0, 3)
    ensures RegisterViews.FieldPosOf(Configs.PKTCTRL0, 3) == Span(0, 1)
    ensures BitField.Mask(RegisterViews.FieldPosOf(Configs.PKTCTRL0, 3)) == 0x03
  {
    assert RegisterViews.FieldPosOf(Configs.PKTCTRL0, 3) == Span(0, 1);
    assert BitField.Mask(Span(0, 1)) == BitField.Ones(2);
  }

  lemma MCSM1Field0()
    ensures RegisterViews.HasField(Configs.MCSM1, 0)
    ensures BitField.Mask(RegisterViews.FieldPosOf(Configs.MCSM1, 0)) == 0x03
  {
    assert RegisterViews.FieldPosOf(Configs.MCSM1, 0) == Span(4, 5);
    assert BitField.Mask(Span(4, 5)) == BitField.Ones(2);
  }

  lemma MCSM0Field0()
    ensures RegisterViews.HasField(Configs.MCSM0, 0)
    ensures BitField.Mask(RegisterViews.FieldPosOf(Configs.MCSM0, 0)) == 0x03
  {
    assert RegisterViews.FieldPosOf(Configs.MCSM0, 0) == Span(4, 5);
    assert BitField.Mask(Span(4, 5)) == BitField.Ones(2);
  }

  lemma MDMCFG1Field1()
    ensures RegisterViews.HasField(Configs.MDMCFG1, 1)
    ensures BitField.Mask(RegisterViews.FieldPosOf(Configs.MDMCFG1, 1)) == 0x07
  {
    assert RegisterViews.FieldPosOf(Configs.MDMCFG1, 1) == Span(4, 6);
    assert BitField.Mask(Span(4, 6)) == BitField.Ones(3);
  }

  lemma IOCFG2Field1()
    ensures RegisterViews.HasField(Configs.IOCFG2, 1)
    ensures BitField.Mask(RegisterViews.FieldPosOf(Configs.IOCFG2, 1)) == 0x3F
  {
    assert RegisterViews.FieldPosOf(Configs.IOCFG2, 1) == Span(0, 5);
    assert BitField.Mask(Span(0, 5)) == BitField.Ones(6);
  }

  lemma IOCFG1Field2()
    ensures RegisterViews.HasField(Configs.IOCFG1, 2)
    ensures BitField.Mask(RegisterViews.FieldPosOf(Configs.IOCFG1, 2)) == 0x3F
  {
    assert RegisterViews.FieldPosOf(Configs.IOCFG1, 2) == Span(0, 5);
    assert BitField.Mask(Span(0, 5)) == BitField.Ones(6);
  }

  lemma IOCFG0Field2()
    ensures RegisterViews.HasField(Configs.IOCFG0, 2)
    ensures BitField.Mask(RegisterViews.FieldPosOf(Configs.IOCFG0, 2)) == 0x3F
  {
    assert RegisterViews.FieldPosOf(Configs.IOCFG0, 2) == Span(0, 5);
    assert BitField.Mask(Span(0, 5)) == BitField.Ones(6);
  }
}
