/**
 * The configuration registers of src/lowlevel/registers/config.rs: the 47
 * base addresses 0x00..0x2E, the header byte `Config::addr` builds, and each
 * register's reset value and field layout.
 */
module Configs {
  import opened Wrappers
  import opened Traits
  import opened Layouts
  import Access
  import BitField

  datatype Config =
      IOCFG2 | IOCFG1 | IOCFG0 | FIFOTHR | SYNC1 | SYNC0
    | PKTLEN | PKTCTRL1 | PKTCTRL0 | ADDR | CHANNR | FSCTRL1
    | FSCTRL0 | FREQ2 | FREQ1 | FREQ0 | MDMCFG4 | MDMCFG3
    | MDMCFG2 | MDMCFG1 | MDMCFG0 | DEVIATN | MCSM2 | MCSM1
    | MCSM0 | FOCCFG | BSCFG | AGCCTRL2 | AGCCTRL1 | AGCCTRL0
    | WOREVT1 | WOREVT0 | WORCTRL | FREND1 | FREND0 | FSCAL3
    | FSCAL2 | FSCAL1 | FSCAL0 | RCCTRL1 | RCCTRL0 | FSTEST
    | PTEST | AGCTEST | TEST2 | TEST1 | TEST0

  /** The enum discriminant, i.e. the register's base address. */
  function Base(c: Config): Byte {
    match c
    case IOCFG2 => 0x00
    case IOCFG1 => 0x01
    case IOCFG0 => 0x02
    case FIFOTHR => 0x03
    case SYNC1 => 0x04
    case SYNC0 => 0x05
    case PKTLEN => 0x06
    case PKTCTRL1 => 0x07
    case PKTCTRL0 => 0x08
    case ADDR => 0x09
    case CHANNR => 0x0A
    case FSCTRL1 => 0x0B
    case FSCTRL0 => 0x0C
    case FREQ2 => 0x0D
    case FREQ1 => 0x0E
    case FREQ0 => 0x0F
    case MDMCFG4 => 0x10
    case MDMCFG3 => 0x11
    case MDMCFG2 => 0x12
    case MDMCFG1 => 0x13
    case MDMCFG0 => 0x14
    case DEVIATN => 0x15
    case MCSM2 => 0x16
    case MCSM1 => 0x17
    case MCSM0 => 0x18
    case FOCCFG => 0x19
    case BSCFG => 0x1A
    case AGCCTRL2 => 0x1B
    case AGCCTRL1 => 0x1C
    case AGCCTRL0 => 0x1D
    case WOREVT1 => 0x1E
    case WOREVT0 => 0x1F
    case WORCTRL => 0x20
    case FREND1 => 0x21
    case FREND0 => 0x22
    case FSCAL3 => 0x23
    case FSCAL2 => 0x24
    case FSCAL1 => 0x25
    case FSCAL0 => 0x26
    case RCCTRL1 => 0x27
    case RCCTRL0 => 0x28
    case FSTEST => 0x29
    case PTEST => 0x2A
    case AGCTEST => 0x2B
    case TEST2 => 0x2C
    case TEST1 => 0x2D
    case TEST0 => 0x2E
  }

  /** The reset value `Default` starts a builder from. */
  function Reset(c: Config): Byte {
    match c
    case IOCFG2 => 0x29
    case IOCFG1 => 0x2E
    case IOCFG0 => 0x3F
    case FIFOTHR => 0x07
    case SYNC1 => 0xD3
    case SYNC0 => 0x91
    case PKTLEN => 0xFF
    case PKTCTRL1 => 0x04
    case PKTCTRL0 => 0x45
    case ADDR => 0x00
    case CHANNR => 0x00
    case FSCTRL1 => 0x0F
    case FSCTRL0 => 0x00
    case FREQ2 => 0x1E
    case FREQ1 => 0xC4
    case FREQ0 => 0xEC
    case MDMCFG4 => 0x8C
    case MDMCFG3 => 0x22
    case MDMCFG2 => 0x02
    case MDMCFG1 => 0x22
    case MDMCFG0 => 0xF8
    case DEVIATN => 0x47
    case MCSM2 => 0x07
    case MCSM1 => 0x30
    case MCSM0 => 0x04
    case FOCCFG => 0x36
    case BSCFG => 0x6C
    case AGCCTRL2 => 0x03
    case AGCCTRL1 => 0x40
    case AGCCTRL0 => 0x91
    case WOREVT1 => 0x87
    case WOREVT0 => 0x6B
    case WORCTRL => 0xF8
    case FREND1 => 0x56
    case FREND0 => 0x10
    case FSCAL3 => 0xA9
    case FSCAL2 => 0x0A
    case FSCAL1 => 0x20
    case FSCAL0 => 0x0D
    case RCCTRL1 => 0x41
    case RCCTRL0 => 0x00
    case FSTEST => 0x59
    case PTEST => 0x7F
    case AGCTEST => 0x3F
    case TEST2 => 0x88
    case TEST1 => 0x31
    case TEST0 => 0x0B
  }

  /** The fields each `register!` invocation lists, in source order. */
  function Layout(c: Config): seq<FieldPos> {
    match c
    // gdo2_inv, gdo2_cfg
    case IOCFG2 => [Bit(6), Span(0, 5)]
    // gdo1_ds, gdo1_inv, gdo1_cfg
    case IOCFG1 => [Bit(7), Bit(6), Span(0, 5)]
    // temp_sensor_enable, gdo0_inv, gdo0_cfg
    case IOCFG0 => [Bit(7), Bit(6), Span(0, 5)]
    // adc_retention, close_in_rx, fifo_thr
    case FIFOTHR => [Bit(6), Span(4, 5), Span(0, 3)]
    // sync
    case SYNC1 => [Span(0, 7)]
    // sync
    case SYNC0 => [Span(0, 7)]
    // packet_length
    case PKTLEN => [Span(0, 7)]
    // pqt, crc_autoflush, append_status, adr_chk
    case PKTCTRL1 => [Span(5, 7), Bit(3), Bit(2), Span(0, 1)]
    // white_data, pkt_format, crc_en, length_config
    case PKTCTRL0 => [Bit(6), Span(4, 5), Bit(2), Span(0, 1)]
    // device_addr
    case ADDR => [Span(0, 7)]
    // chan
    case CHANNR => [Span(0, 7)]
    // freq_if
    case FSCTRL1 => [Span(0, 4)]
    // freqoff
    case FSCTRL0 => [Span(0, 7)]
    // freq
    case FREQ2 => [Span(0, 5)]
    // freq
    case FREQ1 => [Span(0, 7)]
    // freq
    case FREQ0 => [Span(0, 7)]
    // chanbw_e, chanbw_m, drate_e
    case MDMCFG4 => [Span(6, 7), Span(4, 5), Span(0, 3)]
    // drate_m
    case MDMCFG3 => [Span(0, 7)]
    // dem_dcfilt_off, mod_format, manchester_en, sync_mode
    case MDMCFG2 => [Bit(7), Span(4, 6), Bit(3), Span(0, 2)]
    // fec_en, num_preamble, chanspc_e
    case MDMCFG1 => [Bit(7), Span(4, 6), Span(0, 1)]
    // chanspc_m
    case MDMCFG0 => [Span(0, 7)]
    // deviation_e, deviation_m
    case DEVIATN => [Span(4, 6), Span(0, 2)]
    // rx_time_rssi, rx_time_qual, rx_time
    case MCSM2 => [Bit(4), Bit(3), Span(0, 2)]
    // cca_mode, rxoff_mode, txoff_mode
    case MCSM1 => [Span(4, 5), Span(2, 3), Span(0, 1)]
    // fs_autocal, po_timeout, pin_ctrl_en, xosc_force_on
    case MCSM0 => [Span(4, 5), Span(2, 3), Bit(1), Bit(0)]
    // foc_bs_cs_gate, foc_pre_k, foc_post_k, foc_limit
    case FOCCFG => [Bit(5), Span(3, 4), Bit(2), Span(0, 1)]
    // bs_pre_ki, bs_pre_kp, bs_post_ki, bs_post_kp, bs_limit
    case BSCFG => [Span(6, 7), Span(4, 5), Bit(3), Bit(2), Span(0, 1)]
    // max_dvga_gain, max_lna_gain, magn_target
    case AGCCTRL2 => [Span(6, 7), Span(3, 5), Span(0, 2)]
    // agc_lna_priority, carrier_sense_rel_thr, carrier_sense_abs_thr
    case AGCCTRL1 => [Bit(6), Span(4, 5), Span(0, 3)]
    // hyst_level, wait_time, agc_freeze, filter_length
    case AGCCTRL0 => [Span(6, 7), Span(4, 5), Span(2, 3), Span(0, 1)]
    // event
    case WOREVT1 => [Span(0, 7)]
    // event
    case WOREVT0 => [Span(0, 7)]
    // rc_pd, event, rc_cal, wor_res
    case WORCTRL => [Bit(7), Span(4, 6), Bit(3), Span(0, 1)]
    // lna_current, lna2mix_current, lodiv_buf_current_rx, mix_current
    case FREND1 => [Span(6, 7), Span(4, 5), Span(2, 3), Span(0, 1)]
    // lodiv_buf_current_tx, pa_power
    case FREND0 => [Span(4, 5), Span(0, 2)]
    // fscal3, chp_curr_cal_en, fscal3_result
    case FSCAL3 => [Span(6, 7), Span(4, 5), Span(0, 3)]
    // vco_core_h_en, fscal2
    case FSCAL2 => [Bit(5), Span(0, 4)]
    // fscal1
    case FSCAL1 => [Span(0, 5)]
    // fscal0
    case FSCAL0 => [Span(0, 6)]
    // rcctrl1
    case RCCTRL1 => [Span(0, 6)]
    // rcctrl0
    case RCCTRL0 => [Span(0, 6)]
    // fstest
    case FSTEST => [Span(0, 7)]
    // ptest
    case PTEST => [Span(0, 7)]
    // agctest
    case AGCTEST => [Span(0, 7)]
    // test2
    case TEST2 => [Span(0, 7)]
    // test1
    case TEST1 => [Span(0, 7)]
    // test0_1, vco_sel_cal_en, test0_0
    case TEST0 => [Span(2, 7), Bit(1), Bit(0)]
  }

  /**
   * `From` a base address: the register there, if any.  The lookup is a
   * binary search over the contiguous bases.
   */
  function FromBase(b: Byte): Option<Config> {
    if b > 0x2E then None
    else if b < 0x17 then
      if b < 0x0B then
        if b < 0x05 then
          if b < 0x02 then
            if b < 0x01 then
              Some(IOCFG2)
            else
              Some(IOCFG1)
          else
            if b < 0x03 then
              Some(IOCFG0)
            else
              if b < 0x04 then
                Some(FIFOTHR)
              else
                Some(SYNC1)
        else
          if b < 0x08 then
            if b < 0x06 then
              Some(SYNC0)
            else
              if b < 0x07 then
                Some(PKTLEN)
              else
                Some(PKTCTRL1)
          else
            if b < 0x09 then
              Some(PKTCTRL0)
            else
              if b < 0x0A then
                Some(ADDR)
              else
                Some(CHANNR)
      else
        if b < 0x11 then
          if b < 0x0E then
            if b < 0x0C then
              Some(FSCTRL1)
            else
              if b < 0x0D then
                Some(FSCTRL0)
              else
                Some(FREQ2)
          else
            if b < 0x0F then
              Some(FREQ1)
            else
              if b < 0x10 then
                Some(FREQ0)
              else
                Some(MDMCFG4)
        else
          if b < 0x14 then
            if b < 0x12 then
              Some(MDMCFG3)
            else
              if b < 0x13 then
                Some(MDMCFG2)
              else
                Some(MDMCFG1)
          else
            if b < 0x15 then
              Some(MDMCFG0)
            else
              if b < 0x16 then
                Some(DEVIATN)
              else
                Some(MCSM2)
    else
      if b < 0x23 then
        if b < 0x1D then
          if b < 0x1A then
            if b < 0x18 then
              Some(MCSM1)
            else
              if b < 0x19 then
                Some(MCSM0)
              else
                Some(FOCCFG)
          else
            if b < 0x1B then
              Some(BSCFG)
            else
              if b < 0x1C then
                Some(AGCCTRL2)
              else
                Some(AGCCTRL1)
        else
          if b < 0x20 then
            if b < 0x1E then
              Some(AGCCTRL0)
            else
              if b < 0x1F then
                Some(WOREVT1)
              else
                Some(WOREVT0)
          else
            if b < 0x21 then
              Some(WORCTRL)
            else
              if b < 0x22 then
                Some(FREND1)
              else
                Some(FREND0)
      else
        if b < 0x29 then
          if b < 0x26 then
            if b < 0x24 then
              Some(FSCAL3)
            else
              if b < 0x25 then
                Some(FSCAL2)
              else
                Some(FSCAL1)
          else
            if b < 0x27 then
              Some(FSCAL0)
            else
              if b < 0x28 then
                Some(RCCTRL1)
              else
                Some(RCCTRL0)
        else
          if b < 0x2C then
            if b < 0x2A then
              Some(FSTEST)
            else
              if b < 0x2B then
                Some(PTEST)
              else
                Some(AGCTEST)
          else
            if b < 0x2D then
              Some(TEST2)
            else
              if b < 0x2E then
                Some(TEST1)
              else
                Some(TEST0)
  }

  /**
   * The bases are exactly 0x00..0x2E and each belongs to one register: the
   * base map and `FromBase` are inverse to each other.
   */
  lemma BaseRoundTrip(c: Config)
    ensures Base(c) <= 0x2E
    ensures FromBase(Base(c)) == Some(c)
  {
    match c
    case IOCFG2 | IOCFG1 | IOCFG0 | FIFOTHR | SYNC1 | SYNC0 => {}
    case PKTLEN | PKTCTRL1 | PKTCTRL0 | ADDR | CHANNR | FSCTRL1 => {}
    case FSCTRL0 | FREQ2 | FREQ1 | FREQ0 | MDMCFG4 | MDMCFG3 => {}
    case MDMCFG2 | MDMCFG1 | MDMCFG0 | DEVIATN | MCSM2 | MCSM1 => {}
    case MCSM0 | FOCCFG | BSCFG | AGCCTRL2 | AGCCTRL1 | AGCCTRL0 => {}
    case WOREVT1 | WOREVT0 | WORCTRL | FREND1 | FREND0 | FSCAL3 => {}
    case FSCAL2 | FSCAL1 | FSCAL0 | RCCTRL1 | RCCTRL0 | FSTEST => {}
    case PTEST | AGCTEST | TEST2 | TEST1 | TEST0 => {}
  }

  /** Distinct registers have distinct bases. */
  lemma BaseInjective(c: Config, d: Config)
    requires Base(c) == Base(d)
    ensures c == d
  {
    BaseRoundTrip(c);
    BaseRoundTrip(d);
  }

  /** `Config::addr`: the header byte `access | mode | base`. */
  function Addr(c: Config, d: Access.Direction, m: Access.Mode): Byte {
    Access.Header(d, m, Base(c))
  }

  /** The header's low six bits are the base; bits 7 and 6 are direction and mode. */
  lemma AddrFields(c: Config, d: Access.Direction, m: Access.Mode)
    ensures Access.DecodeHeader(Addr(c, d, m)) == (d, m, Base(c))
    ensures Addr(c, d, m) & 0x3F == Base(c)
  {
    BaseRoundTrip(c);
    Access.DecodeHeaderInverse(d, m, Base(c));
  }


  /** Every layout position is within the byte, so the codec can use it. */
  lemma LayoutCodable(c: Config, i: nat)
    requires i < |Layout(c)|
    ensures BitField.Codable(Layout(c)[i])
  {
    WidthRule(Layout(c)[i]);
  }

  /**
   * The registers whose listed fields share a bit once a bare offset is two
   * bits wide.
   */
  const Overlapping: set<Config> :=
    {IOCFG1, IOCFG0, PKTCTRL1, MDMCFG2, MCSM2, MCSM0, FOCCFG, BSCFG, WORCTRL, TEST0}

  // One lemma per register settles its layout by evaluation; a lemma about a
  // symbolic register would unfold all 47 layouts at once.

  lemma FieldsOfIOCFG2()
    ensures Disjoint(Layout(IOCFG2))
  {
    ChainDescending(Layout(IOCFG2));
    DescendingDisjoint(Layout(IOCFG2));
  }

  lemma FieldsOfIOCFG1()
    ensures !Disjoint(Layout(IOCFG1))
  {
    assert !Apart(Layout(IOCFG1)[0], Layout(IOCFG1)[1]);
  }

  lemma IntendedFieldsOfIOCFG1()
    ensures Disjoint(IntendedLayout(Layout(IOCFG1)))
  {
    IntendedChainDisjoint(Layout(IOCFG1));
  }

  lemma FieldsOfIOCFG0()
    ensures !Disjoint(Layout(IOCFG0))
  {
    assert !Apart(Layout(IOCFG0)[0], Layout(IOCFG0)[1]);
  }

  lemma IntendedFieldsOfIOCFG0()
    ensures Disjoint(IntendedLayout(Layout(IOCFG0)))
  {
    IntendedChainDisjoint(Layout(IOCFG0));
  }

  lemma FieldsOfFIFOTHR()
    ensures Disjoint(Layout(FIFOTHR))
  {
    ChainDescending(Layout(FIFOTHR));
    DescendingDisjoint(Layout(FIFOTHR));
  }

  lemma FieldsOfSYNC1()
    ensures Disjoint(Layout(SYNC1))
  {
    ChainDescending(Layout(SYNC1));
    DescendingDisjoint(Layout(SYNC1));
  }

  lemma FieldsOfSYNC0()
    ensures Disjoint(Layout(SYNC0))
  {
    ChainDescending(Layout(SYNC0));
    DescendingDisjoint(Layout(SYNC0));
  }

  lemma FieldsOfPKTLEN()
    ensures Disjoint(Layout(PKTLEN))
  {
    ChainDescending(Layout(PKTLEN));
    DescendingDisjoint(Layout(PKTLEN));
  }

  lemma FieldsOfPKTCTRL1()
    ensures !Disjoint(Layout(PKTCTRL1))
  {
    assert !Apart(Layout(PKTCTRL1)[1], Layout(PKTCTRL1)[2]);
  }

  lemma IntendedFieldsOfPKTCTRL1()
    ensures Disjoint(IntendedLayout(Layout(PKTCTRL1)))
  {
    IntendedChainDisjoint(Layout(PKTCTRL1));
  }

  lemma FieldsOfPKTCTRL0()
    ensures Disjoint(Layout(PKTCTRL0))
  {
    ChainDescending(Layout(PKTCTRL0));
    DescendingDisjoint(Layout(PKTCTRL0));
  }

  lemma FieldsOfADDR()
    ensures Disjoint(Layout(ADDR))
  {
    ChainDescending(Layout(ADDR));
    DescendingDisjoint(Layout(ADDR));
  }

  lemma FieldsOfCHANNR()
    ensures Disjoint(Layout(CHANNR))
  {
    ChainDescending(Layout(CHANNR));
    DescendingDisjoint(Layout(CHANNR));
  }

  lemma FieldsOfFSCTRL1()
    ensures Disjoint(Layout(FSCTRL1))
  {
    ChainDescending(Layout(FSCTRL1));
    DescendingDisjoint(Layout(FSCTRL1));
  }

  lemma FieldsOfFSCTRL0()
    ensures Disjoint(Layout(FSCTRL0))
  {
    ChainDescending(Layout(FSCTRL0));
    DescendingDisjoint(Layout(FSCTRL0));
  }

  lemma FieldsOfFREQ2()
    ensures Disjoint(Layout(FREQ2))
  {
    ChainDescending(Layout(FREQ2));
    DescendingDisjoint(Layout(FREQ2));
  }

  lemma FieldsOfFREQ1()
    ensures Disjoint(Layout(FREQ1))
  {
    ChainDescending(Layout(FREQ1));
    DescendingDisjoint(Layout(FREQ1));
  }

  lemma FieldsOfFREQ0()
    ensures Disjoint(Layout(FREQ0))
  {
    ChainDescending(Layout(FREQ0));
    DescendingDisjoint(Layout(FREQ0));
  }

  lemma FieldsOfMDMCFG4()
    ensures Disjoint(Layout(MDMCFG4))
  {
    ChainDescending(Layout(MDMCFG4));
    DescendingDisjoint(Layout(MDMCFG4));
  }

  lemma FieldsOfMDMCFG3()
    ensures Disjoint(Layout(MDMCFG3))
  {
    ChainDescending(Layout(MDMCFG3));
    DescendingDisjoint(Layout(MDMCFG3));
  }

  lemma FieldsOfMDMCFG2()
    ensures !Disjoint(Layout(MDMCFG2))
  {
    assert !Apart(Layout(MDMCFG2)[1], Layout(MDMCFG2)[2]);
  }

  lemma IntendedFieldsOfMDMCFG2()
    ensures Disjoint(IntendedLayout(Layout(MDMCFG2)))
  {
    IntendedChainDisjoint(Layout(MDMCFG2));
  }

  lemma FieldsOfMDMCFG1()
    ensures Disjoint(Layout(MDMCFG1))
  {
    ChainDescending(Layout(MDMCFG1));
    DescendingDisjoint(Layout(MDMCFG1));
  }

  lemma FieldsOfMDMCFG0()
    ensures Disjoint(Layout(MDMCFG0))
  {
    ChainDescending(Layout(MDMCFG0));
    DescendingDisjoint(Layout(MDMCFG0));
  }

  lemma FieldsOfDEVIATN()
    ensures Disjoint(Layout(DEVIATN))
  {
    ChainDescending(Layout(DEVIATN));
    DescendingDisjoint(Layout(DEVIATN));
  }

  lemma FieldsOfMCSM2()
    ensures !Disjoint(Layout(MCSM2))
  {
    assert !Apart(Layout(MCSM2)[0], Layout(MCSM2)[1]);
  }

  lemma IntendedFieldsOfMCSM2()
    ensures Disjoint(IntendedLayout(Layout(MCSM2)))
  {
    IntendedChainDisjoint(Layout(MCSM2));
  }

  lemma FieldsOfMCSM1()
    ensures Disjoint(Layout(MCSM1))
  {
    ChainDescending(Layout(MCSM1));
    DescendingDisjoint(Layout(MCSM1));
  }

  lemma FieldsOfMCSM0()
    ensures !Disjoint(Layout(MCSM0))
  {
    assert !Apart(Layout(MCSM0)[1], Layout(MCSM0)[2]);
  }

  lemma IntendedFieldsOfMCSM0()
    ensures Disjoint(IntendedLayout(Layout(MCSM0)))
  {
    IntendedChainDisjoint(Layout(MCSM0));
  }

  lemma FieldsOfFOCCFG()
    ensures !Disjoint(Layout(FOCCFG))
  {
    assert !Apart(Layout(FOCCFG)[1], Layout(FOCCFG)[2]);
  }

  lemma IntendedFieldsOfFOCCFG()
    ensures Disjoint(IntendedLayout(Layout(FOCCFG)))
  {
    IntendedChainDisjoint(Layout(FOCCFG));
  }

  lemma FieldsOfBSCFG()
    ensures !Disjoint(Layout(BSCFG))
  {
    assert !Apart(Layout(BSCFG)[1], Layout(BSCFG)[2]);
  }

  lemma IntendedFieldsOfBSCFG()
    ensures Disjoint(IntendedLayout(Layout(BSCFG)))
  {
    IntendedChainDisjoint(Layout(BSCFG));
  }

  lemma FieldsOfAGCCTRL2()
    ensures Disjoint(Layout(AGCCTRL2))
  {
    ChainDescending(Layout(AGCCTRL2));
    DescendingDisjoint(Layout(AGCCTRL2));
  }

  lemma FieldsOfAGCCTRL1()
    ensures Disjoint(Layout(AGCCTRL1))
  {
    ChainDescending(Layout(AGCCTRL1));
    DescendingDisjoint(Layout(AGCCTRL1));
  }

  lemma FieldsOfAGCCTRL0()
    ensures Disjoint(Layout(AGCCTRL0))
  {
    ChainDescending(Layout(AGCCTRL0));
    DescendingDisjoint(Layout(AGCCTRL0));
  }

  lemma FieldsOfWOREVT1()
    ensures Disjoint(Layout(WOREVT1))
  {
    ChainDescending(Layout(WOREVT1));
    DescendingDisjoint(Layout(WOREVT1));
  }

  lemma FieldsOfWOREVT0()
    ensures Disjoint(Layout(WOREVT0))
  {
    ChainDescending(Layout(WOREVT0));
    DescendingDisjoint(Layout(WOREVT0));
  }

  lemma FieldsOfWORCTRL()
    ensures !Disjoint(Layout(WORCTRL))
  {
    assert !Apart(Layout(WORCTRL)[1], Layout(WORCTRL)[2]);
  }

  lemma IntendedFieldsOfWORCTRL()
    ensures Disjoint(IntendedLayout(Layout(WORCTRL)))
  {
    IntendedChainDisjoint(Layout(WORCTRL));
  }

  lemma FieldsOfFREND1()
    ensures Disjoint(Layout(FREND1))
  {
    ChainDescending(Layout(FREND1));
    DescendingDisjoint(Layout(FREND1));
  }

  lemma FieldsOfFREND0()
    ensures Disjoint(Layout(FREND0))
  {
    ChainDescending(Layout(FREND0));
    DescendingDisjoint(Layout(FREND0));
  }

  lemma FieldsOfFSCAL3()
    ensures Disjoint(Layout(FSCAL3))
  {
    ChainDescending(Layout(FSCAL3));
    DescendingDisjoint(Layout(FSCAL3));
  }

  lemma FieldsOfFSCAL2()
    ensures Disjoint(Layout(FSCAL2))
  {
    ChainDescending(Layout(FSCAL2));
    DescendingDisjoint(Layout(FSCAL2));
  }

  lemma FieldsOfFSCAL1()
    ensures Disjoint(Layout(FSCAL1))
  {
    ChainDescending(Layout(FSCAL1));
    DescendingDisjoint(Layout(FSCAL1));
  }

  lemma FieldsOfFSCAL0()
    ensures Disjoint(Layout(FSCAL0))
  {
    ChainDescending(Layout(FSCAL0));
    DescendingDisjoint(Layout(FSCAL0));
  }

  lemma FieldsOfRCCTRL1()
    ensures Disjoint(Layout(RCCTRL1))
  {
    ChainDescending(Layout(RCCTRL1));
    DescendingDisjoint(Layout(RCCTRL1));
  }

  lemma FieldsOfRCCTRL0()
    ensures Disjoint(Layout(RCCTRL0))
  {
    ChainDescending(Layout(RCCTRL0));
    DescendingDisjoint(Layout(RCCTRL0));
  }

  lemma FieldsOfFSTEST()
    ensures Disjoint(Layout(FSTEST))
  {
    ChainDescending(Layout(FSTEST));
    DescendingDisjoint(Layout(FSTEST));
  }

  lemma FieldsOfPTEST()
    ensures Disjoint(Layout(PTEST))
  {
    ChainDescending(Layout(PTEST));
    DescendingDisjoint(Layout(PTEST));
  }

  lemma FieldsOfAGCTEST()
    ensures Disjoint(Layout(AGCTEST))
  {
    ChainDescending(Layout(AGCTEST));
    DescendingDisjoint(Layout(AGCTEST));
  }

  lemma FieldsOfTEST2()
    ensures Disjoint(Layout(TEST2))
  {
    ChainDescending(Layout(TEST2));
    DescendingDisjoint(Layout(TEST2));
  }

  lemma FieldsOfTEST1()
    ensures Disjoint(Layout(TEST1))
  {
    ChainDescending(Layout(TEST1));
    DescendingDisjoint(Layout(TEST1));
  }

  lemma FieldsOfTEST0()
    ensures !Disjoint(Layout(TEST0))
  {
    assert !Apart(Layout(TEST0)[0], Layout(TEST0)[1]);
  }

  lemma IntendedFieldsOfTEST0()
    ensures Disjoint(IntendedLayout(Layout(TEST0)))
  {
    IntendedChainDisjoint(Layout(TEST0));
  }

  lemma FieldsInGroup0(c: Config)
    requires c == IOCFG2 || c == IOCFG1 || c == IOCFG0 || c == FIFOTHR || c == SYNC1 || c == SYNC0 || c == PKTLEN || c == PKTCTRL1
    ensures Disjoint(Layout(c)) <==> c !in Overlapping
    ensures Disjoint(IntendedLayout(Layout(c)))
  {
    if c == IOCFG2 {
      FieldsOfIOCFG2();
      IntendedKeepsDisjoint(Layout(IOCFG2));
    } else if c == IOCFG1 {
      FieldsOfIOCFG1();
      IntendedFieldsOfIOCFG1();
    } else if c == IOCFG0 {
      FieldsOfIOCFG0();
      IntendedFieldsOfIOCFG0();
    } else if c == FIFOTHR {
      FieldsOfFIFOTHR();
      IntendedKeepsDisjoint(Layout(FIFOTHR));
    } else if c == SYNC1 {
      FieldsOfSYNC1();
      IntendedKeepsDisjoint(Layout(SYNC1));
    } else if c == SYNC0 {
      FieldsOfSYNC0();
      IntendedKeepsDisjoint(Layout(SYNC0));
    } else if c == PKTLEN {
      FieldsOfPKTLEN();
      IntendedKeepsDisjoint(Layout(PKTLEN));
    } else {
      FieldsOfPKTCTRL1();
      IntendedFieldsOfPKTCTRL1();
    }
  }

  lemma FieldsInGroup1(c: Config)
    requires c == PKTCTRL0 || c == ADDR || c == CHANNR || c == FSCTRL1 || c == FSCTRL0 || c == FREQ2 || c == FREQ1 || c == FREQ0
    ensures Disjoint(Layout(c)) <==> c !in Overlapping
    ensures Disjoint(IntendedLayout(Layout(c)))
  {
    if c == PKTCTRL0 {
      FieldsOfPKTCTRL0();
      IntendedKeepsDisjoint(Layout(PKTCTRL0));
    } else if c == ADDR {
      FieldsOfADDR();
      IntendedKeepsDisjoint(Layout(ADDR));
    } else if c == CHANNR {
      FieldsOfCHANNR();
      IntendedKeepsDisjoint(Layout(CHANNR));
    } else if c == FSCTRL1 {
      FieldsOfFSCTRL1();
      IntendedKeepsDisjoint(Layout(FSCTRL1));
    } else if c == FSCTRL0 {
      FieldsOfFSCTRL0();
      IntendedKeepsDisjoint(Layout(FSCTRL0));
    } else if c == FREQ2 {
      FieldsOfFREQ2();
      IntendedKeepsDisjoint(Layout(FREQ2));
    } else if c == FREQ1 {
      FieldsOfFREQ1();
      IntendedKeepsDisjoint(Layout(FREQ1));
    } else {
      FieldsOfFREQ0();
      IntendedKeepsDisjoint(Layout(FREQ0));
    }
  }

  lemma FieldsInGroup2(c: Config)
    requires c == MDMCFG4 || c == MDMCFG3 || c == MDMCFG2 || c == MDMCFG1 || c == MDMCFG0 || c == DEVIATN || c == MCSM2 || c == MCSM1
    ensures Disjoint(Layout(c)) <==> c !in Overlapping
    ensures Disjoint(IntendedLayout(Layout(c)))
  {
    if c == MDMCFG4 {
      FieldsOfMDMCFG4();
      IntendedKeepsDisjoint(Layout(MDMCFG4));
    } else if c == MDMCFG3 {
      FieldsOfMDMCFG3();
      IntendedKeepsDisjoint(Layout(MDMCFG3));
    } else if c == MDMCFG2 {
      FieldsOfMDMCFG2();
      IntendedFieldsOfMDMCFG2();
    } else if c == MDMCFG1 {
      FieldsOfMDMCFG1();
      IntendedKeepsDisjoint(Layout(MDMCFG1));
    } else if c == MDMCFG0 {
      FieldsOfMDMCFG0();
      IntendedKeepsDisjoint(Layout(MDMCFG0));
    } else if c == DEVIATN {
      FieldsOfDEVIATN();
      IntendedKeepsDisjoint(Layout(DEVIATN));
    } else if c == MCSM2 {
      FieldsOfMCSM2();
      IntendedFieldsOfMCSM2();
    } else {
      FieldsOfMCSM1();
      IntendedKeepsDisjoint(Layout(MCSM1));
    }
  }

  lemma FieldsInGroup3(c: Config)
    requires c == MCSM0 || c == FOCCFG || c == BSCFG || c == AGCCTRL2 || c == AGCCTRL1 || c == AGCCTRL0 || c == WOREVT1 || c == WOREVT0
    ensures Disjoint(Layout(c)) <==> c !in Overlapping
    ensures Disjoint(IntendedLayout(Layout(c)))
  {
    if c == MCSM0 {
      FieldsOfMCSM0();
      IntendedFieldsOfMCSM0();
    } else if c == FOCCFG {
      FieldsOfFOCCFG();
      IntendedFieldsOfFOCCFG();
    } else if c == BSCFG {
      FieldsOfBSCFG();
      IntendedFieldsOfBSCFG();
    } else if c == AGCCTRL2 {
      FieldsOfAGCCTRL2();
      IntendedKeepsDisjoint(Layout(AGCCTRL2));
    } else if c == AGCCTRL1 {
      FieldsOfAGCCTRL1();
      IntendedKeepsDisjoint(Layout(AGCCTRL1));
    } else if c == AGCCTRL0 {
      FieldsOfAGCCTRL0();
      IntendedKeepsDisjoint(Layout(AGCCTRL0));
    } else if c == WOREVT1 {
      FieldsOfWOREVT1();
      IntendedKeepsDisjoint(Layout(WOREVT1));
    } else {
      FieldsOfWOREVT0();
      IntendedKeepsDisjoint(Layout(WOREVT0));
    }
  }

  lemma FieldsInGroup4(c: Config)
    requires c == WORCTRL || c == FREND1 || c == FREND0 || c == FSCAL3 || c == FSCAL2 || c == FSCAL1 || c == FSCAL0 || c == RCCTRL1
    ensures Disjoint(Layout(c)) <==> c !in Overlapping
    ensures Disjoint(IntendedLayout(Layout(c)))
  {
    if c == WORCTRL {
      FieldsOfWORCTRL();
      IntendedFieldsOfWORCTRL();
    } else if c == FREND1 {
      FieldsOfFREND1();
      IntendedKeepsDisjoint(Layout(FREND1));
    } else if c == FREND0 {
      FieldsOfFREND0();
      IntendedKeepsDisjoint(Layout(FREND0));
    } else if c == FSCAL3 {
      FieldsOfFSCAL3();
      IntendedKeepsDisjoint(Layout(FSCAL3));
    } else if c == FSCAL2 {
      FieldsOfFSCAL2();
      IntendedKeepsDisjoint(Layout(FSCAL2));
    } else if c == FSCAL1 {
      FieldsOfFSCAL1();
      IntendedKeepsDisjoint(Layout(FSCAL1));
    } else if c == FSCAL0 {
      FieldsOfFSCAL0();
      IntendedKeepsDisjoint(Layout(FSCAL0));
    } else {
      FieldsOfRCCTRL1();
      IntendedKeepsDisjoint(Layout(RCCTRL1));
    }
  }

  lemma FieldsInGroup5(c: Config)
    requires c == RCCTRL0 || c == FSTEST || c == PTEST || c == AGCTEST || c == TEST2 || c == TEST1 || c == TEST0
    ensures Disjoint(Layout(c)) <==> c !in Overlapping
    ensures Disjoint(IntendedLayout(Layout(c)))
  {
    if c == RCCTRL0 {
      FieldsOfRCCTRL0();
      IntendedKeepsDisjoint(Layout(RCCTRL0));
    } else if c == FSTEST {
      FieldsOfFSTEST();
      IntendedKeepsDisjoint(Layout(FSTEST));
    } else if c == PTEST {
      FieldsOfPTEST();
      IntendedKeepsDisjoint(Layout(PTEST));
    } else if c == AGCTEST {
      FieldsOfAGCTEST();
      IntendedKeepsDisjoint(Layout(AGCTEST));
    } else if c == TEST2 {
      FieldsOfTEST2();
      IntendedKeepsDisjoint(Layout(TEST2));
    } else if c == TEST1 {
      FieldsOfTEST1();
      IntendedKeepsDisjoint(Layout(TEST1));
    } else {
      FieldsOfTEST0();
      IntendedFieldsOfTEST0();
    }
  }

  /**
   * As written, exactly the ten `Overlapping` registers list fields that
   * share a bit; read as intended, no register does.
   */
  lemma FieldsDisjoint(c: Config)
    ensures Disjoint(Layout(c)) <==> c !in Overlapping
    ensures Disjoint(IntendedLayout(Layout(c)))
  {
    if c == IOCFG2 || c == IOCFG1 || c == IOCFG0 || c == FIFOTHR || c == SYNC1 || c == SYNC0 || c == PKTLEN || c == PKTCTRL1 {
      FieldsInGroup0(c);
    } else if c == PKTCTRL0 || c == ADDR || c == CHANNR || c == FSCTRL1 || c == FSCTRL0 || c == FREQ2 || c == FREQ1 || c == FREQ0 {
      FieldsInGroup1(c);
    } else if c == MDMCFG4 || c == MDMCFG3 || c == MDMCFG2 || c == MDMCFG1 || c == MDMCFG0 || c == DEVIATN || c == MCSM2 || c == MCSM1 {
      FieldsInGroup2(c);
    } else if c == MCSM0 || c == FOCCFG || c == BSCFG || c == AGCCTRL2 || c == AGCCTRL1 || c == AGCCTRL0 || c == WOREVT1 || c == WOREVT0 {
      FieldsInGroup3(c);
    } else if c == WORCTRL || c == FREND1 || c == FREND0 || c == FSCAL3 || c == FSCAL2 || c == FSCAL1 || c == FSCAL0 || c == RCCTRL1 {
      FieldsInGroup4(c);
    } else {
      FieldsInGroup5(c);
    }
  }
  lemma FromBaseChunk0(b: Byte)
    requires 0x00 <= b <= 0x03
    ensures FromBase(b).Some? && Base(FromBase(b).value) == b
  {
    if b == 0x00 {
      assert FromBase(0x00) == Some(IOCFG2);
    } else if b == 0x01 {
      assert FromBase(0x01) == Some(IOCFG1);
    } else if b == 0x02 {
      assert FromBase(0x02) == Some(IOCFG0);
    } else {
      assert FromBase(0x03) == Some(FIFOTHR);
    }
  }

  lemma FromBaseChunk1(b: Byte)
    requires 0x04 <= b <= 0x07
    ensures FromBase(b).Some? && Base(FromBase(b).value) == b
  {
    if b == 0x04 {
      assert FromBase(0x04) == Some(SYNC1);
    } else if b == 0x05 {
      assert FromBase(0x05) == Some(SYNC0);
    } else if b == 0x06 {
      assert FromBase(0x06) == Some(PKTLEN);
    } else {
      assert FromBase(0x07) == Some(PKTCTRL1);
    }
  }

  lemma FromBaseChunk2(b: Byte)
    requires 0x08 <= b <= 0x0B
    ensures FromBase(b).Some? && Base(FromBase(b).value) == b
  {
    if b == 0x08 {
      assert FromBase(0x08) == Some(PKTCTRL0);
    } else if b == 0x09 {
      assert FromBase(0x09) == Some(ADDR);
    } else if b == 0x0A {
      assert FromBase(0x0A) == Some(CHANNR);
    } else {
      assert FromBase(0x0B) == Some(FSCTRL1);
    }
  }

  lemma FromBaseChunk3(b: Byte)
    requires 0x0C <= b <= 0x0F
    ensures FromBase(b).Some? && Base(FromBase(b).value) == b
  {
    if b == 0x0C {
      assert FromBase(0x0C) == Some(FSCTRL0);
    } else if b == 0x0D {
      assert FromBase(0x0D) == Some(FREQ2);
    } else if b == 0x0E {
      assert FromBase(0x0E) == Some(FREQ1);
    } else {
      assert FromBase(0x0F) == Some(FREQ0);
    }
  }

  lemma FromBaseChunk4(b: Byte)
    requires 0x10 <= b <= 0x13
    ensures FromBase(b).Some? && Base(FromBase(b).value) == b
  {
    if b == 0x10 {
      assert FromBase(0x10) == Some(MDMCFG4);
    } else if b == 0x11 {
      assert FromBase(0x11) == Some(MDMCFG3);
    } else if b == 0x12 {
      assert FromBase(0x12) == Some(MDMCFG2);
    } else {
      assert FromBase(0x13) == Some(MDMCFG1);
    }
  }

  lemma FromBaseChunk5(b: Byte)
    requires 0x14 <= b <= 0x17
    ensures FromBase(b).Some? && Base(FromBase(b).value) == b
  {
    if b == 0x14 {
      assert FromBase(0x14) == Some(MDMCFG0);
    } else if b == 0x15 {
      assert FromBase(0x15) == Some(DEVIATN);
    } else if b == 0x16 {
      assert FromBase(0x16) == Some(MCSM2);
    } else {
      assert FromBase(0x17) == Some(MCSM1);
    }
  }

  lemma FromBaseChunk6(b: Byte)
    requires 0x18 <= b <= 0x1B
    ensures FromBase(b).Some? && Base(FromBase(b).value) == b
  {
    if b == 0x18 {
      assert FromBase(0x18) == Some(MCSM0);
    } else if b == 0x19 {
      assert FromBase(0x19) == Some(FOCCFG);
    } else if b == 0x1A {
      assert FromBase(0x1A) == Some(BSCFG);
    } else {
      assert FromBase(0x1B) == Some(AGCCTRL2);
    }
  }

  lemma FromBaseChunk7(b: Byte)
    requires 0x1C <= b <= 0x1F
    ensures FromBase(b).Some? && Base(FromBase(b).value) == b
  {
    if b == 0x1C {
      assert FromBase(0x1C) == Some(AGCCTRL1);
    } else if b == 0x1D {
      assert FromBase(0x1D) == Some(AGCCTRL0);
    } else if b == 0x1E {
      assert FromBase(0x1E) == Some(WOREVT1);
    } else {
      assert FromBase(0x1F) == Some(WOREVT0);
    }
  }

  lemma FromBaseChunk8(b: Byte)
    requires 0x20 <= b <= 0x23
    ensures FromBase(b).Some? && Base(FromBase(b).value) == b
  {
    if b == 0x20 {
      assert FromBase(0x20) == Some(WORCTRL);
    } else if b == 0x21 {
      assert FromBase(0x21) == Some(FREND1);
    } else if b == 0x22 {
      assert FromBase(0x22) == Some(FREND0);
    } else {
      assert FromBase(0x23) == Some(FSCAL3);
    }
  }

  lemma FromBaseChunk9(b: Byte)
    requires 0x24 <= b <= 0x27
    ensures FromBase(b).Some? && Base(FromBase(b).value) == b
  {
    if b == 0x24 {
      assert FromBase(0x24) == Some(FSCAL2);
    } else if b == 0x25 {
      assert FromBase(0x25) == Some(FSCAL1);
    } else if b == 0x26 {
      assert FromBase(0x26) == Some(FSCAL0);
    } else {
      assert FromBase(0x27) == Some(RCCTRL1);
    }
  }

  lemma FromBaseChunk10(b: Byte)
    requires 0x28 <= b <= 0x2B
    ensures FromBase(b).Some? && Base(FromBase(b).value) == b
  {
    if b == 0x28 {
      assert FromBase(0x28) == Some(RCCTRL0);
    } else if b == 0x29 {
      assert FromBase(0x29) == Some(FSTEST);
    } else if b == 0x2A {
      assert FromBase(0x2A) == Some(PTEST);
    } else {
      assert FromBase(0x2B) == Some(AGCTEST);
    }
  }

  lemma FromBaseChunk11(b: Byte)
    requires 0x2C <= b <= 0x2E
    ensures FromBase(b).Some? && Base(FromBase(b).value) == b
  {
    if b == 0x2C {
      assert FromBase(0x2C) == Some(TEST2);
    } else if b == 0x2D {
      assert FromBase(0x2D) == Some(TEST1);
    } else {
      assert FromBase(0x2E) == Some(TEST0);
    }
  }
  /** Every base up to 0x2E names the register whose base it is, and no other byte names one. */
  lemma FromBaseRoundTrip(b: Byte)
    ensures FromBase(b).Some? <==> b <= 0x2E
    ensures FromBase(b).Some? ==> Base(FromBase(b).value) == b
  {
    if b <= 0x03 {
      FromBaseChunk0(b);
    } else if b <= 0x07 {
      FromBaseChunk1(b);
    } else if b <= 0x0B {
      FromBaseChunk2(b);
    } else if b <= 0x0F {
      FromBaseChunk3(b);
    } else if b <= 0x13 {
      FromBaseChunk4(b);
    } else if b <= 0x17 {
      FromBaseChunk5(b);
    } else if b <= 0x1B {
      FromBaseChunk6(b);
    } else if b <= 0x1F {
      FromBaseChunk7(b);
    } else if b <= 0x23 {
      FromBaseChunk8(b);
    } else if b <= 0x27 {
      FromBaseChunk9(b);
    } else if b <= 0x2B {
      FromBaseChunk10(b);
    } else if b <= 0x2E {
      FromBaseChunk11(b);
    }
  }
}
