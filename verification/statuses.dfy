/**
 * The read-only status registers of src/lowlevel/registers/status.rs: the 14
 * base addresses 0x30..0x3D, `Status::addr`, and the layouts the driver
 * decodes — the flag-and-count bytes LQI, TXBYTES and RXBYTES, the state
 * number in MARCSTATE, and the flags of PKTSTATUS.
 */
module Statuses {
  import opened Wrappers
  import opened Traits
  import opened Layouts
  import Access
  import BitField

  datatype Status =
      PARTNUM | VERSION | FREQEST | LQI | RSSI | MARCSTATE | WORTIME1
    | WORTIME0 | PKTSTATUS | VCO_VC_DAC | TXBYTES | RXBYTES
    | RCCTRL1_STATUS | RCCTRL0_STATUS

  /** The enum discriminant, i.e. the register's base address. */
  function Base(s: Status): Byte {
    match s
    case PARTNUM => 0x30
    case VERSION => 0x31
    case FREQEST => 0x32
    case LQI => 0x33
    case RSSI => 0x34
    case MARCSTATE => 0x35
    case WORTIME1 => 0x36
    case WORTIME0 => 0x37
    case PKTSTATUS => 0x38
    case VCO_VC_DAC => 0x39
    case TXBYTES => 0x3A
    case RXBYTES => 0x3B
    case RCCTRL1_STATUS => 0x3C
    case RCCTRL0_STATUS => 0x3D
  }

  /** The status register at a base address, if any. */
  function FromBase(b: Byte): Option<Status> {
    if b < 0x30 || b > 0x3D then None
    else if b == 0x30 then Some(PARTNUM)
    else if b == 0x31 then Some(VERSION)
    else if b == 0x32 then Some(FREQEST)
    else if b == 0x33 then Some(LQI)
    else if b == 0x34 then Some(RSSI)
    else if b == 0x35 then Some(MARCSTATE)
    else if b == 0x36 then Some(WORTIME1)
    else if b == 0x37 then Some(WORTIME0)
    else if b == 0x38 then Some(PKTSTATUS)
    else if b == 0x39 then Some(VCO_VC_DAC)
    else if b == 0x3A then Some(TXBYTES)
    else if b == 0x3B then Some(RXBYTES)
    else if b == 0x3C then Some(RCCTRL1_STATUS)
    else Some(RCCTRL0_STATUS)
  }

  /** The bases are 0x30..0x3D, and `FromBase` inverts `Base`. */
  lemma BaseRoundTrip(s: Status)
    ensures 0x30 <= Base(s) <= 0x3D
    ensures FromBase(Base(s)) == Some(s)
  {
  }

  /** Every byte in 0x30..0x3D is the base of the register `FromBase` names, and no other byte names one. */
  lemma FromBaseRoundTrip(b: Byte)
    ensures FromBase(b).Some? <==> 0x30 <= b <= 0x3D
    ensures FromBase(b).Some? ==> Base(FromBase(b).value) == b
  {
  }

  /** Distinct status registers have distinct bases. */
  lemma BaseInjective(s: Status, t: Status)
    requires Base(s) == Base(t)
    ensures s == t
  {
    BaseRoundTrip(s);
    BaseRoundTrip(t);
  }

  /** `Status::addr`: the header byte `access | mode | base`. */
  function Addr(s: Status, d: Access.Direction, m: Access.Mode): Byte {
    Access.Header(d, m, Base(s))
  }

  /** The header's low six bits are the base; bits 7 and 6 are direction and mode. */
  lemma AddrFields(s: Status, d: Access.Direction, m: Access.Mode)
    ensures Access.DecodeHeader(Addr(s, d, m)) == (d, m, Base(s))
    ensures Addr(s, d, m) & 0x3F == Base(s)
  {
    BaseRoundTrip(s);
    Access.DecodeHeaderInverse(d, m, Base(s));
  }

  /** The reset values of the status tables: every one is zero except VERSION's 0x14. */
  function Reset(s: Status): (r: Byte)
    ensures r != 0 <==> s == VERSION
    ensures s == VERSION ==> r == 0x14
  {
    match s
    case VERSION => 0x14
    case _ => 0x00
  }

  /** The fields each `register!` invocation lists, in source order. */
  function Layout(s: Status): seq<FieldPos> {
    match s
    // partnum
    case PARTNUM => [Span(0, 7)]
    // version
    case VERSION => [Span(0, 7)]
    // freqoff_est
    case FREQEST => [Span(0, 7)]
    // crc_ok, lqi
    case LQI => [Bit(7), Span(0, 6)]
    // rssi
    case RSSI => [Span(0, 7)]
    // marc_state
    case MARCSTATE => [Span(0, 4)]
    // time
    case WORTIME1 => [Span(0, 7)]
    // time
    case WORTIME0 => [Span(0, 7)]
    // crc_ok, cs, pqt_reached, cca, sfd, gdo2, gdo0
    case PKTSTATUS => [Bit(7), Bit(6), Bit(5), Bit(4), Bit(3), Bit(2), Bit(0)]
    // vco_vc_dac
    case VCO_VC_DAC => [Span(0, 7)]
    // txfifo_underflow, num_txbytes
    case TXBYTES => [Bit(7), Span(0, 6)]
    // rxfifo_overflow, num_rxbytes
    case RXBYTES => [Bit(7), Span(0, 6)]
    // rcctrl1_status
    case RCCTRL1_STATUS => [Span(0, 6)]
    // rcctrl0_status
    case RCCTRL0_STATUS => [Span(0, 6)]
  }

  // The field positions the decoders use.

  /** `crc_ok`, `txfifo_underflow`, `rxfifo_overflow`: bit 7 of LQI, TXBYTES, RXBYTES. */
  const TopFlag: FieldPos := Bit(7)

  /** `lqi`, `num_txbytes`, `num_rxbytes`: bits 0..6 of LQI, TXBYTES, RXBYTES. */
  const Count: FieldPos := Span(0, 6)

  /** `marc_state`: bits 0..4 of MARCSTATE. */
  const MarcState: FieldPos := Span(0, 4)

  /**
   * The flag is exactly bit 7: at bit 7 the two-bit mask of a bare offset
   * loses its upper bit.
   */
  lemma TopFlagBit(b: Byte)
    ensures BitField.Read(b, TopFlag) == b >> 7
  {
    BitField.ShrConst(b);
    assert BitField.Read(b, TopFlag) == (b >> 7) & BitField.Ones(2);
  }

  lemma CountBits(b: Byte)
    ensures BitField.Read(b, Count) == b & 0x7F
  {
    assert BitField.Read(b, Count) == b & BitField.Ones(7);
  }

  /**
   * A flag-and-count byte splits into bit 7 and bits 0..6: the count is at
   * most 127 and never includes the flag, and the two together rebuild the
   * byte.
   */
  lemma FlagAndCount(b: Byte)
    ensures BitField.Read(b, TopFlag) <= 1
    ensures BitField.Read(b, TopFlag) == 1 <==> b & 0x80 != 0
    ensures BitField.Read(b, Count) <= 127
    ensures BitField.Read(b, Count) & 0x80 == 0
    ensures (BitField.Read(b, TopFlag) << 7) | BitField.Read(b, Count) == b
  {
    TopFlagBit(b);
    CountBits(b);
  }

  /** `marc_state` is the low five bits of MARCSTATE, so at most 31. */
  lemma MarcStateBits(b: Byte)
    ensures BitField.Read(b, MarcState) == b & 0x1F
    ensures BitField.Read(b, MarcState) <= 31
  {
  }

  /** The LQI, TXBYTES and RXBYTES tables list exactly the flag and the count. */
  lemma FlagAndCountLayouts()
    ensures Layout(LQI) == [TopFlag, Count]
    ensures Layout(TXBYTES) == [TopFlag, Count]
    ensures Layout(RXBYTES) == [TopFlag, Count]
    ensures Layout(MARCSTATE) == [MarcState]
  {
  }

  /**
   * As written, PKTSTATUS's bare-offset flags overlap their upper
   * neighbours: `cs` at 6 also covers bit 7, which is `crc_ok`.
   */
  lemma PacketStatusFieldsOverlap()
    ensures !Disjoint(Layout(PKTSTATUS))
  {
    assert !Apart(Layout(PKTSTATUS)[0], Layout(PKTSTATUS)[1]);
  }

  /** Read as single bits, the PKTSTATUS flags are separate. */
  lemma PacketStatusFieldsIntended()
    ensures Disjoint(IntendedLayout(Layout(PKTSTATUS)))
  {
    IntendedChainDisjoint(Layout(PKTSTATUS));
  }
}
