/**
 * The chip status byte of src/lowlevel/registers/status_byte.rs: the first
 * byte the chip returns on every SPI access.  Bit 7 is CHIP_RDYn, bits 4..6
 * the main state, bits 0..3 the FIFO byte count.
 */
module StatusBytes {
  import opened Wrappers
  import opened Traits
  import opened Layouts
  import BitField

  /** `State`: the main state machine mode the status byte reports. */
  datatype State =
      IDLE | RX | TX | FSTXON | CALIBRATE | SETTLING
    | RXFIFO_OVERFLOW | TXFIFO_UNDERFLOW

  /** The discriminant of a state. */
  function Value(s: State): Byte {
    match s
    case IDLE => 0x0
    case RX => 0x1
    case TX => 0x2
    case FSTXON => 0x3
    case CALIBRATE => 0x4
    case SETTLING => 0x5
    case RXFIFO_OVERFLOW => 0x6
    case TXFIFO_UNDERFLOW => 0x7
  }

  /** `State::from`: `None` stands for the `panic!` on a value above 7. */
  function StateFrom(v: Byte): (r: Option<State>)
    ensures r.Some? <==> v <= 7
    ensures r.Some? ==> Value(r.value) == v
  {
    if v == 0x0 then Some(IDLE)
    else if v == 0x1 then Some(RX)
    else if v == 0x2 then Some(TX)
    else if v == 0x3 then Some(FSTXON)
    else if v == 0x4 then Some(CALIBRATE)
    else if v == 0x5 then Some(SETTLING)
    else if v == 0x6 then Some(RXFIFO_OVERFLOW)
    else if v == 0x7 then Some(TXFIFO_UNDERFLOW)
    else None
  }

  /** Decoding a state's discriminant gives the state back, so `State::from` is a bijection from 0..7 onto the states. */
  lemma StateRoundTrip(s: State)
    ensures Value(s) <= 7
    ensures StateFrom(Value(s)) == Some(s)
  {
  }

  lemma ValueInjective(s: State, t: State)
    requires Value(s) == Value(t)
    ensures s == t
  {
    StateRoundTrip(s);
    StateRoundTrip(t);
  }

  /** The reset value of the `STATUS_BYTE` table. */
  const Reset: Byte := 0x80

  /** `chip_rdyn`, `state`, `fifo_bytes_available`. */
  const ChipRdyn: FieldPos := Bit(7)
  const StateField: FieldPos := Span(4, 6)
  const FifoBytes: FieldPos := Span(0, 3)

  /** The `STATUS_BYTE` table, in source order. */
  const Layout: seq<FieldPos> := [ChipRdyn, StateField, FifoBytes]

  /** The three fields of the status byte occupy separate bits, even as written. */
  lemma LayoutDisjoint()
    ensures Disjoint(Layout)
  {
    ChainDescending(Layout);
    DescendingDisjoint(Layout);
  }

  lemma ReadChipRdyn(b: Byte)
    ensures BitField.Read(b, ChipRdyn) == b >> 7
  {
    BitField.ShrConst(b);
    assert BitField.Read(b, ChipRdyn) == (b >> 7) & BitField.Ones(2);
  }

  lemma ReadState(b: Byte)
    ensures BitField.Read(b, StateField) == (b >> 4) & 7
  {
    BitField.ShrConst(b);
    assert BitField.Read(b, StateField) == (b >> 4) & BitField.Ones(3);
  }

  lemma ReadFifoBytes(b: Byte)
    ensures BitField.Read(b, FifoBytes) == b & 0x0F
  {
    assert BitField.Read(b, FifoBytes) == b & BitField.Ones(4);
  }

  /** `StatusByte`. */
  datatype StatusByte = StatusByte(chipRdy: bool, state: State, fifoBytesAvailable: Byte)

  /**
   * `StatusByte::from`: total over all 256 bytes.  The state field is three
   * bits wide, so the `panic!` arm of `State::from` is never reached.
   */
  function Decode(b: Byte): (r: StatusByte)
    ensures r.chipRdy <==> b & 0x80 == 0
    ensures Value(r.state) == (b >> 4) & 7
    ensures r.fifoBytesAvailable == b & 0x0F
    ensures r.fifoBytesAvailable <= 15
  {
    ReadChipRdyn(b);
    ReadState(b);
    ReadFifoBytes(b);
    StatusByte(
      BitField.Read(b, ChipRdyn) == 0,
      StateFrom(BitField.Read(b, StateField)).value,
      BitField.Read(b, FifoBytes))
  }

  /** The byte a status describes: the inverse of `Decode`. */
  function Encode(s: StatusByte): Byte {
    (if s.chipRdy then 0x00 else 0x80) | (Value(s.state) << 4) | (s.fifoBytesAvailable & 0x0F)
  }

  /** Every byte is the encoding of its decoding. */
  lemma EncodeDecode(b: Byte)
    ensures Encode(Decode(b)) == b
  {
    var r := Decode(b);
    assert Value(r.state) << 4 == b & 0x70;
  }

  /** Every status with a FIFO count below 16 is the decoding of its encoding. */
  lemma DecodeEncode(s: StatusByte)
    requires s.fifoBytesAvailable <= 15
    ensures Decode(Encode(s)) == s
  {
    var b := Encode(s);
    var r := Decode(b);
    StateRoundTrip(s.state);
    assert (b >> 4) & 7 == Value(s.state);
    ValueInjective(r.state, s.state);
  }

  /** The reset value decodes to the derived `Default`: chip not ready, IDLE, no bytes. */
  lemma DecodeReset()
    ensures Decode(Reset) == StatusByte(false, IDLE, 0)
  {
    var r := Decode(Reset);
    ValueInjective(r.state, IDLE);
  }
}
