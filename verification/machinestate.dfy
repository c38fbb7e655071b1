/**
 * The main radio control state machine states of
 * src/lowlevel/types/machine_state.rs, and the decoding of MARCSTATE's
 * `marc_state` field that `get_machine_state` performs (src/lib.rs).
 */
module MachineStates {
  import opened Wrappers

  datatype MachineState =
      SLEEP | IDLE | XOFF | VCOON_MC | REGON_MC | MANCAL
    | VCOON | REGON | STARTCAL | BWBOOST | FS_LOCK | IFADCON
    | ENDCAL | RX | RX_END | RX_RST | TXRX_SWITCH | RXFIFO_OVERFLOW
    | FSTXON | TX | TX_END | RXTX_SWITCH | TXFIFO_UNDERFLOW

  /** `MachineState::value`: the discriminant. */
  function Value(s: MachineState): Byte {
    match s
    case SLEEP => 0x00
    case IDLE => 0x01
    case XOFF => 0x02
    case VCOON_MC => 0x03
    case REGON_MC => 0x04
    case MANCAL => 0x05
    case VCOON => 0x06
    case REGON => 0x07
    case STARTCAL => 0x08
    case BWBOOST => 0x09
    case FS_LOCK => 0x0A
    case IFADCON => 0x0B
    case ENDCAL => 0x0C
    case RX => 0x0D
    case RX_END => 0x0E
    case RX_RST => 0x0F
    case TXRX_SWITCH => 0x10
    case RXFIFO_OVERFLOW => 0x11
    case FSTXON => 0x12
    case TX => 0x13
    case TX_END => 0x14
    case RXTX_SWITCH => 0x15
    case TXFIFO_UNDERFLOW => 0x16
  }

  /**
   * `MachineState::try_from`, as `get_machine_state` uses it: a value up to
   * 0x16 names a state; any other value is returned as the error
   * `InvalidState(v)`, unchanged.
   */
  function TryFrom(v: Byte): Result<MachineState, Byte> {
    if v > 0x16 then Failure(v)
    else if v == 0x00 then Success(SLEEP)
    else if v == 0x01 then Success(IDLE)
    else if v == 0x02 then Success(XOFF)
    else if v == 0x03 then Success(VCOON_MC)
    else if v == 0x04 then Success(REGON_MC)
    else if v == 0x05 then Success(MANCAL)
    else if v == 0x06 then Success(VCOON)
    else if v == 0x07 then Success(REGON)
    else if v == 0x08 then Success(STARTCAL)
    else if v == 0x09 then Success(BWBOOST)
    else if v == 0x0A then Success(FS_LOCK)
    else if v == 0x0B then Success(IFADCON)
    else if v == 0x0C then Success(ENDCAL)
    else if v == 0x0D then Success(RX)
    else if v == 0x0E then Success(RX_END)
    else if v == 0x0F then Success(RX_RST)
    else if v == 0x10 then Success(TXRX_SWITCH)
    else if v == 0x11 then Success(RXFIFO_OVERFLOW)
    else if v == 0x12 then Success(FSTXON)
    else if v == 0x13 then Success(TX)
    else if v == 0x14 then Success(TX_END)
    else if v == 0x15 then Success(RXTX_SWITCH)
    else Success(TXFIFO_UNDERFLOW)
  }

  /** The discriminants are 0x00..0x16, and decoding a discriminant gives its state back. */
  lemma ValueRoundTrip(s: MachineState)
    ensures Value(s) <= 0x16
    ensures TryFrom(Value(s)) == Success(s)
  {
  }

  /** A value decodes to a state exactly when it is at most 0x16, and then to the state with that discriminant; otherwise the error carries the value. */
  lemma TryFromRoundTrip(v: Byte)
    ensures TryFrom(v).Success? <==> v <= 0x16
    ensures TryFrom(v).Success? ==> Value(TryFrom(v).value) == v
    ensures TryFrom(v).Failure? ==> TryFrom(v).error == v
  {
  }

  /** Distinct states have distinct discriminants. */
  lemma ValueInjective(s: MachineState, t: MachineState)
    requires Value(s) == Value(t)
    ensures s == t
  {
    ValueRoundTrip(s);
    ValueRoundTrip(t);
  }
}
