/**
 * The high-level driver of src/lib.rs: the status reads, the two poll
 * loops on MARCSTATE and RXBYTES, and `set_radio_mode` built on them.  Each operation takes the chip oracle and
 * the trace so far and returns its outcome with the extended trace.
 */
module Driver {
  import opened Wrappers
  import opened LowLevel
  import opened Errors
  import Polls
  import Commands
  import Statuses
  import Encoders
  import BitField
  import MachineStates
  import PacketStatuses
  import Rssi

  // ---------------------------------------------------------------------
  // Status reads
  // ---------------------------------------------------------------------

  /** The frame reading a status register. */
  function StatusRead(s: Statuses.Status): Frame {
    ReadFrame(Encoders.LegacyStatus(s))
  }

  /** The byte the chip returns for a status read issued after `tr`. */
  function StatusReply(chip: Chip, tr: Trace, s: Statuses.Status): Byte {
    ReadReply(chip, tr, Encoders.LegacyStatus(s))
  }

  /** The transport error a status read issued after `tr` meets, if any. */
  function StatusFault(chip: Chip, tr: Trace, s: Statuses.Status): Option<SpiError> {
    chip.fault(tr, StatusRead(s).mosi)
  }

  /** `get_hw_info`: PARTNUM, then VERSION. */
  function GetHwInfo(chip: Chip, tr: Trace): (r: Run<(Byte, Byte)>)
    ensures StatusFault(chip, tr, Statuses.PARTNUM).Some? ==>
      r == Run(Failure(Spi(StatusFault(chip, tr, Statuses.PARTNUM).value)), tr + [StatusRead(Statuses.PARTNUM)])
    ensures r.result.Success? ==>
      var t1 := tr + [StatusRead(Statuses.PARTNUM)];
      r.trace == t1 + [StatusRead(Statuses.VERSION)]
      && r.result.value == (StatusReply(chip, tr, Statuses.PARTNUM), StatusReply(chip, t1, Statuses.VERSION))
  {
    var p := ReadRegister(chip, tr, Encoders.LegacyStatus(Statuses.PARTNUM));
    match p.result
    case Failure(e) => Run(Failure(Spi(e)), p.trace)
    case Success(partnum) =>
      var v := ReadRegister(chip, p.trace, Encoders.LegacyStatus(Statuses.VERSION));
      match v.result
      case Failure(e) => Run(Failure(Spi(e)), v.trace)
      case Success(version) => Run(Success((partnum, version)), v.trace)
  }

  /** `get_lqi`: the LQI estimate without the CRC flag in bit 7. */
  function GetLqi(chip: Chip, tr: Trace): (r: Run<Byte>)
    ensures r.trace == tr + [StatusRead(Statuses.LQI)]
    ensures r.result.Failure? <==> StatusFault(chip, tr, Statuses.LQI).Some?
    ensures r.result.Failure? ==> r.result.error == Spi(StatusFault(chip, tr, Statuses.LQI).value)
    ensures r.result.Success? ==> r.result.value == StatusReply(chip, tr, Statuses.LQI) & 0x7F
    ensures r.result.Success? ==> r.result.value <= 127
  {
    var s := ReadRegister(chip, tr, Encoders.LegacyStatus(Statuses.LQI));
    match s.result
    case Failure(e) => Run(Failure(Spi(e)), s.trace)
    case Success(b) =>
      Statuses.CountBits(b);
      Run(Success(BitField.Read(b, Statuses.Count)), s.trace)
  }

  /**
   * `get_rssi_dbm`: the RSSI byte in dBm, within the chip's range.  The
   * `from_rssi_to_rssi_dbm` it calls is defined nowhere in src/; it is taken
   * to be `rssi_to_dbm` of src/rssi.rs.
   */
  function GetRssiDbm(chip: Chip, tr: Trace): (r: Run<int>)
    ensures r.trace == tr + [StatusRead(Statuses.RSSI)]
    ensures r.result.Failure? <==> StatusFault(chip, tr, Statuses.RSSI).Some?
    ensures r.result.Success? ==> r.result.value == Rssi.ToDbm(StatusReply(chip, tr, Statuses.RSSI))
    ensures r.result.Success? ==> -138 <= r.result.value <= -11
  {
    var s := ReadRegister(chip, tr, Encoders.LegacyStatus(Statuses.RSSI));
    match s.result
    case Failure(e) => Run(Failure(Spi(e)), s.trace)
    case Success(b) =>
      Rssi.ToDbmRange(b);
      Run(Success(Rssi.ToDbm(b)), s.trace)
  }

  /**
   * `get_machine_state`: the low five bits of MARCSTATE name a state when at
   * most 0x16; any other value comes back as `InvalidState` with the value.
   */
  function GetMachineState(chip: Chip, tr: Trace): (r: Run<MachineStates.MachineState>)
    ensures r.trace == tr + [StatusRead(Statuses.MARCSTATE)]
    ensures StatusFault(chip, tr, Statuses.MARCSTATE).Some? ==>
      r.result == Failure(Spi(StatusFault(chip, tr, Statuses.MARCSTATE).value))
    ensures StatusFault(chip, tr, Statuses.MARCSTATE).None? ==>
      (r.result.Success? <==> StatusReply(chip, tr, Statuses.MARCSTATE) & 0x1F <= 0x16)
    ensures r.result.Success? ==>
      MachineStates.Value(r.result.value) == StatusReply(chip, tr, Statuses.MARCSTATE) & 0x1F
    ensures StatusFault(chip, tr, Statuses.MARCSTATE).None? && r.result.Failure? ==>
      r.result.error == InvalidState(StatusReply(chip, tr, Statuses.MARCSTATE) & 0x1F)
  {
    var s := ReadRegister(chip, tr, Encoders.LegacyStatus(Statuses.MARCSTATE));
    match s.result
    case Failure(e) => Run(Failure(Spi(e)), s.trace)
    case Success(b) =>
      var v := BitField.Read(b, Statuses.MarcState);
      Statuses.MarcStateBits(b);
      MachineStates.TryFromRoundTrip(v);
      match MachineStates.TryFrom(v)
      case Success(state) => Run(Success(state), s.trace)
      case Failure(x) => Run(Failure(InvalidState(x)), s.trace)
  }

  /**
   * `get_packet_status`, with the conversion as written: it panics unless
   * bits 7, 6, 5, 4, 3 and 1 of PKTSTATUS are clear, and otherwise agrees
   * with the single-bit decoding.
   */
  function GetPacketStatus(chip: Chip, tr: Trace): (r: Run<PacketStatuses.PacketStatus>)
    ensures r.trace == tr + [StatusRead(Statuses.PKTSTATUS)]
    ensures StatusFault(chip, tr, Statuses.PKTSTATUS).None? ==>
      (r.result.Success? <==> StatusReply(chip, tr, Statuses.PKTSTATUS) & 0xFA == 0)
    ensures StatusFault(chip, tr, Statuses.PKTSTATUS).None? && r.result.Failure? ==> r.result.error == Panic
    ensures r.result.Success? ==>
      r.result.value == PacketStatuses.Decode(StatusReply(chip, tr, Statuses.PKTSTATUS))
  {
    var s := ReadRegister(chip, tr, Encoders.LegacyStatus(Statuses.PKTSTATUS));
    match s.result
    case Failure(e) => Run(Failure(Spi(e)), s.trace)
    case Success(b) =>
      PacketStatuses.AsWrittenAccepts(b);
      match PacketStatuses.FromAsWritten(b)
      case None => Run(Failure(Panic), s.trace)
      case Some(p) =>
        PacketStatuses.AsWrittenAgrees(b);
        Run(Success(p), s.trace)
  }

  /**
   * `get_tx_bytes`: the 7-bit count, or `TxUnderflow` when bit 7 of TXBYTES
   * is set.
   */
  function GetTxBytes(chip: Chip, tr: Trace): (r: Run<Byte>)
    ensures r.trace == tr + [StatusRead(Statuses.TXBYTES)]
    ensures StatusFault(chip, tr, Statuses.TXBYTES).Some? ==>
      r.result == Failure(Spi(StatusFault(chip, tr, Statuses.TXBYTES).value))
    ensures StatusFault(chip, tr, Statuses.TXBYTES).None? ==>
      var b := StatusReply(chip, tr, Statuses.TXBYTES);
      r.result == if b & 0x80 != 0 then Failure(TxUnderflow) else Success(b & 0x7F)
  {
    var s := ReadRegister(chip, tr, Encoders.LegacyStatus(Statuses.TXBYTES));
    match s.result
    case Failure(e) => Run(Failure(Spi(e)), s.trace)
    case Success(b) =>
      Statuses.FlagAndCount(b);
      var count := BitField.Read(b, Statuses.Count);
      if BitField.Read(b, Statuses.TopFlag) != 0 then Run(Failure(TxUnderflow), s.trace)
      else Run(Success(count), s.trace)
  }

  /**
   * `get_rx_bytes`: the 7-bit count, or `RxOverflow` when bit 7 of RXBYTES
   * is set.
   */
  function GetRxBytes(chip: Chip, tr: Trace): (r: Run<Byte>)
    ensures r.trace == tr + [StatusRead(Statuses.RXBYTES)]
    ensures StatusFault(chip, tr, Statuses.RXBYTES).Some? ==>
      r.result == Failure(Spi(StatusFault(chip, tr, Statuses.RXBYTES).value))
    ensures StatusFault(chip, tr, Statuses.RXBYTES).None? ==>
      var b := StatusReply(chip, tr, Statuses.RXBYTES);
      r.result == if b & 0x80 != 0 then Failure(RxOverflow) else Success(b & 0x7F)
  {
    var s := ReadRegister(chip, tr, Encoders.LegacyStatus(Statuses.RXBYTES));
    match s.result
    case Failure(e) => Run(Failure(Spi(e)), s.trace)
    case Success(b) =>
      Statuses.FlagAndCount(b);
      var count := BitField.Read(b, Statuses.Count);
      if BitField.Read(b, Statuses.TopFlag) != 0 then Run(Failure(RxOverflow), s.trace)
      else Run(Success(count), s.trace)
  }

  // ---------------------------------------------------------------------
  // Poll loops
  // ---------------------------------------------------------------------

  /** `get_machine_state` as a poll. */
  function MarcStatePoll(chip: Chip): Trace -> Run<MachineStates.MachineState> {
    t => GetMachineState(chip, t)
  }

  /** `get_rx_bytes` as a poll. */
  function RxBytesPoll(chip: Chip): Trace -> Run<Byte> {
    t => GetRxBytes(chip, t)
  }

  /** The MARCSTATE poll issues its one status read and never times out itself. */
  lemma MarcStatePollIssues(chip: Chip)
    ensures Polls.Issues(MarcStatePoll(chip), StatusRead(Statuses.MARCSTATE))
  {
  }

  /** The RXBYTES poll issues its one status read and never times out itself. */
  lemma RxBytesPollIssues(chip: Chip)
    ensures Polls.Issues(RxBytesPoll(chip), StatusRead(Statuses.RXBYTES))
  {
  }

  /** The chip takes a MARCSTATE read for no strobe. */
  lemma MarcStateReadIsNoStrobe()
    ensures StrobeOf(StatusRead(Statuses.MARCSTATE)) == []
  {
    ReadFrameInterpreted(Encoders.LegacyStatus(Statuses.MARCSTATE));
  }

  /** `await_machine_state` with at most `fuel` MARCSTATE reads. */
  function AwaitMachineState(chip: Chip, tr: Trace, target: MachineStates.MachineState, fuel: nat): Run<()>
  {
    MarcStatePollIssues(chip);
    Polls.Await(MarcStatePoll(chip), StatusRead(Statuses.MARCSTATE), tr, target, fuel)
  }

  /** `get_machine_state` fails only with a transport error or `InvalidState`. */
  lemma MarcStatePollErrors(chip: Chip, t: Trace)
    ensures MarcStatePoll(chip)(t).result.Failure? ==>
      MarcStatePoll(chip)(t).result.error.Spi? || MarcStatePoll(chip)(t).result.error.InvalidState?
  {
  }

  /** So `await_machine_state` never reports a CRC mismatch. */
  lemma AwaitNeverCrcMismatch(chip: Chip, tr: Trace, target: MachineStates.MachineState, fuel: nat)
    ensures AwaitMachineState(chip, tr, target, fuel).result != Failure(CrcMismatch)
  {
    MarcStatePollIssues(chip);
    forall t | true
      ensures MarcStatePoll(chip)(t).result != Failure(CrcMismatch)
    {
      MarcStatePollErrors(chip, t);
    }
    Polls.AwaitErrorFromPoll(MarcStatePoll(chip), StatusRead(Statuses.MARCSTATE), tr, target, fuel, CrcMismatch);
  }

  /** The last frame of `t` read MARCSTATE, and `get_machine_state` made `target` of it. */
  ghost predicate LastPollShows(chip: Chip, t: Trace, target: MachineStates.MachineState) {
    Polls.LastPollShows(MarcStatePoll(chip), StatusRead(Statuses.MARCSTATE), t, target)
  }

  /** `RadioMode`. */
  datatype RadioMode = Idle | Sleep | Calibrate | Transmit | Receive

  /** The state `set_radio_mode` waits for. */
  function Target(m: RadioMode): MachineStates.MachineState {
    match m
    case Idle => MachineStates.IDLE
    case Sleep => MachineStates.SLEEP
    case Calibrate => MachineStates.MANCAL
    case Transmit => MachineStates.TX
    case Receive => MachineStates.RX
  }

  /** The strobe that enters a mode other than Idle. */
  function ModeStrobe(m: RadioMode): Commands.Command
    requires m != Idle
  {
    match m
    case Sleep => Commands.SPWD
    case Calibrate => Commands.SCAL
    case Transmit => Commands.STX
    case Receive => Commands.SRX
  }

  /** The strobes `set_radio_mode` issues: SIDLE, then the mode's own. */
  function ModeStrobes(m: RadioMode): seq<Byte> {
    [Commands.Opcode(Commands.SIDLE)] + if m == Idle then [] else [Commands.Opcode(ModeStrobe(m))]
  }

  /** A strobe, then, if it went out, a wait for `target`. */
  function StrobeAndAwait(chip: Chip, tr: Trace, c: Commands.Command, target: MachineStates.MachineState, fuel: nat)
    : (r: Run<()>)
    ensures |tr| < |r.trace| && r.trace[..|tr|] == tr
  {
    var s := WriteStrobe(chip, tr, c);
    if s.result.Failure? then Run(Failure(Spi(s.result.error)), s.trace)
    else
      var w := AwaitMachineState(chip, s.trace, target, fuel);
      assert w.trace[..|tr|] == s.trace[..|tr|];
      w
  }

  /**
   * `set_radio_mode`, each wait given `fuel` polls: Idle strobes SIDLE and
   * waits for IDLE; every other mode goes to Idle first, then strobes its
   * own command and waits for its state.
   */
  function SetRadioMode(chip: Chip, tr: Trace, mode: RadioMode, fuel: nat): (r: Run<()>)
    ensures |tr| < |r.trace| && r.trace[..|tr|] == tr
  {
    var i := StrobeAndAwait(chip, tr, Commands.SIDLE, MachineStates.IDLE, fuel);
    if mode == Idle || i.result.Failure? then i
    else
      var r := StrobeAndAwait(chip, i.trace, ModeStrobe(mode), Target(mode), fuel);
      assert r.trace[..|tr|] == i.trace[..|tr|];
      r
  }

  /** The strobes of `set_radio_mode` are opcodes the chip takes as strobes. */
  lemma ModeStrobesReachChip(m: RadioMode)
    ensures StrobeOf(StrobeFrame(Commands.SIDLE)) == [Commands.Opcode(Commands.SIDLE)]
    ensures m != Idle ==> StrobeOf(StrobeFrame(ModeStrobe(m))) == [Commands.Opcode(ModeStrobe(m))]
  {
    StrobeFrameInterpreted(Commands.SIDLE);
    if m != Idle {
      StrobeFrameInterpreted(ModeStrobe(m));
    }
  }

  /** A strobe followed by a wait issues that strobe and no other, whether or not the transfer failed. */
  lemma StrobeThenAwait(chip: Chip, tr: Trace, c: Commands.Command, target: MachineStates.MachineState, fuel: nat)
    requires StrobeOf(StrobeFrame(c)) == [Commands.Opcode(c)]
    ensures Strobes(StrobeAndAwait(chip, tr, c, target, fuel).trace) == Strobes(tr) + [Commands.Opcode(c)]
  {
    var s := WriteStrobe(chip, tr, c);
    StrobesSnoc(tr, StrobeFrame(c));
    if s.result.Success? {
      AwaitIssuesNoStrobe(chip, s.trace, target, fuel);
    }
  }

  /** A wait issues no strobe. */
  lemma AwaitIssuesNoStrobe(chip: Chip, tr: Trace, target: MachineStates.MachineState, fuel: nat)
    ensures Strobes(AwaitMachineState(chip, tr, target, fuel).trace) == Strobes(tr)
  {
    MarcStatePollIssues(chip);
    MarcStateReadIsNoStrobe();
    Polls.AwaitIssuesNoStrobe(MarcStatePoll(chip), StatusRead(Statuses.MARCSTATE), tr, target, fuel);
  }

  /** A wait that succeeds ends with the MARCSTATE read that showed the target. */
  lemma AwaitShows(chip: Chip, tr: Trace, target: MachineStates.MachineState, fuel: nat)
    ensures var w := AwaitMachineState(chip, tr, target, fuel);
      w.result.Success? ==> LastPollShows(chip, w.trace, target)
  {
    MarcStatePollIssues(chip);
    Polls.AwaitEndsOnTarget(MarcStatePoll(chip), StatusRead(Statuses.MARCSTATE), tr, target, fuel);
  }

  /** A strobe and wait that succeed end with the MARCSTATE read that showed the target. */
  lemma StrobeThenAwaitShows(chip: Chip, tr: Trace, c: Commands.Command, target: MachineStates.MachineState, fuel: nat)
    ensures var r := StrobeAndAwait(chip, tr, c, target, fuel);
      r.result.Success? ==> LastPollShows(chip, r.trace, target)
  {
    var s := WriteStrobe(chip, tr, c);
    if s.result.Success? {
      AwaitShows(chip, s.trace, target, fuel);
    }
  }

  /**
   * `set_radio_mode` issues no strobe but SIDLE and then the mode's own, in
   * that order; it succeeds only after issuing both, with its last MARCSTATE
   * read showing the mode's state.
   */
  lemma SetRadioModeStrobes(chip: Chip, tr: Trace, mode: RadioMode, fuel: nat)
    ensures var r := SetRadioMode(chip, tr, mode, fuel);
      Strobes(tr) <= Strobes(r.trace) <= Strobes(tr) + ModeStrobes(mode)
    ensures var r := SetRadioMode(chip, tr, mode, fuel);
      r.result.Success? ==>
        Strobes(r.trace) == Strobes(tr) + ModeStrobes(mode) && LastPollShows(chip, r.trace, Target(mode))
  {
    var i := StrobeAndAwait(chip, tr, Commands.SIDLE, MachineStates.IDLE, fuel);
    var r := SetRadioMode(chip, tr, mode, fuel);
    var idle := Commands.Opcode(Commands.SIDLE);
    IdlePart(chip, tr, fuel);
    if mode == Idle {
      assert r == i && ModeStrobes(mode) == [idle];
      OneStrobe(Strobes(tr), idle, Strobes(r.trace));
    } else if i.result.Failure? {
      var op := Commands.Opcode(ModeStrobe(mode));
      assert r == i && ModeStrobes(mode) == [idle, op];
      OneOfTwoStrobes(Strobes(tr), idle, op, Strobes(r.trace));
    } else {
      OtherModeStrobes(chip, tr, mode, fuel, i);
      ModeStrobesAfterIdle(tr, i, r, mode);
    }
  }

  /** SIDLE and then the mode's own strobe are the mode's strobes, in that order. */
  lemma ModeStrobesAfterIdle(tr: Trace, i: Run<()>, r: Run<()>, mode: RadioMode)
    requires mode != Idle
    requires Strobes(i.trace) == Strobes(tr) + [Commands.Opcode(Commands.SIDLE)]
    requires Strobes(r.trace) == Strobes(i.trace) + [Commands.Opcode(ModeStrobe(mode))]
    ensures Strobes(tr) <= Strobes(r.trace) == Strobes(tr) + ModeStrobes(mode)
  {
    var idle := Commands.Opcode(Commands.SIDLE);
    var op := Commands.Opcode(ModeStrobe(mode));
    TwoMore(Strobes(tr), idle, op, Strobes(i.trace), Strobes(r.trace));
    assert ModeStrobes(mode) == [idle, op];
  }

  /** The Idle part: SIDLE, then a wait for IDLE. */
  lemma IdlePart(chip: Chip, tr: Trace, fuel: nat)
    ensures var i := StrobeAndAwait(chip, tr, Commands.SIDLE, MachineStates.IDLE, fuel);
      Strobes(i.trace) == Strobes(tr) + [Commands.Opcode(Commands.SIDLE)]
      && (i.result.Success? ==> LastPollShows(chip, i.trace, MachineStates.IDLE))
  {
    ModeStrobesReachChip(Idle);
    StrobeThenAwait(chip, tr, Commands.SIDLE, MachineStates.IDLE, fuel);
    StrobeThenAwaitShows(chip, tr, Commands.SIDLE, MachineStates.IDLE, fuel);
  }

  /** One strobe added. */
  lemma OneStrobe(a: seq<Byte>, x: Byte, b: seq<Byte>)
    requires b == a + [x]
    ensures a <= b
  {
    assert b[..|a|] == a;
  }

  /** One strobe added where two were due. */
  lemma OneOfTwoStrobes(a: seq<Byte>, x: Byte, y: Byte, b: seq<Byte>)
    requires b == a + [x]
    ensures a <= b <= a + [x, y]
  {
    assert b[..|a|] == a;
    assert (a + [x, y])[..|b|] == b;
  }

  /** After the Idle part succeeded, the mode's own strobe and wait. */
  lemma OtherModeStrobes(chip: Chip, tr: Trace, mode: RadioMode, fuel: nat, i: Run<()>)
    requires mode != Idle
    requires i == StrobeAndAwait(chip, tr, Commands.SIDLE, MachineStates.IDLE, fuel) && i.result.Success?
    ensures var r := SetRadioMode(chip, tr, mode, fuel);
      Strobes(r.trace) == Strobes(i.trace) + [Commands.Opcode(ModeStrobe(mode))]
      && (r.result.Success? ==> LastPollShows(chip, r.trace, Target(mode)))
  {
    var c := ModeStrobe(mode);
    SetRadioModeAfterIdle(chip, tr, mode, fuel, i);
    ModeStrobesReachChip(mode);
    StrobeThenAwait(chip, i.trace, c, Target(mode), fuel);
    StrobeThenAwaitShows(chip, i.trace, c, Target(mode), fuel);
  }

  /** Two strobes added one after the other. */
  lemma TwoMore(a: seq<Byte>, x: Byte, y: Byte, b: seq<Byte>, c: seq<Byte>)
    requires b == a + [x] && c == b + [y]
    ensures a <= b && a <= c && c == a + [x, y]
  {
    assert b[..|a|] == a;
    assert c[..|a|] == a;
  }

  /** `a` is a prefix of `a + b`, which is a prefix of `a + b + c`. */
  lemma PrefixesOfAppend(a: seq<Byte>, b: seq<Byte>, c: seq<Byte>)
    ensures a <= a + b <= a + b + c
  {
    assert (a + b)[..|a|] == a;
    assert (a + b + c)[..|a + b|] == a + b;
  }

  /** Once the Idle part succeeded, `set_radio_mode` is the mode's own strobe and wait. */
  lemma SetRadioModeAfterIdle(chip: Chip, tr: Trace, mode: RadioMode, fuel: nat, i: Run<()>)
    requires mode != Idle
    requires i == StrobeAndAwait(chip, tr, Commands.SIDLE, MachineStates.IDLE, fuel) && i.result.Success?
    ensures SetRadioMode(chip, tr, mode, fuel) == StrobeAndAwait(chip, i.trace, ModeStrobe(mode), Target(mode), fuel)
  {
  }

  /** `rx_bytes_available` with at most `fuel` RXBYTES reads. */
  function RxBytesAvailable(chip: Chip, tr: Trace, fuel: nat): Run<Byte>
  {
    RxBytesPollIssues(chip);
    Polls.Debounce(RxBytesPoll(chip), StatusRead(Statuses.RXBYTES), tr, 0, fuel)
  }

  /**
   * `rx_bytes_available` returns only a count above zero that two RXBYTES
   * reads in a row have shown, each with the overflow flag clear.
   */
  lemma RxBytesAvailableAgrees(chip: Chip, tr: Trace, fuel: nat)
    ensures var r := RxBytesAvailable(chip, tr, fuel);
      r.result.Success? ==>
        Polls.ShownTwice(RxBytesPoll(chip), StatusRead(Statuses.RXBYTES), tr, r.trace, r.result.value)
  {
    RxBytesPollIssues(chip);
    Polls.DebounceFromZero(RxBytesPoll(chip), StatusRead(Statuses.RXBYTES), tr, fuel);
  }
}
