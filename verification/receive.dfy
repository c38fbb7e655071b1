/**
 * `receive` of src/lib.rs: wait until RXBYTES shows the same count above
 * zero twice, read the packet with every optional slot supplied, read LQI,
 * wait for IDLE and flush the RX FIFO; report `CrcMismatch` when LQI's CRC
 * flag is clear.  A failed wait flushes the RX FIFO before passing the
 * error on.  `*addr` and `buf` are set as soon as `read_data` succeeds, so
 * every later outcome, error or not, hands the packet back.
 */
module Receiver {
  import opened Wrappers
  import opened LowLevel
  import opened Errors
  import Packets
  import Access
  import Driver
  import Polls
  import Commands
  import Statuses
  import Encoders
  import MachineStates

  /** What `read_data` left in `receive`'s locals: the length, the address for `*addr`, and the buffer. */
  datatype Packet = Packet(length: Byte, address: Byte, data: seq<Byte>)

  /**
   * The outcome of `receive`: the returned length or error, the trace,
   * and `read`, the packet `read_data` produced.  `read` is `Some` exactly
   * when `read_data` succeeded; from then on `*addr` holds its address and
   * `buf` its data, whatever the later steps return.
   */
  datatype Reception = Reception(result: Result<Byte, Error>, trace: Trace, read: Option<Packet>)

  /** The arguments `receive` passes to `read_data`: every slot `Some(0)`. */
  function ReceiveArgs(buf: seq<Byte>): Packets.Fields {
    Packets.Fields(Some(0), Some(0), Some(0), Some(0), buf)
  }

  /** The debounce `receive` starts with. */
  function Available(chip: Chip, tr: Trace, fuel: nat): Run<Byte> {
    Driver.RxBytesAvailable(chip, tr, fuel)
  }

  /** The `read_data` call once the debounce returned, issued after trace `t`. */
  function ReadPhase(chip: Chip, t: Trace, fr: Packets.Framing, buf: seq<Byte>): Run<Packets.Fields> {
    Packets.ReadData(chip, t, fr, ReceiveArgs(buf))
  }

  /** `flush_rx_fifo_buffer`: the SFRX strobe. */
  function FlushRx(chip: Chip, tr: Trace): Step<()> {
    WriteStrobe(chip, tr, Commands.SFRX)
  }

  /**
   * The CRC check of `receive`: `(lqi >> 7) != 1` is a clear bit 7.
   */
  function CrcOk(lqi: Byte): (ok: bool)
    ensures ok <==> lqi & 0x80 == 0x80
  {
    lqi >> 7 == 1
  }

  /** The path after the IDLE wait `w`: flush, then check the CRC flag. */
  function FlushAndCheck(chip: Chip, w: Run<()>, lqi: Byte): Run<()>
  {
    match w.result
    case Failure(e) => Run(Failure(e), w.trace)
    case Success(_) =>
      var fl := FlushRx(chip, w.trace);
      match fl.result
      case Failure(e) => Run(Failure(Spi(e)), fl.trace)
      case Success(_) =>
        if !CrcOk(lqi) then Run(Failure(CrcMismatch), fl.trace)
        else Run(Success(()), fl.trace)
  }

  /** The path after the LQI read: wait for IDLE, flush, check the CRC flag. */
  function Finish(chip: Chip, t: Trace, lqi: Byte, fuel: nat): Run<()>
  {
    FlushAndCheck(chip, Driver.AwaitMachineState(chip, t, MachineStates.IDLE, fuel), lqi)
  }

  /** The packet `read_data` produced from `receive`'s `Some(0)` slots. */
  function Produced(got: Packets.Fields): Packet
    requires got.length.Some? && got.address.Some?
  {
    Packet(got.length.value, got.address.value, got.data)
  }

  /**
   * The `Ok` arm of `receive`, after the debounce left trace `t`.  Once
   * `read_data` has succeeded the packet is handed back on every path.
   */
  function ReadAndFlush(chip: Chip, t: Trace, fr: Packets.Framing, buf: seq<Byte>, fuel: nat): Reception
  {
    var rd := ReadPhase(chip, t, fr, buf);
    match rd.result
    case Failure(e) => Reception(Failure(e), rd.trace, None)
    case Success(got) =>
      var p := Produced(got);
      var l := ReadRegister(chip, rd.trace, Encoders.LegacyStatus(Statuses.LQI));
      match l.result
      case Failure(e) => Reception(Failure(Spi(e)), l.trace, Some(p))
      case Success(lqi) =>
        var f := Finish(chip, l.trace, lqi, fuel);
        match f.result
        case Failure(e) => Reception(Failure(e), f.trace, Some(p))
        case Success(_) => Reception(Success(p.length), f.trace, Some(p))
  }

  /** `receive`, with at most `fuel` polls in each of its two waits. */
  function Receive(chip: Chip, tr: Trace, fr: Packets.Framing, buf: seq<Byte>, fuel: nat): Reception
  {
    var avail := Available(chip, tr, fuel);
    match avail.result
    case Failure(err) =>
      var fl := FlushRx(chip, avail.trace);
      (match fl.result
       case Failure(e) => Reception(Failure(Spi(e)), fl.trace, None)
       case Success(_) => Reception(Failure(err), fl.trace, None))
    case Success(_) => ReadAndFlush(chip, avail.trace, fr, buf, fuel)
  }

  // ---------------------------------------------------------------------
  // Which strobes `receive` issues
  // ---------------------------------------------------------------------

  /** The RXBYTES polls issue no strobe. */
  lemma AvailableNoStrobe(chip: Chip, tr: Trace, fuel: nat)
    ensures Strobes(Available(chip, tr, fuel).trace) == Strobes(tr)
  {
    Driver.RxBytesPollIssues(chip);
    ReadFrameInterpreted(Encoders.LegacyStatus(Statuses.RXBYTES));
    Polls.DebounceIssuesNoStrobe(Driver.RxBytesPoll(chip), Driver.StatusRead(Statuses.RXBYTES), tr, 0, fuel);
  }

  /** `read_data` issues no strobe. */
  lemma ReadPhaseNoStrobe(chip: Chip, t: Trace, fr: Packets.Framing, buf: seq<Byte>)
    ensures Strobes(ReadPhase(chip, t, fr, buf).trace) == Strobes(t)
  {
    var rd := ReadPhase(chip, t, fr, buf);
    if rd.trace != t {
      var f := Packets.ReadFrameFor(fr, buf);
      FifoFrameInterpreted(Access.Read, Packets.Zeros(fr), buf);
      StrobesSnoc(t, f);
    }
  }

  /** The LQI read issues no strobe. */
  lemma LqiReadNoStrobe(chip: Chip, t: Trace)
    ensures Strobes(ReadRegister(chip, t, Encoders.LegacyStatus(Statuses.LQI)).trace) == Strobes(t)
  {
    ReadFrameInterpreted(Encoders.LegacyStatus(Statuses.LQI));
    StrobesSnoc(t, ReadFrame(Encoders.LegacyStatus(Statuses.LQI)));
  }

  /** The flush issues SFRX, whatever the transport answers. */
  lemma FlushStrobe(chip: Chip, t: Trace)
    ensures Strobes(FlushRx(chip, t).trace) == Strobes(t) + [Commands.Opcode(Commands.SFRX)]
    ensures Commands.Opcode(Commands.SFRX) == 0x3A
  {
    StrobeFrameInterpreted(Commands.SFRX);
    StrobesSnoc(t, StrobeFrame(Commands.SFRX));
  }

  /** After the IDLE wait: SFRX at most once, and exactly once when the CRC check is reached. */
  lemma FlushAndCheckStrobes(chip: Chip, w: Run<()>, lqi: Byte)
    requires w.result != Failure(CrcMismatch)
    ensures var r := FlushAndCheck(chip, w, lqi);
      Strobes(w.trace) <= Strobes(r.trace) <= Strobes(w.trace) + [0x3A]
      && (r.result.Success? || r.result == Failure(CrcMismatch) <==> w.result.Success? && FlushRx(chip, w.trace).result.Success?)
      && (r.result.Success? || r.result == Failure(CrcMismatch) ==> Strobes(r.trace) == Strobes(w.trace) + [0x3A])
  {
    var r := FlushAndCheck(chip, w, lqi);
    if w.result.Success? {
      FlushStrobe(chip, w.trace);
      Driver.OneStrobe(Strobes(w.trace), 0x3A, Strobes(r.trace));
    } else {
      Driver.PrefixesOfAppend(Strobes(w.trace), [], [0x3A]);
    }
  }

  /** After the LQI read: SFRX at most once, and exactly once when the CRC check is reached. */
  lemma FinishStrobes(chip: Chip, t: Trace, lqi: Byte, fuel: nat)
    ensures var r := Finish(chip, t, lqi, fuel);
      Strobes(t) <= Strobes(r.trace) <= Strobes(t) + [0x3A]
      && (r.result.Success? || r.result == Failure(CrcMismatch) ==> Strobes(r.trace) == Strobes(t) + [0x3A])
  {
    var w := Driver.AwaitMachineState(chip, t, MachineStates.IDLE, fuel);
    Driver.AwaitIssuesNoStrobe(chip, t, MachineStates.IDLE, fuel);
    Driver.AwaitNeverCrcMismatch(chip, t, MachineStates.IDLE, fuel);
    FlushAndCheckStrobes(chip, w, lqi);
  }

  /**
   * The `Ok` arm: SFRX at most once, exactly once when the CRC check is
   * reached, and not at all when `read_data` fails.
   */
  lemma ReadAndFlushStrobes(chip: Chip, t: Trace, fr: Packets.Framing, buf: seq<Byte>, fuel: nat)
    ensures var r := ReadAndFlush(chip, t, fr, buf, fuel);
      Strobes(t) <= Strobes(r.trace) <= Strobes(t) + [0x3A]
      && (r.result.Success? || r.result == Failure(CrcMismatch) ==> Strobes(r.trace) == Strobes(t) + [0x3A])
      && (ReadPhase(chip, t, fr, buf).result.Failure? ==> Strobes(r.trace) == Strobes(t))
  {
    var rd := ReadPhase(chip, t, fr, buf);
    ReadPhaseNoStrobe(chip, t, fr, buf);
    if rd.result.Success? {
      var l := ReadRegister(chip, rd.trace, Encoders.LegacyStatus(Statuses.LQI));
      LqiReadNoStrobe(chip, rd.trace);
      if l.result.Success? {
        FinishStrobes(chip, l.trace, l.result.value, fuel);
      } else {
        Driver.PrefixesOfAppend(Strobes(t), [], [0x3A]);
      }
    } else {
      Driver.PrefixesOfAppend(Strobes(t), [], [0x3A]);
    }
  }

  /**
   * `receive` issues SFRX at most once: exactly once when the wait for
   * data fails or the CRC check is reached, and not at all when `read_data`
   * fails.  It issues no other strobe.
   */
  lemma ReceiveStrobes(chip: Chip, tr: Trace, fr: Packets.Framing, buf: seq<Byte>, fuel: nat)
    ensures var r := Receive(chip, tr, fr, buf, fuel);
      Strobes(tr) <= Strobes(r.trace) <= Strobes(tr) + [0x3A]
      && (r.result.Success? || r.result == Failure(CrcMismatch) ==> Strobes(r.trace) == Strobes(tr) + [0x3A])
    ensures var avail := Available(chip, tr, fuel);
      var r := Receive(chip, tr, fr, buf, fuel);
      (avail.result.Failure? ==> Strobes(r.trace) == Strobes(tr) + [0x3A])
      && (avail.result.Success? && ReadPhase(chip, avail.trace, fr, buf).result.Failure? ==> Strobes(r.trace) == Strobes(tr))
  {
    var avail := Available(chip, tr, fuel);
    AvailableNoStrobe(chip, tr, fuel);
    if avail.result.Failure? {
      FlushStrobe(chip, avail.trace);
      Driver.OneStrobe(Strobes(tr), 0x3A, Strobes(FlushRx(chip, avail.trace).trace));
    } else {
      ReadAndFlushStrobes(chip, avail.trace, fr, buf, fuel);
    }
  }

  /**
   * When the wait for data fails, `receive` flushes the RX FIFO and passes
   * the wait's error on, unless the flush itself fails; no packet was read.
   */
  lemma ReceiveWaitFails(chip: Chip, tr: Trace, fr: Packets.Framing, buf: seq<Byte>, fuel: nat)
    requires Available(chip, tr, fuel).result.Failure?
    ensures var avail := Available(chip, tr, fuel);
      var r := Receive(chip, tr, fr, buf, fuel);
      r.trace == avail.trace + [StrobeFrame(Commands.SFRX)]
      && r.read.None?
      && (chip.fault(avail.trace, StrobeFrame(Commands.SFRX).mosi).None? ==> r.result == Failure(avail.result.error))
      && (chip.fault(avail.trace, StrobeFrame(Commands.SFRX).mosi).Some? ==>
            r.result == Failure(Spi(chip.fault(avail.trace, StrobeFrame(Commands.SFRX).mosi).value)))
  {
  }

  /** When `read_data` fails, `receive` returns its error at once, with no packet. */
  lemma ReceiveReadFails(chip: Chip, tr: Trace, fr: Packets.Framing, buf: seq<Byte>, fuel: nat)
    requires Available(chip, tr, fuel).result.Success?
    requires ReadPhase(chip, Available(chip, tr, fuel).trace, fr, buf).result.Failure?
    ensures var rd := ReadPhase(chip, Available(chip, tr, fuel).trace, fr, buf);
      Receive(chip, tr, fr, buf, fuel) == Reception(Failure(rd.result.error), rd.trace, None)
  {
  }

  /**
   * After the IDLE wait the CRC check is reached exactly when the wait and
   * the flush succeed; there `CrcMismatch` comes exactly from a clear bit 7
   * of LQI and success from a set one.  A failed wait is passed on as is.
   */
  lemma FlushAndCheckOutcome(chip: Chip, w: Run<()>, lqi: Byte)
    requires w.result != Failure(CrcMismatch)
    ensures var r := FlushAndCheck(chip, w, lqi);
      var reached := w.result.Success? && FlushRx(chip, w.trace).result.Success?;
      (r.result == Failure(CrcMismatch) <==> reached && lqi & 0x80 == 0)
      && (r.result.Success? <==> reached && lqi & 0x80 == 0x80)
      && (w.result.Failure? ==> r == w)
  {
  }

  /** Without a length field the length is 0, without an address field the address is 0. */
  lemma ProducedDefaults(chip: Chip, t: Trace, fr: Packets.Framing, buf: seq<Byte>)
    requires ReadPhase(chip, t, fr, buf).result.Success?
    ensures var v := ReadPhase(chip, t, fr, buf).result.value;
      (!fr.lengthField ==> v.length == Some(0))
      && (!fr.addressField ==> v.address == Some(0))
  {
    Packets.ReadDataUnpacks(chip, t, fr, ReceiveArgs(buf));
    var rx := Packets.ClockedIn(chip, t, fr, buf);
    Packets.UnpackFields(fr, ReceiveArgs(buf), rx[..Packets.OptionalCount(fr)], rx[Packets.OptionalCount(fr)..]);
  }

  /**
   * The `Ok` arm after a successful `read_data`: the packet is handed back
   * on every path, and the result follows the LQI read, the IDLE wait, the
   * flush and the CRC flag.
   */
  lemma ReadAndFlushOutcome(chip: Chip, t: Trace, fr: Packets.Framing, buf: seq<Byte>, fuel: nat)
    requires ReadPhase(chip, t, fr, buf).result.Success?
    ensures var rd := ReadPhase(chip, t, fr, buf);
      var r := ReadAndFlush(chip, t, fr, buf, fuel);
      var l := ReadRegister(chip, rd.trace, Encoders.LegacyStatus(Statuses.LQI));
      r.read == Some(Produced(rd.result.value))
      && (r.result.Success? ==> r.result.value == Produced(rd.result.value).length)
      && (l.result.Failure? ==> r.result == Failure(Spi(l.result.error)))
      && (l.result.Success? ==>
            var w := Driver.AwaitMachineState(chip, l.trace, MachineStates.IDLE, fuel);
            var reached := w.result.Success? && FlushRx(chip, w.trace).result.Success?;
            (r.result == Failure(CrcMismatch) <==> reached && l.result.value & 0x80 == 0)
            && (r.result.Success? <==> reached && l.result.value & 0x80 == 0x80))
  {
    var rd := ReadPhase(chip, t, fr, buf);
    var l := ReadRegister(chip, rd.trace, Encoders.LegacyStatus(Statuses.LQI));
    if l.result.Success? {
      var w := Driver.AwaitMachineState(chip, l.trace, MachineStates.IDLE, fuel);
      Driver.AwaitNeverCrcMismatch(chip, l.trace, MachineStates.IDLE, fuel);
      FlushAndCheckOutcome(chip, w, l.result.value);
    }
  }

  /**
   * Once the packet is read, `receive` hands back the packet `read_data`
   * produced on every path: `*addr` and `buf` are set even when the LQI
   * read, the IDLE wait or the flush fails, or the CRC check does.  The
   * length is 0 without a length field and the address 0 without an
   * address field.  It reports `CrcMismatch` exactly when the wait and the
   * flush went through and bit 7 of the LQI byte is clear, and succeeds
   * with the length exactly when they went through and the bit is set.
   */
  lemma ReceiveOutcome(chip: Chip, tr: Trace, fr: Packets.Framing, buf: seq<Byte>, fuel: nat)
    requires Available(chip, tr, fuel).result.Success?
    requires ReadPhase(chip, Available(chip, tr, fuel).trace, fr, buf).result.Success?
    ensures var rd := ReadPhase(chip, Available(chip, tr, fuel).trace, fr, buf);
      var v := rd.result.value;
      var r := Receive(chip, tr, fr, buf, fuel);
      r.read == Some(Packet(v.length.value, v.address.value, v.data))
      && (!fr.lengthField ==> v.length.value == 0)
      && (!fr.addressField ==> v.address.value == 0)
      && (r.result.Success? ==> r.result.value == v.length.value)
    ensures var rd := ReadPhase(chip, Available(chip, tr, fuel).trace, fr, buf);
      var l := ReadRegister(chip, rd.trace, Encoders.LegacyStatus(Statuses.LQI));
      var r := Receive(chip, tr, fr, buf, fuel);
      (l.result.Failure? ==> r.result == Failure(Spi(l.result.error)))
      && (l.result.Success? ==>
            var w := Driver.AwaitMachineState(chip, l.trace, MachineStates.IDLE, fuel);
            var reached := w.result.Success? && FlushRx(chip, w.trace).result.Success?;
            (r.result == Failure(CrcMismatch) <==> reached && l.result.value & 0x80 == 0)
            && (r.result.Success? <==> reached && l.result.value & 0x80 == 0x80))
  {
    var avail := Available(chip, tr, fuel);
    assert Receive(chip, tr, fr, buf, fuel) == ReadAndFlush(chip, avail.trace, fr, buf, fuel);
    ProducedDefaults(chip, avail.trace, fr, buf);
    ReadAndFlushOutcome(chip, avail.trace, fr, buf, fuel);
  }
}
