/**
 * The register access layer of src/lowlevel.rs over an abstract SPI device.
 * Every operation is one or two SPI transactions.  Each transaction is
 * recorded in a trace whether or not it fails, and the bytes the chip clocks
 * back come from a response oracle.
 */
module LowLevel {
  import opened Wrappers
  import Access
  import Commands
  import Configs
  import Statuses
  import Encoders

  /** The bytes the driver clocks out during one chip-select assertion. */
  datatype Frame = Frame(mosi: seq<Byte>)

  /** The transactions attempted so far, oldest first. */
  type Trace = seq<Frame>

  /** An error of the `SpiDevice`; the driver only passes it on. */
  datatype SpiError = SpiError(code: nat)

  /**
   * The device behind `SpiDevice`.  Given the transactions so far and the
   * bytes of the next one, it says whether that transfer fails, and which
   * byte is clocked in at each position.
   */
  datatype Chip = Chip(
    fault: (Trace, seq<Byte>) -> Option<SpiError>,
    miso: (Trace, seq<Byte>, nat) -> Byte)

  /** The outcome of an operation and the trace it leaves. */
  datatype Step<T> = Step(result: Result<T, SpiError>, trace: Trace)

  /** What the chip clocks back while `out` is clocked out after `tr`. */
  function Response(chip: Chip, tr: Trace, out: seq<Byte>): (r: seq<Byte>)
    ensures |r| == |out|
    ensures forall i :: 0 <= i < |out| ==> r[i] == chip.miso(tr, out, i)
  {
    seq(|out|, i requires 0 <= i < |out| => chip.miso(tr, out, i))
  }

  /**
   * One transaction.  It is recorded even when it fails; on success it
   * yields one byte clocked in per byte clocked out.
   */
  function Transfer(chip: Chip, tr: Trace, out: seq<Byte>): (s: Step<seq<Byte>>)
    ensures s.trace == tr + [Frame(out)]
    ensures s.result.Failure? <==> chip.fault(tr, out).Some?
    ensures s.result.Failure? ==> s.result.error == chip.fault(tr, out).value
    ensures s.result.Success? ==> s.result.value == Response(chip, tr, out)
  {
    match chip.fault(tr, out)
    case Some(e) => Step(Failure(e), tr + [Frame(out)])
    case None => Step(Success(Response(chip, tr, out)), tr + [Frame(out)])
  }

  // ---------------------------------------------------------------------
  // How the chip reads a transaction
  // ---------------------------------------------------------------------

  /** What a transaction asks of the chip. */
  datatype Op =
      RegisterRead(base: Byte)
    | RegisterWrite(base: Byte, value: Byte)
    | Strobe(opcode: Byte)
    | FifoRead(count: nat)
    | FifoWrite(payload: seq<Byte>)
    | Unrecognised

  /**
   * The chip's reading of a transaction, after section 10 of the CC1101 data
   * sheet (TI SWRS061I).  The base 0x3F in burst mode opens the FIFO.  A lone
   * header byte with a base in 0x30..0x3D is a command strobe.  A header and
   * one more byte read or write the register at the base.
   */
  function Interpret(f: Frame): Op {
    if |f.mosi| == 0 then Unrecognised
    else
      var h := Access.DecodeHeader(f.mosi[0]);
      if h.2 == 0x3F && h.1 == Access.Burst then
        if h.0 == Access.Read then FifoRead(|f.mosi| - 1) else FifoWrite(f.mosi[1..])
      else if |f.mosi| == 1 && 0x30 <= h.2 <= 0x3D then Strobe(h.2)
      else if |f.mosi| == 2 && h.0 == Access.Read then RegisterRead(h.2)
      else if |f.mosi| == 2 then RegisterWrite(h.2, f.mosi[1])
      else Unrecognised
  }

  /** The opcode of a frame the chip takes as a strobe, if it is one. */
  function StrobeOf(f: Frame): seq<Byte> {
    match Interpret(f)
    case Strobe(o) => [o]
    case _ => []
  }

  /** The command strobes a trace issues, in order. */
  function Strobes(t: Trace): seq<Byte> {
    if |t| == 0 then [] else Strobes(t[..|t| - 1]) + StrobeOf(t[|t| - 1])
  }

  /** The strobes of two traces run one after the other are the strobes of each, in order. */
  lemma {:induction false} StrobesAppend(a: Trace, b: Trace)
    ensures Strobes(a + b) == Strobes(a) + Strobes(b)
    decreases |b|
  {
    if |b| == 0 {
      assert a + b == a;
    } else {
      var c := b[..|b| - 1];
      assert (a + b)[..|a + b| - 1] == a + c;
      assert (a + b)[|a + b| - 1] == b[|b| - 1];
      StrobesAppend(a, c);
    }
  }

  /** The strobes of a trace with one frame added. */
  lemma StrobesSnoc(a: Trace, f: Frame)
    ensures Strobes(a + [f]) == Strobes(a) + StrobeOf(f)
  {
    StrobesAppend(a, [f]);
    assert [f][..0] == [];
  }

  // ---------------------------------------------------------------------
  // The operations of src/lowlevel.rs
  // ---------------------------------------------------------------------

  /** The frame `read_register` clocks out: the read header and a dummy byte. */
  function ReadFrame(r: Encoders.LegacyRegister): Frame {
    Frame([Encoders.LegacyRAddr(r), 0])
  }

  /** The frame `write_register` clocks out: the write header and the value. */
  function WriteFrame(r: Encoders.LegacyRegister, b: Byte): Frame {
    Frame([Encoders.LegacyWAddr(r), b])
  }

  /** The frame `write_strobe` clocks out: the opcode alone. */
  function StrobeFrame(c: Commands.Command): Frame {
    Frame([Commands.Addr(c)])
  }

  /** The byte the chip returns for a register read issued after `tr`. */
  function ReadReply(chip: Chip, tr: Trace, r: Encoders.LegacyRegister): Byte {
    chip.miso(tr, ReadFrame(r).mosi, 1)
  }

  /**
   * `read_register`: one transaction of `[raddr, 0]`, returning the second
   * byte clocked in; a transport error is returned unchanged.
   */
  function ReadRegister(chip: Chip, tr: Trace, r: Encoders.LegacyRegister): (s: Step<Byte>)
    ensures s.trace == tr + [ReadFrame(r)]
    ensures s.result.Failure? <==> chip.fault(tr, ReadFrame(r).mosi).Some?
    ensures s.result.Failure? ==> s.result.error == chip.fault(tr, ReadFrame(r).mosi).value
    ensures s.result.Success? ==> s.result.value == ReadReply(chip, tr, r)
  {
    var t := Transfer(chip, tr, ReadFrame(r).mosi);
    match t.result
    case Failure(e) => Step(Failure(e), t.trace)
    case Success(rx) => Step(Success(rx[1]), t.trace)
  }

  /** `write_register`: one transaction of `[waddr, byte]`; what is clocked in is dropped. */
  function WriteRegister(chip: Chip, tr: Trace, r: Encoders.LegacyRegister, b: Byte): (s: Step<()>)
    ensures s.trace == tr + [WriteFrame(r, b)]
    ensures s.result.Failure? <==> chip.fault(tr, WriteFrame(r, b).mosi).Some?
    ensures s.result.Failure? ==> s.result.error == chip.fault(tr, WriteFrame(r, b).mosi).value
  {
    var t := Transfer(chip, tr, WriteFrame(r, b).mosi);
    match t.result
    case Failure(e) => Step(Failure(e), t.trace)
    case Success(_) => Step(Success(()), t.trace)
  }

  /** `write_strobe`: one single-byte transaction of the opcode. */
  function WriteStrobe(chip: Chip, tr: Trace, c: Commands.Command): (s: Step<()>)
    ensures s.trace == tr + [StrobeFrame(c)]
    ensures s.result.Failure? <==> chip.fault(tr, StrobeFrame(c).mosi).Some?
    ensures s.result.Failure? ==> s.result.error == chip.fault(tr, StrobeFrame(c).mosi).value
  {
    var t := Transfer(chip, tr, StrobeFrame(c).mosi);
    match t.result
    case Failure(e) => Step(Failure(e), t.trace)
    case Success(_) => Step(Success(()), t.trace)
  }

  /**
   * `modify_register`: exactly one read, then one write of `f` of the byte
   * read to the same register.  If the read fails nothing is written and
   * its error is returned; nothing is retried.
   */
  function ModifyRegister(chip: Chip, tr: Trace, r: Encoders.LegacyRegister, f: Byte -> Byte): (s: Step<()>)
    ensures chip.fault(tr, ReadFrame(r).mosi).Some? ==>
      s == Step(Failure(chip.fault(tr, ReadFrame(r).mosi).value), tr + [ReadFrame(r)])
    ensures chip.fault(tr, ReadFrame(r).mosi).None? ==>
      s.trace == tr + [ReadFrame(r), WriteFrame(r, f(ReadReply(chip, tr, r)))]
    ensures chip.fault(tr, ReadFrame(r).mosi).None? ==>
      var w := WriteFrame(r, f(ReadReply(chip, tr, r))).mosi;
      (s.result.Failure? <==> chip.fault(tr + [ReadFrame(r)], w).Some?) &&
      (s.result.Failure? ==> s.result.error == chip.fault(tr + [ReadFrame(r)], w).value)
  {
    var rd := ReadRegister(chip, tr, r);
    match rd.result
    case Failure(e) => Step(Failure(e), rd.trace)
    case Success(v) =>
      WriteRegister(chip, rd.trace, r, f(v))
  }

  /** The FIFO read header src/lowlevel.rs builds: `FIFO | 0xC0`. */
  const FifoReadHeader: Byte := Commands.Addr(Commands.FIFO) | 0xC0

  /** What `read_fifo` returns: the address byte, the length byte and the buffer as clocked in. */
  datatype FifoRead = FifoReadOut(addr: Byte, len: Byte, buf: seq<Byte>)

  /**
   * `read_fifo`: one transaction of the 3-byte header `[0xFF, 0, 0]` followed
   * by the buffer's bytes; `len` is the second byte clocked in, `addr` the
   * third, and the buffer receives the rest.
   */
  function ReadFifo(chip: Chip, tr: Trace, buf: seq<Byte>): (s: Step<FifoRead>)
    ensures s.trace == tr + [Frame([FifoReadHeader, 0, 0] + buf)]
    ensures s.result.Failure? <==> chip.fault(tr, [FifoReadHeader, 0, 0] + buf).Some?
    ensures s.result.Failure? ==> s.result.error == chip.fault(tr, [FifoReadHeader, 0, 0] + buf).value
    ensures s.result.Success? ==>
      var rx := Response(chip, tr, [FifoReadHeader, 0, 0] + buf);
      s.result.value == FifoReadOut(rx[2], rx[1], rx[3..])
  {
    var t := Transfer(chip, tr, [FifoReadHeader, 0, 0] + buf);
    match t.result
    case Failure(e) => Step(Failure(e), t.trace)
    case Success(rx) => Step(Success(FifoReadOut(rx[2], rx[1], rx[3..])), t.trace)
  }

  /**
   * The transaction `access_fifo` of the newer low-level layer makes, as
   * `read_data` and `write_data` use it: the FIFO burst header for the
   * direction, the optional fields, then the data.
   */
  function FifoFrame(d: Access.Direction, opt: seq<Byte>, data: seq<Byte>): Frame {
    Frame([Commands.MultiByteAddr(Commands.MFIFO, d, Access.Burst)] + opt + data)
  }

  /**
   * `access_fifo`: one transaction.  A read fills the optional fields and the
   * data with the bytes clocked in after the header; a write leaves them.
   */
  function AccessFifo(chip: Chip, tr: Trace, d: Access.Direction, opt: seq<Byte>, data: seq<Byte>)
    : (s: Step<(seq<Byte>, seq<Byte>)>)
    ensures s.trace == tr + [FifoFrame(d, opt, data)]
    ensures s.result.Failure? <==> chip.fault(tr, FifoFrame(d, opt, data).mosi).Some?
    ensures s.result.Failure? ==> s.result.error == chip.fault(tr, FifoFrame(d, opt, data).mosi).value
    ensures s.result.Success? ==> |s.result.value.0| == |opt| && |s.result.value.1| == |data|
    ensures s.result.Success? && d == Access.Read ==>
      s.result.value.0 + s.result.value.1 == Response(chip, tr, FifoFrame(d, opt, data).mosi)[1..]
    ensures s.result.Success? && d == Access.Write ==> s.result.value == (opt, data)
  {
    var out := FifoFrame(d, opt, data).mosi;
    var t := Transfer(chip, tr, out);
    match t.result
    case Failure(e) => Step(Failure(e), t.trace)
    case Success(rx) =>
      if d == Access.Read then
        assert rx[1..] == rx[1..1 + |opt|] + rx[1 + |opt|..];
        Step(Success((rx[1..1 + |opt|], rx[1 + |opt|..])), t.trace)
      else Step(Success((opt, data)), t.trace)
  }

  // ---------------------------------------------------------------------
  // What the chip makes of each frame
  // ---------------------------------------------------------------------

  /** A register read asks for the register's base, and is no strobe. */
  lemma ReadFrameInterpreted(r: Encoders.LegacyRegister)
    ensures Interpret(ReadFrame(r)) == RegisterRead(Encoders.Base(Encoders.Upgrade(r)))
    ensures StrobeOf(ReadFrame(r)) == []
  {
    Encoders.EncodersAgree(r);
    Encoders.RAddrFields(Encoders.Upgrade(r), Access.Single);
  }

  /** A write to a configuration register writes the value at its base. */
  lemma WriteFrameInterpreted(c: Configs.Config, b: Byte)
    ensures Interpret(WriteFrame(Encoders.LegacyConfig(c), b)) == RegisterWrite(Configs.Base(c), b)
    ensures StrobeOf(WriteFrame(Encoders.LegacyConfig(c), b)) == []
  {
    Encoders.EncodersAgree(Encoders.LegacyConfig(c));
    Encoders.WAddrFields(Encoders.Config(c), Access.Single);
  }

  /** Every strobe the driver issues reaches the chip as that strobe. */
  lemma StrobeFrameInterpreted(c: Commands.Command)
    requires Commands.Opcode(c) <= 0x3D
    ensures Interpret(StrobeFrame(c)) == Strobe(Commands.Opcode(c))
    ensures StrobeOf(StrobeFrame(c)) == [Commands.Opcode(c)]
  {
    Commands.OpcodeRoundTrip(c);
  }

  /**
   * A FIFO read asks for as many bytes as follow the header; a FIFO write
   * hands over the optional fields and the data, in that order.
   */
  lemma FifoFrameInterpreted(d: Access.Direction, opt: seq<Byte>, data: seq<Byte>)
    ensures d == Access.Read ==> Interpret(FifoFrame(d, opt, data)) == FifoRead(|opt| + |data|)
    ensures d == Access.Write ==> Interpret(FifoFrame(d, opt, data)) == FifoWrite(opt + data)
    ensures StrobeOf(FifoFrame(d, opt, data)) == []
  {
    Commands.MultiByteAddrFields(Commands.MFIFO, d, Access.Burst);
    var m := FifoFrame(d, opt, data).mosi;
    assert m[1..] == opt + data;
  }

  /**
   * The older `read_fifo` is the newer FIFO read with two optional fields:
   * the same transaction, with `len` and `addr` the two optional bytes.
   */
  lemma ReadFifoIsAccessFifo(chip: Chip, tr: Trace, buf: seq<Byte>)
    ensures ReadFifo(chip, tr, buf).trace == AccessFifo(chip, tr, Access.Read, [0, 0], buf).trace
    ensures ReadFifo(chip, tr, buf).result.Success? <==> AccessFifo(chip, tr, Access.Read, [0, 0], buf).result.Success?
    ensures ReadFifo(chip, tr, buf).result.Success? ==>
      var o := ReadFifo(chip, tr, buf).result.value;
      var a := AccessFifo(chip, tr, Access.Read, [0, 0], buf).result.value;
      o.len == a.0[0] && o.addr == a.0[1] && o.buf == a.1
  {
    Commands.FifoBurstHeaders();
    assert FifoFrame(Access.Read, [0, 0], buf).mosi == [0xFF, 0, 0] + buf;
    var s := AccessFifo(chip, tr, Access.Read, [0, 0], buf);
    if s.result.Success? {
      var rx := Response(chip, tr, [0xFF, 0, 0] + buf);
      var v := s.result.value;
      assert v.0 + v.1 == rx[1..];
      assert v.0 == (v.0 + v.1)[..2];
      assert v.1 == (v.0 + v.1)[2..];
    }
  }
}
