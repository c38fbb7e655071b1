/**
 * Packet framing of src/lib.rs: the driver's shadow flags saying which
 * optional fields frame a packet, and `read_data` / `write_data`, which
 * check the caller's arguments and move one packet through the FIFO in a
 * single burst transaction.
 */
module Packets {
  import opened Wrappers
  import opened LowLevel
  import opened Errors
  import Access
  import Rssi

  /** `FIFO_SIZE_MAX`: the chip's FIFO holds 64 bytes. */
  const FifoSizeMax: nat := 64

  /**
   * The driver's shadow flags: a length byte leads each packet, an address
   * byte follows it, and the chip appends two status bytes (RSSI, then LQI
   * with the CRC flag) to each packet it receives.
   */
  datatype Framing = Framing(lengthField: bool, addressField: bool, rxStatusFields: bool)

  /** `num_of_optional_fields`: how many of length and address are configured. */
  function OptionalCount(fr: Framing): (k: nat)
    ensures k <= 2
  {
    (if fr.lengthField then 1 else 0) + (if fr.addressField then 1 else 0)
  }

  /** `data_len_max`: the room the optional fields leave in the FIFO. */
  function DataLenMax(fr: Framing): nat {
    FifoSizeMax - OptionalCount(fr)
  }

  /**
   * `read_data`'s arguments, each `&mut`: the length, address, RSSI and LQI
   * slots and the data buffer.  `write_data` uses the length, the address
   * and the data.
   */
  datatype Fields = Fields(length: Option<Byte>, address: Option<Byte>, rssi: Option<int>, lqi: Option<Byte>, data: seq<Byte>)

  /**
   * The first argument check that fails, in the source's order: a missing
   * length, a missing address, and (for `read_data` only, `status`) a
   * missing RSSI or LQI slot when status bytes are appended.
   */
  function MissingArgument(fr: Framing, a: Fields, status: bool): (u: Option<UserError>)
    ensures u.None? <==> ArgumentsPresent(fr, a, status)
    ensures u == Some(MissingLengthParameter) <==> fr.lengthField && a.length.None?
    ensures u == Some(MissingAddressParameter) <==> !(fr.lengthField && a.length.None?) && fr.addressField && a.address.None?
    ensures u == Some(MissingRxStatusParameters) <==>
      (fr.lengthField ==> a.length.Some?) && (fr.addressField ==> a.address.Some?)
      && status && fr.rxStatusFields && (a.rssi.None? || a.lqi.None?)
  {
    if fr.lengthField && a.length.None? then Some(MissingLengthParameter)
    else if fr.addressField && a.address.None? then Some(MissingAddressParameter)
    else if status && fr.rxStatusFields && (a.rssi.None? || a.lqi.None?) then Some(MissingRxStatusParameters)
    else None
  }

  /** The arguments the configured fields need are all there. */
  predicate ArgumentsPresent(fr: Framing, a: Fields, status: bool) {
    (fr.lengthField ==> a.length.Some?)
    && (fr.addressField ==> a.address.Some?)
    && (status && fr.rxStatusFields ==> a.rssi.Some? && a.lqi.Some?)
  }

  /** A call is refused before the FIFO is touched: an argument is missing or the data does not fit. */
  predicate Refused(fr: Framing, a: Fields, status: bool) {
    !ArgumentsPresent(fr, a, status) || |a.data| > DataLenMax(fr)
  }

  // ---------------------------------------------------------------------
  // write_data
  // ---------------------------------------------------------------------

  /** `optional_fields[..num_of_optional_fields]` as `write_data` fills it. */
  function Pack(fr: Framing, length: Option<Byte>, address: Option<Byte>): (o: seq<Byte>)
    requires fr.lengthField ==> length.Some?
    requires fr.addressField ==> address.Some?
    ensures |o| == OptionalCount(fr)
    ensures fr.lengthField ==> o[0] == length.value
    ensures fr.addressField ==> o[|o| - 1] == address.value
  {
    (if fr.lengthField then [length.value] else []) + (if fr.addressField then [address.value] else [])
  }

  /** The frame `write_data` sends for the given arguments. */
  function WriteFrameFor(fr: Framing, a: Fields): Frame
    requires ArgumentsPresent(fr, a, false)
  {
    FifoFrame(Access.Write, Pack(fr, a.length, a.address), a.data)
  }

  /**
   * `write_data`: refuse missing arguments and oversized data without
   * touching the FIFO, and otherwise send the optional fields, then the
   * data, in one FIFO burst write.
   */
  function WriteData(chip: Chip, tr: Trace, fr: Framing, a: Fields): (r: Run<()>)
    ensures r.result.Failure? && r.result.error.UserInputError? <==> Refused(fr, a, false)
    ensures Refused(fr, a, false) <==> r.trace == tr
    ensures !Refused(fr, a, false) ==> r.trace == tr + [WriteFrameFor(fr, a)]
    ensures MissingArgument(fr, a, false).Some? ==> r.result == Failure(UserInputError(MissingArgument(fr, a, false).value))
    ensures ArgumentsPresent(fr, a, false) && |a.data| > DataLenMax(fr) ==>
      r.result == Failure(UserInputError(ArrayTooLong(|a.data|)))
    ensures r.result.Success? <==> !Refused(fr, a, false) && chip.fault(tr, WriteFrameFor(fr, a).mosi).None?
  {
    match MissingArgument(fr, a, false)
    case Some(u) => Run(Failure(UserInputError(u)), tr)
    case None =>
      if |a.data| <= DataLenMax(fr) then
        var s := AccessFifo(chip, tr, Access.Write, Pack(fr, a.length, a.address), a.data);
        match s.result
        case Failure(e) => Run(Failure(Spi(e)), s.trace)
        case Success(_) => Run(Success(()), s.trace)
      else Run(Failure(UserInputError(ArrayTooLong(|a.data|))), tr)
  }

  /**
   * What reaches the chip: a FIFO write of the length byte (when
   * configured), then the address byte (when configured), then the data.
   */
  lemma WriteDataSends(fr: Framing, a: Fields)
    requires ArgumentsPresent(fr, a, false)
    ensures Interpret(WriteFrameFor(fr, a)) == FifoWrite(Pack(fr, a.length, a.address) + a.data)
    ensures StrobeOf(WriteFrameFor(fr, a)) == []
    ensures var o := Pack(fr, a.length, a.address);
      o == (if fr.lengthField then [a.length.value] else []) + (if fr.addressField then [a.address.value] else [])
  {
    FifoFrameInterpreted(Access.Write, Pack(fr, a.length, a.address), a.data);
  }

  // ---------------------------------------------------------------------
  // read_data
  // ---------------------------------------------------------------------

  /** The zeroed `optional_fields[..num_of_optional_fields]` a read clocks out. */
  function Zeros(fr: Framing): (z: seq<Byte>)
    ensures |z| == OptionalCount(fr)
  {
    [0, 0][..OptionalCount(fr)]
  }

  /** The frame `read_data` sends for a buffer. */
  function ReadFrameFor(fr: Framing, data: seq<Byte>): Frame {
    FifoFrame(Access.Read, Zeros(fr), data)
  }

  /** The bytes the chip clocks in after the header of that frame. */
  function ClockedIn(chip: Chip, tr: Trace, fr: Framing, data: seq<Byte>): (rx: seq<Byte>)
    ensures |rx| == OptionalCount(fr) + |data|
  {
    var out := ReadFrameFor(fr, data).mosi;
    Response(chip, tr, out)[1..]
  }

  /**
   * What `read_data` makes of the optional fields and the data clocked in:
   * copy the length back, then the address, and with status bytes appended
   * take RSSI and LQI from the last two bytes and zero them.  Fewer than two
   * bytes make `data.len() - 2` panic.
   */
  function Unpack(fr: Framing, a: Fields, opt: seq<Byte>, data: seq<Byte>): Result<Fields, Error>
    requires |opt| == OptionalCount(fr)
  {
    var length := if fr.lengthField then Some(opt[0]) else a.length;
    var address := if fr.addressField then Some(opt[if fr.lengthField then 1 else 0]) else a.address;
    if !fr.rxStatusFields then Success(Fields(length, address, a.rssi, a.lqi, data))
    else if |data| < 2 then Failure(Panic)
    else
      var n := |data|;
      Success(Fields(length, address, Some(Rssi.ToDbm(data[n - 2])), Some(data[n - 1]), data[n - 2 := 0][n - 1 := 0]))
  }

  /**
   * `read_data`: refuse missing arguments and oversized buffers without
   * touching the FIFO, otherwise read the optional fields and the buffer
   * in one FIFO burst read and unpack them.
   */
  function ReadData(chip: Chip, tr: Trace, fr: Framing, a: Fields): (r: Run<Fields>)
    ensures r.result.Failure? && r.result.error.UserInputError? <==> Refused(fr, a, true)
    ensures Refused(fr, a, true) <==> r.trace == tr
    ensures !Refused(fr, a, true) ==> r.trace == tr + [ReadFrameFor(fr, a.data)]
    ensures MissingArgument(fr, a, true).Some? ==> r.result == Failure(UserInputError(MissingArgument(fr, a, true).value))
    ensures ArgumentsPresent(fr, a, true) && |a.data| > DataLenMax(fr) ==>
      r.result == Failure(UserInputError(ArrayTooLong(|a.data|)))
    ensures r.result.Success? <==>
      !Refused(fr, a, true) && chip.fault(tr, ReadFrameFor(fr, a.data).mosi).None?
      && (fr.rxStatusFields ==> |a.data| >= 2)
    ensures r.result.Success? ==>
      |r.result.value.data| == |a.data|
      && (fr.lengthField || a.length.Some? ==> r.result.value.length.Some?)
      && (fr.addressField || a.address.Some? ==> r.result.value.address.Some?)
  {
    match MissingArgument(fr, a, true)
    case Some(u) => Run(Failure(UserInputError(u)), tr)
    case None =>
      if |a.data| <= DataLenMax(fr) then
        var s := AccessFifo(chip, tr, Access.Read, Zeros(fr), a.data);
        match s.result
        case Failure(e) => Run(Failure(Spi(e)), s.trace)
        case Success(v) =>
          UnpackFields(fr, a, v.0, v.1);
          Run(Unpack(fr, a, v.0, v.1), s.trace)
      else Run(Failure(UserInputError(ArrayTooLong(|a.data|))), tr)
  }

  /**
   * What `Unpack` hands back: the length is the first optional byte and the
   * address the last, each only when configured (otherwise the caller's
   * value stays); without status bytes the buffer is the data; with them
   * RSSI is the dBm of the second-to-last byte, LQI the last byte, and
   * those two are zeroed while every other byte is kept.
   */
  lemma UnpackFields(fr: Framing, a: Fields, opt: seq<Byte>, data: seq<Byte>)
    requires |opt| == OptionalCount(fr)
    ensures Unpack(fr, a, opt, data).Failure? <==> fr.rxStatusFields && |data| < 2
    ensures Unpack(fr, a, opt, data).Failure? ==> Unpack(fr, a, opt, data).error == Panic
    ensures var u := Unpack(fr, a, opt, data);
      u.Success? ==>
        var v := u.value;
        var n := |data|;
        |v.data| == n
        && v.length == (if fr.lengthField then Some(opt[0]) else a.length)
        && v.address == (if fr.addressField then Some(opt[|opt| - 1]) else a.address)
        && (!fr.rxStatusFields ==> v.data == data && v.rssi == a.rssi && v.lqi == a.lqi)
        && (fr.rxStatusFields ==>
              v.data[..n - 2] == data[..n - 2] && v.data[n - 2..] == [0, 0]
              && v.rssi == Some(Rssi.ToDbm(data[n - 2])) && v.lqi == Some(data[n - 1]))
  {
  }

  /**
   * A `read_data` that reaches the FIFO unpacks what was clocked in: the
   * optional fields first, the buffer after them.
   */
  lemma ReadDataUnpacks(chip: Chip, tr: Trace, fr: Framing, a: Fields)
    requires !Refused(fr, a, true) && chip.fault(tr, ReadFrameFor(fr, a.data).mosi).None?
    ensures var rx := ClockedIn(chip, tr, fr, a.data);
      ReadData(chip, tr, fr, a).result == Unpack(fr, a, rx[..OptionalCount(fr)], rx[OptionalCount(fr)..])
  {
    var s := AccessFifo(chip, tr, Access.Read, Zeros(fr), a.data);
    var v := s.result.value;
    var rx := ClockedIn(chip, tr, fr, a.data);
    assert v.0 + v.1 == rx;
    assert v.0 == rx[..OptionalCount(fr)] && v.1 == rx[OptionalCount(fr)..];
  }

  /**
   * With status bytes appended, a buffer shorter than two bytes panics
   * after the FIFO read; the read has been sent.
   */
  lemma ReadDataShortBufferPanics(chip: Chip, tr: Trace, fr: Framing, a: Fields)
    requires fr.rxStatusFields && |a.data| < 2 && ArgumentsPresent(fr, a, true)
    requires chip.fault(tr, ReadFrameFor(fr, a.data).mosi).None?
    ensures ReadData(chip, tr, fr, a) == Run(Failure(Panic), tr + [ReadFrameFor(fr, a.data)])
  {
  }

  /** The bytes a FIFO frame carries after its header. */
  function Payload(f: Frame): seq<Byte>
    requires |f.mosi| > 0
  {
    f.mosi[1..]
  }

  /**
   * Round trip: when the chip hands a FIFO read back the bytes a successful
   * `write_data` sent, followed by the two status bytes it appends when
   * those are configured, `read_data` with a buffer of the matching size
   * returns the written length and address (each when configured), the
   * written data followed by two zeroed bytes, and the status readings.
   */
  lemma ReadBackWritten(chip: Chip, tr: Trace, fr: Framing, w: Fields, chip2: Chip, tr2: Trace, a: Fields, status: seq<Byte>)
    requires WriteData(chip, tr, fr, w).result.Success?
    requires |status| == (if fr.rxStatusFields then 2 else 0)
    requires ArgumentsPresent(fr, a, true) && |a.data| == |w.data| + |status| <= DataLenMax(fr)
    requires chip2.fault(tr2, ReadFrameFor(fr, a.data).mosi).None?
    requires ClockedIn(chip2, tr2, fr, a.data) == Payload(WriteFrameFor(fr, w)) + status
    ensures var r := ReadData(chip2, tr2, fr, a);
      r.result.Success?
      && r.result.value.length == (if fr.lengthField then w.length else a.length)
      && r.result.value.address == (if fr.addressField then w.address else a.address)
      && r.result.value.data == w.data + (if fr.rxStatusFields then [0, 0] else [])
      && (fr.rxStatusFields ==>
            r.result.value.rssi == Some(Rssi.ToDbm(status[0])) && r.result.value.lqi == Some(status[1]))
  {
    var o := Pack(fr, w.length, w.address);
    var rx := ClockedIn(chip2, tr2, fr, a.data);
    var k := OptionalCount(fr);
    assert Payload(WriteFrameFor(fr, w)) == o + w.data;
    assert rx[..k] == o && rx[k..] == w.data + status;
    ReadDataUnpacks(chip2, tr2, fr, a);
    UnpackPacked(fr, a, w, status);
  }

  /** The pure half of the round trip: unpacking what was packed. */
  lemma UnpackPacked(fr: Framing, a: Fields, w: Fields, status: seq<Byte>)
    requires ArgumentsPresent(fr, w, false)
    requires |status| == (if fr.rxStatusFields then 2 else 0)
    ensures var u := Unpack(fr, a, Pack(fr, w.length, w.address), w.data + status);
      u.Success?
      && u.value.length == (if fr.lengthField then w.length else a.length)
      && u.value.address == (if fr.addressField then w.address else a.address)
      && u.value.data == w.data + (if fr.rxStatusFields then [0, 0] else [])
      && (fr.rxStatusFields ==> u.value.rssi == Some(Rssi.ToDbm(status[0])) && u.value.lqi == Some(status[1]))
  {
    var o := Pack(fr, w.length, w.address);
    var d := w.data + status;
    UnpackFields(fr, a, o, d);
    if fr.rxStatusFields {
      var v := Unpack(fr, a, o, d).value;
      var n := |d|;
      assert d[..n - 2] == w.data;
      assert v.data == v.data[..n - 2] + v.data[n - 2..];
    }
  }
}
