/**
 * `rssi_to_dbm` of src/rssi.rs: the RSSI status byte is a signed count of
 * half-dB steps; section 17.3 of the CC1101 datasheet converts it to dBm by
 * halving it and subtracting the offset.  The source computes on `i16`,
 * where `/` truncates toward zero.  src/lib.rs calls a
 * `from_rssi_to_rssi_dbm` that no source file defines; this model takes it
 * to be this function.
 */
module Rssi {
  import opened Wrappers

  /** `RSSI_OFFSET`, the typical offset of the datasheet's table 31. */
  const Offset: int := 74

  /** Rust's integer division on `i16`: the quotient truncated toward zero. */
  function TruncDiv(a: int, d: int): (q: int)
    requires d > 0
    ensures a >= 0 ==> q == a / d
    ensures a < 0 ==> q == -((-a) / d)
  {
    if a >= 0 then a / d else -((-a) / d)
  }

  /** The raw byte read as a two's complement `i8`. */
  function Signed(raw: Byte): (s: int)
    ensures -128 <= s <= 127
    ensures s >= 0 <==> raw < 128
    ensures (s + 256) % 256 == raw as int
  {
    if raw < 128 then raw as int else raw as int - 256
  }

  /** `rssi_to_dbm`. */
  function ToDbm(raw: Byte): int {
    var rssi := raw as int;
    if rssi < 128 then TruncDiv(rssi, 2) - Offset
    else TruncDiv(rssi - 256, 2) - Offset
  }

  /** Every result lies in -138..-11 and so fits the `i16` the source returns. */
  lemma ToDbmRange(raw: Byte)
    ensures -138 <= ToDbm(raw) <= -11
  {
  }

  /**
   * The datasheet's formula: the signed reading halved, rounded toward
   * zero, minus the offset.  Twice the result plus the offset differs from
   * the reading by at most the half step dropped, and never overshoots it.
   */
  lemma ToDbmHalvesSigned(raw: Byte)
    ensures ToDbm(raw) == TruncDiv(Signed(raw), 2) - Offset
    ensures Signed(raw) >= 0 ==> 0 <= Signed(raw) - 2 * (ToDbm(raw) + Offset) <= 1
    ensures Signed(raw) < 0 ==> 0 <= 2 * (ToDbm(raw) + Offset) - Signed(raw) <= 1
  {
  }

  /** The reading is monotone within each half of the byte range. */
  lemma ToDbmMonotone(a: Byte, b: Byte)
    requires a as int <= b as int
    requires (a as int < 128) == (b as int < 128)
    ensures ToDbm(a) <= ToDbm(b)
  {
    var x, y := a as int, b as int;
    if x < 128 {
      assert ToDbm(a) == x / 2 - Offset && ToDbm(b) == y / 2 - Offset;
      HalfMono(x, y);
    } else {
      assert ToDbm(a) == -((256 - x) / 2) - Offset;
      assert ToDbm(b) == -((256 - y) / 2) - Offset;
      HalfMono(256 - y, 256 - x);
    }
  }

  lemma HalfMono(x: nat, y: nat)
    requires x <= y
    ensures x / 2 <= y / 2
  {
  }

  /** Spot values: the two ends of each half. */
  lemma ToDbmSpotValues()
    ensures ToDbm(0) == -74
    ensures ToDbm(127) == -11
    ensures ToDbm(128) == -138
    ensures ToDbm(255) == -74
  {
  }

  /**
   * Rounding toward zero makes the two readings either side of zero, 0x01
   * and 0xFF, both -74 dBm; a floor division would give -75 for 0xFF.
   */
  lemma TruncationAtZero()
    ensures ToDbm(0x01) == ToDbm(0xFF) == -74
    ensures (0xFF as int - 256) / 2 - Offset == -75
  {
  }
}
