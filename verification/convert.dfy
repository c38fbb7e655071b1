/**
 * `from_frequency` of src/lowlevel/convert.rs: the FREQ2/FREQ1/FREQ0 words
 * for a carrier frequency, `freq = hz * 2^16 / f_XOSC` on `u64`.
 */
module Convert {
  import opened Wrappers

  /** `FXOSC` of src/lowlevel.rs: the 26 MHz crystal. */
  const Fxosc: nat := 26_000_000

  /** `1u64.rotate_left(16)`. */
  const Scale: nat := 65536

  const U64Limit: nat := 0x1_0000_0000_0000_0000

  /** A `u8` value; the arithmetic here is on integers, so bytes are kept as numbers. */
  type U8 = n: nat | n < 256

  /** The register word `hz * 2^16 / f_XOSC`, floored. */
  function Word(hz: nat): nat {
    hz * Scale / Fxosc
  }

  /**
   * `from_frequency`: bytes 0, 1 and 2 of the word.  The multiplication is
   * on `u64` and overflow panics, hence the precondition.
   */
  function FromFrequency(hz: nat): (r: (U8, U8, U8))
    requires hz * Scale < U64Limit
    ensures r.0 + 256 * r.1 + 65536 * r.2 == Word(hz) % 0x100_0000
  {
    var freq := Word(hz);
    ByteDigits(freq);
    (freq % 256, freq / 256 % 256, freq / 65536 % 256)
  }

  /** The low three bytes of a number, as base-256 digits. */
  lemma ByteDigits(f: nat)
    ensures f % 256 + 256 * (f / 256 % 256) + 65536 * (f / 65536 % 256) == f % 0x100_0000
  {
    var q, r := f / 65536, f % 65536;
    assert f == 65536 * q + r;
    assert f / 256 == 256 * q + r / 256;
    assert f / 256 % 256 == r / 256;
    assert f % 256 == r % 256;
    assert f % 0x100_0000 == 65536 * (q % 256) + r;
  }

  /**
   * The word is the largest register setting whose frequency,
   * `word * f_XOSC / 2^16`, does not exceed `hz`.
   */
  lemma WordBrackets(hz: nat)
    ensures Word(hz) * Fxosc <= hz * Scale < (Word(hz) + 1) * Fxosc
  {
  }

  /** Larger frequencies give words at least as large. */
  lemma WordMonotone(a: nat, b: nat)
    requires a <= b
    ensures Word(a) <= Word(b)
  {
    WordBrackets(a);
    WordBrackets(b);
  }

  /** Up to 1 GHz the word stays below 2^22, so FREQ2 fits its six-bit field. */
  lemma Freq2Fits(hz: nat)
    requires hz <= 1_000_000_000
    ensures hz * Scale < U64Limit
    ensures FromFrequency(hz).2 < 0x40
  {
    WordMonotone(hz, 1_000_000_000);
    assert Word(1_000_000_000) == 2520615;
  }

  // The unit-test fixtures of src/lowlevel/convert.rs.

  lemma Fixture433MHz()
    ensures FromFrequency(433_000_000) == (0x62, 0xA7, 0x10)
  {
    assert Word(433_000_000) == 1091426;
  }

  lemma Fixture868MHz()
    ensures FromFrequency(868_000_000) == (0x76, 0x62, 0x21)
  {
    assert Word(868_000_000) == 2187894;
  }

  lemma Fixture902MHz()
    ensures FromFrequency(902_000_000) == (0x3B, 0xB1, 0x22)
  {
    assert Word(902_000_000) == 2273595;
  }

  lemma Fixture918MHz()
    ensures FromFrequency(918_000_000) == (0xC4, 0x4E, 0x23)
  {
    assert Word(918_000_000) == 2313924;
  }
}
