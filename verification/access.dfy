/**
 * The SPI header byte of the CC1101: bit 7 selects read (1) or write (0),
 * bit 6 selects single (0) or burst (1) access, and bits 0..5 carry the
 * register base address (src/lowlevel/access.rs).
 */
module Access {
  import opened Wrappers

  /** `Mode` of src/lowlevel/access.rs: Single = 0x00, Burst = 0x40. */
  datatype Mode = Single | Burst

  /** Direction bit of the header: Read = 0x80, Write = 0x00. */
  datatype Direction = Read | Write

  function ModeBits(m: Mode): (r: Byte)
    ensures r & !0x40 == 0
    ensures r == 0x40 <==> m == Burst
  {
    match m
    case Single => 0x00
    case Burst => 0x40
  }

  function DirectionBits(d: Direction): (r: Byte)
    ensures r & !0x80 == 0
    ensures r == 0x80 <==> d == Read
  {
    match d
    case Read => 0x80
    case Write => 0x00
  }

  /** `Mode::offset`: OR the mode bit into an address. */
  function Offset(m: Mode, a: Byte): (r: Byte)
    ensures r & !0x40 == a & !0x40
    ensures r & 0x40 == (if m == Burst then 0x40 else a & 0x40)
  {
    ModeBits(m) | a
  }

  /** Single access leaves the address alone. */
  lemma SingleOffset(a: Byte)
    ensures Offset(Single, a) == a
  {
  }

  /**
   * For a base address (below 0x40), burst access adds 0x40, and masking
   * with 0x3F recovers the base in either mode.
   */
  lemma OffsetOfBase(m: Mode, a: Byte)
    requires a < 0x40
    ensures Offset(m, a) as int == a as int + (if m == Burst then 0x40 else 0)
    ensures Offset(m, a) & 0x3F == a
    ensures Offset(m, a) < 0x80
  {
  }

  /** Applying the same mode twice changes nothing more. */
  lemma OffsetIdempotent(m: Mode, a: Byte)
    ensures Offset(m, Offset(m, a)) == Offset(m, a)
  {
  }

  /** The header byte `direction | mode | base` used by every address encoder. */
  function Header(d: Direction, m: Mode, base: Byte): Byte {
    DirectionBits(d) | ModeBits(m) | base
  }

  /** Splits a header byte back into its direction, mode and base. */
  function DecodeHeader(h: Byte): (r: (Direction, Mode, Byte))
    ensures r.2 < 0x40
  {
    (if h & 0x80 == 0 then Write else Read,
     if h & 0x40 == 0 then Single else Burst,
     h & 0x3F)
  }

  /** A header built from a base below 0x40 decodes to exactly what built it. */
  lemma DecodeHeaderInverse(d: Direction, m: Mode, base: Byte)
    requires base < 0x40
    ensures DecodeHeader(Header(d, m, base)) == (d, m, base)
  {
    assert Header(d, m, base) & 0x3F == base;
    assert Header(d, m, base) & 0x80 == DirectionBits(d);
    assert Header(d, m, base) & 0x40 == ModeBits(m);
  }

  /** Every byte is the header of what it decodes to: the encoding is onto. */
  lemma HeaderOfDecode(h: Byte)
    ensures Header(DecodeHeader(h).0, DecodeHeader(h).1, DecodeHeader(h).2) == h
  {
  }

  /** The header is the mode offset of the base with the direction bit on top. */
  lemma HeaderIsOffset(d: Direction, m: Mode, base: Byte)
    ensures Header(d, m, base) == DirectionBits(d) | Offset(m, base)
  {
  }
}
