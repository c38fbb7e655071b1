/**
 * The `OffsetSize` trait of src/lowlevel/traits.rs: how a bit-field position
 * written in a register table (a bare offset `n` or a range `lo..hi`) yields
 * an offset and a size.  The codec then uses `size() + 1` as the field width.
 */
module Traits {
  import opened Wrappers

  /**
   * A field position: `Bit(n)` is a bare `u8` offset, `Span(lo, hi)` a
   * `Range<u8>`.  The numbers are kept as naturals; `Valid` bounds them.
   */
  datatype Pos = Bit(n: nat) | Span(lo: nat, hi: nat)

  /** `size()` of a range is a u8 subtraction, defined only when `lo <= hi`. */
  predicate SizeDefined(p: Pos) {
    p.Span? ==> p.lo <= p.hi
  }

  function Offset(p: Pos): nat {
    match p
    case Bit(n) => n
    case Span(lo, _) => lo
  }

  /** `size()`: 1 for a bare offset, `hi - lo` for a range. */
  function Size(p: Pos): nat
    requires SizeDefined(p)
  {
    match p
    case Bit(_) => 1
    case Span(lo, hi) => hi - lo
  }

  /** The width the register macros use: `size() + 1`. */
  function Width(p: Pos): nat
    requires SizeDefined(p)
    requires Size(p) < 0xFF
  {
    Size(p) + 1
  }

  /** Every position a register table writes: offsets and range ends within one byte. */
  predicate Valid(p: Pos) {
    match p
    case Bit(n) => n <= 7
    case Span(lo, hi) => lo <= hi <= 7
  }

  /**
   * The width rule as written: a range `lo..hi` is `hi - lo + 1` bits wide
   * (so it covers lo..hi inclusive), and a bare offset is two bits wide.
   */
  lemma WidthRule(p: Pos)
    requires Valid(p)
    ensures p.Span? ==> Width(p) == p.hi - p.lo + 1
    ensures p.Bit? ==> Width(p) == 2
    ensures 1 <= Width(p) <= 8
    ensures Offset(p) <= 7
  {
  }

  /** `ToWider` for u8: the u16 with the same numeric value. */
  function ToWider(b: Byte): (w: bv16)
    ensures w as int == b as int
    ensures w < 0x100
  {
    b as bv16
  }
}
