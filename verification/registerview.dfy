/**
 * The typed register views the `register!` macros generate (src/lowlevel/macros.rs,
 * and the older src/macros.rs with its mask view), over the configuration
 * registers: a read view `R` built from a byte, a write view `W` built from
 * the reset value or by `modify()`, field getters on `R`, chained setters on
 * `W`, and `bits()` to get the byte back.
 */
module RegisterViews {
  import opened Wrappers
  import opened Traits
  import opened Layouts
  import BitField
  import Configs

  /** The `MODE` type parameter. */
  datatype Typestate = R | W

  /** A register view: which register, which typestate, and its byte. */
  datatype View = View(reg: Configs.Config, mode: Typestate, bits: Byte)

  /** A field of the register: an index into its table. */
  predicate HasField(c: Configs.Config, k: nat) {
    k < |Configs.Layout(c)|
  }

  /** The position of field `k` of register `c`. */
  function FieldPosOf(c: Configs.Config, k: nat): (p: FieldPos)
    requires HasField(c, k)
    ensures BitField.Codable(p)
  {
    Configs.LayoutCodable(c, k);
    Configs.Layout(c)[k]
  }

  /** `Default` of the write view: the register's reset value. */
  function Default(c: Configs.Config): View {
    View(c, W, Configs.Reset(c))
  }

  /** The function named after the register, and `From<u8>`: a read view of a byte. */
  function Of(c: Configs.Config, b: Byte): View {
    View(c, R, b)
  }

  /** `modify()`: the write view of the same byte. */
  function Modify(v: View): View
    requires v.mode == R
  {
    View(v.reg, W, v.bits)
  }

  /** `bits()` on a write view. */
  function Bits(v: View): Byte
    requires v.mode == W
  {
    v.bits
  }

  /** `Into<u8>` on a read view. */
  function IntoByte(v: View): Byte
    requires v.mode == R
  {
    v.bits
  }

  /** The getter of field `k`. */
  function Get(v: View, k: nat): Byte
    requires v.mode == R && HasField(v.reg, k)
  {
    BitField.Read(v.bits, FieldPosOf(v.reg, k))
  }

  /** The setter of field `k`; its `debug_assert!(bits <= mask)` is the precondition. */
  function Set(v: View, k: nat, x: Byte): View
    requires v.mode == W && HasField(v.reg, k)
    requires x <= BitField.Mask(FieldPosOf(v.reg, k))
  {
    View(v.reg, W, BitField.Write(v.bits, FieldPosOf(v.reg, k), x))
  }

  /** The mask view's accessor of field `k` in src/macros.rs: the bits the field owns. */
  function MaskOf(c: Configs.Config, k: nat): Byte
    requires HasField(c, k)
  {
    BitField.FieldBits(FieldPosOf(c, k))
  }

  /** `mask()` of src/macros.rs: the mask view starts from 0. */
  function MaskStart(c: Configs.Config): View {
    View(c, R, 0)
  }

  /**
   * The conversions keep the byte: `From<u8>` then `Into<u8>`, `modify()`
   * then `bits()`, and the builder starts from the reset value.
   */
  lemma ViewsKeepByte(c: Configs.Config, b: Byte)
    ensures IntoByte(Of(c, b)) == b
    ensures Bits(Modify(Of(c, b))) == b
    ensures Modify(Of(c, b)).reg == c
    ensures Bits(Default(c)) == Configs.Reset(c)
    ensures MaskStart(c).bits == 0
  {
  }

  /**
   * The getter agrees with the older macro's mask view: keep the field's
   * bits, then shift them down.
   */
  lemma GetViaMask(v: View, k: nat)
    requires v.mode == R && HasField(v.reg, k)
    ensures Get(v, k) == BitField.Shr(v.bits & MaskOf(v.reg, k), Offset(FieldPosOf(v.reg, k)))
    ensures MaskOf(v.reg, k) == BitField.Shl(BitField.Ones(Width(FieldPosOf(v.reg, k))), Offset(FieldPosOf(v.reg, k)))
  {
    BitField.ReadViaMaskView(v.bits, FieldPosOf(v.reg, k));
  }

  /** A setter changes no bit outside the field's mask view. */
  lemma SetKeepsOutside(v: View, k: nat, x: Byte)
    requires v.mode == W && HasField(v.reg, k)
    requires x <= BitField.Mask(FieldPosOf(v.reg, k))
    ensures Bits(Set(v, k, x)) & !MaskOf(v.reg, k) == v.bits & !MaskOf(v.reg, k)
  {
    BitField.WriteKeepsOutside(v.bits, FieldPosOf(v.reg, k), x);
  }

  /**
   * Reading the written byte back through the register's read view gives
   * the value, as long as the field's mask does not run past bit 7.
   */
  lemma GetAfterSet(v: View, k: nat, x: Byte)
    requires v.mode == W && HasField(v.reg, k)
    requires x <= BitField.Mask(FieldPosOf(v.reg, k))
    ensures Get(Of(v.reg, Bits(Set(v, k, x))), k) == x & BitField.Shr(0xFF, Offset(FieldPosOf(v.reg, k)))
    ensures Offset(FieldPosOf(v.reg, k)) + Width(FieldPosOf(v.reg, k)) <= 8
        ==> Get(Of(v.reg, Bits(Set(v, k, x))), k) == x
  {
    GetOfSet(v, k, x);
    BitField.ReadAfterWrite(v.bits, FieldPosOf(v.reg, k), x);
  }

  /** The getter on a setter's byte is the codec's read of the codec's write. */
  lemma GetOfSet(v: View, k: nat, x: Byte)
    requires v.mode == W && HasField(v.reg, k)
    requires x <= BitField.Mask(FieldPosOf(v.reg, k))
    ensures Get(Of(v.reg, Bits(Set(v, k, x))), k)
         == BitField.Read(BitField.Write(v.bits, FieldPosOf(v.reg, k), x), FieldPosOf(v.reg, k))
  {
  }

  /** Setting a field twice leaves what setting it once with the second value leaves. */
  lemma SetTwice(v: View, k: nat, x: Byte, y: Byte)
    requires v.mode == W && HasField(v.reg, k)
    requires x <= BitField.Mask(FieldPosOf(v.reg, k)) && y <= BitField.Mask(FieldPosOf(v.reg, k))
    ensures Set(Set(v, k, x), k, y) == Set(v, k, y)
    ensures Set(Set(v, k, y), k, y) == Set(v, k, y)
  {
    BitField.WriteTwice(v.bits, FieldPosOf(v.reg, k), x, y);
  }

  /** Setters of fields with disjoint masks commute. */
  lemma SetsCommute(v: View, k: nat, x: Byte, j: nat, y: Byte)
    requires v.mode == W && HasField(v.reg, k) && HasField(v.reg, j)
    requires x <= BitField.Mask(FieldPosOf(v.reg, k)) && y <= BitField.Mask(FieldPosOf(v.reg, j))
    requires Apart(FieldPosOf(v.reg, k), FieldPosOf(v.reg, j))
    ensures Set(Set(v, k, x), j, y) == Set(Set(v, j, y), k, x)
  {
    BitField.WritesCommute(v.bits, FieldPosOf(v.reg, k), x, FieldPosOf(v.reg, j), y);
  }

  /**
   * In a register whose fields are disjoint as written, a setter leaves
   * every other field's reading as it was.
   */
  lemma SetKeepsOtherFields(v: View, k: nat, x: Byte, j: nat)
    requires v.mode == W && HasField(v.reg, k) && HasField(v.reg, j) && j != k
    requires x <= BitField.Mask(FieldPosOf(v.reg, k))
    requires v.reg !in Configs.Overlapping
    ensures Get(Of(v.reg, Bits(Set(v, k, x))), j) == Get(Of(v.reg, v.bits), j)
  {
    var s := Configs.Layout(v.reg);
    Configs.FieldsDisjoint(v.reg);
    if j < k {
      assert Apart(s[j], s[k]);
    } else {
      assert Apart(s[k], s[j]);
      assert BitField.FieldBits(s[j]) & BitField.FieldBits(s[k]) == 0;
    }
    BitField.WriteKeepsDisjointRead(v.bits, FieldPosOf(v.reg, j), FieldPosOf(v.reg, k), x);
  }

  // ---------------------------------------------------------------------
  // The codec with every bare offset read as the single bit it names
  // ---------------------------------------------------------------------

  /** Field `k`'s position with a bare offset taken as one bit. */
  function IntendedPosOf(c: Configs.Config, k: nat): (p: FieldPos)
    requires HasField(c, k)
    ensures p == Intended(FieldPosOf(c, k))
    ensures BitField.Codable(p)
    ensures Offset(p) + Width(p) <= 8
  {
    var q := FieldPosOf(c, k);
    WidthRule(q);
    var p: FieldPos := Intended(q);
    WidthRule(p);
    p
  }

  /** The getter of field `k`, as intended. */
  function IntendedGet(v: View, k: nat): Byte
    requires v.mode == R && HasField(v.reg, k)
  {
    BitField.Read(v.bits, IntendedPosOf(v.reg, k))
  }

  /** The setter of field `k`, as intended. */
  function IntendedSet(v: View, k: nat, x: Byte): View
    requires v.mode == W && HasField(v.reg, k)
    requires x <= BitField.Mask(IntendedPosOf(v.reg, k))
  {
    View(v.reg, W, BitField.Write(v.bits, IntendedPosOf(v.reg, k), x))
  }

  /** On a range the intended codec is the codec as written. */
  lemma IntendedOnRanges(v: View, k: nat)
    requires HasField(v.reg, k) && FieldPosOf(v.reg, k).Span?
    ensures IntendedPosOf(v.reg, k) == FieldPosOf(v.reg, k)
    ensures v.mode == R ==> IntendedGet(v, k) == Get(v, k)
  {
  }

  /** Every field, bare offsets included, reads back the value just written. */
  lemma IntendedGetAfterSet(v: View, k: nat, x: Byte)
    requires v.mode == W && HasField(v.reg, k)
    requires x <= BitField.Mask(IntendedPosOf(v.reg, k))
    ensures IntendedGet(Of(v.reg, Bits(IntendedSet(v, k, x))), k) == x
  {
    IntendedGetOfSet(v, k, x);
    BitField.ReadAfterWrite(v.bits, IntendedPosOf(v.reg, k), x);
  }

  lemma IntendedGetOfSet(v: View, k: nat, x: Byte)
    requires v.mode == W && HasField(v.reg, k)
    requires x <= BitField.Mask(IntendedPosOf(v.reg, k))
    ensures IntendedGet(Of(v.reg, Bits(IntendedSet(v, k, x))), k)
         == BitField.Read(BitField.Write(v.bits, IntendedPosOf(v.reg, k), x), IntendedPosOf(v.reg, k))
  {
  }

  /**
   * In every configuration register, overlapping ones included, an
   * intended setter leaves every other field's intended reading as it was.
   */
  lemma IntendedSetKeepsOtherFields(v: View, k: nat, x: Byte, j: nat)
    requires v.mode == W && HasField(v.reg, k) && HasField(v.reg, j) && j != k
    requires x <= BitField.Mask(IntendedPosOf(v.reg, k))
    ensures IntendedGet(Of(v.reg, Bits(IntendedSet(v, k, x))), j) == IntendedGet(Of(v.reg, v.bits), j)
  {
    IntendedFieldsApart(v.reg, j, k);
    BitField.WriteKeepsDisjointRead(v.bits, IntendedPosOf(v.reg, j), IntendedPosOf(v.reg, k), x);
  }

  /** Two distinct fields of a register, read as intended, share no bit. */
  lemma IntendedFieldsApart(c: Configs.Config, j: nat, k: nat)
    requires HasField(c, j) && HasField(c, k) && j != k
    ensures BitField.FieldBits(IntendedPosOf(c, j)) & BitField.FieldBits(IntendedPosOf(c, k)) == 0
  {
    var t := IntendedLayout(Configs.Layout(c));
    Configs.FieldsDisjoint(c);
    assert t[j] == IntendedPosOf(c, j) && t[k] == IntendedPosOf(c, k);
    if j < k {
      assert Apart(t[j], t[k]);
    } else {
      assert Apart(t[k], t[j]);
    }
  }
}
