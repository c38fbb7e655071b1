/**
 * The bit-field codec generated by the `register!` macros
 * (src/lowlevel/macros.rs and the older src/macros.rs).
 *
 * A field read is `(bits >> offset) & mask`, a field write clears
 * `mask << offset` and ors in `(v & mask) << offset`, and the older macro's
 * mask view is `mask << offset`, where `mask = (1 << (size() + 1)) - 1`.
 * All shifts are u8 shifts: bits shifted past bit 7 are lost.
 *
 * Shifts by a field offset are written as repeated one-bit shifts (`Shl`,
 * `Shr`), which is the same function on a byte and lets the proofs below go
 * by induction on the offset.
 */
module BitField {
  import opened Wrappers
  import opened Traits

  // ---------------------------------------------------------------------
  // Shifts and masks
  // ---------------------------------------------------------------------

  /** `x << k` on a u8: k one-bit left shifts. */
  function Shl(x: Byte, k: nat): Byte {
    if k == 0 then x else Shl(x, k - 1) << 1
  }

  /** `x >> k` on a u8: k one-bit right shifts. */
  function Shr(x: Byte, k: nat): Byte {
    if k == 0 then x else Shr(x, k - 1) >> 1
  }

  /** The low `k` bits set: `((1 << k) - 1) as u8`. */
  function Ones(k: nat): Byte {
    if k == 0 then 0 else (Ones(k - 1) << 1) | 1
  }

  /** Clear the bits of `f` in `b`, then or in `x`. */
  function Update(b: Byte, f: Byte, x: Byte): Byte {
    (b & !f) | x
  }

  /** The raw field write: mask `m` at offset `o`, value `v` truncated to `m`. */
  function Place(b: Byte, m: Byte, o: nat, v: Byte): Byte {
    Update(b, Shl(m, o), Shl(v & m, o))
  }

  /** The raw field read: shift down by `o`, keep the bits of `m`. */
  function Get(b: Byte, m: Byte, o: nat): Byte {
    Shr(b, o) & m
  }

  // ---------------------------------------------------------------------
  // The codec at a table position
  // ---------------------------------------------------------------------

  /** A position the codec can handle: a defined size whose width fits a shift. */
  predicate Codable(p: Pos) {
    SizeDefined(p) && Size(p) < 0xFF
  }

  /** The value mask `((1 << (size() + 1)) - 1) as u8`. */
  function Mask(p: Pos): Byte
    requires Codable(p)
  {
    Ones(Width(p))
  }

  /** The mask view of src/macros.rs: `mask << offset`, the bits a field owns. */
  function FieldBits(p: Pos): Byte
    requires Codable(p)
  {
    Shl(Mask(p), Offset(p))
  }

  /** The read accessor. */
  function Read(bits: Byte, p: Pos): Byte
    requires Codable(p)
  {
    Get(bits, Mask(p), Offset(p))
  }

  /**
   * The write setter.  Its `debug_assert!(bits <= mask)` is the precondition;
   * without it the value would be truncated to `v & mask`.
   */
  function Write(bits: Byte, p: Pos, v: Byte): Byte
    requires Codable(p)
    requires v <= Mask(p)
  {
    Place(bits, Mask(p), Offset(p), v)
  }

  // ---------------------------------------------------------------------
  // Shift laws, by induction on the shift amount
  // ---------------------------------------------------------------------

  /** Shifting left preserves inclusion of bit sets. */
  lemma {:induction false} ShlSubset(a: Byte, b: Byte, k: nat)
    requires a & !b == 0
    ensures Shl(a, k) & !Shl(b, k) == 0
  {
    if k > 0 {
      ShlSubset(a, b, k - 1);
    }
  }

  /** Shifting right distributes over `&`. */
  lemma {:induction false} ShrAnd(a: Byte, b: Byte, k: nat)
    ensures Shr(a & b, k) == Shr(a, k) & Shr(b, k)
  {
    if k > 0 {
      ShrAnd(a, b, k - 1);
    }
  }

  /** The first of `j + 1` left shifts can be taken first. */
  lemma {:induction false} ShlTail(a: Byte, k: nat, j: nat)
    requires k == j + 1
    ensures Shl(a, k) == Shl(a << 1, j)
  {
    if j > 0 {
      ShlTail(a, j, j - 1);
    }
  }

  /** Shifting a masked value down one bit is masking the value by the shifted mask. */
  lemma ShiftUnderMask(a: Byte, keep: Byte)
    ensures ((a << 1) & keep) >> 1 == a & (keep >> 1)
  {
  }

  lemma ShrShlStep(a: Byte, k: nat, j: nat)
    requires k == j + 1
    requires Shr(Shl(a << 1, j), j) == (a << 1) & Shr(0xFF, j)
    ensures Shr(Shl(a, k), k) == a & Shr(0xFF, k)
  {
    ShlTail(a, k, j);
    ShiftUnderMask(a, Shr(0xFF, j));
  }

  /** Shifting left then right by the same amount only loses the top k bits. */
  lemma {:induction false} ShrShl(a: Byte, k: nat)
    ensures Shr(Shl(a, k), k) == a & Shr(0xFF, k)
    decreases k
  {
    if k > 0 {
      var j := k - 1;
      ShrShl(a << 1, j);
      ShrShlStep(a, k, j);
    }
  }

  /** Every bit a right shift by k can produce lies in `0xFF >> k`. */
  lemma ShrWithin(a: Byte, k: nat)
    ensures Shr(a, k) & Shr(0xFF, k) == Shr(a, k)
  {
    ShrAnd(a, 0xFF, k);
  }

  // ---------------------------------------------------------------------
  // Masks
  // ---------------------------------------------------------------------

  /** `Ones(k)` is `2^k - 1` for every width a byte can hold. */
  lemma OnesValue(k: nat)
    requires k <= 8
    ensures Ones(k) as int == Pow2(k) - 1
  {
    if k == 0 {
    } else if k == 1 {
      assert Ones(1) == 0x01;
    } else if k == 2 {
      assert Ones(2) == 0x03;
    } else if k == 3 {
      assert Ones(3) == 0x07;
    } else if k == 4 {
      assert Ones(4) == 0x0F;
    } else if k == 5 {
      assert Ones(5) == 0x1F;
    } else if k == 6 {
      assert Ones(6) == 0x3F;
    } else if k == 7 {
      assert Ones(7) == 0x7F;
    } else {
      assert Ones(8) == 0xFF;
    }
  }

  function Pow2(k: nat): nat {
    if k == 0 then 1 else 2 * Pow2(k - 1)
  }

  /** A value no larger than `Ones(k)` has no bit outside it. */
  lemma WithinOnes(v: Byte, k: nat)
    requires k <= 8
    requires v <= Ones(k)
    ensures v & Ones(k) == v
  {
    if k == 0 {
    } else if k == 1 {
      assert Ones(1) == 0x01;
    } else if k == 2 {
      assert Ones(2) == 0x03;
    } else if k == 3 {
      assert Ones(3) == 0x07;
    } else if k == 4 {
      assert Ones(4) == 0x0F;
    } else if k == 5 {
      assert Ones(5) == 0x1F;
    } else if k == 6 {
      assert Ones(6) == 0x3F;
    } else if k == 7 {
      assert Ones(7) == 0x7F;
    } else {
      assert Ones(8) == 0xFF;
    }
  }

  /** The bits `0xFF >> k` keeps are the low `8 - k`. */
  lemma ShrFullIsOnes(k: nat)
    requires k <= 8
    ensures Shr(0xFF, k) == Ones(8 - k)
  {
    if k == 0 {
      assert Ones(8) == 0xFF;
    } else if k == 1 {
      assert Shr(0xFF, 1) == 0x7F;
    } else if k == 2 {
      assert Shr(0xFF, 2) == 0x3F;
    } else if k == 3 {
      assert Shr(0xFF, 3) == 0x1F;
    } else if k == 4 {
      assert Shr(0xFF, 4) == 0x0F;
    } else if k == 5 {
      assert Shr(0xFF, 5) == 0x07;
    } else if k == 6 {
      assert Shr(0xFF, 6) == 0x03;
    } else if k == 7 {
      assert Shr(0xFF, 7) == 0x01;
    } else {
      assert Shr(0xFF, 8) == 0x00;
    }
  }

  /** A shorter run of low bits lies inside a longer one. */
  lemma {:induction false} OnesMono(a: nat, b: nat)
    requires a <= b
    ensures Ones(a) & Ones(b) == Ones(a)
  {
    if a > 0 {
      OnesMono(a - 1, b - 1);
    }
  }

  /** Past eight, the run of ones fills the byte and stops growing. */
  lemma {:induction false} OnesSaturate(k: nat)
    requires k >= 8
    ensures Ones(k) == 0xFF
  {
    if k > 8 {
      OnesSaturate(k - 1);
    }
  }

  /** `Ones(a)` equals `Ones(min(a, 8))`. */
  lemma OnesClamp(a: nat, b: nat)
    requires b == (if a > 8 then 8 else a)
    ensures Ones(a) == Ones(b)
  {
    if a > 8 {
      OnesSaturate(a);
      OnesSaturate(8);
    }
  }

  /** Inside `b`, a run minus a lower run stays inside `b`. */
  lemma BelowAndAbove(c: Byte, d: Byte, c2: Byte, b: Byte)
    requires c2 == c && c & b == c
    ensures (c & !d) & !b == 0
  {
  }

  /** A byte outside `m` and a byte inside `m` share no bit. */
  lemma SplitByMask(x: Byte, y: Byte, m: Byte)
    requires x & m == 0 && y & !m == 0
    ensures x & y == 0
  {
  }

  // ---------------------------------------------------------------------
  // Update laws: plain byte algebra, no shifts
  // ---------------------------------------------------------------------

  lemma UpdateOutside(b: Byte, f: Byte, x: Byte)
    requires x & !f == 0
    ensures Update(b, f, x) & !f == b & !f
  {
  }

  lemma UpdateInside(b: Byte, f: Byte, x: Byte)
    requires x & !f == 0
    ensures Update(b, f, x) & f == x
  {
  }

  lemma UpdateTwice(b: Byte, f: Byte, x1: Byte, x2: Byte)
    requires x1 & !f == 0
    ensures Update(Update(b, f, x1), f, x2) == Update(b, f, x2)
  {
  }

  lemma UpdatesCommute(b: Byte, f1: Byte, x1: Byte, f2: Byte, x2: Byte)
    requires x1 & !f1 == 0 && x2 & !f2 == 0 && f1 & f2 == 0
    ensures Update(Update(b, f1, x1), f2, x2) == Update(Update(b, f2, x2), f1, x1)
  {
  }

  lemma UpdateKeepsDisjoint(b: Byte, f1: Byte, f2: Byte, x2: Byte)
    requires x2 & !f2 == 0 && f1 & f2 == 0
    ensures Update(b, f2, x2) & f1 == b & f1
  {
  }

  // ---------------------------------------------------------------------
  // Raw read and write
  // ---------------------------------------------------------------------

  /** The value a raw write ors in lies within the shifted mask. */
  lemma PlacedWithin(m: Byte, o: nat, v: Byte)
    ensures Shl(v & m, o) & !Shl(m, o) == 0
  {
    ShlSubset(v & m, m, o);
  }

  lemma GetStep(a: Byte, m: Byte, k: nat)
    ensures Shr(a & Shl(m, k), k) == Shr(a, k) & (m & Shr(0xFF, k))
  {
    ShrAnd(a, Shl(m, k), k);
    ShrShl(m, k);
  }

  lemma AndWithin(x: Byte, m: Byte, h: Byte)
    requires x & h == x
    ensures x & (m & h) == x & m
  {
  }

  /** A raw read only looks at the bits of the shifted mask. */
  lemma GetThroughMask(a: Byte, m: Byte, k: nat)
    ensures Get(a, m, k) == Shr(a & Shl(m, k), k)
  {
    GetStep(a, m, k);
    ShrWithin(a, k);
    AndWithin(Shr(a, k), m, Shr(0xFF, k));
  }

  lemma PlaceMasked(b: Byte, m: Byte, o: nat, v: Byte)
    ensures Place(b, m, o, v) & Shl(m, o) == Shl(v & m, o)
  {
    PlacedWithin(m, o, v);
    UpdateInside(b, Shl(m, o), Shl(v & m, o));
  }

  lemma GetPlace(b: Byte, m: Byte, o: nat, v: Byte)
    ensures Get(Place(b, m, o, v), m, o) == (v & m) & Shr(0xFF, o)
  {
    GetThroughMask(Place(b, m, o, v), m, o);
    PlaceMasked(b, m, o, v);
    ShrShl(v & m, o);
  }

  lemma PlaceOutside(b: Byte, m: Byte, o: nat, v: Byte)
    ensures Place(b, m, o, v) & !Shl(m, o) == b & !Shl(m, o)
  {
    PlacedWithin(m, o, v);
    UpdateOutside(b, Shl(m, o), Shl(v & m, o));
  }

  lemma PlaceTwice(b: Byte, m: Byte, o: nat, u: Byte, v: Byte)
    ensures Place(Place(b, m, o, u), m, o, v) == Place(b, m, o, v)
  {
    PlacedWithin(m, o, u);
    UpdateTwice(b, Shl(m, o), Shl(u & m, o), Shl(v & m, o));
  }

  lemma PlacesCommute(b: Byte, m1: Byte, o1: nat, u: Byte, m2: Byte, o2: nat, v: Byte)
    requires Shl(m1, o1) & Shl(m2, o2) == 0
    ensures Place(Place(b, m1, o1, u), m2, o2, v) == Place(Place(b, m2, o2, v), m1, o1, u)
  {
    PlacedWithin(m1, o1, u);
    PlacedWithin(m2, o2, v);
    UpdatesCommute(b, Shl(m1, o1), Shl(u & m1, o1), Shl(m2, o2), Shl(v & m2, o2));
  }

  lemma GetAfterDisjointPlace(b: Byte, m1: Byte, o1: nat, m2: Byte, o2: nat, v: Byte)
    requires Shl(m1, o1) & Shl(m2, o2) == 0
    ensures Get(Place(b, m2, o2, v), m1, o1) == Get(b, m1, o1)
  {
    DisjointPlaceMasked(b, m1, o1, m2, o2, v);
    GetSameMasked(Place(b, m2, o2, v), b, m1, o1);
  }

  lemma MaskedWithin(v: Byte, m: Byte, h: Byte)
    requires v & m == v
    ensures (v & m) & h == v & h
  {
  }

  /** A value of at most `w` bits survives shifting by `o` when `o + w <= 8`. */
  lemma FitsBelow(v: Byte, w: nat, o: nat)
    requires o + w <= 8
    requires v & Ones(w) == v
    ensures v & Shr(0xFF, o) == v
  {
    ShrFullIsOnes(o);
    OnesMono(w, 8 - o);
    AndSelfWithin(v, Ones(w), Ones(8 - o));
  }

  lemma DisjointPlaceMasked(b: Byte, m1: Byte, o1: nat, m2: Byte, o2: nat, v: Byte)
    requires Shl(m1, o1) & Shl(m2, o2) == 0
    ensures Place(b, m2, o2, v) & Shl(m1, o1) == b & Shl(m1, o1)
  {
    PlacedWithin(m2, o2, v);
    UpdateKeepsDisjoint(b, Shl(m1, o1), Shl(m2, o2), Shl(v & m2, o2));
  }

  lemma GetSameMasked(a: Byte, b: Byte, m: Byte, o: nat)
    requires a & Shl(m, o) == b & Shl(m, o)
    ensures Get(a, m, o) == Get(b, m, o)
  {
    GetThroughMask(a, m, o);
    GetThroughMask(b, m, o);
  }

  /** Shifting left distributes over `|`. */
  lemma {:induction false} ShlOr(a: Byte, b: Byte, k: nat)
    ensures Shl(a | b, k) == Shl(a, k) | Shl(b, k)
  {
    if k > 0 {
      ShlOr(a, b, k - 1);
    }
  }

  lemma ShiftRun(hi: Byte, lo: Byte)
    ensures (hi & !lo) << 1 == ((hi << 1) | 1) & !((lo << 1) | 1)
  {
  }

  /** A run of `w` ones shifted up by `k` is the bits from `k` up to `k + w - 1`. */
  lemma {:induction false} ShlOnes(w: nat, k: nat)
    ensures Shl(Ones(w), k) == Ones(k + w) & !Ones(k)
  {
    if k > 0 {
      ShlOnes(w, k - 1);
      ShiftRun(Ones(k - 1 + w), Ones(k - 1));
    }
  }

  lemma AndSelfWithin(v: Byte, m: Byte, h: Byte)
    requires v & m == v && m & h == m
    ensures (v & m) & h == v
  {
  }

  // ---------------------------------------------------------------------
  // The codec at a table position: what the macros promise
  // ---------------------------------------------------------------------

  /** The mask both macros compute is `2^width - 1`. */
  lemma MaskValue(p: Pos)
    requires Valid(p)
    ensures Mask(p) as int == Pow2(Width(p)) - 1
  {
    WidthRule(p);
    OnesValue(Width(p));
  }

  /**
   * The bits a field owns are those from its offset up to offset + width - 1,
   * cut off at bit 7.
   */
  lemma FieldBitsRun(p: Pos)
    requires Codable(p)
    ensures FieldBits(p) == Ones(Offset(p) + Width(p)) & !Ones(Offset(p))
  {
    ShlOnes(Width(p), Offset(p));
  }

  /** A range `lo..hi` owns bits lo..hi inclusive. */
  lemma FieldBitsSpan(lo: nat, hi: nat)
    requires lo <= hi <= 7
    ensures FieldBits(Span(lo, hi)) == Ones(hi + 1) & !Ones(lo)
  {
    var p := Span(lo, hi);
    assert Offset(p) == lo && Offset(p) + Width(p) == hi + 1;
    FieldBitsRun(p);
  }

  /** A bare offset `n` owns bits n and n + 1 (only bit 7 when n is 7). */
  lemma FieldBitsBare(n: nat)
    requires n <= 7
    ensures FieldBits(Bit(n)) == Ones(n + 2) & !Ones(n)
  {
    FieldBitsRun(Bit(n));
  }

  /** A read sees only the mask view: `(bits & mask_view) >> offset`. */
  lemma ReadViaMaskView(bits: Byte, p: Pos)
    requires Codable(p)
    ensures Read(bits, p) == Shr(bits & FieldBits(p), Offset(p))
  {
    GetThroughMask(bits, Mask(p), Offset(p));
  }

  /** A write leaves every bit outside the mask view unchanged. */
  lemma WriteKeepsOutside(bits: Byte, p: Pos, v: Byte)
    requires Codable(p)
    requires v <= Mask(p)
    ensures Write(bits, p, v) & !FieldBits(p) == bits & !FieldBits(p)
  {
    PlaceOutside(bits, Mask(p), Offset(p), v);
  }

  /**
   * Reading back a written field gives the value with every bit that was
   * shifted past bit 7 lost; when the field fits in the byte, the value itself.
   */
  lemma ReadAfterWrite(bits: Byte, p: Pos, v: Byte)
    requires Valid(p)
    requires v <= Mask(p)
    ensures Read(Write(bits, p, v), p) == v & Shr(0xFF, Offset(p))
    ensures Offset(p) + Width(p) <= 8 ==> Read(Write(bits, p, v), p) == v
  {
    var w, o, m := Width(p), Offset(p), Mask(p);
    WidthRule(p);
    GetPlace(bits, m, o, v);
    WithinOnes(v, w);
    MaskedWithin(v, m, Shr(0xFF, o));
    if o + w <= 8 {
      FitsBelow(v, w, o);
    }
  }

  /** The second of two writes to the same field wins. */
  lemma WriteTwice(bits: Byte, p: Pos, u: Byte, v: Byte)
    requires Codable(p)
    requires u <= Mask(p) && v <= Mask(p)
    ensures Write(Write(bits, p, u), p, v) == Write(bits, p, v)
    ensures Write(Write(bits, p, v), p, v) == Write(bits, p, v)
  {
    PlaceTwice(bits, Mask(p), Offset(p), u, v);
    PlaceTwice(bits, Mask(p), Offset(p), v, v);
  }

  /** Writes to fields whose mask views are disjoint commute. */
  lemma WritesCommute(bits: Byte, p: Pos, u: Byte, q: Pos, v: Byte)
    requires Codable(p) && Codable(q)
    requires u <= Mask(p) && v <= Mask(q)
    requires FieldBits(p) & FieldBits(q) == 0
    ensures Write(Write(bits, p, u), q, v) == Write(Write(bits, q, v), p, u)
  {
    PlacesCommute(bits, Mask(p), Offset(p), u, Mask(q), Offset(q), v);
  }

  /** A write to one field does not change a read of a field disjoint from it. */
  lemma WriteKeepsDisjointRead(bits: Byte, p: Pos, q: Pos, v: Byte)
    requires Codable(p) && Codable(q)
    requires v <= Mask(q)
    requires FieldBits(p) & FieldBits(q) == 0
    ensures Read(Write(bits, q, v), p) == Read(bits, p)
  {
    GetAfterDisjointPlace(bits, Mask(p), Offset(p), Mask(q), Offset(q), v);
  }

  /** Within a larger run, the part above a common floor stays within. */
  lemma RunWithin(a: Byte, b: Byte, c: Byte)
    requires a & b == a
    ensures (a & !c) & !(b & !c) == 0
  {
  }

  /** Sub-masks of disjoint masks are disjoint. */
  lemma ShrinkApart(x: Byte, y: Byte, x2: Byte, y2: Byte)
    requires x & y == 0 && x2 & !x == 0 && y2 & !y == 0
    ensures x2 & y2 == 0
  {
  }

  /** The recursive shifts agree with the built-in ones at every in-byte amount. */
  lemma ShrConst(x: Byte)
    ensures Shr(x, 1) == x >> 1 && Shr(x, 2) == x >> 2 && Shr(x, 3) == x >> 3
    ensures Shr(x, 4) == x >> 4 && Shr(x, 5) == x >> 5 && Shr(x, 6) == x >> 6
    ensures Shr(x, 7) == x >> 7
  {
    assert Shr(x, 1) == x >> 1;
    assert Shr(x, 2) == Shr(x, 1) >> 1;
    assert Shr(x, 3) == Shr(x, 2) >> 1;
    assert Shr(x, 4) == Shr(x, 3) >> 1;
    assert Shr(x, 5) == Shr(x, 4) >> 1;
    assert Shr(x, 6) == Shr(x, 5) >> 1;
    assert Shr(x, 7) == Shr(x, 6) >> 1;
  }

  lemma ShlConst(x: Byte)
    ensures Shl(x, 1) == x << 1 && Shl(x, 2) == x << 2 && Shl(x, 3) == x << 3
    ensures Shl(x, 4) == x << 4 && Shl(x, 5) == x << 5 && Shl(x, 6) == x << 6
    ensures Shl(x, 7) == x << 7
  {
    assert Shl(x, 1) == x << 1;
    assert Shl(x, 2) == Shl(x, 1) << 1;
    assert Shl(x, 3) == Shl(x, 2) << 1;
    assert Shl(x, 4) == Shl(x, 3) << 1;
    assert Shl(x, 5) == Shl(x, 4) << 1;
    assert Shl(x, 6) == Shl(x, 5) << 1;
    assert Shl(x, 7) == Shl(x, 6) << 1;
  }
}
