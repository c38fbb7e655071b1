/**
 * Register layouts: the field positions a `register!` invocation lists, in
 * source order, and the question the tables raise — do the fields of one
 * register occupy separate bits?
 */
module Layouts {
  import opened Wrappers
  import opened Traits
  import BitField

  /** A position some register table may hold: within one byte. */
  type FieldPos = p: Pos | Valid(p) witness Bit(0)

  /** Two positions whose masks, as the codec computes them, share no bit. */
  predicate Apart(p: FieldPos, q: FieldPos)
  {
    BitField.FieldBits(p) & BitField.FieldBits(q) == 0
  }

  /** Every two distinct fields of the layout occupy separate bits. */
  predicate Disjoint(s: seq<FieldPos>)
  {
    forall i, j :: 0 <= i < j < |s| ==> Apart(s[i], s[j])
  }

  /**
   * The highest bit a position's mask reaches inside the byte: a bare
   * offset `n` reaches `n + 1`, except at bit 7 where the shift drops it.
   */
  function Top(p: FieldPos): (t: nat)
    ensures Offset(p) <= t <= 7
  {
    WidthRule(p);
    if Offset(p) + Width(p) - 1 > 7 then 7 else Offset(p) + Width(p) - 1
  }

  /** Fields listed from the high bits down, each ending below where the previous one starts. */
  predicate Descending(s: seq<FieldPos>) {
    forall i :: 0 < i < |s| ==> Top(s[i]) < Offset(s[i - 1])
  }

  /** `Descending` spelled out for layouts of at most eight fields, so a table can be checked by evaluation. */
  predicate Chain(s: seq<FieldPos>) {
    |s| <= 8
    && (|s| > 1 ==> Top(s[1]) < Offset(s[0]))
    && (|s| > 2 ==> Top(s[2]) < Offset(s[1]))
    && (|s| > 3 ==> Top(s[3]) < Offset(s[2]))
    && (|s| > 4 ==> Top(s[4]) < Offset(s[3]))
    && (|s| > 5 ==> Top(s[5]) < Offset(s[4]))
    && (|s| > 6 ==> Top(s[6]) < Offset(s[5]))
    && (|s| > 7 ==> Top(s[7]) < Offset(s[6]))
  }

  lemma ChainDescending(s: seq<FieldPos>)
    requires Chain(s)
    ensures Descending(s)
  {
    forall i | 0 < i < |s|
      ensures Top(s[i]) < Offset(s[i - 1])
    {
      if i == 1 {
      } else if i == 2 {
      } else if i == 3 {
      } else if i == 4 {
      } else if i == 5 {
      } else if i == 6 {
      }
    }
  }

  /** A field's mask has no bit below its offset. */
  lemma FieldBitsAbove(p: FieldPos)
    ensures BitField.FieldBits(p) & BitField.Ones(Offset(p)) == 0
  {
    BitField.FieldBitsRun(p);
  }

  /** A field's mask has no bit above its top. */
  lemma FieldBitsBelow(q: FieldPos, k: nat)
    requires Top(q) < k
    ensures BitField.FieldBits(q) & !BitField.Ones(k) == 0
  {
    WidthRule(q);
    var hi := Offset(q) + Width(q);
    var t := Top(q) + 1;
    BitField.FieldBitsRun(q);
    BitField.OnesClamp(hi, t);
    BitField.OnesMono(t, k);
    BitField.BelowAndAbove(BitField.Ones(hi), BitField.Ones(Offset(q)), BitField.Ones(hi), BitField.Ones(k));
  }

  /** A field ending below another field's offset shares no bit with it. */
  lemma ApartBelow(p: FieldPos, q: FieldPos)
    requires Top(q) < Offset(p)
    ensures Apart(p, q)
  {
    FieldBitsAbove(p);
    FieldBitsBelow(q, Offset(p));
    BitField.SplitByMask(BitField.FieldBits(p), BitField.FieldBits(q), BitField.Ones(Offset(p)));
  }

  lemma {:induction false} DescendingReach(s: seq<FieldPos>, i: nat, j: nat)
    requires Descending(s)
    requires i < j < |s|
    ensures Top(s[j]) < Offset(s[i])
    decreases j - i
  {
    if i < j - 1 {
      DescendingReach(s, i, j - 1);
    }
  }

  /** A layout listed from the high bits down, without touching ranges, is disjoint. */
  lemma DescendingDisjoint(s: seq<FieldPos>)
    requires Descending(s)
    ensures Disjoint(s)
  {
    forall i, j | 0 <= i < j < |s|
      ensures Apart(s[i], s[j])
    {
      DescendingReach(s, i, j);
      ApartBelow(s[i], s[j]);
    }
  }

  /**
   * The position a bare offset evidently means: the single bit `n`.  Ranges
   * are kept as they are.
   */
  function Intended(p: Pos): (q: Pos)
    ensures p.Span? ==> q == p
    ensures Offset(q) == Offset(p)
    ensures Valid(p) ==> Valid(q) && Width(q) == (if p.Bit? then 1 else Width(p))
  {
    match p
    case Bit(n) => Span(n, n)
    case Span(_, _) => p
  }

  /** A layout with every bare offset read as a single bit. */
  function IntendedLayout(s: seq<FieldPos>): (t: seq<FieldPos>)
    ensures |t| == |s|
    ensures forall i :: 0 <= i < |s| ==> t[i] == Intended(s[i])
  {
    seq(|s|, i requires 0 <= i < |s| => Intended(s[i]))
  }

  /** Reading a bare offset as one bit only takes bits away from its mask. */
  lemma IntendedWithin(p: FieldPos)
    ensures BitField.FieldBits(Intended(p)) & !BitField.FieldBits(p) == 0
  {
    if p.Bit? {
      var q: FieldPos := Intended(p);
      var n := Offset(p);
      BitField.FieldBitsRun(p);
      BitField.FieldBitsRun(q);
      BitField.OnesMono(n + 1, n + 2);
      BitField.RunWithin(BitField.Ones(n + 1), BitField.Ones(n + 2), BitField.Ones(n));
    }
  }

  /** Fields apart as written stay apart when bare offsets are read as one bit. */
  lemma IntendedApart(p: FieldPos, q: FieldPos)
    requires Apart(p, q)
    ensures Apart(Intended(p), Intended(q))
  {
    IntendedWithin(p);
    IntendedWithin(q);
    BitField.ShrinkApart(BitField.FieldBits(p), BitField.FieldBits(q),
      BitField.FieldBits(Intended(p)), BitField.FieldBits(Intended(q)));
  }

  /** A layout disjoint as written is disjoint as intended. */
  lemma IntendedKeepsDisjoint(s: seq<FieldPos>)
    requires Disjoint(s)
    ensures Disjoint(IntendedLayout(s))
  {
    var t := IntendedLayout(s);
    forall i, j | 0 <= i < j < |t|
      ensures Apart(t[i], t[j])
    {
      IntendedApart(s[i], s[j]);
    }
  }

  /** The highest bit a position reaches once a bare offset is read as one bit. */
  function IntendedTop(p: FieldPos): nat {
    match p
    case Bit(n) => n
    case Span(_, hi) => hi
  }

  lemma IntendedTopIsTop(p: FieldPos)
    ensures IntendedTop(p) == Top(Intended(p))
  {
    WidthRule(p);
    WidthRule(Intended(p));
  }

  /** `Chain` with every bare offset read as one bit. */
  predicate IntendedChain(s: seq<FieldPos>) {
    |s| <= 8
    && (|s| > 1 ==> IntendedTop(s[1]) < Offset(s[0]))
    && (|s| > 2 ==> IntendedTop(s[2]) < Offset(s[1]))
    && (|s| > 3 ==> IntendedTop(s[3]) < Offset(s[2]))
    && (|s| > 4 ==> IntendedTop(s[4]) < Offset(s[3]))
    && (|s| > 5 ==> IntendedTop(s[5]) < Offset(s[4]))
    && (|s| > 6 ==> IntendedTop(s[6]) < Offset(s[5]))
    && (|s| > 7 ==> IntendedTop(s[7]) < Offset(s[6]))
  }

  lemma IntendedChainDisjoint(s: seq<FieldPos>)
    requires IntendedChain(s)
    ensures Disjoint(IntendedLayout(s))
  {
    var t := IntendedLayout(s);
    forall i | 0 < i < |t|
      ensures Top(t[i]) < Offset(t[i - 1])
    {
      IntendedTopIsTop(s[i]);
      if i == 1 {
      } else if i == 2 {
      } else if i == 3 {
      } else if i == 4 {
      } else if i == 5 {
      } else if i == 6 {
      }
    }
    DescendingDisjoint(t);
  }
}
