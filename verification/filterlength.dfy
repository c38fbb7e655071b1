/**
 * `FilterLength` of src/lowlevel/types/filter_length.rs: the AGCCTRL0
 * `filter_length` setting, whose meaning depends on the modulation.
 */
module FilterLengths {
  import opened Wrappers

  /** `ChannelFilterSamples`: 2-FSK, 4-FSK and MSK averaging length. */
  datatype ChannelFilterSamples = Samples8 | Samples16 | Samples32 | Samples64

  /** `DecisionBoundary`: the OOK/ASK decision boundary. */
  datatype DecisionBoundary = Db4 | Db8 | Db12 | Db16

  datatype FilterLength =
      FrequencyModulation(samples: ChannelFilterSamples)
    | AmplitudeModulation(boundary: DecisionBoundary)

  /** `u8::from(ChannelFilterSamples)`: the discriminant. */
  function SamplesValue(s: ChannelFilterSamples): Byte {
    match s
    case Samples8 => 0
    case Samples16 => 1
    case Samples32 => 2
    case Samples64 => 3
  }

  /** `u8::from(DecisionBoundary)`: the discriminant. */
  function BoundaryValue(d: DecisionBoundary): Byte {
    match d
    case Db4 => 0
    case Db8 => 1
    case Db12 => 2
    case Db16 => 3
  }

  /** `u8::from(FilterLength)`: the inner setting's discriminant, whichever the variant. */
  function Value(f: FilterLength): Byte {
    match f
    case FrequencyModulation(s) => SamplesValue(s)
    case AmplitudeModulation(d) => BoundaryValue(d)
  }

  /** The inverse of `SamplesValue` on 0..3. */
  function SamplesFrom(v: Byte): Option<ChannelFilterSamples> {
    if v == 0 then Some(Samples8)
    else if v == 1 then Some(Samples16)
    else if v == 2 then Some(Samples32)
    else if v == 3 then Some(Samples64)
    else None
  }

  /** The inverse of `BoundaryValue` on 0..3. */
  function BoundaryFrom(v: Byte): Option<DecisionBoundary> {
    if v == 0 then Some(Db4)
    else if v == 1 then Some(Db8)
    else if v == 2 then Some(Db12)
    else if v == 3 then Some(Db16)
    else None
  }

  /** Both inner conversions are bijections onto 0..3. */
  lemma SamplesRoundTrip(s: ChannelFilterSamples, v: Byte)
    ensures SamplesValue(s) <= 3 && SamplesFrom(SamplesValue(s)) == Some(s)
    ensures SamplesFrom(v).Some? <==> v <= 3
    ensures SamplesFrom(v).Some? ==> SamplesValue(SamplesFrom(v).value) == v
  {
  }

  lemma BoundaryRoundTrip(d: DecisionBoundary, v: Byte)
    ensures BoundaryValue(d) <= 3 && BoundaryFrom(BoundaryValue(d)) == Some(d)
    ensures BoundaryFrom(v).Some? <==> v <= 3
    ensures BoundaryFrom(v).Some? ==> BoundaryValue(BoundaryFrom(v).value) == v
  {
  }

  /**
   * The flattened value is at most 3, so it fits the two-bit AGCCTRL0
   * `filter_length` field, and knowing the variant it is decoded back.
   */
  lemma ValueFits(f: FilterLength)
    ensures Value(f) <= 3
    ensures f.FrequencyModulation? ==> SamplesFrom(Value(f)) == Some(f.samples)
    ensures f.AmplitudeModulation? ==> BoundaryFrom(Value(f)) == Some(f.boundary)
  {
    match f
    case FrequencyModulation(s) => SamplesRoundTrip(s, 0);
    case AmplitudeModulation(d) => BoundaryRoundTrip(d, 0);
  }

  /**
   * The flattening forgets the variant: the same byte stands for a sample
   * count and for a decision boundary, position by position.
   */
  lemma ValueForgetsVariant(s: ChannelFilterSamples, d: DecisionBoundary)
    ensures Value(FrequencyModulation(s)) == Value(AmplitudeModulation(d))
        <==> SamplesValue(s) == BoundaryValue(d)
    ensures Value(FrequencyModulation(Samples8)) == Value(AmplitudeModulation(Db4)) == 0
  {
  }
}
