/** The integer-backed enumerations of the prelude that cross the native
    boundary: `WaveForm` (`#[repr(i32)]`, codes 0..8 in declaration order)
    and `AttenuationModel` (`#[repr(u32)]`, codes 0..3). Each code function
    is paired with the reading of a code back into a variant. */
module Registries {
  import opened Wrappers

  datatype WaveForm = Square | Saw | Sin | Triangle | Bounce | Jaws | Humps | FSquare | FSaw

  /** `waveform as i32`. */
  function WaveFormCode(w: WaveForm): (c: i32)
    ensures 0 <= c <= 8
  {
    match w
    case Square => 0
    case Saw => 1
    case Sin => 2
    case Triangle => 3
    case Bounce => 4
    case Jaws => 5
    case Humps => 6
    case FSquare => 7
    case FSaw => 8
  }

  /** The variant a native code stands for: every code 0..8 names exactly
      one waveform (the table has no gaps), no other code names any. */
  function WaveFormOfCode(c: i32): (r: Option<WaveForm>)
    ensures r.Some? <==> 0 <= c <= 8
    ensures r.Some? ==> WaveFormCode(r.value) == c
  {
    if c == 0 then Some(Square)
    else if c == 1 then Some(Saw)
    else if c == 2 then Some(Sin)
    else if c == 3 then Some(Triangle)
    else if c == 4 then Some(Bounce)
    else if c == 5 then Some(Jaws)
    else if c == 6 then Some(Humps)
    else if c == 7 then Some(FSquare)
    else if c == 8 then Some(FSaw)
    else None
  }

  lemma WaveFormRoundTrip(w: WaveForm)
    ensures WaveFormOfCode(WaveFormCode(w)) == Some(w)
  {
  }

  /** Distinct waveforms have distinct codes. */
  lemma WaveFormCodeInjective(w1: WaveForm, w2: WaveForm)
    requires WaveFormCode(w1) == WaveFormCode(w2)
    ensures w1 == w2
  {
    WaveFormRoundTrip(w1);
    WaveFormRoundTrip(w2);
  }

  datatype AttenuationModel = NoAttenuation | InverseDistance | LinearDistance | ExponentialDistance

  /** `model as u32`. */
  function AttenuationCode(m: AttenuationModel): (c: u32)
    ensures c <= 3
  {
    match m
    case NoAttenuation => 0
    case InverseDistance => 1
    case LinearDistance => 2
    case ExponentialDistance => 3
  }

  /** Every code 0..3 names exactly one attenuation model, no other code names any. */
  function AttenuationOfCode(c: u32): (r: Option<AttenuationModel>)
    ensures r.Some? <==> c <= 3
    ensures r.Some? ==> AttenuationCode(r.value) == c
  {
    if c == 0 then Some(NoAttenuation)
    else if c == 1 then Some(InverseDistance)
    else if c == 2 then Some(LinearDistance)
    else if c == 3 then Some(ExponentialDistance)
    else None
  }

  lemma AttenuationRoundTrip(m: AttenuationModel)
    ensures AttenuationOfCode(AttenuationCode(m)) == Some(m)
  {
  }

  /** Distinct attenuation models have distinct codes. */
  lemma AttenuationCodeInjective(m1: AttenuationModel, m2: AttenuationModel)
    requires AttenuationCode(m1) == AttenuationCode(m2)
    ensures m1 == m2
  {
    AttenuationRoundTrip(m1);
    AttenuationRoundTrip(m2);
  }
}
