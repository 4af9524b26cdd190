# soloud-rs error model, flags and code tables in Dafny

soloud-rs is a Rust wrapper around the SoLoud audio engine. Almost all of it
forwards calls to the native engine through raw handles. This project models
the part that stands on its own:

- the **error model** of `soloud/src/prelude.rs`: the closed `SoloudErrorKind`
  table (native codes 1..7), `SoloudErrorKind::from_i32`, and the composite
  `SoloudError` with `source()`, its `Display` text and the two `From`
  conversions (module `Errors`, with `DebugFmt` for the `{:?}` rendering of a
  `String`);
- the **flags and code tables** of the prelude: `SoloudFlag` and its `|`
  (module `Flags`), and `WaveForm` and `AttenuationModel` (module `Registries`);
- the **bass-boost filter** of `soloud/src/filter/bass.rs`: the
  `BassBoostFilterAttr` codes and `BassboostFilter::set_params` (module `Bass`).

All of it is pure: enums become datatypes, each integer cast becomes a code
function paired with the reading of a code back into a variant, and the
native call inside `set_params` becomes an input, the status it returned.
`Wrappers` holds `Option`, `Result` and the `i32`/`u32` widths.

The internal-error text is `An internal error occured ` (the library's
spelling, no colon) followed by the kind's `Debug` name. The first kind is
spelled `InvalidParemeter`, as in the library.

## Model

| member | source | states |
|---|---|---|
| Errors.Code | soloud/src/prelude.rs:13-23 | every kind's native code lies in 1..7; 0 (success) is never a kind |
| Errors.TryFromI32 | soloud/src/prelude.rs:15-28 | a code names a kind exactly when it is in 1..7, and the kind named has that code |
| Errors.FromI32 | soloud/src/prelude.rs:25-28 | `from_i32` is defined only on 1..7 and returns the kind whose code is the argument |
| Errors.FromI32OfCode | soloud/src/prelude.rs:15-28 | round trip: converting a kind's code back gives that kind |
| Errors.CodeInjective | soloud/src/prelude.rs:15-23 | no two kinds share a code |
| Errors.DebugName | soloud/src/prelude.rs:14-23 | the derived `Debug` name of a kind identifies the kind |
| Errors.Source | soloud/src/prelude.rs:31-38 | `source()` is the wrapped cause for `IoError` and `NullError`, and nothing for `Internal` and `Unknown` |
| Errors.Display | soloud/src/prelude.rs:41-50 | the `Internal` text reads back to its kind and the `Unknown` text reads back to its message |
| Errors.DisplayOfReadInternal | soloud/src/prelude.rs:46 | a text that reads back to a kind is exactly that kind's internal-error text |
| Errors.DisplayOfReadUnknown | soloud/src/prelude.rs:47 | a text that reads back to a message is exactly that message's unknown-error text |
| Errors.DisplayForwardsToSource | soloud/src/prelude.rs:32-45 | for `IoError` and `NullError` the text is the wrapped error's own text, i.e. the text of what `source()` returns |
| Errors.DisplayInternalInjective | soloud/src/prelude.rs:46 | distinct kinds are displayed differently |
| Errors.DisplayUnknownInjective | soloud/src/prelude.rs:47 | distinct fallback messages are displayed differently |
| Errors.DisplayInternalNotUnknown | soloud/src/prelude.rs:46-47 | an internal-error text never equals an unknown-error text |
| Errors.FromIoError | soloud/src/prelude.rs:52-56 | the `io::Error` is wrapped unchanged: it is the `source()` of the result and its text is the result's text |
| Errors.FromNulError | soloud/src/prelude.rs:58-62 | the `NulError` is wrapped unchanged: it is the `source()` of the result and its text is the result's text |
| DebugFmt.EscapeChar | soloud/src/prelude.rs:47 | a character is written as itself unless it needs escaping; if it does, it is written as a backslash and a letter that reads back to that character |
| DebugFmt.Escape | soloud/src/prelude.rs:47 | the escaped body `{:?}` writes for a string reads back to exactly that string |
| DebugFmt.EscapeOfUnescape | soloud/src/prelude.rs:47 | conversely, a body that reads back to a string is exactly the body written for it |
| DebugFmt.EscapeInjective | soloud/src/prelude.rs:47 | distinct strings have distinct escaped bodies |
| DebugFmt.DebugStr | soloud/src/prelude.rs:47 | `{:?}` of a string is enclosed in double quotes and reads back to that string |
| DebugFmt.DebugStrOfRead | soloud/src/prelude.rs:47 | a quoted text that reads back to a string is exactly that string's `{:?}` rendering |
| Flags.Bit | soloud/src/prelude.rs:64-71 | each flag is a single bit within the mask 15 |
| Flags.BitsDisjoint | soloud/src/prelude.rs:66-71 | distinct flags have disjoint bits |
| Flags.OrOfDistinctIsNoBit | soloud/src/prelude.rs:73-79 | the OR of two distinct flags is the bit of no flag |
| Flags.FlagOfCode | soloud/src/prelude.rs:64-71 | a `u32` is a flag discriminant exactly when it is the bit of some flag |
| Flags.BitOrAsWritten | soloud/src/prelude.rs:73-79 | the source's OR of `a` and `b` yields a flag exactly when `a == b`, and then it is `a`; otherwise the transmute has no variant to produce |
| Flags.ClipRoundoffOrEnableVisualizationIsNoFlag | soloud/src/prelude.rs:73-79 | OR of `ClipRoundoff` and `EnableVisualization` is 3, which is no flag |
| Flags.Single | soloud/src/prelude.rs:64-71 | a flag as a set holds that flag and no other |
| Flags.Union | soloud/src/prelude.rs:73-79 | bitwise OR of flag sets stays within mask 15 and holds exactly the flags of either side |
| Flags.Or | soloud/src/prelude.rs:73-79 | the OR of `f` and `g` as a flag set holds exactly `f` and `g` |
| Flags.Extensionality | soloud/src/prelude.rs:64-79 | a flag set is determined by the flags it holds |
| Flags.Members | soloud/src/prelude.rs:64-71 | the members of a flag set are exactly the flags it holds |
| Flags.FromMembers | soloud/src/prelude.rs:64-79 | every set of flags is represented by a flag set with exactly those members |
| Flags.FromMembersOfMembers | soloud/src/prelude.rs:64-79 | the flag-set and set-of-flags views are inverse to each other |
| Flags.MembersOfUnion | soloud/src/prelude.rs:73-79 | OR on flag sets is union of their members |
| Flags.UnionCommutative | soloud/src/prelude.rs:73-79 | OR is commutative |
| Flags.UnionAssociative | soloud/src/prelude.rs:73-79 | OR is associative |
| Flags.UnionIdempotent | soloud/src/prelude.rs:73-79 | OR is idempotent |
| Flags.UnionIdentity | soloud/src/prelude.rs:73-79 | the empty flag set is the identity of OR |
| Flags.OrAgreesWithAsWritten | soloud/src/prelude.rs:73-79 | where the source's OR is defined, the bit-set gives the same bits |
| Registries.WaveFormCode | soloud/src/prelude.rs:81-93 | every waveform code is in 0..8 |
| Registries.WaveFormOfCode | soloud/src/prelude.rs:81-93 | the codes 0..8 each name exactly one waveform, which has that code; no other code names one |
| Registries.WaveFormRoundTrip | soloud/src/prelude.rs:81-93 | round trip: a waveform's code reads back to that waveform |
| Registries.WaveFormCodeInjective | soloud/src/prelude.rs:81-93 | distinct waveforms have distinct codes |
| Registries.AttenuationCode | soloud/src/prelude.rs:95-106 | every attenuation code is in 0..3 |
| Registries.AttenuationOfCode | soloud/src/prelude.rs:95-106 | the codes 0..3 each name exactly one model, which has that code; no other code names one |
| Registries.AttenuationRoundTrip | soloud/src/prelude.rs:95-106 | round trip: a model's code reads back to that model |
| Registries.AttenuationCodeInjective | soloud/src/prelude.rs:95-106 | distinct models have distinct codes |
| Bass.ToU32 | soloud/src/filter/bass.rs:4-9 | an attribute's code is 0 or 1 |
| Bass.AttrOfU32 | soloud/src/filter/bass.rs:4-9 | exactly the codes 0 (`Wet`) and 1 (`Boost`) name an attribute, which has that code |
| Bass.AttrRoundTrip | soloud/src/filter/bass.rs:4-9 | round trip: an attribute's code reads back to that attribute |
| Bass.SetParams | soloud/src/filter/bass.rs:16-28 | requires a non-null handle; `Ok(())` exactly when the native status is 0; otherwise `Internal` of the kind whose code is the status |
| Bass.SetParamsStatusRoundTrip | soloud/src/filter/bass.rs:20-27 | the native status can be read back from the result |
| Bass.SetParamsOnlyInternal | soloud/src/filter/bass.rs:20-27 | `set_params` never yields `IoError`, `NullError` or `Unknown`, and its errors have no `source()` |
| Bass.SetParamsErrorText | soloud/src/filter/bass.rs:22-23 | the text of a failed `set_params` names the kind with the status's code |

## Findings

| source | as written | input that shows it | evidently intended | confidence | as-written member | corrected member |
|---|---|---|---|---|---|---|
| soloud/src/prelude.rs:73-79 | `bitor` transmutes the bitwise OR of `self as u32` and `rhs as u32` back into `SoloudFlag` | OR of `ClipRoundoff` and `EnableVisualization` gives 3, which is no discriminant, so the transmute is undefined behaviour | the OR of flags is a bit-set over the four declared bits | high (not executed) | Flags.BitOrAsWritten (with Flags.ClipRoundoffOrEnableVisualizationIsNoFlag) | Flags.Union (with Flags.Or and Flags.MembersOfUnion) |

## Left out

- Every `soloud_sys` foreign call is left out. In `set_params`, `BassboostFilter_setParams` is the `status` input.
- Bass.SetParams: the `delay` argument is not modelled. It is a float that only reaches the native call, and that call is the `status` input.
- Bass.SetParams: requires the status to be 0..7, the native engine's status codes. `from_i32` has no meaning for any other value.
- Errors.FromI32: is only defined on 1..7, because a `transmute` to any other value is undefined behaviour. `Errors.TryFromI32` is the total, checked form.
- A null handle makes `set_params` abort on `assert!`. It is therefore a precondition, not an error result.
- `io::Error` and `NulError` are opaque. Each one carries only the text its own `Display` writes.
- DebugFmt.EscapeChar: escapes `\0`, `\t`, `\r`, `\n`, backslash and double quote. Rust's `\u{…}` escapes of non-printable and grapheme-extending characters are not modelled.
- The `AudioExt`, `LoadExt` and `FilterExt` traits (soloud/src/prelude.rs:136-209) are left out. Their bodies come from derive macros that are not part of this model.
- The `FilterAttr` trait (soloud/src/prelude.rs:211-214) is also derived. Only its `to_u32` on `BassBoostFilterAttr` is modelled, as the attribute's discriminant.
- The `inner()` raw-pointer accessors of `AudioCollider` and `AudioAttenuator` (soloud/src/prelude.rs:108-134) are left out. They are pointer plumbing.
- `Noise::set_type`, `NoiseType` and `WavStream::length` (soloud/src/audio) are left out. Each is a null assert plus one foreign call.
- The float-valued setters and getters, handle allocation and release, and the native audio thread are left out.
