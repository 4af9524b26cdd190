/** The error model of the wrapper: the closed table of native failure kinds,
    the conversion from a native code to a kind, and the composite
    `SoloudError` with its `source()`, its `Display` text and its `From`
    conversions. */
module Errors {
  import opened Wrappers
  import DebugFmt

  /** Native failure kinds, in the order of their codes 1..7 (the spelling
      `InvalidParemeter` is the library's own). */
  datatype SoloudErrorKind =
    | InvalidParemeter
    | FileNotFound
    | FileLoadFailed
    | DllNotFound
    | OutOfMemory
    | NotImplemented
    | UnknownError

  /** `kind as i32`: the native code of a kind. 0 is success and never a kind. */
  function Code(k: SoloudErrorKind): (c: i32)
    ensures 1 <= c <= 7
  {
    match k
    case InvalidParemeter => 1
    case FileNotFound => 2
    case FileLoadFailed => 3
    case DllNotFound => 4
    case OutOfMemory => 5
    case NotImplemented => 6
    case UnknownError => 7
  }

  /** The checked reading of a native code: exactly the codes 1..7 name a
      kind, and the kind named is the one with that code. */
  function TryFromI32(val: i32): (r: Option<SoloudErrorKind>)
    ensures r.Some? <==> 1 <= val <= 7
    ensures r.Some? ==> Code(r.value) == val
  {
    if val == 1 then Some(InvalidParemeter)
    else if val == 2 then Some(FileNotFound)
    else if val == 3 then Some(FileLoadFailed)
    else if val == 4 then Some(DllNotFound)
    else if val == 5 then Some(OutOfMemory)
    else if val == 6 then Some(NotImplemented)
    else if val == 7 then Some(UnknownError)
    else None
  }

  /** `SoloudErrorKind::from_i32`: a `transmute`, defined only on the
      discriminants 1..7; any other value is outside its domain. */
  function FromI32(val: i32): (k: SoloudErrorKind)
    requires 1 <= val <= 7
    ensures Code(k) == val
  {
    TryFromI32(val).value
  }

  /** Reading back the code of a kind gives that kind. */
  lemma FromI32OfCode(k: SoloudErrorKind)
    ensures TryFromI32(Code(k)) == Some(k)
    ensures FromI32(Code(k)) == k
  {
  }

  /** No two kinds share a code. */
  lemma CodeInjective(k1: SoloudErrorKind, k2: SoloudErrorKind)
    requires Code(k1) == Code(k2)
    ensures k1 == k2
  {
    FromI32OfCode(k1);
    FromI32OfCode(k2);
  }

  /** The derived `Debug` name of a kind: its variant name. */
  function DebugName(k: SoloudErrorKind): (n: string)
    ensures KindOfName(n) == Some(k)
  {
    match k
    case InvalidParemeter => "InvalidParemeter"
    case FileNotFound => "FileNotFound"
    case FileLoadFailed => "FileLoadFailed"
    case DllNotFound => "DllNotFound"
    case OutOfMemory => "OutOfMemory"
    case NotImplemented => "NotImplemented"
    case UnknownError => "UnknownError"
  }

  /** The kind whose `Debug` name is `n`, if any. */
  function KindOfName(n: string): Option<SoloudErrorKind>
  {
    if n == "InvalidParemeter" then Some(InvalidParemeter)
    else if n == "FileNotFound" then Some(FileNotFound)
    else if n == "FileLoadFailed" then Some(FileLoadFailed)
    else if n == "DllNotFound" then Some(DllNotFound)
    else if n == "OutOfMemory" then Some(OutOfMemory)
    else if n == "NotImplemented" then Some(NotImplemented)
    else if n == "UnknownError" then Some(UnknownError)
    else None
  }

  /** `std::io::Error`, opaque here: only its own `Display` text is visible. */
  datatype StdIoError = StdIoError(text: string)

  /** `std::ffi::NulError`, opaque here: only its own `Display` text is visible. */
  datatype NulError = NulError(text: string)

  /** What `source()` hands out: a reference to the wrapped standard error. */
  datatype Cause = Io(io: StdIoError) | Nul(nul: NulError) {
    function Text(): string {
      match this
      case Io(e) => e.text
      case Nul(e) => e.text
    }
  }

  /** The composite error: exactly one of a local I/O failure, a local
      encoding failure, a native failure kind or a fallback message. */
  datatype SoloudError =
    | IoError(ioErr: StdIoError)
    | NullError(nulErr: NulError)
    | Internal(kind: SoloudErrorKind)
    | Unknown(message: string)

  /** `Error::source`: the wrapped standard error for the two local tags,
      nothing for the native and fallback tags. */
  function Source(e: SoloudError): (r: Option<Cause>)
    ensures r.Some? <==> e.IoError? || e.NullError?
    ensures e.IoError? ==> r == Some(Io(e.ioErr))
    ensures e.NullError? ==> r == Some(Nul(e.nulErr))
  {
    match e
    case IoError(err) => Some(Io(err))
    case NullError(err) => Some(Nul(err))
    case _ => None
  }

  const InternalPrefix: string := "An internal error occured "
  const UnknownPrefix: string := "An unknown error occurred "

  /** `Display::fmt`. The native and fallback renderings can be read back
      to exactly the kind or message they carry. */
  function Display(e: SoloudError): (r: string)
    ensures e.Internal? ==> ReadInternal(r) == Some(e.kind)
    ensures e.Unknown? ==> ReadUnknown(r) == Some(e.message)
  {
    match e
    case IoError(err) => err.text
    case NullError(err) => err.text
    case Internal(k) =>
      var r := InternalPrefix + DebugName(k);
      assert r[|InternalPrefix|..] == DebugName(k);
      r
    case Unknown(s) =>
      var r := UnknownPrefix + DebugFmt.DebugStr(s);
      assert r[|UnknownPrefix|..] == DebugFmt.DebugStr(s);
      r
  }

  /** The kind shown by an internal-error rendering. */
  function ReadInternal(t: string): Option<SoloudErrorKind>
  {
    if |t| >= |InternalPrefix| && t[..|InternalPrefix|] == InternalPrefix
    then KindOfName(t[|InternalPrefix|..])
    else None
  }

  /** The message shown by an unknown-error rendering. */
  function ReadUnknown(t: string): Option<string>
  {
    if |t| >= |UnknownPrefix| && t[..|UnknownPrefix|] == UnknownPrefix
    then DebugFmt.ReadDebugStr(t[|UnknownPrefix|..])
    else None
  }

  /** An internal-error text is fixed by the kind it reads back to. */
  lemma DisplayOfReadInternal(t: string, k: SoloudErrorKind)
    requires ReadInternal(t) == Some(k)
    ensures t == Display(Internal(k))
  {
    assert t == InternalPrefix + t[|InternalPrefix|..];
  }

  /** An unknown-error text is fixed by the message it reads back to. */
  lemma DisplayOfReadUnknown(t: string, s: string)
    requires ReadUnknown(t) == Some(s)
    ensures t == Display(Unknown(s))
  {
    DebugFmt.DebugStrOfRead(t[|UnknownPrefix|..], s);
    assert t == UnknownPrefix + t[|UnknownPrefix|..];
  }

  /** The two local tags forward `Display` to the error `source()` returns. */
  lemma DisplayForwardsToSource(e: SoloudError)
    requires Source(e).Some?
    ensures Display(e) == Source(e).value.Text()
  {
  }

  /** Distinct native kinds are displayed differently. */
  lemma DisplayInternalInjective(k1: SoloudErrorKind, k2: SoloudErrorKind)
    requires Display(Internal(k1)) == Display(Internal(k2))
    ensures k1 == k2
  {
  }

  /** Distinct fallback messages are displayed differently. */
  lemma DisplayUnknownInjective(s1: string, s2: string)
    requires Display(Unknown(s1)) == Display(Unknown(s2))
    ensures s1 == s2
  {
  }

  /** An internal-error rendering is never a fallback rendering. */
  lemma DisplayInternalNotUnknown(k: SoloudErrorKind, s: string)
    ensures Display(Internal(k)) != Display(Unknown(s))
  {
    var t := Display(Unknown(s));
    assert t[3] == 'u';
    assert Display(Internal(k))[3] == 'i';
  }

  /** `From<io::Error>`: wraps the cause unchanged, so `?` on an I/O result
      yields an error whose `source()` is that cause and whose text is its text. */
  function FromIoError(err: StdIoError): (e: SoloudError)
    ensures Source(e) == Some(Io(err))
    ensures Display(e) == err.text
  {
    IoError(err)
  }

  /** `From<NulError>`: wraps the cause unchanged, as above. */
  function FromNulError(err: NulError): (e: SoloudError)
    ensures Source(e) == Some(Nul(err))
    ensures Display(e) == err.text
  {
    NullError(err)
  }
}
