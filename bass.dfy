/** The bass-boost filter: its attribute codes and `set_params`, which
    asserts a live native handle, asks the native engine for a status and
    turns a non-zero status into an internal error. */
module Bass {
  import opened Wrappers
  import opened Errors

  datatype BassBoostFilterAttr = Wet | Boost

  /** `FilterAttr::to_u32`: the attribute's discriminant. */
  function ToU32(a: BassBoostFilterAttr): (c: u32)
    ensures c <= 1
  {
    match a
    case Wet => 0
    case Boost => 1
  }

  /** The attribute a code stands for; only 0 and 1 name one. */
  function AttrOfU32(c: u32): (r: Option<BassBoostFilterAttr>)
    ensures r.Some? <==> c <= 1
    ensures r.Some? ==> ToU32(r.value) == c
  {
    if c == 0 then Some(Wet) else if c == 1 then Some(Boost) else None
  }

  lemma AttrRoundTrip(a: BassBoostFilterAttr)
    ensures AttrOfU32(ToU32(a)) == Some(a)
  {
  }

  /** A raw native pointer: null, or the address of a live engine object. */
  datatype Ptr = Null | Addr(address: nat)

  /** The filter owns one native handle. */
  datatype BassboostFilter = BassboostFilter(inner: Ptr)

  /** The status codes the native engine reports: 0 for success, otherwise
      the code of a failure kind. */
  predicate IsNativeStatus(status: i32) {
    0 <= status <= 7
  }

  /** `BassboostFilter::set_params`. The native call
      `BassboostFilter_setParams(inner, delay)` is the parameter `status`;
      a null handle aborts on the `assert!`, so it is excluded by the
      precondition. Success exactly on status 0; any other status becomes
      `Internal` of the kind with that code. */
  function SetParams(filter: BassboostFilter, status: i32): (r: Result<(), SoloudError>)
    requires filter.inner != Null
    requires IsNativeStatus(status)
    ensures r.Ok? <==> status == 0
    ensures r.Err? ==> r.error.Internal? && Code(r.error.kind) == status
  {
    if status != 0 then Err(Internal(FromI32(status))) else Ok(())
  }

  /** The status a result stands for: 0 for success, the kind's code for an
      internal error, nothing for the tags `set_params` cannot produce. */
  function StatusOf(r: Result<(), SoloudError>): Option<i32>
  {
    match r
    case Ok(_) => Some(0)
    case Err(Internal(k)) => Some(Code(k))
    case Err(_) => None
  }

  /** `set_params` loses no information: the native status is recovered
      from its result, so distinct statuses give distinct results. */
  lemma SetParamsStatusRoundTrip(filter: BassboostFilter, status: i32)
    requires filter.inner != Null && IsNativeStatus(status)
    ensures StatusOf(SetParams(filter, status)) == Some(status)
  {
  }

  /** `set_params` never yields the local or fallback tags. */
  lemma SetParamsOnlyInternal(filter: BassboostFilter, status: i32)
    requires filter.inner != Null && IsNativeStatus(status)
    ensures SetParams(filter, status).Err? ==>
      var e := SetParams(filter, status).error;
      !e.IoError? && !e.NullError? && !e.Unknown? && Source(e) == None
  {
  }

  /** The text a failed `set_params` shows names the failure kind it came from. */
  lemma SetParamsErrorText(filter: BassboostFilter, status: i32)
    requires filter.inner != Null && IsNativeStatus(status) && status != 0
    ensures ReadInternal(Display(SetParams(filter, status).error)) == TryFromI32(status)
  {
    FromI32OfCode(FromI32(status));
  }
}
