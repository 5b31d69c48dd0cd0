/**
 * The endpoint's declared parameters: `limit` is optional, defaults to 10 and
 * must lie in [1, 100]; `offset` is optional, defaults to 0 and must be at
 * least 0. Values outside these ranges are rejected before the handler runs.
 */
module Params {
  import opened Wrappers

  const MinLimit: int := 1
  const MaxLimit: int := 100
  const DefaultLimit: int := 10
  const MinOffset: int := 0
  const DefaultOffset: int := 0

  datatype Params = Params(limit: int, offset: int)

  datatype ParamError = LimitOutOfRange(limit: int) | OffsetOutOfRange(offset: int)

  /** What the handler may assume about its parameters. */
  predicate Valid(ps: Params) {
    MinLimit <= ps.limit <= MaxLimit && MinOffset <= ps.offset
  }

  predicate LimitAccepted(limit: Option<int>) {
    limit.None? || MinLimit <= limit.value <= MaxLimit
  }

  predicate OffsetAccepted(offset: Option<int>) {
    offset.None? || MinOffset <= offset.value
  }

  /** Checks the raw parameters in declaration order and fills in the defaults. */
  function Validate(limit: Option<int>, offset: Option<int>): (r: Result<Params, ParamError>)
    ensures r.Success? <==> LimitAccepted(limit) && OffsetAccepted(offset)
    ensures r.Success? ==> Valid(r.value)
    ensures r.Success? ==> r.value.limit == (if limit.Some? then limit.value else DefaultLimit)
    ensures r.Success? ==> r.value.offset == (if offset.Some? then offset.value else DefaultOffset)
    ensures r.Failure? && !LimitAccepted(limit) ==> r.error == LimitOutOfRange(limit.value)
    ensures r.Failure? && LimitAccepted(limit) ==> r.error == OffsetOutOfRange(offset.value)
  {
    if !LimitAccepted(limit) then Failure(LimitOutOfRange(limit.value))
    else if !OffsetAccepted(offset) then Failure(OffsetOutOfRange(offset.value))
    else
      Success(Params(
        if limit.Some? then limit.value else DefaultLimit,
        if offset.Some? then offset.value else DefaultOffset))
  }
}
