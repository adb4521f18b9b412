/**
 * Field validators of `CommonAreaCreateSerializer`, `CommonAreaUpdateSerializer`
 * and `CommonAreaAvailabilitySerializer` (`apps/common_areas/serializers.py`).
 */
module CommonAreaSerializers {
  import opened Base
  import opened CommonAreas

  datatype AreaInputError = CapacityNotPositive | CapacityAbove1000 | EqualHours

  /** The opening hours a create or update request carries; an update may omit either one. */
  datatype HoursInput = HoursInput(startTime: Option<Minute>, endTime: Option<Minute>)

  /**
   * `validate_capacity`, which the create and the update serializer define
   * identically: 1..1000 people, returned unchanged.
   */
  function ValidateCapacity(value: int): (r: Result<int, AreaInputError>)
    ensures r.Ok? <==> 1 <= value <= 1000
    ensures r.Ok? ==> r.value == value
    ensures value <= 0 ==> r == Err(CapacityNotPositive)
    ensures value > 1000 ==> r == Err(CapacityAbove1000)
  {
    if value <= 0 then Err(CapacityNotPositive)
    else if value > 1000 then Err(CapacityAbove1000)
    else Ok(value)
  }

  /**
   * `CommonAreaCreateSerializer.validate`: only equal opening and closing times
   * are refused, so overnight hours (start after end) are accepted.
   */
  function ValidateCreateHours(attrs: HoursInput): (r: Result<HoursInput, AreaInputError>)
    ensures r.Ok? <==> attrs.startTime != attrs.endTime
    ensures r.Ok? ==> r.value == attrs
  {
    if attrs.startTime == attrs.endTime then Err(EqualHours) else Ok(attrs)
  }

  /**
   * `CommonAreaUpdateSerializer.validate`: equal times are refused only when
   * both are supplied.
   */
  function ValidateUpdateHours(attrs: HoursInput): (r: Result<HoursInput, AreaInputError>)
    ensures r.Ok? <==> !(attrs.startTime.Some? && attrs.endTime.Some? && attrs.startTime == attrs.endTime)
    ensures r.Ok? ==> r.value == attrs
  {
    if attrs.startTime.Some? && attrs.endTime.Some? && attrs.startTime == attrs.endTime then Err(EqualHours)
    else Ok(attrs)
  }

  /** `CommonAreaAvailabilitySerializer.validate_check_time`: any time of day is accepted as is. */
  function ValidateCheckTime(t: Minute): (r: Result<Minute, AreaInputError>)
    ensures r == Ok(t)
  {
    Ok(t)
  }

  /** Every request the update check admits with both times given is admitted by the create check too, and back. */
  lemma UpdateAgreesWithCreateWhenComplete(s: Minute, e: Minute)
    ensures ValidateUpdateHours(HoursInput(Some(s), Some(e))).Ok? <==> ValidateCreateHours(HoursInput(Some(s), Some(e))).Ok?
  {
  }

  /** A create request with both times given is accepted exactly when they differ, overnight or not. */
  lemma CreateAcceptsOvernight(s: Minute, e: Minute)
    ensures ValidateCreateHours(HoursInput(Some(s), Some(e))).Ok? <==> s != e
  {
  }
}
