/**
 * The reservation serializers (`apps/reservations/serializers.py`): the field
 * validators and cross-field checks of a new booking and its creation, the
 * slot-query validator, and the status-change rule of updates.
 */
module ReservationSerializers {
  import opened Base
  import opened CommonAreas
  import opened Users
  import opened Properties
  import opened Reservations

  /** The booking request after field parsing. */
  datatype CreateInput = CreateInput(
    areaId: int,
    propertyId: int,
    residentId: int,
    date: int,
    startTime: Minute,
    endTime: Minute,
    notes: Option<string>)

  /** The failures of the field validators; each field reports at most one. */
  datatype FieldError = AreaNotFound | AreaUnavailable | PropertyNotFound | ResidentNotFound | NotAResident | PastDate

  /** The failures of the cross-field `validate`, which stops at the first. */
  datatype CrossError = EndNotAfterStart | OutsideHours | NotMember | Conflict

  datatype CreateError = FieldErrors(errors: seq<FieldError>) | CrossFieldError(error: CrossError) | SaveFailed(cause: SaveError)

  /** `validate_common_area_id`: the area must exist and be available. */
  function AreaFieldError(areas: map<nat, CommonArea>, areaId: int): (e: Option<FieldError>)
    ensures e.None? <==> areaId >= 0 && areaId as nat in areas && IsAvailable(areas[areaId as nat])
    ensures e == Some(AreaUnavailable) <==> areaId >= 0 && areaId as nat in areas && !IsAvailable(areas[areaId as nat])
  {
    if areaId < 0 || areaId as nat !in areas then Some(AreaNotFound)
    else if !IsAvailable(areas[areaId as nat]) then Some(AreaUnavailable)
    else None
  }

  /** `validate_property_id`: the property must exist. */
  function PropertyFieldError(props: map<nat, Property>, propertyId: int): (e: Option<FieldError>)
    ensures e.None? <==> propertyId >= 0 && propertyId as nat in props
  {
    if propertyId < 0 || propertyId as nat !in props then Some(PropertyNotFound) else None
  }

  /** `validate_resident_id`: the user must exist and have a profile of type resident. */
  function ResidentFieldError(users: map<nat, User>, residentId: int): (e: Option<FieldError>)
    ensures e.None? <==> residentId >= 0 && residentId as nat in users && IsResidentUser(users[residentId as nat])
    ensures e == Some(NotAResident) <==> residentId >= 0 && residentId as nat in users && !IsResidentUser(users[residentId as nat])
  {
    if residentId < 0 || residentId as nat !in users then Some(ResidentNotFound)
    else if !IsResidentUser(users[residentId as nat]) then Some(NotAResident)
    else None
  }

  /** `validate_date`: no date before today. */
  function DateFieldError(date: int, today: int): (e: Option<FieldError>)
    ensures e.None? <==> date >= today
    ensures e.Some? ==> e.value == PastDate
  {
    if date < today then Some(PastDate) else None
  }

  function OptionToSeq<T>(o: Option<T>): (s: seq<T>)
    ensures |s| <= 1 && (s == [] <==> o.None?) && (o.Some? ==> s == [o.value])
  {
    if o.None? then [] else [o.value]
  }

  /** Field validation reports the error of every failing field, in the serializer's field order. */
  function FieldErrorsOf(input: CreateInput, areas: map<nat, CommonArea>, props: map<nat, Property>, users: map<nat, User>, today: int)
    : (errs: seq<FieldError>)
    ensures |errs| <= 4
    ensures errs == [] <==> (
      && AreaFieldError(areas, input.areaId).None? && PropertyFieldError(props, input.propertyId).None?
      && ResidentFieldError(users, input.residentId).None? && DateFieldError(input.date, today).None?)
    ensures PastDate in errs <==> input.date < today
    ensures AreaUnavailable in errs <==> input.areaId >= 0 && input.areaId as nat in areas && !IsAvailable(areas[input.areaId as nat])
  {
    OptionToSeq(AreaFieldError(areas, input.areaId))
    + OptionToSeq(PropertyFieldError(props, input.propertyId))
    + OptionToSeq(ResidentFieldError(users, input.residentId))
    + OptionToSeq(DateFieldError(input.date, today))
  }

  /** What the cross-field checks need: every referenced record was found by the field validators. */
  predicate FieldsResolved(input: CreateInput, areas: map<nat, CommonArea>, props: map<nat, Property>, users: map<nat, User>) {
    input.areaId >= 0 && input.areaId as nat in areas && input.propertyId >= 0 && input.propertyId as nat in props
    && input.residentId >= 0 && input.residentId as nat in users
  }

  /**
   * `CreateReservationSerializer.validate`: the first failure of, in order, the
   * interval check, the opening-hours check, the membership check and the
   * conflict check against confirmed bookings.
   */
  function FirstCrossFieldFailure(input: CreateInput, area: CommonArea, property: Property, links: seq<PropertyResident>, rs: seq<Reservation>)
    : (e: Option<CrossError>)
    ensures e == Some(EndNotAfterStart) <==> input.startTime >= input.endTime
    ensures e == Some(OutsideHours) <==> input.startTime < input.endTime && (input.startTime < area.startTime || input.endTime > area.endTime)
    ensures e == Some(NotMember) <==> (
      && input.startTime < input.endTime && area.startTime <= input.startTime && input.endTime <= area.endTime
      && (input.residentId < 0 || !IsMember(property, links, input.residentId as nat)))
    ensures e == Some(Conflict) <==> (
      && input.startTime < input.endTime && area.startTime <= input.startTime && input.endTime <= area.endTime
      && input.residentId >= 0 && IsMember(property, links, input.residentId as nat)
      && IsOccupied(rs, area.id, input.date, input.startTime, input.endTime))
    ensures e.None? <==> (
      && input.startTime < input.endTime && area.startTime <= input.startTime && input.endTime <= area.endTime
      && input.residentId >= 0 && IsMember(property, links, input.residentId as nat)
      && !IsOccupied(rs, area.id, input.date, input.startTime, input.endTime))
  {
    if input.startTime >= input.endTime then Some(EndNotAfterStart)
    else if input.startTime < area.startTime || input.endTime > area.endTime then Some(OutsideHours)
    else if input.residentId < 0 || !IsMember(property, links, input.residentId as nat) then Some(NotMember)
    else if IsOccupied(rs, area.id, input.date, input.startTime, input.endTime) then Some(Conflict)
    else None
  }

  /** The whole validation: field errors if any, else the first cross-field failure, else the input. */
  function ValidateCreate(input: CreateInput, areas: map<nat, CommonArea>, props: map<nat, Property>, users: map<nat, User>,
                          links: seq<PropertyResident>, rs: seq<Reservation>, today: int)
    : (r: Result<CreateInput, CreateError>)
    ensures r.Ok? ==> r.value == input && FieldsResolved(input, areas, props, users)
    ensures FieldErrorsOf(input, areas, props, users, today) != [] ==> r == Err(FieldErrors(FieldErrorsOf(input, areas, props, users, today)))
    ensures r.Ok? <==> (
      && FieldErrorsOf(input, areas, props, users, today) == []
      && FirstCrossFieldFailure(input, areas[input.areaId as nat], props[input.propertyId as nat], links, rs).None?)
    ensures FieldErrorsOf(input, areas, props, users, today) == []
            && FirstCrossFieldFailure(input, areas[input.areaId as nat], props[input.propertyId as nat], links, rs).Some?
            ==> r == Err(CrossFieldError(FirstCrossFieldFailure(input, areas[input.areaId as nat], props[input.propertyId as nat], links, rs).value))
  {
    var errs := FieldErrorsOf(input, areas, props, users, today);
    if errs != [] then Err(FieldErrors(errs))
    else
      match FirstCrossFieldFailure(input, areas[input.areaId as nat], props[input.propertyId as nat], links, rs)
      case Some(e) => Err(CrossFieldError(e))
      case None => Ok(input)
  }

  /** An area whose closing time is not after its opening time admits no booking at all. */
  lemma NoBookingWhenClosedBeforeOpening(input: CreateInput, area: CommonArea, property: Property, links: seq<PropertyResident>, rs: seq<Reservation>)
    requires area.endTime <= area.startTime
    ensures FirstCrossFieldFailure(input, area, property, links, rs).Some?
  {
  }

  /** A conflict is exactly an overlapping confirmed booking of the same area and date. */
  lemma ConflictMeansConfirmedOverlap(rs: seq<Reservation>, areaId: nat, date: int, s: int, e: int)
    ensures IsOccupied(rs, areaId, date, s, e) <==> exists i :: (
      && 0 <= i < |rs| && rs[i].status == Confirmed && rs[i].areaId == areaId && rs[i].date == date
      && rs[i].startTime < e && rs[i].endTime > s)
  {
  }

  /** A booking that ends exactly when the other starts (or starts when it ends) is no conflict. */
  lemma BackToBackAdmitted(r: Reservation, s: int, e: int)
    requires r.endTime == s || r.startTime == e
    requires r.startTime < r.endTime && s < e
    ensures !IsOccupied([r], r.areaId, r.date, s, e)
  {
  }

  /** Pending and cancelled bookings never conflict. */
  lemma UnconfirmedNeverConflict(rs: seq<Reservation>, areaId: nat, date: int, s: int, e: int)
    requires forall i :: 0 <= i < |rs| ==> rs[i].status == Pending || rs[i].status == Cancelled
    ensures !IsOccupied(rs, areaId, date, s, e)
  {
    OnlyConfirmedOccupy(rs, areaId, date, s, e);
  }

  /** The record `create` makes: confirmed, created by the requesting user, notes empty unless given. */
  function NewReservation(id: nat, input: CreateInput, requester: nat): (r: Reservation)
    requires input.areaId >= 0 && input.propertyId >= 0 && input.residentId >= 0
    ensures r.status == Confirmed == DefaultStatus && r.createdBy == requester && r.id == id
    ensures r.notes == input.notes.GetOr("")
    ensures SlotKey(r) == (input.areaId as nat, input.date, input.startTime as int, input.endTime as int)
    ensures r.residentId == input.residentId && r.propertyId == input.propertyId
  {
    Reservation(id, input.areaId as nat, input.propertyId as nat, input.residentId as nat, input.date,
                input.startTime, input.endTime, input.notes.GetOr(""), Confirmed, requester)
  }

  /** A booking that passed the serializer also passes the model's `clean`, so `save` never rejects it. */
  lemma ValidatedPassesClean(id: nat, input: CreateInput, areas: map<nat, CommonArea>, props: map<nat, Property>, users: map<nat, User>,
                             links: seq<PropertyResident>, rs: seq<Reservation>, today: int, requester: nat)
    requires ValidateCreate(input, areas, props, users, links, rs, today).Ok?
    requires props[input.propertyId as nat].id == input.propertyId
    ensures CleanErrors(NewReservation(id, input, requester), areas[input.areaId as nat], props[input.propertyId as nat], links, today) == {}
  {
    var errs := FieldErrorsOf(input, areas, props, users, today);
    assert DateFieldError(input.date, today).None? by {
      assert OptionToSeq(DateFieldError(input.date, today)) == [];
    }
    var r := NewReservation(id, input, requester);
    var e := CleanErrors(r, areas[input.areaId as nat], props[input.propertyId as nat], links, today);
    forall f | f in e ensures false {
      match f
      case DateField =>
      case EndTimeField =>
      case StartTimeField =>
      case ResidentField =>
    }
  }

  /** Appending a confirmed booking that has no conflict keeps confirmed bookings free of overlaps. */
  lemma AppendWithoutConflictKeepsNoOverlap(rs: seq<Reservation>, r: Reservation)
    requires NoConfirmedOverlap(rs)
    requires !IsOccupied(rs, r.areaId, r.date, r.startTime, r.endTime)
    ensures NoConfirmedOverlap(rs + [r])
  {
    var s := rs + [r];
    forall i, j | 0 <= i < |s| && 0 <= j < |s| && i != j && s[i].status == Confirmed && s[j].status == Confirmed
      && s[i].areaId == s[j].areaId && s[i].date == s[j].date
      ensures !Overlaps(s[i].startTime, s[i].endTime, s[j].startTime, s[j].endTime)
    {
      if i == |rs| {
        assert s[j] == rs[j];
      } else if j == |rs| {
        assert s[i] == rs[i];
      } else {
        assert s[i] == rs[i] && s[j] == rs[j];
      }
    }
  }

  /**
   * `CreateReservationSerializer.create` through `Reservation.objects.create`:
   * after validation the record is built, `save` runs `clean`, and the insert
   * fails when a row with the same (area, date, start, end) exists, whatever
   * its status.
   */
  method CreateReservation(book: ReservationBook, input: CreateInput, areas: map<nat, CommonArea>, props: map<nat, Property>,
                           users: map<nat, User>, links: seq<PropertyResident>, requester: nat, today: int)
    returns (r: Result<Reservation, CreateError>)
    requires book.Valid()
    requires forall id :: id in props ==> props[id].id == id
    requires forall id :: id in areas ==> areas[id].id == id
    modifies book
    ensures book.Valid()
    ensures old(NoConfirmedOverlap(book.reservations)) ==> NoConfirmedOverlap(book.reservations)
    ensures var v := ValidateCreate(input, areas, props, users, links, old(book.reservations), today);
      && (v.Err? ==> r == Err(v.error))
      && (v.Ok? && old(HasSlotKey(book.reservations, SlotKey(NewReservation(book.nextId, input, requester))))
          ==> r == Err(SaveFailed(IntegrityError)))
      && (r.Ok? <==> v.Ok? && !old(HasSlotKey(book.reservations, SlotKey(NewReservation(book.nextId, input, requester)))))
    ensures r.Err? ==> book.reservations == old(book.reservations) && book.nextId == old(book.nextId)
    ensures r.Ok? ==> (
      && r.value == NewReservation(old(book.nextId), input, requester)
      && book.reservations == old(book.reservations) + [r.value]
      && book.nextId == old(book.nextId) + 1)
  {
    var v := ValidateCreate(input, areas, props, users, links, book.reservations, today);
    if v.Err? {
      return Err(v.error);
    }
    var res := NewReservation(book.nextId, input, requester);
    var area := areas[input.areaId as nat];
    var property := props[input.propertyId as nat];
    var saved := Save(res, area, property, links, today);
    // `save` runs `clean`, which repeats checks the serializer already passed
    ValidatedPassesClean(book.nextId, input, areas, props, users, links, book.reservations, today, requester);
    assert saved.Ok?;
    if HasSlotKey(book.reservations, SlotKey(res)) {
      return Err(SaveFailed(IntegrityError));
    }
    if NoConfirmedOverlap(book.reservations) {
      AppendWithoutConflictKeepsNoOverlap(book.reservations, res);
    }
    AppendFreshKeyKeepsUnique(book.reservations, res);
    book.reservations := book.reservations + [res];
    book.nextId := book.nextId + 1;
    r := Ok(res);
  }

  /**
   * The unique key counts cancelled rows too: rebooking exactly the hours of a
   * cancelled booking passes validation but fails at the insert.
   */
  lemma RebookingCancelledSlotHitsUniqueKey(old_: Reservation, input: CreateInput, id: nat, requester: nat)
    requires old_.status == Cancelled && input.propertyId >= 0 && input.residentId >= 0
    requires input.areaId == old_.areaId && input.date == old_.date && input.startTime == old_.startTime && input.endTime == old_.endTime
    ensures !IsOccupied([old_], old_.areaId, old_.date, input.startTime, input.endTime)
    ensures HasSlotKey([old_], SlotKey(NewReservation(id, input, requester)))
  {
    assert SlotKey([old_][0]) == SlotKey(NewReservation(id, input, requester));
  }

  datatype SlotQueryError = SlotAreaNotFound | SlotPastDate

  /** `AvailableTimeSlotsSerializer`: both field checks run; the area must exist (availability is not checked) and the date is not past. */
  function ValidateSlotQuery(areas: map<nat, CommonArea>, areaId: int, date: int, today: int): (errs: seq<SlotQueryError>)
    ensures SlotAreaNotFound in errs <==> !(areaId >= 0 && areaId as nat in areas)
    ensures SlotPastDate in errs <==> date < today
    ensures errs == [] <==> areaId >= 0 && areaId as nat in areas && date >= today
  {
    (if areaId < 0 || areaId as nat !in areas then [SlotAreaNotFound] else [])
    + (if date < today then [SlotPastDate] else [])
  }

  datatype StatusError = CompletedIsFinal | CannotReactivate

  /** `ReservationUpdateSerializer.validate_status`: a completed booking is frozen; a cancelled one may only stay cancelled. */
  function ValidateStatus(current: ReservationStatus, requested: ReservationStatus): (r: Result<ReservationStatus, StatusError>)
    ensures current == Completed ==> r == Err(CompletedIsFinal)
    ensures current == Cancelled && requested != Cancelled ==> r == Err(CannotReactivate)
    ensures r.Ok? <==> current != Completed && (current != Cancelled || requested == Cancelled)
    ensures r.Ok? ==> r.value == requested
  {
    if current == Completed then Err(CompletedIsFinal)
    else if current == Cancelled && requested != Cancelled then Err(CannotReactivate)
    else Ok(requested)
  }

  /** Once cancelled or completed, a booking never becomes confirmed again through an update. */
  lemma NoWayBackToConfirmed(current: ReservationStatus)
    requires current == Cancelled || current == Completed
    ensures ValidateStatus(current, Confirmed).Err?
  {
  }

  /**
   * The update path checks no overlap: confirming a pending booking that
   * overlaps a confirmed one is accepted and breaks the no-overlap property.
   */
  lemma ConfirmingPendingCanCreateOverlap()
    ensures exists rs: seq<Reservation> ::
      && |rs| == 2 && NoConfirmedOverlap(rs) && ValidateStatus(rs[1].status, Confirmed).Ok?
      && !NoConfirmedOverlap(rs[1 := rs[1].(status := Confirmed)])
  {
    var a := Reservation(1, 1, 1, 5, 100, 600, 720, "", Confirmed, 5);
    var b := Reservation(2, 1, 1, 6, 100, 660, 780, "", Pending, 6);
    var rs := [a, b];
    var rs2 := rs[1 := rs[1].(status := Confirmed)];
    assert Overlaps(rs2[0].startTime, rs2[0].endTime, rs2[1].startTime, rs2[1].endTime);
    assert !NoConfirmedOverlap(rs2);
    assert NoConfirmedOverlap(rs);
  }
}
