/**
 * Reservations of common areas (`apps/reservations/models.py`): the record,
 * its status, the model-level `clean` that `save` always runs, the
 * cancellation guard, the duration, and the one-hour slot generator.
 */
module Reservations {
  import opened Base
  import opened CommonAreas
  import opened Properties

  /** `ReservationStatus`. */
  datatype ReservationStatus = Pending | Confirmed | Cancelled | Completed

  function ReservationStatusCode(s: ReservationStatus): string {
    match s
    case Pending => "pending"
    case Confirmed => "confirmed"
    case Cancelled => "cancelled"
    case Completed => "completed"
  }

  datatype Reservation = Reservation(
    id: nat,
    areaId: nat,
    propertyId: nat,
    residentId: nat,
    date: int,
    startTime: Minute,
    endTime: Minute,
    notes: string,
    status: ReservationStatus,
    createdBy: nat)

  /** The status a new reservation gets (`default=ReservationStatus.CONFIRMED`). */
  const DefaultStatus: ReservationStatus := Confirmed

  /** Two half-open intervals `[s1, e1)` and `[s2, e2)` share a minute: the `start_time__lt` / `end_time__gt` pair of filters. */
  predicate Overlaps(s1: int, e1: int, s2: int, e2: int) {
    s1 < e2 && e1 > s2
  }

  /** Touching intervals do not overlap. */
  lemma TouchingDoNotOverlap(s1: int, m: int, e2: int)
    ensures !Overlaps(s1, m, m, e2)
    ensures !Overlaps(m, e2, s1, m)
  {
  }

  /** Overlap is symmetric. */
  lemma OverlapsSymmetric(s1: int, e1: int, s2: int, e2: int)
    ensures Overlaps(s1, e1, s2, e2) == Overlaps(s2, e2, s1, e1)
  {
  }

  /** The resident belongs to the property: its owner, or an active resident of it. */
  predicate IsMember(property: Property, links: seq<PropertyResident>, residentId: nat) {
    property.owner == Some(residentId) || IsActiveResidentOf(links, property.id, residentId)
  }

  /** The keys of the error dictionary `clean` builds. */
  datatype CleanField = DateField | EndTimeField | StartTimeField | ResidentField

  /** True when `clean` records an error under key `f`. */
  predicate CleanFails(f: CleanField, r: Reservation, area: CommonArea, property: Property, links: seq<PropertyResident>, today: int) {
    match f
    case DateField => r.date < today
    case EndTimeField => r.startTime >= r.endTime
    case StartTimeField => r.startTime < area.startTime || r.endTime > area.endTime
    case ResidentField => !IsMember(property, links, r.residentId)
  }

  /** The set of keys of the error dictionary of `clean`: every failing check, not just the first. */
  function CleanErrors(r: Reservation, area: CommonArea, property: Property, links: seq<PropertyResident>, today: int): (errs: set<CleanField>)
    ensures forall f :: f in errs <==> CleanFails(f, r, area, property, links, today)
  {
    (if r.date < today then {DateField} else {})
    + (if r.startTime >= r.endTime then {EndTimeField} else {})
    + (if r.startTime < area.startTime || r.endTime > area.endTime then {StartTimeField} else {})
    + (if !IsMember(property, links, r.residentId) then {ResidentField} else {})
  }

  /** A reservation that is past, reversed, outside the hours and of a non-member fails on all four keys at once. */
  lemma CleanCollectsAllErrors(r: Reservation, area: CommonArea, property: Property, links: seq<PropertyResident>, today: int)
    requires r.date < today && r.startTime >= r.endTime && r.startTime < area.startTime
    requires !IsMember(property, links, r.residentId)
    ensures CleanErrors(r, area, property, links, today) == {DateField, EndTimeField, StartTimeField, ResidentField}
  {
    var e := CleanErrors(r, area, property, links, today);
    assert DateField in e && EndTimeField in e && StartTimeField in e && ResidentField in e;
    forall f | f in e ensures f in {DateField, EndTimeField, StartTimeField, ResidentField} {
      match f
      case DateField =>
      case EndTimeField =>
      case StartTimeField =>
      case ResidentField =>
    }
  }

  /** `Reservation.clean`: fills the error dictionary check by check; the result is empty iff the reservation is valid. */
  method Clean(r: Reservation, area: CommonArea, property: Property, links: seq<PropertyResident>, today: int) returns (errors: set<CleanField>)
    ensures errors == CleanErrors(r, area, property, links, today)
    ensures errors == {} <==> forall f :: !CleanFails(f, r, area, property, links, today)
  {
    errors := {};
    if r.date < today {
      errors := errors + {DateField};
    }
    if r.startTime >= r.endTime {
      errors := errors + {EndTimeField};
    }
    if r.startTime < area.startTime || r.endTime > area.endTime {
      errors := errors + {StartTimeField};
    }
    var isOwner := property.owner == Some(r.residentId);
    var isResident := IsActiveResidentOf(links, property.id, r.residentId);
    if !(isOwner || isResident) {
      errors := errors + {ResidentField};
    }
    assert DateField in errors <==> DateField in CleanErrors(r, area, property, links, today);
  }

  /** `Reservation.save`: `clean` first; the row is written only when it raised nothing. */
  datatype SaveError = ValidationFailed(fields: set<CleanField>) | IntegrityError

  function Save(r: Reservation, area: CommonArea, property: Property, links: seq<PropertyResident>, today: int): (res: Result<Reservation, SaveError>)
    ensures res.Ok? <==> CleanErrors(r, area, property, links, today) == {}
    ensures res.Ok? ==> res.value == r
    ensures res.Err? ==> res.error == ValidationFailed(CleanErrors(r, area, property, links, today))
  {
    var errs := CleanErrors(r, area, property, links, today);
    if errs == {} then Ok(r) else Err(ValidationFailed(errs))
  }

  /**
   * `duration_hours`, in minutes: end minus start (negative when the end is
   * earlier), and 0 when either time is missing.
   */
  function DurationMinutes(startTime: Option<Minute>, endTime: Option<Minute>): (d: int)
    ensures startTime.None? || endTime.None? ==> d == 0
    ensures startTime.Some? && endTime.Some? ==> startTime.value + d == endTime.value
    ensures d > 0 <==> startTime.Some? && endTime.Some? && startTime.value < endTime.value
    ensures -1440 < d < 1440
  {
    if startTime.Some? && endTime.Some? then endTime.value - startTime.value else 0
  }

  /**
   * `can_be_cancelled`: not when cancelled or completed, not for a past date,
   * not today once the start time has been reached; otherwise yes.
   */
  function CanBeCancelled(r: Reservation, today: int, now: Minute): (ok: bool)
    ensures r.status == Cancelled || r.status == Completed ==> !ok
    ensures r.date < today ==> !ok
    ensures r.date == today && now >= r.startTime ==> !ok
    ensures ok <==> r.status != Cancelled && r.status != Completed && (r.date > today || (r.date == today && now < r.startTime))
  {
    if r.status == Cancelled || r.status == Completed then false
    else if r.date < today then false
    else if r.date == today && now >= r.startTime then false
    else true
  }

  /** One entry of `get_available_time_slots`. */
  datatype Slot = Slot(start: Minute, end: Minute, available: bool, isPast: bool, isOccupied: bool)

  /**
   * The occupancy query: a confirmed reservation of this area on this date
   * whose interval overlaps `[start, end)`, with `end` the slot's end time of
   * day.
   */
  predicate IsOccupied(rs: seq<Reservation>, areaId: nat, date: int, start: int, end: int) {
    exists i :: 0 <= i < |rs| && rs[i].areaId == areaId && rs[i].date == date && rs[i].status == Confirmed
      && Overlaps(rs[i].startTime, rs[i].endTime, start, end)
  }

  /** The end time of day of the one-hour slot starting at `s`: `slot_end.time()` wraps past midnight. */
  function SlotEnd(s: Minute): (e: Minute)
    ensures s < 1380 ==> e == s + 60
    ensures s >= 1380 ==> e == s + 60 - 1440
  {
    (s + 60) % 1440
  }

  function MakeSlot(area: CommonArea, rs: seq<Reservation>, date: int, today: int, now: Minute, s: Minute): Slot {
    var e := SlotEnd(s);
    var occupied := IsOccupied(rs, area.id, date, s, e);
    var past := date == today && s <= now;
    Slot(s, e, !(occupied || past), past, occupied)
  }

  /** The slots from `s` on: one hour apart while `s` is before closing, kept when their end is not after closing. */
  function SlotsFrom(area: CommonArea, rs: seq<Reservation>, date: int, today: int, now: Minute, s: int): (r: seq<Slot>)
    requires s >= 0
    ensures forall k :: 0 <= k < |r| ==> s <= r[k].start < area.endTime && r[k].end <= area.endTime
    decreases area.endTime - s
  {
    if s >= area.endTime then []
    else
      (if SlotEnd(s) <= area.endTime then [MakeSlot(area, rs, date, today, now, s)] else [])
      + SlotsFrom(area, rs, date, today, now, s + 60)
  }

  /** The slot list `get_available_time_slots` returns. */
  function Slots(area: CommonArea, rs: seq<Reservation>, date: int, today: int, now: Minute): (r: seq<Slot>)
    ensures date < today ==> r == []
    ensures forall k :: 0 <= k < |r| ==> area.startTime <= r[k].start < area.endTime && r[k].end <= area.endTime
  {
    if date < today then [] else SlotsFrom(area, rs, date, today, now, area.startTime)
  }

  /** One iteration's slot: occupied when a booking overlaps it, past when it starts before now today. */
  method BuildSlot(area: CommonArea, rs: seq<Reservation>, date: int, today: int, now: Minute, current: Minute) returns (slot: Slot)
    ensures slot == MakeSlot(area, rs, date, today, now, current)
  {
    var slotEnd := SlotEnd(current);
    var occupied := IsOccupied(rs, area.id, date, current, slotEnd);
    var past := false;
    if date == today {
      if current <= now {
        past := true;
      }
    }
    slot := Slot(current, slotEnd, !(occupied || past), past, occupied);
  }

  /** `Reservation.get_available_time_slots`: the loop that steps an hour at a time from opening time. */
  method GetAvailableTimeSlots(area: CommonArea, rs: seq<Reservation>, date: int, today: int, now: Minute) returns (slots: seq<Slot>)
    ensures slots == Slots(area, rs, date, today, now)
    ensures date < today ==> slots == []
  {
    if date < today {
      return [];
    }
    slots := [];
    var current: int := area.startTime;
    while current < area.endTime
      invariant area.startTime <= current
      invariant slots + SlotsFrom(area, rs, date, today, now, current) == SlotsFrom(area, rs, date, today, now, area.startTime)
      decreases area.endTime - current
    {
      ghost var tail := SlotsFrom(area, rs, date, today, now, current + 60);
      var slotEnd := SlotEnd(current);
      if slotEnd <= area.endTime {
        var slot := BuildSlot(area, rs, date, today, now, current);
        assert SlotsFrom(area, rs, date, today, now, current) == [slot] + tail;
        assert slots + ([slot] + tail) == (slots + [slot]) + tail;
        slots := slots + [slot];
      } else {
        assert SlotsFrom(area, rs, date, today, now, current) == tail;
      }
      current := current + 60;
    }
  }

  /** Every slot from `s` on starts `60 * k` minutes after `s`, keeps closing time, and carries the flags of `MakeSlot`. */
  lemma {:induction false} SlotsFromShape(area: CommonArea, rs: seq<Reservation>, date: int, today: int, now: Minute, s: int, k: nat)
    requires s >= 0 && k < |SlotsFrom(area, rs, date, today, now, s)|
    ensures SlotsFrom(area, rs, date, today, now, s)[k].start == s + 60 * k
    ensures SlotsFrom(area, rs, date, today, now, s)[k].start < area.endTime
    ensures SlotsFrom(area, rs, date, today, now, s)[k].end <= area.endTime
    ensures SlotsFrom(area, rs, date, today, now, s)[k] == MakeSlot(area, rs, date, today, now, SlotsFrom(area, rs, date, today, now, s)[k].start)
    decreases area.endTime - s
  {
    var sl := SlotsFrom(area, rs, date, today, now, s);
    var rest := SlotsFrom(area, rs, date, today, now, s + 60);
    if SlotEnd(s) <= area.endTime {
      assert sl == [MakeSlot(area, rs, date, today, now, s)] + rest;
      if k > 0 {
        SlotsFromShape(area, rs, date, today, now, s + 60, k - 1);
        assert sl[k] == rest[k - 1];
      }
    } else {
      // a dropped slot is the last start before closing, so nothing is left
      assert false;
    }
  }

  /** Slots start at opening time, one hour apart, so consecutive slots touch and are ordered by start. */
  lemma SlotsStepByOneHour(area: CommonArea, rs: seq<Reservation>, date: int, today: int, now: Minute)
    requires date >= today
    ensures var sl := Slots(area, rs, date, today, now);
      && (forall k :: 0 <= k < |sl| ==> sl[k].start == area.startTime + 60 * k)
      && (forall k :: 0 <= k < |sl| - 1 ==> sl[k].end == sl[k + 1].start)
      && (forall k :: 0 <= k < |sl| ==> sl[k].end <= area.endTime)
  {
    var sl := Slots(area, rs, date, today, now);
    forall k | 0 <= k < |sl|
      ensures sl[k].start == area.startTime + 60 * k && sl[k].end <= area.endTime
    {
      SlotsFromShape(area, rs, date, today, now, area.startTime, k);
    }
    forall k | 0 <= k < |sl| - 1 ensures sl[k].end == sl[k + 1].start {
      SlotsFromShape(area, rs, date, today, now, area.startTime, k);
      SlotsFromShape(area, rs, date, today, now, area.startTime, k + 1);
    }
  }

  /** When closing is not after opening, the loop never runs: no slots at all. */
  lemma NoSlotsWhenClosedBeforeOpening(area: CommonArea, rs: seq<Reservation>, date: int, today: int, now: Minute)
    requires area.endTime <= area.startTime
    ensures Slots(area, rs, date, today, now) == []
  {
  }

  /**
   * Each slot is occupied iff a confirmed reservation of the area on that date
   * overlaps it, past iff the date is today and its start is not after now,
   * and available iff neither.
   */
  lemma SlotFlags(area: CommonArea, rs: seq<Reservation>, date: int, today: int, now: Minute, k: nat)
    requires k < |Slots(area, rs, date, today, now)|
    ensures var sl := Slots(area, rs, date, today, now)[k];
      && (sl.isOccupied <==> exists i :: (
            && 0 <= i < |rs| && rs[i].areaId == area.id && rs[i].date == date
            && rs[i].status == Confirmed && rs[i].startTime < sl.end && rs[i].endTime > sl.start))
      && (sl.isPast <==> date == today && sl.start <= now)
      && (sl.available <==> !sl.isOccupied && !sl.isPast)
  {
    SlotsFromShape(area, rs, date, today, now, area.startTime, k);
  }

  /** Reservations that are not confirmed never occupy a slot. */
  lemma OnlyConfirmedOccupy(rs: seq<Reservation>, areaId: nat, date: int, start: int, end: int)
    requires forall i :: 0 <= i < |rs| ==> rs[i].status != Confirmed
    ensures !IsOccupied(rs, areaId, date, start, end)
  {
  }

  /** The slots depend on neither the active nor the maintenance flag of the area. */
  lemma {:induction false} SlotsIgnoreAvailabilityFlags(area: CommonArea, rs: seq<Reservation>, date: int, today: int, now: Minute, s: int, active: bool, maintenance: bool)
    requires s >= 0
    ensures SlotsFrom(area.(isActive := active, isMaintenance := maintenance), rs, date, today, now, s)
         == SlotsFrom(area, rs, date, today, now, s)
    decreases area.endTime - s
  {
    if s < area.endTime {
      SlotsIgnoreAvailabilityFlags(area, rs, date, today, now, s + 60, active, maintenance);
    }
  }

  /** Without any wrap past midnight, an area open from `o` to `c` has `(c - o) / 60` slots. */
  lemma {:induction false} SlotCountSameDay(area: CommonArea, rs: seq<Reservation>, date: int, today: int, now: Minute, s: int)
    requires 0 <= s && area.endTime <= 1380
    ensures |SlotsFrom(area, rs, date, today, now, s)| == if s >= area.endTime then 0 else (area.endTime - s) / 60
    decreases area.endTime - s
  {
    if s < area.endTime {
      SlotCountSameDay(area, rs, date, today, now, s + 60);
    }
  }

  /**
   * Any slot starting in the last hour of the day, before closing, is kept,
   * even when it runs past closing: its end has wrapped past midnight and so
   * compares as earlier than the closing time.
   */
  lemma LateSlotAlwaysKept(area: CommonArea, rs: seq<Reservation>, date: int, today: int, now: Minute, s: int)
    requires 1380 <= s < area.endTime
    ensures var sl := SlotsFrom(area, rs, date, today, now, s);
      |sl| >= 1 && sl[0] == MakeSlot(area, rs, date, today, now, s) && sl[0].end == s + 60 - 1440 < 60
  {
  }

  /** An area open 22:30 - 23:45 yields two slots, the second 23:30 - 00:30, whose end has wrapped past midnight. */
  lemma WrappedLastSlot(rs: seq<Reservation>, date: int, today: int, now: Minute)
    requires date >= today
    ensures var area := CommonArea(1, "Terraza", Otro, "", 10, 1350, 1425, true, true, false);
      var sl := Slots(area, rs, date, today, now);
      |sl| == 2 && sl[0].start == 1350 && sl[0].end == 1410 && sl[1].start == 1410 && sl[1].end == 30
  {
    var area := CommonArea(1, "Terraza", Otro, "", 10, 1350, 1425, true, true, false);
    assert SlotsFrom(area, rs, date, today, now, 1470) == [];
    assert SlotsFrom(area, rs, date, today, now, 1410) == [MakeSlot(area, rs, date, today, now, 1410)];
  }

  /** The reservation table; the database keeps ids and the `unique_together` key unique. */
  class ReservationBook {
    var reservations: seq<Reservation>
    var nextId: nat

    ghost predicate Valid()
      reads this
    {
      && (forall i :: 0 <= i < |reservations| ==> reservations[i].id < nextId)
      && (forall i, j :: 0 <= i < j < |reservations| ==> reservations[i].id != reservations[j].id)
      && SlotKeysUnique(reservations)
    }

    constructor ()
      ensures Valid() && reservations == [] && nextId == 1
    {
      reservations := [];
      nextId := 1;
    }
  }

  /** `unique_together = ['common_area', 'date', 'start_time', 'end_time']`, whatever the status. */
  ghost predicate SlotKeysUnique(rs: seq<Reservation>) {
    forall i, j :: 0 <= i < j < |rs| ==> SlotKey(rs[i]) != SlotKey(rs[j])
  }

  function SlotKey(r: Reservation): (nat, int, int, int) {
    (r.areaId, r.date, r.startTime, r.endTime)
  }

  /** True when a row with the same (area, date, start, end) exists. */
  predicate HasSlotKey(rs: seq<Reservation>, key: (nat, int, int, int)) {
    exists i :: 0 <= i < |rs| && SlotKey(rs[i]) == key
  }

  /** A reservation whose key is not yet taken can be appended without breaking key uniqueness. */
  lemma AppendFreshKeyKeepsUnique(rs: seq<Reservation>, r: Reservation)
    requires SlotKeysUnique(rs) && !HasSlotKey(rs, SlotKey(r))
    ensures SlotKeysUnique(rs + [r])
  {
    var rs' := rs + [r];
    forall i, j | 0 <= i < j < |rs'| ensures SlotKey(rs'[i]) != SlotKey(rs'[j]) {
      assert rs'[i] == rs[i];
      if j < |rs| {
        assert rs'[j] == rs[j];
      }
    }
  }

  /** No two confirmed reservations of one area and date overlap. */
  ghost predicate NoConfirmedOverlap(rs: seq<Reservation>) {
    forall i, j :: 0 <= i < |rs| && 0 <= j < |rs| && i != j
      && rs[i].status == Confirmed && rs[j].status == Confirmed
      && rs[i].areaId == rs[j].areaId && rs[i].date == rs[j].date
      ==> !Overlaps(rs[i].startTime, rs[i].endTime, rs[j].startTime, rs[j].endTime)
  }
}
