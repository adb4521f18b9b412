/**
 * The reservation views (`apps/reservations/views.py`): cancelling (by DELETE
 * and by the cancel endpoint), the residents of a property, the slot count,
 * the availability check over a range of dates, and the upcoming list.
 */
module ReservationViews {
  import opened Base
  import opened Text
  import opened Query
  import opened CommonAreas
  import opened Users
  import opened Properties
  import opened Reservations

  datatype ViewError =
    | NotFound
    | PermissionDenied
    | NotCancellable
    | ReasonTooLong
    | SaveRejected(fields: set<CleanField>)
    | PropertyMissing
    | AreaMissing

  /** Staff, the creator and the resident may see, change or cancel a booking. */
  predicate CanAccess(r: Reservation, caller: User) {
    caller.isStaff || r.createdBy == caller.id || r.residentId == caller.id
  }

  /** The position of the booking with the given id. */
  function IndexOfId(rs: seq<Reservation>, id: nat): (o: Option<nat>)
    ensures o.Some? ==> o.value < |rs| && rs[o.value].id == id
    ensures o.None? ==> forall i :: 0 <= i < |rs| ==> rs[i].id != id
  {
    if rs == [] then None
    else if rs[0].id == id then Some(0)
    else match IndexOfId(rs[1..], id)
      case None => None
      case Some(k) => Some(k + 1)
  }

  /** Every booking's area and property exist and are stored under their own ids (the foreign keys). */
  ghost predicate References(rs: seq<Reservation>, areas: map<nat, CommonArea>, props: map<nat, Property>) {
    && (forall i :: 0 <= i < |rs| ==> rs[i].areaId in areas && rs[i].propertyId in props)
    && (forall id :: id in props ==> props[id].id == id)
  }

  /** Cancelling changes only the status, so no confirmed overlap can appear. */
  lemma ReplaceKeepsInvariants(rs: seq<Reservation>, i: nat, r: Reservation)
    requires i < |rs| && SlotKey(r) == SlotKey(rs[i]) && r.id == rs[i].id && r.status == Cancelled
    ensures SlotKeysUnique(rs) ==> SlotKeysUnique(rs[i := r])
    ensures NoConfirmedOverlap(rs) ==> NoConfirmedOverlap(rs[i := r])
  {
    var s := rs[i := r];
    assert forall k :: 0 <= k < |s| ==> SlotKey(s[k]) == SlotKey(rs[k]);
  }

  /** The booking after a cancellation that leaves the notes alone. */
  function CancelledOnly(r: Reservation): (c: Reservation)
    ensures c.status == Cancelled && c.(status := r.status) == r
  {
    r.(status := Cancelled)
  }

  /**
   * `ReservationDetailView.destroy`: the booking is looked up and the access
   * check made first, then `can_be_cancelled`; the status becomes cancelled
   * and `save` runs `clean` again, whose failure leaves the booking as it was.
   * The notes are not touched.
   */
  method Destroy(book: ReservationBook, id: nat, caller: User, areas: map<nat, CommonArea>, props: map<nat, Property>,
                 links: seq<PropertyResident>, today: int, now: Minute)
    returns (r: Result<Reservation, ViewError>)
    requires book.Valid() && References(book.reservations, areas, props)
    modifies book
    ensures book.Valid() && book.nextId == old(book.nextId)
    ensures old(NoConfirmedOverlap(book.reservations)) ==> NoConfirmedOverlap(book.reservations)
    ensures IndexOfId(old(book.reservations), id).None? ==> r == Err(NotFound)
    ensures IndexOfId(old(book.reservations), id).Some? ==>
      var i := IndexOfId(old(book.reservations), id).value;
      var b := old(book.reservations)[i];
      && (!CanAccess(b, caller) ==> r == Err(PermissionDenied))
      && (CanAccess(b, caller) && !CanBeCancelled(b, today, now) ==> r == Err(NotCancellable))
      && (r.Ok? <==> CanAccess(b, caller) && CanBeCancelled(b, today, now)
                     && CleanErrors(CancelledOnly(b), areas[b.areaId], props[b.propertyId], links, today) == {})
      && (r.Ok? ==> r.value == CancelledOnly(b) && book.reservations == old(book.reservations)[i := r.value])
    ensures r.Err? ==> book.reservations == old(book.reservations)
  {
    var found := IndexOfId(book.reservations, id);
    if found.None? {
      return Err(NotFound);
    }
    var i := found.value;
    var b := book.reservations[i];
    if !CanAccess(b, caller) {
      return Err(PermissionDenied);
    }
    if !CanBeCancelled(b, today, now) {
      return Err(NotCancellable);
    }
    var c := CancelledOnly(b);
    var errors := Clean(c, areas[b.areaId], props[b.propertyId], links, today);
    if errors != {} {
      return Err(SaveRejected(errors));
    }
    ReplaceKeepsInvariants(book.reservations, i, c);
    book.reservations := book.reservations[i := c];
    r := Ok(c);
  }

  const NoReason := "Sin motivo especificado"

  /** The reason after field parsing: surrounding whitespace trimmed, at most 200 characters. */
  function ParseReason(reason: Option<string>): (r: Result<Option<string>, ViewError>)
    ensures reason.None? ==> r == Ok(None)
    ensures reason.Some? ==> (r.Ok? <==> |Strip(reason.value)| <= 200)
    ensures reason.Some? && r.Ok? ==> r.value == Some(Strip(reason.value))
    ensures r.Err? ==> r.error == ReasonTooLong
  {
    match reason
    case None => Ok(None)
    case Some(s) => if |Strip(s)| > 200 then Err(ReasonTooLong) else Ok(Some(Strip(s)))
  }

  /** The notes after a cancellation: the old notes, a new line, and the reason or the default text. */
  function CancelNotes(notes: string, reason: Option<string>): (n: string)
    ensures |n| >= |notes| && n[..|notes|] == notes
    ensures n[|notes|..] == "\nCancelada: " + reason.GetOr(NoReason)
  {
    notes + "\nCancelada: " + reason.GetOr(NoReason)
  }

  /** The booking the cancel endpoint saves: status cancelled and the note appended; nothing else differs. */
  function CancelledWithReason(r: Reservation, reason: Option<string>): (c: Reservation)
    ensures c.status == Cancelled && c.notes == CancelNotes(r.notes, reason)
    ensures c.(status := r.status, notes := r.notes) == r
  {
    r.(status := Cancelled, notes := CancelNotes(r.notes, reason))
  }

  /**
   * `cancel_reservation_view`: not found, then the access check, then
   * `can_be_cancelled`, then the reason's validation; the booking is saved as
   * `CancelledWithReason`, through `clean`.
   */
  method CancelReservation(book: ReservationBook, id: nat, caller: User, reason: Option<string>,
                           areas: map<nat, CommonArea>, props: map<nat, Property>, links: seq<PropertyResident>, today: int, now: Minute)
    returns (r: Result<Reservation, ViewError>)
    requires book.Valid() && References(book.reservations, areas, props)
    modifies book
    ensures book.Valid() && book.nextId == old(book.nextId)
    ensures old(NoConfirmedOverlap(book.reservations)) ==> NoConfirmedOverlap(book.reservations)
    ensures IndexOfId(old(book.reservations), id).None? ==> r == Err(NotFound)
    ensures IndexOfId(old(book.reservations), id).Some? ==>
      var i := IndexOfId(old(book.reservations), id).value;
      var b := old(book.reservations)[i];
      && (!CanAccess(b, caller) ==> r == Err(PermissionDenied))
      && (CanAccess(b, caller) && !CanBeCancelled(b, today, now) ==> r == Err(NotCancellable))
      && (CanAccess(b, caller) && CanBeCancelled(b, today, now) && ParseReason(reason).Err? ==> r == Err(ReasonTooLong))
      && (r.Ok? <==> CanAccess(b, caller) && CanBeCancelled(b, today, now) && ParseReason(reason).Ok?
                     && CleanErrors(CancelledWithReason(b, ParseReason(reason).value), areas[b.areaId], props[b.propertyId], links, today) == {})
      && (r.Ok? ==> r.value == CancelledWithReason(b, ParseReason(reason).value) && book.reservations == old(book.reservations)[i := r.value])
    ensures r.Err? ==> book.reservations == old(book.reservations)
  {
    var found := IndexOfId(book.reservations, id);
    if found.None? {
      return Err(NotFound);
    }
    var i := found.value;
    var b := book.reservations[i];
    if !CanAccess(b, caller) {
      return Err(PermissionDenied);
    }
    if !CanBeCancelled(b, today, now) {
      return Err(NotCancellable);
    }
    var parsed := ParseReason(reason);
    if parsed.Err? {
      return Err(ReasonTooLong);
    }
    var c := CancelledWithReason(b, parsed.value);
    var errors := Clean(c, areas[b.areaId], props[b.propertyId], links, today);
    if errors != {} {
      return Err(SaveRejected(errors));
    }
    ReplaceKeepsInvariants(book.reservations, i, c);
    book.reservations := book.reservations[i := c];
    r := Ok(c);
  }

  /** A caller who is neither staff, creator nor resident is refused whatever the booking's state. */
  lemma StrangerRefusedFirst(b: Reservation, caller: User)
    requires !caller.isStaff && b.createdBy != caller.id && b.residentId != caller.id
    ensures !CanAccess(b, caller)
  {
  }

  /** The ids of the residents with an active link to the property, in link order. */
  function ActiveResidentIdsOf(links: seq<PropertyResident>, propertyId: nat): (ids: seq<nat>)
    ensures forall x :: x in ids <==> IsActiveResidentOf(links, propertyId, x)
  {
    if links == [] then []
    else
      var rest := ActiveResidentIdsOf(links[1..], propertyId);
      assert forall x :: IsActiveResidentOf(links, propertyId, x) <==>
        (links[0].propertyId == propertyId && links[0].residentId == x && links[0].isActive) || IsActiveResidentOf(links[1..], propertyId, x) by {
        forall x ensures IsActiveResidentOf(links, propertyId, x) <==>
          (links[0].propertyId == propertyId && links[0].residentId == x && links[0].isActive) || IsActiveResidentOf(links[1..], propertyId, x)
        {
          if IsActiveResidentOf(links, propertyId, x) {
            var i :| 0 <= i < |links| && links[i].propertyId == propertyId && links[i].residentId == x && links[i].isActive;
            if i > 0 {
              assert links[1..][i - 1] == links[i];
            }
          }
          if IsActiveResidentOf(links[1..], propertyId, x) {
            var i :| 0 <= i < |links[1..]| && links[1..][i].propertyId == propertyId && links[1..][i].residentId == x && links[1..][i].isActive;
            assert links[i + 1] == links[1..][i];
          }
        }
      }
      if links[0].propertyId == propertyId && links[0].isActive then [links[0].residentId] + rest else rest
  }

  predicate NoDuplicates(s: seq<nat>) {
    forall i, j :: 0 <= i < j < |s| ==> s[i] != s[j]
  }

  /** Append each of `xs` to `acc` unless it is already there (`if r not in residents: residents.append(r)`). */
  function AppendNew(acc: seq<nat>, xs: seq<nat>): (r: seq<nat>)
    ensures |acc| <= |r| && r[..|acc|] == acc
    ensures forall x :: x in r <==> x in acc || x in xs
    ensures NoDuplicates(acc) ==> NoDuplicates(r)
    decreases |xs|
  {
    if xs == [] then acc
    else AppendNew(if xs[0] in acc then acc else acc + [xs[0]], xs[1..])
  }

  /** The owner first when there is one, then the active residents not already listed. */
  function ResidentIdsOf(p: Property, links: seq<PropertyResident>): (ids: seq<nat>)
    ensures p.owner.Some? ==> |ids| > 0 && ids[0] == p.owner.value
    ensures forall x :: x in ids <==> p.owner == Some(x) || x in ActiveResidentIdsOf(links, p.id)
  {
    AppendNew(if p.owner.Some? then [p.owner.value] else [], ActiveResidentIdsOf(links, p.id))
  }

  /** The residents of a property are listed once each, owner first, and are exactly the owner and the active residents. */
  lemma ResidentIdsOfShape(p: Property, links: seq<PropertyResident>)
    ensures NoDuplicates(ResidentIdsOf(p, links))
    ensures p.owner.Some? ==> |ResidentIdsOf(p, links)| > 0 && ResidentIdsOf(p, links)[0] == p.owner.value
    ensures forall x :: x in ResidentIdsOf(p, links) <==> p.owner == Some(x) || IsActiveResidentOf(links, p.id, x)
  {
    var init := if p.owner.Some? then [p.owner.value] else [];
    assert NoDuplicates(init);
    var r := ResidentIdsOf(p, links);
    if p.owner.Some? {
      assert r[..1] == init;
    }
  }

  /** One entry of the resident list of `residents_by_property_view`. */
  datatype ResidentEntry = ResidentEntry(id: nat, displayName: string, isOwner: bool)

  /** The entries for the listed ids whose user is of type resident, in the order of the ids. */
  function EntriesFor(ids: seq<nat>, users: map<nat, User>, owner: Option<nat>): (es: seq<ResidentEntry>)
    requires forall x :: x in ids ==> x in users
    ensures |es| <= |ids|
    ensures forall k :: 0 <= k < |es| ==> es[k].id in ids && IsResidentUser(users[es[k].id])
  {
    if ids == [] then []
    else
      var front := ids[..|ids| - 1];
      var last := ids[|ids| - 1];
      assert ids == front + [last];
      var prev := EntriesFor(front, users, owner);
      if IsResidentUser(users[last]) then prev + [ResidentEntry(last, DisplayName(users[last]), owner == Some(last))] else prev
  }

  /**
   * The entries are exactly the listed users of type resident, each marked
   * as owner exactly when it is the owner.
   */
  lemma {:induction false} EntriesForShape(ids: seq<nat>, users: map<nat, User>, owner: Option<nat>)
    requires forall x :: x in ids ==> x in users
    ensures var es := EntriesFor(ids, users, owner);
      && |es| <= |ids|
      && (forall e :: e in es ==> e.id in ids && IsResidentUser(users[e.id]) && (e.isOwner <==> owner == Some(e.id)))
      && (forall x :: x in ids && IsResidentUser(users[x]) ==> exists e :: e in es && e.id == x)
  {
    if ids != [] {
      var front := ids[..|ids| - 1];
      var last := ids[|ids| - 1];
      assert ids == front + [last];
      EntriesForShape(front, users, owner);
      var prev := EntriesFor(front, users, owner);
      var es := EntriesFor(ids, users, owner);
      forall x | x in ids && IsResidentUser(users[x]) ensures exists e :: e in es && e.id == x {
        if x == last {
          assert es[|es| - 1] in es && es[|es| - 1].id == x;
        } else {
          assert x in front;
          var e :| e in prev && e.id == x;
          assert e in es;
        }
      }
    }
  }

  predicate DistinctIds(es: seq<ResidentEntry>) {
    forall i, j :: 0 <= i < j < |es| ==> es[i].id != es[j].id
  }

  /** Ids listed once each give entries with distinct ids. */
  lemma {:induction false} EntriesForDistinct(ids: seq<nat>, users: map<nat, User>, owner: Option<nat>)
    requires forall x :: x in ids ==> x in users
    requires NoDuplicates(ids)
    ensures DistinctIds(EntriesFor(ids, users, owner))
  {
    if ids != [] {
      var front := ids[..|ids| - 1];
      var last := ids[|ids| - 1];
      assert ids == front + [last];
      assert NoDuplicates(front) by {
        forall i, j | 0 <= i < j < |front| ensures front[i] != front[j] {
          assert front[i] == ids[i] && front[j] == ids[j];
        }
      }
      assert last !in front by {
        forall k | 0 <= k < |front| ensures front[k] != last {
          assert front[k] == ids[k];
        }
      }
      EntriesForDistinct(front, users, owner);
      var prev := EntriesFor(front, users, owner);
      var es := EntriesFor(ids, users, owner);
      forall i, j | 0 <= i < j < |es| ensures es[i].id != es[j].id {
        assert es[i] == prev[i] && prev[i].id in front;
        if j < |prev| {
          assert es[j] == prev[j];
        } else {
          assert es == prev + [ResidentEntry(last, DisplayName(users[last]), owner == Some(last))];
        }
      }
    }
  }

  /** The listed residents of a property all exist as users. */
  lemma ResidentIdsAreUsers(p: Property, links: seq<PropertyResident>, users: map<nat, User>)
    requires p.owner.Some? ==> p.owner.value in users
    requires forall i :: 0 <= i < |links| ==> links[i].residentId in users
    ensures forall x :: x in ResidentIdsOf(p, links) ==> x in users
  {
    ResidentIdsOfShape(p, links);
    forall x | x in ResidentIdsOf(p, links) ensures x in users {
      if p.owner != Some(x) {
        var k :| 0 <= k < |links| && links[k].propertyId == p.id && links[k].residentId == x && links[k].isActive;
      }
    }
  }

  /** The first loop of `residents_by_property_view`: owner first, then each active resident not yet listed. */
  method CollectResidentIds(p: Property, links: seq<PropertyResident>) returns (residents: seq<nat>)
    ensures residents == ResidentIdsOf(p, links)
  {
    residents := if p.owner.Some? then [p.owner.value] else [];
    var linked := ActiveResidentIdsOf(links, p.id);
    var i := 0;
    while i < |linked|
      invariant 0 <= i <= |linked|
      invariant AppendNew(residents, linked[i..]) == ResidentIdsOf(p, links)
    {
      assert linked[i..][1..] == linked[i + 1..];
      if linked[i] !in residents {
        residents := residents + [linked[i]];
      }
      i := i + 1;
    }
  }

  /** The second loop: one entry per listed user of type resident. */
  method CollectEntries(residents: seq<nat>, users: map<nat, User>, owner: Option<nat>) returns (entries: seq<ResidentEntry>)
    requires forall x :: x in residents ==> x in users
    ensures entries == EntriesFor(residents, users, owner)
  {
    entries := [];
    var j := 0;
    while j < |residents|
      invariant 0 <= j <= |residents|
      invariant entries == EntriesFor(residents[..j], users, owner)
    {
      assert residents[..j + 1][..j] == residents[..j];
      var u := users[residents[j]];
      if IsResidentUser(u) {
        entries := entries + [ResidentEntry(residents[j], DisplayName(u), owner == Some(residents[j]))];
      }
      j := j + 1;
    }
    assert residents[..j] == residents;
  }

  /**
   * `residents_by_property_view`: an unknown property is rejected; otherwise
   * the ids are collected and the users of type resident among them listed.
   */
  method ResidentsByProperty(reg: Registry, propertyId: int) returns (r: Result<seq<ResidentEntry>, ViewError>)
    requires reg.Valid()
    ensures r.Err? <==> !(propertyId >= 0 && propertyId as nat in reg.properties)
    ensures r.Err? ==> r.error == PropertyMissing
    ensures r.Ok? ==>
      var p := reg.properties[propertyId as nat];
      r.value == EntriesFor(ResidentIdsOf(p, reg.links), reg.users, p.owner)
    ensures r.Ok? ==> DistinctIds(r.value)
  {
    if propertyId < 0 || propertyId as nat !in reg.properties {
      return Err(PropertyMissing);
    }
    var p := reg.properties[propertyId as nat];
    var residents := CollectResidentIds(p, reg.links);
    ResidentIdsAreUsers(p, reg.links, reg.users);
    var entries := CollectEntries(residents, reg.users, p.owner);
    ResidentIdsOfShape(p, reg.links);
    EntriesForDistinct(residents, reg.users, p.owner);
    r := Ok(entries);
  }

  function IsAvailableSlot(s: Slot): bool { s.available }

  /** `available_count`: the number of slots marked available. */
  function AvailableCount(slots: seq<Slot>): (n: nat)
    ensures n <= |slots|
    ensures n == 0 <==> forall i :: 0 <= i < |slots| ==> !slots[i].available
  {
    Count(slots, IsAvailableSlot)
  }

  /** One entry of `check_availability_view` (the percentage is not modelled). */
  datatype DayAvailability = DayAvailability(date: int, availableSlots: nat, totalSlots: nat, isFullyBooked: bool)

  function DayFor(area: CommonArea, rs: seq<Reservation>, date: int, today: int, now: Minute): (d: DayAvailability)
    ensures d.date == date && d.availableSlots <= d.totalSlots && (d.isFullyBooked <==> d.availableSlots == 0)
  {
    var sl := Slots(area, rs, date, today, now);
    DayAvailability(date, AvailableCount(sl), |sl|, AvailableCount(sl) == 0)
  }

  /**
   * A day's entry counts that day's slots: the total is the number of slots
   * `get_available_time_slots` returns, the available count the number of
   * those marked available, and the day is fully booked exactly when none is.
   */
  lemma DayForCounts(area: CommonArea, rs: seq<Reservation>, date: int, today: int, now: Minute)
    ensures DayFor(area, rs, date, today, now).totalSlots == |Slots(area, rs, date, today, now)|
    ensures DayFor(area, rs, date, today, now).availableSlots == |Filter(Slots(area, rs, date, today, now), IsAvailableSlot)|
    ensures DayFor(area, rs, date, today, now).isFullyBooked <==>
              forall i :: 0 <= i < |Slots(area, rs, date, today, now)| ==> !Slots(area, rs, date, today, now)[i].available
  {
    CountIsFilterLength(Slots(area, rs, date, today, now), IsAvailableSlot);
  }

  /** The entries from date `d` to `last`, skipping dates before today. */
  function AvailabilityFrom(area: CommonArea, rs: seq<Reservation>, d: int, last: int, today: int, now: Minute): seq<DayAvailability>
    decreases last - d + 1
  {
    if d > last then []
    else (if d >= today then [DayFor(area, rs, d, today, now)] else []) + AvailabilityFrom(area, rs, d + 1, last, today, now)
  }

  /** One iteration of the date loop: the day's slots and their counts. */
  method BuildDay(area: CommonArea, rs: seq<Reservation>, date: int, today: int, now: Minute) returns (day: DayAvailability)
    ensures day == DayFor(area, rs, date, today, now)
  {
    var slots := GetAvailableTimeSlots(area, rs, date, today, now);
    var available := AvailableCount(slots);
    day := DayAvailability(date, available, |slots|, available == 0);
  }

  /**
   * `check_availability_view`: an unknown area is rejected; otherwise one
   * entry per date from the first to the last, both included, skipping dates
   * before today.
   */
  method CheckAvailability(areas: map<nat, CommonArea>, areaId: int, startDate: int, endDate: int, rs: seq<Reservation>, today: int, now: Minute)
    returns (r: Result<seq<DayAvailability>, ViewError>)
    ensures r.Err? <==> !(areaId >= 0 && areaId as nat in areas)
    ensures r.Err? ==> r.error == AreaMissing
    ensures r.Ok? ==> r.value == AvailabilityFrom(areas[areaId as nat], rs, startDate, endDate, today, now)
  {
    if areaId < 0 || areaId as nat !in areas {
      return Err(AreaMissing);
    }
    var area := areas[areaId as nat];
    var availability: seq<DayAvailability> := [];
    var current := startDate;
    while current <= endDate
      invariant current <= endDate + 1 || current == startDate
      invariant availability + AvailabilityFrom(area, rs, current, endDate, today, now)
             == AvailabilityFrom(area, rs, startDate, endDate, today, now)
      decreases endDate - current + 1
    {
      ghost var tail := AvailabilityFrom(area, rs, current + 1, endDate, today, now);
      if current >= today {
        var day := BuildDay(area, rs, current, today, now);
        assert AvailabilityFrom(area, rs, current, endDate, today, now) == [day] + tail;
        assert availability + ([day] + tail) == (availability + [day]) + tail;
        availability := availability + [day];
      } else {
        assert AvailabilityFrom(area, rs, current, endDate, today, now) == tail;
      }
      current := current + 1;
    }
    r := Ok(availability);
  }

  /**
   * The availability entries cover the dates from `max(d, today)` to `last`,
   * one each, in ascending order, each the day's entry `DayFor` of its date
   * (the day's slot count and available count), with no more available than
   * total slots and fully booked exactly when none is available.
   */
  lemma AvailabilityShape(area: CommonArea, rs: seq<Reservation>, d: int, last: int, today: int, now: Minute)
    ensures var av := AvailabilityFrom(area, rs, d, last, today, now);
      var first := if d >= today then d else today;
      && |av| == (if last < first then 0 else last - first + 1)
      && (forall k :: 0 <= k < |av| ==> av[k].date == first + k)
      && (forall k :: 0 <= k < |av| ==> av[k] == DayFor(area, rs, first + k, today, now))
      && (forall k :: 0 <= k < |av| ==> av[k].availableSlots <= av[k].totalSlots && (av[k].isFullyBooked <==> av[k].availableSlots == 0))
  {
    AvailabilityDates(area, rs, d, last, today, now);
    AvailabilityCounts(area, rs, d, last, today, now);
  }

  /** One entry per date from `first` to `last`, ascending. */
  predicate DatesFrom(av: seq<DayAvailability>, first: int, last: int) {
    && |av| == (if last < first then 0 else last - first + 1)
    && (forall k :: 0 <= k < |av| ==> av[k].date == first + k)
  }

  /** Every entry is the day's entry `DayFor` of its own date, hence consistent. */
  predicate CountsConsistent(av: seq<DayAvailability>, area: CommonArea, rs: seq<Reservation>, today: int, now: Minute) {
    forall k :: 0 <= k < |av| ==>
      && av[k] == DayFor(area, rs, av[k].date, today, now)
      && av[k].availableSlots <= av[k].totalSlots && (av[k].isFullyBooked <==> av[k].availableSlots == 0)
  }


  /** The availability entries are one per date from `max(d, today)` to `last`, ascending. */
  lemma {:induction false} AvailabilityDates(area: CommonArea, rs: seq<Reservation>, d: int, last: int, today: int, now: Minute)
    ensures DatesFrom(AvailabilityFrom(area, rs, d, last, today, now), if d >= today then d else today, last)
    decreases last - d + 1
  {
    if d <= last {
      AvailabilityDates(area, rs, d + 1, last, today, now);
      var av := AvailabilityFrom(area, rs, d, last, today, now);
      var rest := AvailabilityFrom(area, rs, d + 1, last, today, now);
      if d >= today {
        var day := DayFor(area, rs, d, today, now);
        assert av == [day] + rest;
        assert DatesFrom(rest, d + 1, last);
        forall k | 0 <= k < |av| ensures av[k].date == d + k {
          if k > 0 {
            assert av[k] == rest[k - 1];
          }
        }
      } else {
        assert av == rest;
      }
    }
  }

  /**
   * Every availability entry is the day's entry of its date, so its totals are
   * that day's slot count and available count; it has no more available than
   * total slots and is fully booked exactly when none is available.
   */
  lemma {:induction false} AvailabilityCounts(area: CommonArea, rs: seq<Reservation>, d: int, last: int, today: int, now: Minute)
    ensures CountsConsistent(AvailabilityFrom(area, rs, d, last, today, now), area, rs, today, now)
    decreases last - d + 1
  {
    if d <= last {
      AvailabilityCounts(area, rs, d + 1, last, today, now);
      var av := AvailabilityFrom(area, rs, d, last, today, now);
      var rest := AvailabilityFrom(area, rs, d + 1, last, today, now);
      if d >= today {
        var day := DayFor(area, rs, d, today, now);
        assert av == [day] + rest;
        assert av[0] == day;
        forall k | 0 < k < |av| ensures av[k] == rest[k - 1] { }
      } else {
        assert av == rest;
      }
    }
  }


  /** Upcoming bookings: confirmed, from today on. */
  function IsUpcoming(today: int): Reservation -> bool {
    (r: Reservation) => r.status == Confirmed && r.date >= today
  }

  /** The `order_by('date', 'start_time')` key: dates first, then start times within a date. */
  function DateTimeKey(r: Reservation): int {
    r.date * 1440 + r.startTime
  }

  /** The candidates of the upcoming list: `filter(date__gte=today, status='confirmed')`. */
  function Upcoming(rs: seq<Reservation>, today: int): (c: seq<Reservation>)
    ensures forall r :: r in c <==> r in rs && r.status == Confirmed && r.date >= today
  {
    Filter(rs, IsUpcoming(today))
  }

  /** The key orders bookings exactly as the pair (date, start) does. */
  lemma DateTimeKeyIsLexicographic(a: Reservation, b: Reservation)
    ensures DateTimeKey(a) <= DateTimeKey(b) <==> a.date < b.date || (a.date == b.date && a.startTime <= b.startTime)
  {
    if a.date < b.date {
      assert a.date * 1440 + 1440 <= b.date * 1440;
    } else if a.date > b.date {
      assert b.date * 1440 + 1440 <= a.date * 1440;
    }
  }

  /**
   * `upcoming_reservations_view`: the confirmed bookings from today on,
   * ordered by (date, start), at most 20.
   */
  function UpcomingReservations(rs: seq<Reservation>, today: int): (up: seq<Reservation>)
    ensures |up| <= 20
    ensures forall r :: r in up ==> r in rs && r.status == Confirmed && r.date >= today
    ensures SortedBy(up, DateTimeKey)
    ensures |Upcoming(rs, today)| <= 20 ==> multiset(up) == multiset(Upcoming(rs, today))
    ensures |up| == if |Upcoming(rs, today)| < 20 then |Upcoming(rs, today)| else 20
    ensures multiset(up) <= multiset(Upcoming(rs, today))
    // the bookings cut off by the slice come no earlier than any booking kept
    ensures forall x :: x in multiset(Upcoming(rs, today)) - multiset(up) ==>
              forall i :: 0 <= i < |up| ==> DateTimeKey(up[i]) <= DateTimeKey(x)
  {
    var up := FirstByKey(Upcoming(rs, today), DateTimeKey, 20);
    forall r | r in up ensures r in Upcoming(rs, today) {
      assert r in multiset(up);
    }
    up
  }


}
